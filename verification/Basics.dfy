/** Small shared vocabulary: an optional value, a byte, upper case. */
module Basics {

  datatype Option<+T> = None | Some(value: T)

  type Byte = b: int | 0 <= b < 256

  function UpperChar(c: char): char { if 'a' <= c <= 'z' then c - 32 as char else c }

  function Upper(s: string): string { seq(|s|, i requires 0 <= i < |s| => UpperChar(s[i])) }

  /** p spells q, a word in capitals, in any case. */
  predicate Spells(p: string, q: string)
  {
    |p| == |q| && forall i :: 0 <= i < |p| ==> p[i] == q[i] || ('a' <= p[i] <= 'z' && p[i] as int == q[i] as int + 32)
  }

  predicate Capitals(q: string) { forall i :: 0 <= i < |q| ==> 'A' <= q[i] <= 'Z' || q[i] == '_' }

  lemma UpperSpells(p: string, q: string)
    requires Capitals(q)
    ensures Upper(p) == q <==> Spells(p, q)
  {
    assert |Upper(p)| == |p|;
    if Spells(p, q) {
      forall i | 0 <= i < |p| ensures Upper(p)[i] == q[i] {
        assert p[i] == q[i] || ('a' <= p[i] <= 'z' && p[i] as int == q[i] as int + 32);
        if p[i] != q[i] { assert UpperChar(p[i]) as int == p[i] as int - 32; }
      }
    }
    if Upper(p) == q {
      forall i | 0 <= i < |p| ensures p[i] == q[i] || ('a' <= p[i] <= 'z' && p[i] as int == q[i] as int + 32) {
        assert Upper(p)[i] == q[i];
      }
    }
  }
}
