/** From a visibility query to its tokens and back (pkg/tasks/engine.go). */
module Lexer {
  import opened Basics
  import opened Visibility

  // -------------------------------------------------------------- characters

  predicate IsBlank(c: char) { c == ' ' || c == '\t' || c == '\n' }

  predicate IsDigit(c: char) { '0' <= c <= '9' }

  predicate IsLetter(c: char) { 'A' <= c <= 'Z' || 'a' <= c <= 'z' || c == '_' }

  predicate IsQuote(c: char) { c == '\'' || c == '"' }

  predicate IsNumberStart(c: char) { IsDigit(c) || c == '-' || c == '+' }

  /** What an inner scan runs over. */
  datatype Stretch = Word | Number | Upto(quote: char)

  predicate Continues(k: Stretch, c: char)
  {
    match k
    case Word => IsLetter(c) || IsDigit(c)
    case Number => IsDigit(c) || c == '.'
    case Upto(q) => c != q
  }

  function Span(k: Stretch, s: string): (n: nat)
    ensures n <= |s| && (forall i :: 0 <= i < n ==> Continues(k, s[i]))
    ensures n < |s| ==> !Continues(k, s[n])
  {
    if s != "" && Continues(k, s[0]) then 1 + Span(k, s[1..]) else 0
  }

  predicate IsKeyword(s: string) { s in ["AND", "OR", "NOT", "IN", "BETWEEN"] }

  predicate IsSymbol(s: string) { s in ["(", ")", ","] || IsOperator(s) }

  // --------------------------------------------------------------- tokenizer

  /** What stands at the front of the text left. */
  datatype Lead = Bad | Blank | Piece(tok: Tok, len: nat)

  function WordToken(w: string): Tok { if IsKeyword(Upper(w)) then Kw(Upper(w)) else Ident(w) }

  /** An operator that a following '=' makes one longer. */
  function OperatorAt(s: string): (l: Lead)
    requires s != "" && s[0] in "!><"
    ensures l.Piece? ==> 1 <= l.len <= |s|
  {
    if 1 < |s| && s[1] == '=' then Piece(Sym([s[0], '=']), 2)
    else if s[0] == '!' then Bad
    else Piece(Sym([s[0]]), 1)
  }

  function LeadOf(s: string): (l: Lead)
    requires s != ""
    ensures l.Piece? ==> 1 <= l.len <= |s|
  {
    var c := s[0];
    if IsBlank(c) then Blank
    else if c in "(),=" then Piece(Sym([c]), 1)
    else if c in "!><" then OperatorAt(s)
    else if IsQuote(c) then
      var n := Span(Upto(c), s[1..]);
      if 1 + n == |s| then Bad else Piece(Str(s[1..1 + n]), n + 2)
    else if IsNumberStart(c) then
      var n := 1 + Span(Number, s[1..]);
      Piece(Num(s[..n]), n)
    else if IsLetter(c) then
      var n := Span(Word, s);
      Piece(WordToken(s[..n]), n)
    else Bad
  }

  function Tokenize(s: string): Option<seq<Tok>>
    decreases |s|
  {
    if s == "" then Some([])
    else
      match LeadOf(s)
      case Bad => None
      case Blank => Tokenize(s[1..])
      case Piece(t, n) => Prepend([t], Tokenize(s[n..]))
  }

  function Prepend(ts: seq<Tok>, rest: Option<seq<Tok>>): Option<seq<Tok>>
  {
    match rest case None => None case Some(more) => Some(ts + more)
  }

  /** The scan of a string, a number or a word from position i. */
  method Scan(q: string, start: nat, k: Stretch) returns (i: nat)
    requires start <= |q|
    ensures i == start + Span(k, q[start..])
  {
    i := start;
    while i < |q| && Continues(k, q[i])
      invariant start <= i <= |q|
      invariant start + Span(k, q[start..]) == i + Span(k, q[i..])
    {
      assert q[i..][1..] == q[i + 1..];
      i := i + 1;
    }
  }

  /** One round of the tokenizer's loop, at position i. */
  method NextPiece(q: string, i: nat) returns (l: Lead)
    requires i < |q|
    ensures l == LeadOf(q[i..])
  {
    var c := q[i];
    ghost var s := q[i..];
    assert s[1..] == q[i + 1..];
    if IsBlank(c) {
      l := Blank;
    } else if c in "(),=" {
      l := Piece(Sym([c]), 1);
    } else if c in "!><" {
      if i + 1 < |q| && q[i + 1] == '=' {
        l := Piece(Sym([c, '=']), 2);
      } else if c == '!' {
        l := Bad;
      } else {
        l := Piece(Sym([c]), 1);
      }
    } else if IsQuote(c) {
      var end := Scan(q, i + 1, Upto(c));
      if end >= |q| {
        l := Bad;
      } else {
        l := Piece(Str(q[i + 1..end]), end + 1 - i);
        assert q[i + 1..end] == s[1..end - i];
      }
    } else if IsNumberStart(c) {
      var end := Scan(q, i + 1, Number);
      l := Piece(Num(q[i..end]), end - i);
      assert q[i..end] == s[..end - i];
    } else if IsLetter(c) {
      var end := Scan(q, i, Word);
      l := Piece(WordToken(q[i..end]), end - i);
      assert q[i..end] == s[..end - i];
    } else {
      l := Bad;
    }
  }

  method VTokenize(q: string) returns (r: Option<seq<Tok>>)
    ensures r == Tokenize(q)
  {
    var out: seq<Tok>, i := [], 0;
    assert q[0..] == q;
    PrependNothing(Tokenize(q));
    while i < |q|
      invariant i <= |q|
      invariant Tokenize(q) == Prepend(out, Tokenize(q[i..]))
    {
      var l := NextPiece(q, i);
      match l {
        case Bad => return None;
        case Blank =>
          assert q[i..][1..] == q[i + 1..];
          i := i + 1;
        case Piece(t, n) =>
          assert q[i..][n..] == q[i + n..];
          PrependTwice(out, t, Tokenize(q[i + n..]));
          out, i := out + [t], i + n;
      }
    }
    assert q[i..] == "";
    assert out + [] == out;
    r := Some(out);
  }

  lemma PrependNothing(rest: Option<seq<Tok>>)
    ensures Prepend([], rest) == rest
  {
    if rest.Some? { assert [] + rest.value == rest.value; }
  }

  lemma PrependTwice(ts: seq<Tok>, t: Tok, rest: Option<seq<Tok>>)
    ensures Prepend(ts, Prepend([t], rest)) == Prepend(ts + [t], rest)
  {
    if rest.Some? { assert ts + ([t] + rest.value) == ts + [t] + rest.value; }
  }

  // ---------------------------------------------------------------- spelling

  predicate Quotable(v: string) { !('\'' in v && '"' in v) }

  /** The tokens that can be written down, and, as it turns out, exactly those
      the tokenizer produces. */
  predicate Spellable(t: Tok)
  {
    match t
    case Ident(w) => w != "" && IsLetter(w[0]) && (forall i :: 0 <= i < |w| ==> Continues(Word, w[i]))
        && !IsKeyword(Upper(w))
    case Str(v) => Quotable(v)
    case Num(n) => n != "" && IsNumberStart(n[0]) && forall i :: 1 <= i < |n| ==> Continues(Number, n[i])
    case Sym(s) => IsSymbol(s)
    case Kw(k) => IsKeyword(k)
  }

  predicate AllSpellable(ts: seq<Tok>) { forall i :: 0 <= i < |ts| ==> Spellable(ts[i]) }

  function Quote(v: string): char { if '\'' in v then '"' else '\'' }

  function Spell(t: Tok): string
  {
    match t
    case Str(v) => [Quote(v)] + v + [Quote(v)]
    case _ => t.val
  }

  /** Tokens written out with one blank between them. */
  function SpellAll(ts: seq<Tok>): string
  {
    if ts == [] then "" else if |ts| == 1 then Spell(ts[0]) else Spell(ts[0]) + (" " + SpellAll(ts[1..]))
  }

  predicate Breaks(rest: string) { rest == "" || rest[0] == ' ' }

  lemma {:induction false} SpanIs(k: Stretch, w: string, rest: string)
    requires forall i :: 0 <= i < |w| ==> Continues(k, w[i])
    requires rest == "" || !Continues(k, rest[0])
    ensures Span(k, w + rest) == |w|
  {
    if w == "" {
      assert w + rest == rest;
    } else {
      SpanIs(k, w[1..], rest);
      assert (w + rest)[1..] == w[1..] + rest;
    }
  }

  lemma SpelledStr(v: string, rest: string)
    requires Quotable(v)
    ensures LeadOf(Spell(Str(v)) + rest) == Piece(Str(v), |v| + 2)
  {
    var q := Quote(v);
    assert q !in v;
    SpanIs(Upto(q), v, [q] + rest);
    assert Spell(Str(v)) + rest == [q] + (v + ([q] + rest));
    QuotedLead(q, v, [q] + rest);
  }

  lemma {:induction false} QuotedLead(q: char, v: string, after: string)
    requires IsQuote(q) && after != "" && Span(Upto(q), v + after) == |v|
    ensures LeadOf([q] + (v + after)) == Piece(Str(v), |v| + 2)
  {
    var s := [q] + (v + after);
    assert s[1..] == v + after;
    assert s[1..1 + |v|] == v;
  }

  lemma SpelledNum(n: string, rest: string)
    requires Spellable(Num(n)) && Breaks(rest)
    ensures LeadOf(n + rest) == Piece(Num(n), |n|)
  {
    var s := n + rest;
    assert s[1..] == n[1..] + rest;
    SpanIs(Number, n[1..], rest);
    assert s[..|n|] == n;
  }

  lemma SpelledWord(w: string, rest: string)
    requires w != "" && IsLetter(w[0]) && (forall i :: 0 <= i < |w| ==> Continues(Word, w[i])) && Breaks(rest)
    ensures LeadOf(w + rest) == Piece(WordToken(w), |w|)
  {
    SpanIs(Word, w, rest);
    assert (w + rest)[..|w|] == w;
  }

  lemma KeywordIsWord(k: string)
    requires IsKeyword(k)
    ensures k != "" && IsLetter(k[0]) && (forall i :: 0 <= i < |k| ==> Continues(Word, k[i])) && Upper(k) == k
  {
  }

  lemma SpelledSym(s: string, rest: string)
    requires IsSymbol(s) && Breaks(rest)
    ensures LeadOf(s + rest) == Piece(Sym(s), |s|)
  {
    if |s| == 1 { assert s == [s[0]]; } else { assert s == [s[0], '=']; }
  }

  /** A spelled token is read back whole. */
  lemma SpelledToken(t: Tok, rest: string)
    requires Spellable(t) && Breaks(rest)
    ensures LeadOf(Spell(t) + rest) == Piece(t, |Spell(t)|)
  {
    match t {
      case Ident(w) => SpelledWord(w, rest);
      case Str(v) => SpelledStr(v, rest);
      case Num(n) => SpelledNum(n, rest);
      case Sym(s) => SpelledSym(s, rest);
      case Kw(k) => KeywordIsWord(k); SpelledWord(k, rest);
    }
  }

  lemma {:induction false} TokenThenRest(t: Tok, rest: string)
    requires Spellable(t) && Breaks(rest)
    ensures Tokenize(Spell(t) + rest) == Prepend([t], Tokenize(rest))
  {
    SpelledToken(t, rest);
    var s := Spell(t) + rest;
    assert s[|Spell(t)|..] == rest;
  }

  /** Every list of spellable tokens is read back from its spelling. */
  lemma {:induction false} SpellingRoundTrip(ts: seq<Tok>)
    requires AllSpellable(ts)
    ensures Tokenize(SpellAll(ts)) == Some(ts)
  {
    if ts == [] {
    } else if |ts| == 1 {
      TokenThenRest(ts[0], "");
      assert Spell(ts[0]) + "" == Spell(ts[0]);
      assert [ts[0]] + [] == ts;
    } else {
      var more := " " + SpellAll(ts[1..]);
      TokenThenRest(ts[0], more);
      assert more[1..] == SpellAll(ts[1..]);
      SpellingRoundTrip(ts[1..]);
      assert [ts[0]] + ts[1..] == ts;
    }
  }

  lemma LeadSpellable(s: string)
    requires s != ""
    ensures LeadOf(s).Piece? ==> Spellable(LeadOf(s).tok)
  {
    var c := s[0];
    if IsQuote(c) {
      var n := Span(Upto(c), s[1..]);
      if 1 + n < |s| {
        var v := s[1..1 + n];
        assert forall i :: 0 <= i < n ==> v[i] == s[1..][i];
      }
    } else if !IsBlank(c) && c !in "(),=" && c !in "!><" && IsNumberStart(c) {
      var n := Span(Number, s[1..]);
      assert forall i :: 1 <= i < n + 1 ==> s[i] == s[1..][i - 1];
    }
  }

  /** Only spellable tokens come out of the tokenizer. */
  lemma {:induction false} TokensSpellable(s: string)
    ensures Tokenize(s).Some? ==> AllSpellable(Tokenize(s).value)
    decreases |s|
  {
    if s != "" {
      LeadSpellable(s);
      match LeadOf(s) {
        case Bad =>
        case Blank => TokensSpellable(s[1..]);
        case Piece(t, n) => TokensSpellable(s[n..]);
      }
    }
  }

  // ----------------------------------------------------------------- queries

  /** Unicode white space, which the query is trimmed of. */
  predicate IsSpace(c: char)
  {
    || '\t' <= c <= '\r' || c == ' ' || c == '\U{85}' || c == '\U{A0}' || c == '\U{1680}'
    || '\U{2000}' <= c <= '\U{200A}' || c == '\U{2028}' || c == '\U{2029}' || c == '\U{202F}' || c == '\U{205F}'
    || c == '\U{3000}'
  }

  function TrimLeft(s: string): string
  {
    if s != "" && IsSpace(s[0]) then TrimLeft(s[1..]) else s
  }

  function TrimRight(s: string): string
  {
    if s != "" && IsSpace(s[|s| - 1]) then TrimRight(s[..|s| - 1]) else s
  }

  function Trim(s: string): string { TrimRight(TrimLeft(s)) }

  datatype Query = Malformed | Everything | Matching(tree: Node)

  function ParseQuery(q: string): Query
  {
    var s := Trim(q);
    if s == "" then Everything
    else
      match Tokenize(s)
      case None => Malformed
      case Some(ts) => match ParseTokens(ts) case None => Malformed case Some(n) => Matching(n)
  }

  /** Trees that can be written as a query. */
  predicate Printable(n: Node)
  {
    match n
    case And(a, b) => Printable(a) && Printable(b)
    case Or(a, b) => Printable(a) && Printable(b)
    case Not(a) => Printable(a)
    case Compare(f, op, v) => Spellable(Ident(f)) && IsOperator(op) && Quotable(v)
    case In(f, _, vs) => Spellable(Ident(f)) && vs != [] && forall i :: 0 <= i < |vs| ==> Quotable(vs[i])
    case Between(f, lo, hi) => Spellable(Ident(f)) && Quotable(lo) && Quotable(hi)
  }

  function PrintQuery(n: Node): string { SpellAll(TokensOf(n)) }

  lemma SpellableConcat(a: seq<Tok>, b: seq<Tok>)
    ensures AllSpellable(a + b) <==> AllSpellable(a) && AllSpellable(b)
  {
    if AllSpellable(a + b) {
      assert forall i :: 0 <= i < |a| ==> a[i] == (a + b)[i];
      assert forall i :: 0 <= i < |b| ==> b[i] == (a + b)[|a| + i];
    }
  }

  lemma {:induction false} CommasSpellable(vs: seq<Tok>)
    requires vs != []
    ensures AllSpellable(Commas(vs)) <==> AllSpellable(vs)
  {
    if |vs| > 1 {
      CommasSpellable(vs[1..]);
      var head := [vs[0], Sym(",")];
      SpellableConcat(head, Commas(vs[1..]));
      assert head[0] == vs[0] && head[1] == Sym(",") && [vs[0]][0] == vs[0];
      SpellableConcat([vs[0]], vs[1..]);
      assert [vs[0]] + vs[1..] == vs;
    }
  }

  lemma CmpSpellable(c: Cmp)
    requires CmpOk(c)
    ensures AllSpellable(CmpYield(c)) <==>
            (match c
             case Operation(f, op, v) => Spellable(Ident(f)) && Spellable(v)
             case Membership(f, neg, vs) => Spellable(Ident(f)) && AllSpellable(vs)
             case Range(f, lo, hi) => Spellable(Ident(f)) && Spellable(lo) && Spellable(hi))
  {
    var ts := CmpYield(c);
    match c {
      case Operation(f, op, v) =>
        assert ts[0] == Ident(f) && ts[1] == Sym(op) && ts[2] == v;
      case Membership(f, neg, vs) =>
        var head := [Ident(f)] + (if neg then [Kw("NOT")] else []) + [Kw("IN"), Sym("(")];
        CommasSpellable(vs);
        SpellableConcat(head, Commas(vs));
        SpellableConcat(head + Commas(vs), [Sym(")")]);
        assert head[0] == Ident(f);
      case Range(f, lo, hi) =>
        assert ts[0] == Ident(f) && ts[1] == Kw("BETWEEN") && ts[2] == lo && ts[3] == Kw("AND") && ts[4] == hi;
    }
  }

  lemma ValueQuotable(t: Tok)
    requires IsValue(t) && Spellable(t)
    ensures Quotable(t.val)
  {
  }

  lemma CmpPrintable(c: Cmp)
    requires CmpOk(c) && AllSpellable(CmpYield(c))
    ensures Printable(CmpTree(c))
  {
    CmpSpellable(c);
    match c {
      case Operation(f, op, v) => ValueQuotable(v);
      case Membership(f, neg, vs) => forall i | 0 <= i < |vs| ensures Quotable(vs[i].val) { ValueQuotable(vs[i]); }
      case Range(f, lo, hi) => ValueQuotable(lo); ValueQuotable(hi);
    }
  }

  lemma {:induction false} AtomPrintable(a: Atom)
    requires AtomOk(a) && AllSpellable(AtomYield(a))
    ensures Printable(AtomTree(a))
    decreases a, 0
  {
    match a {
      case Comparison(c) => CmpPrintable(c);
      case Paren(e) =>
        SpellableConcat([Sym("(")] + OrYield(e), [Sym(")")]);
        SpellableConcat([Sym("(")], OrYield(e));
        OrPrintable(e);
    }
  }

  lemma {:induction false} NotPrintable(n: NotExpr)
    requires NotOk(n) && AllSpellable(NotYield(n))
    ensures Printable(NotTree(n))
    decreases n, 1
  {
    match n {
      case Plain(a) => AtomPrintable(a);
      case Negated(i) => SpellableConcat([Kw("NOT")], NotYield(i)); NotPrintable(i);
    }
  }

  lemma {:induction false} AndPrintable(a: AndExpr)
    requires AndOk(a) && AllSpellable(AndYield(a))
    ensures Printable(AndTree(a))
    decreases a, 2
  {
    match a {
      case AndOne(n) => NotPrintable(n);
      case AndMore(i, n) =>
        SpellableConcat(AndYield(i), [Kw("AND")] + NotYield(n));
        SpellableConcat([Kw("AND")], NotYield(n));
        AndPrintable(i);
        NotPrintable(n);
    }
  }

  lemma {:induction false} OrPrintable(o: OrExpr)
    requires OrOk(o) && AllSpellable(OrYield(o))
    ensures Printable(OrTree(o))
    decreases o, 3
  {
    match o {
      case OrOne(a) => AndPrintable(a);
      case OrMore(i, a) =>
        SpellableConcat(OrYield(i), [Kw("OR")] + AndYield(a));
        SpellableConcat([Kw("OR")], AndYield(a));
        OrPrintable(i);
        AndPrintable(a);
    }
  }

  lemma Between5(a: seq<Tok>, k: Tok, b: seq<Tok>)
    requires AllSpellable(a) && AllSpellable(b) && Spellable(k)
    ensures AllSpellable([Sym("(")] + a + [k] + b + [Sym(")")])
  {
    SpellableConcat([Sym("(")], a);
    SpellableConcat([Sym("(")] + a, [k]);
    SpellableConcat([Sym("(")] + a + [k], b);
    SpellableConcat([Sym("(")] + a + [k] + b, [Sym(")")]);
  }

  lemma {:induction false} PrintedSpellable(n: Node)
    requires Printable(n)
    ensures Expressible(n) && AllSpellable(TokensOf(n)) && TokensOf(n) != []
  {
    match n {
      case And(a, b) => PrintedSpellable(a); PrintedSpellable(b); Between5(TokensOf(a), Kw("AND"), TokensOf(b));
      case Or(a, b) => PrintedSpellable(a); PrintedSpellable(b); Between5(TokensOf(a), Kw("OR"), TokensOf(b));
      case Not(a) => PrintedSpellable(a); SpellableConcat([Kw("NOT")], TokensOf(a));
      case Compare(f, op, v) => CmpSpellable(Operation(f, op, Str(v)));
      case In(f, neg, vs) => CmpSpellable(Membership(f, neg, Quoted(vs)));
      case Between(f, lo, hi) => CmpSpellable(Range(f, Str(lo), Str(hi)));
    }
  }

  lemma SpellEnds(t: Tok)
    requires Spellable(t)
    ensures var s := Spell(t); s != "" && !IsSpace(s[0]) && !IsSpace(s[|s| - 1])
  {
    if t.Kw? { KeywordIsWord(t.val); }
    if t.Ident? || t.Kw? { assert Continues(Word, t.val[|t.val| - 1]); }
    if t.Num? && |t.val| > 1 { assert Continues(Number, t.val[|t.val| - 1]); }
  }

  lemma {:induction false} SpellAllEnds(ts: seq<Tok>)
    requires AllSpellable(ts) && ts != []
    ensures var s := SpellAll(ts); s != "" && !IsSpace(s[0]) && !IsSpace(s[|s| - 1])
  {
    SpellEnds(ts[0]);
    if |ts| > 1 { SpellAllEnds(ts[1..]); }
  }

  /** Tokenizing and parsing the printing of a printable tree gives the tree. */
  lemma {:induction false} QueryRoundTrip(n: Node)
    requires Printable(n)
    ensures ParseQuery(PrintQuery(n)) == Matching(n)
  {
    PrintedSpellable(n);
    SpellAllEnds(TokensOf(n));
    SpellingRoundTrip(TokensOf(n));
    TokensRoundTrip(n);
  }

  /** The printable trees are exactly those some query has. */
  lemma {:induction false} PrintableIsParsed(n: Node)
    ensures Printable(n) <==> exists q :: ParseQuery(q) == Matching(n)
  {
    if Printable(n) { QueryRoundTrip(n); }
    forall q | ParseQuery(q) == Matching(n) ensures Printable(n) {
      TokensSpellable(Trim(q));
      var ts := Tokenize(Trim(q)).value;
      ParserIsGrammar(ts, n);
      var o :| Derives(o, ts, n);
      OrPrintable(o);
    }
  }
}
