/** What a visibility query is (pkg/tasks/engine.go), written out: a text made of
    blanks and lexemes, each as long as it can be, whose tokens the grammar
    derives. The tokenizer and the parser accept exactly these. */
module Lexemes {
  import opened Basics
  import opened Visibility
  import opened Lexer

  // ----------------------------------------------------------------- lexemes

  predicate WordChar(c: char) { 'A' <= c <= 'Z' || 'a' <= c <= 'z' || '0' <= c <= '9' || c == '_' }

  /** A letter or underscore, then letters, digits and underscores. */
  predicate IsWord(x: string)
  {
    x != "" && !('0' <= x[0] <= '9') && forall i :: 0 <= i < |x| ==> WordChar(x[i])
  }

  predicate NumberChar(c: char) { '0' <= c <= '9' || c == '.' }

  /** A digit or sign, then digits and points. */
  predicate IsNumber(x: string)
  {
    x != "" && ('0' <= x[0] <= '9' || x[0] in ['+', '-']) && forall i :: 1 <= i < |x| ==> NumberChar(x[i])
  }

  predicate IsKey(k: string) { k in ["AND", "OR", "NOT", "IN", "BETWEEN"] }

  predicate IsKeyIn(x: string) { exists k | k in ["AND", "OR", "NOT", "IN", "BETWEEN"] :: Spells(x, k) }

  /** x is v between two quotes of a kind v is without. */
  predicate IsQuoted(x: string, v: string)
  {
    (x == ['\''] + v + ['\''] && '\'' !in v) || (x == ['"'] + v + ['"'] && '"' !in v)
  }

  /** x is a way to write the token: a keyword in any case, any other word as it
      is, a string in either quotes. */
  predicate Writes(x: string, t: Tok)
  {
    match t
    case Sym(v) => x == v && v in ["(", ")", ",", "=", "!=", ">", "<", ">=", "<="]
    case Str(v) => IsQuoted(x, v)
    case Num(v) => x == v && IsNumber(x)
    case Kw(v) => IsKey(v) && Spells(x, v)
    case Ident(v) => x == v && IsWord(x) && !IsKeyIn(x)
  }

  /** The lexeme does not go on in the text after it. */
  predicate Stops(t: Tok, after: string)
  {
    after != "" ==>
      match t
      case Sym(v) => v in [">", "<"] ==> after[0] != '='
      case Str(_) => true
      case Num(_) => !NumberChar(after[0])
      case Kw(_) => !WordChar(after[0])
      case Ident(_) => !WordChar(after[0])
  }

  /** A text in parts: blanks, and lexemes with their tokens. */
  datatype Part = Gap(c: char) | Lexeme(text: string, tok: Tok)

  function TextOf(ps: seq<Part>): string
  {
    if ps == [] then "" else (if ps[0].Gap? then [ps[0].c] else ps[0].text) + TextOf(ps[1..])
  }

  function TokensIn(ps: seq<Part>): seq<Tok>
  {
    if ps == [] then [] else (if ps[0].Gap? then [] else [ps[0].tok]) + TokensIn(ps[1..])
  }

  predicate PartsOk(ps: seq<Part>)
  {
    ps == []
    || (&& PartsOk(ps[1..])
        && match ps[0]
           case Gap(c) => c in [' ', '\t', '\n']
           case Lexeme(x, t) => Writes(x, t) && Stops(t, TextOf(ps[1..])))
  }

  /** The text, part by part, has these tokens. */
  predicate Reads(ps: seq<Part>, s: string, ts: seq<Tok>) { PartsOk(ps) && TextOf(ps) == s && TokensIn(ps) == ts }

  // ------------------------------------------------- one lexeme, both directions

  lemma KeyOf(x: string)
    ensures IsKeyIn(x) <==> IsKeyword(Upper(x))
    ensures forall k :: IsKey(k) ==> (Spells(x, k) <==> Upper(x) == k)
  {
    forall k | IsKey(k) ensures Spells(x, k) <==> Upper(x) == k {
      assert Capitals(k);
      UpperSpells(x, k);
    }
  }

  lemma SpelledIsWord(x: string, k: string)
    requires IsKey(k) && Spells(x, k)
    ensures IsWord(x)
  {
    assert Capitals(k) && k != "";
    forall i | 0 <= i < |x| ensures WordChar(x[i]) && !('0' <= x[i] <= '9') {
      assert x[i] == k[i] || ('a' <= x[i] <= 'z' && x[i] as int == k[i] as int + 32);
    }
  }

  lemma {:induction false} WordRead(x: string, after: string)
    requires IsWord(x) && (after != "" ==> !WordChar(after[0]))
    ensures LeadOf(x + after) == Piece(WordToken(x), |x|)
  {
    assert forall i :: 0 <= i < |x| ==> Continues(Word, x[i]);
    SpanIs(Word, x, after);
    assert (x + after)[..|x|] == x && WordChar(x[0]);
  }

  lemma {:induction false} NumberRead(x: string, after: string)
    requires IsNumber(x) && (after != "" ==> !NumberChar(after[0]))
    ensures LeadOf(x + after) == Piece(Num(x), |x|)
  {
    var s := x + after;
    assert forall i :: 0 <= i < |x[1..]| ==> Continues(Number, x[1..][i]);
    SpanIs(Number, x[1..], after);
    assert s[1..] == x[1..] + after && s[..|x|] == x;
  }

  lemma {:induction false} StringRead(x: string, v: string, after: string)
    requires IsQuoted(x, v)
    ensures LeadOf(x + after) == Piece(Str(v), |x|)
  {
    var q := x[0];
    SpanIs(Upto(q), v, [q] + after);
    assert x + after == [q] + (v + ([q] + after));
    QuotedLead(q, v, [q] + after);
  }

  lemma SymbolRead(x: string, after: string)
    requires Writes(x, Sym(x)) && Stops(Sym(x), after)
    ensures LeadOf(x + after) == Piece(Sym(x), |x|)
  {
    var s := x + after;
    if |x| == 1 { assert x == [s[0]] && s[1..] == after; } else { assert x == [s[0], '=']; }
  }

  /** A lexeme that stops is what the tokenizer takes off the front. */
  lemma LexemeRead(x: string, t: Tok, after: string)
    requires Writes(x, t) && Stops(t, after)
    ensures LeadOf(x + after) == Piece(t, |x|)
  {
    KeyOf(x);
    match t {
      case Sym(v) => SymbolRead(x, after);
      case Str(v) => StringRead(x, v, after);
      case Num(v) => NumberRead(x, after);
      case Kw(v) => SpelledIsWord(x, v); WordRead(x, after);
      case Ident(v) => WordRead(x, after);
    }
  }

  lemma WordTaken(s: string)
    requires s != "" && IsLetter(s[0]) && !IsBlank(s[0]) && s[0] !in "(),=" && s[0] !in "!><" && !IsQuote(s[0])
             && !IsNumberStart(s[0])
    ensures LeadOf(s).Piece?
    ensures var l := LeadOf(s); Writes(s[..l.len], l.tok) && Stops(l.tok, s[l.len..])
  {
    var n := Span(Word, s);
    var x := s[..n];
    KeyOf(x);
    assert forall i :: 0 <= i < n ==> x[i] == s[i] && Continues(Word, s[i]);
    assert IsWord(x);
    if n < |s| { assert s[n..][0] == s[n]; }
  }

  lemma NumberTaken(s: string)
    requires s != "" && IsNumberStart(s[0]) && !IsBlank(s[0]) && s[0] !in "(),=" && s[0] !in "!><" && !IsQuote(s[0])
    ensures LeadOf(s).Piece?
    ensures var l := LeadOf(s); Writes(s[..l.len], l.tok) && Stops(l.tok, s[l.len..])
  {
    var n := 1 + Span(Number, s[1..]);
    var x := s[..n];
    assert forall i :: 1 <= i < n ==> x[i] == s[1..][i - 1] && Continues(Number, s[1..][i - 1]);
    if n < |s| { assert s[n..][0] == s[n] == s[1..][n - 1]; }
  }

  lemma StringTaken(s: string)
    requires s != "" && IsQuote(s[0]) && LeadOf(s).Piece?
    ensures var l := LeadOf(s); Writes(s[..l.len], l.tok) && Stops(l.tok, s[l.len..])
  {
    var n := Span(Upto(s[0]), s[1..]);
    var v := s[1..1 + n];
    assert s[1 + n] == s[1..][n] == s[0];
    assert s[..n + 2] == [s[0]] + v + [s[0]];
    assert forall i :: 0 <= i < n ==> v[i] == s[1..][i];
  }

  lemma SymbolTaken(s: string)
    requires s != "" && (s[0] in "(),=" || s[0] in "!><") && LeadOf(s).Piece?
    ensures var l := LeadOf(s); Writes(s[..l.len], l.tok) && Stops(l.tok, s[l.len..])
  {
    var l := LeadOf(s);
    if l.len == 1 {
      assert s[..1] == [s[0]];
      if |s| > 1 { assert s[1..][0] == s[1]; }
    } else {
      assert s[..2] == [s[0], '='];
    }
  }

  /** What the tokenizer takes off the front is a lexeme that stops. */
  lemma LeadIsLexeme(s: string)
    requires s != "" && LeadOf(s).Piece?
    ensures var l := LeadOf(s); Writes(s[..l.len], l.tok) && Stops(l.tok, s[l.len..])
  {
    if s[0] in "(),=" || s[0] in "!><" {
      SymbolTaken(s);
    } else if IsQuote(s[0]) {
      StringTaken(s);
    } else if IsNumberStart(s[0]) {
      NumberTaken(s);
    } else {
      WordTaken(s);
    }
  }

  // ------------------------------------------------------------ the whole text

  lemma {:induction false} PartsRead(ps: seq<Part>)
    requires PartsOk(ps)
    ensures Tokenize(TextOf(ps)) == Some(TokensIn(ps))
    decreases |ps|
  {
    if ps != [] {
      PartsRead(ps[1..]);
      var rest := TextOf(ps[1..]);
      match ps[0] {
        case Gap(c) => GapRead(c, rest);
        case Lexeme(x, t) => LexemeRead(x, t, rest); TokenRead(x, t, rest);
      }
    }
  }

  lemma {:induction false} GapRead(c: char, rest: string)
    requires c in [' ', '\t', '\n'] && Tokenize(rest).Some?
    ensures Tokenize([c] + rest) == Some([] + Tokenize(rest).value)
  {
    assert ([c] + rest)[1..] == rest && [] + Tokenize(rest).value == Tokenize(rest).value;
  }

  lemma {:induction false} TokenRead(x: string, t: Tok, rest: string)
    requires x != "" && LeadOf(x + rest) == Piece(t, |x|) && Tokenize(rest).Some?
    ensures Tokenize(x + rest) == Some([t] + Tokenize(rest).value)
  {
    assert (x + rest)[|x|..] == rest;
  }

  lemma {:induction false} GapFirst(c: char, more: seq<Part>, rest: string, ts: seq<Tok>)
    requires Reads(more, rest, ts) && c in [' ', '\t', '\n']
    ensures Reads([Gap(c)] + more, [c] + rest, ts)
  {
    assert ([Gap(c)] + more)[1..] == more && [] + ts == ts;
  }

  lemma {:induction false} LexemeFirst(x: string, t: Tok, more: seq<Part>, rest: string, ts: seq<Tok>)
    requires Reads(more, rest, ts) && Writes(x, t) && Stops(t, rest)
    ensures Reads([Lexeme(x, t)] + more, x + rest, [t] + ts)
  {
    assert ([Lexeme(x, t)] + more)[1..] == more;
  }

  lemma {:induction false} PartsOf(s: string) returns (ps: seq<Part>)
    requires Tokenize(s).Some?
    ensures Reads(ps, s, Tokenize(s).value)
    decreases |s|
  {
    if s == "" { return []; }
    var l := LeadOf(s);
    if l.Blank? {
      var more := PartsOf(s[1..]);
      GapFirst(s[0], more, s[1..], Tokenize(s[1..]).value);
      ps := [Gap(s[0])] + more;
      assert s == [s[0]] + s[1..];
    } else {
      LeadIsLexeme(s);
      var more := PartsOf(s[l.len..]);
      LexemeFirst(s[..l.len], l.tok, more, s[l.len..], Tokenize(s[l.len..]).value);
      ps := [Lexeme(s[..l.len], l.tok)] + more;
      assert s == s[..l.len] + s[l.len..];
    }
  }

  /** The tokenizer gives exactly the tokens a text has, part by part; any two ways
      to take it apart have the same. */
  lemma {:induction false} TokensAreLexemes(s: string, ts: seq<Tok>)
    ensures Tokenize(s) == Some(ts) <==> exists ps :: Reads(ps, s, ts)
  {
    if Tokenize(s) == Some(ts) {
      var ps := PartsOf(s);
      assert Reads(ps, s, ts);
    }
    forall ps | Reads(ps, s, ts) ensures Tokenize(s) == Some(ts) { PartsRead(ps); }
  }

  // --------------------------------------------------------------- whole queries

  /** The code points of Unicode's White_Space. */
  predicate White(c: char)
  {
    var u := c as int;
    9 <= u <= 13 || 0x2000 <= u <= 0x200A || u in {32, 0x85, 0xA0, 0x1680, 0x2028, 0x2029, 0x202F, 0x205F, 0x3000}
  }

  predicate AllWhite(s: string) { forall i :: 0 <= i < |s| ==> White(s[i]) }

  /** s is what stands between the white space at both ends of q. */
  ghost predicate Inside(q: string, s: string) { exists i: nat, j: nat :: Encloses(q, i, j, s) }

  ghost predicate Encloses(q: string, i: nat, j: nat, s: string)
  {
    && i <= j <= |q| && AllWhite(q[..i]) && AllWhite(q[j..]) && q[i..j] == s
    && (s != "" ==> !White(s[0]) && !White(s[|s| - 1]))
  }

  lemma {:induction false} TrimsLeft(q: string) returns (i: nat)
    ensures i <= |q| && AllWhite(q[..i]) && TrimLeft(q) == q[i..] && (i < |q| ==> !White(q[i]))
  {
    if q != "" && IsSpace(q[0]) {
      var n := TrimsLeft(q[1..]);
      i := n + 1;
      assert q[..i] == [q[0]] + q[1..][..n];
    } else {
      i := 0;
    }
  }

  lemma {:induction false} TrimsRight(q: string) returns (j: nat)
    ensures j <= |q| && AllWhite(q[j..]) && TrimRight(q) == q[..j] && (j > 0 ==> !White(q[j - 1]))
  {
    if q != "" && IsSpace(q[|q| - 1]) {
      var m := |q| - 1;
      j := TrimsRight(q[..m]);
      assert q[j..] == q[..m][j..] + [q[m]];
    } else {
      j := |q|;
    }
  }

  lemma TrimInside(q: string)
    ensures Inside(q, Trim(q))
  {
    var i := TrimsLeft(q);
    var s := q[i..];
    var j := TrimsRight(s);
    assert s[..j] == q[i..i + j] && q[i + j..] == s[j..];
    assert Encloses(q, i, i + j, Trim(q));
  }

  lemma WhiteAround(q: string, i: nat, j: nat, s: string, k: nat)
    requires Encloses(q, i, j, s) && k < |q|
    ensures i <= k < j || White(q[k])
  {
    if k < i { assert q[..i][k] == q[k]; }
    if j <= k { assert q[j..][k - j] == q[k]; }
  }

  /** There is one such text. */
  lemma InsideOnce(q: string, s: string, s': string)
    requires Inside(q, s) && Inside(q, s')
    ensures s == s' && (s == "" <==> AllWhite(q))
  {
    var i: nat, j: nat :| Encloses(q, i, j, s);
    var i': nat, j': nat :| Encloses(q, i', j', s');
    if s != "" {
      assert s[0] == q[i] && s[|s| - 1] == q[j - 1];
      WhiteAround(q, i', j', s', i);
      WhiteAround(q, i', j', s', j - 1);
    }
    if s' != "" {
      assert s'[0] == q[i'] && s'[|s'| - 1] == q[j' - 1];
      WhiteAround(q, i, j, s, i');
      WhiteAround(q, i, j, s, j' - 1);
    }
    if s == "" {
      forall k | 0 <= k < |q| ensures White(q[k]) { WhiteAround(q, i, j, s, k); }
    }
  }

  /** What stands inside the query has these parts, and the grammar derives the
      tree from their tokens. */
  ghost predicate Means(q: string, s: string, ps: seq<Part>, o: OrExpr, n: Node)
  {
    s != "" && Inside(q, s) && PartsOk(ps) && TextOf(ps) == s && Derives(o, TokensIn(ps), n)
  }

  /** A query matches everything exactly when it is all white space, and has a tree
      exactly when it means it. */
  lemma QueryLaw(q: string, n: Node)
    ensures ParseQuery(q) == Everything <==> AllWhite(q)
    ensures ParseQuery(q) == Matching(n) <==> exists s, ps, o :: Means(q, s, ps, o, n)
  {
    var s := Trim(q);
    TrimInside(q);
    InsideOnce(q, s, s);
    if ParseQuery(q) == Matching(n) {
      var ps := PartsOf(s);
      ParserIsGrammar(TokensIn(ps), n);
      var o :| Derives(o, TokensIn(ps), n);
      assert Means(q, s, ps, o, n);
    }
    forall s', ps, o | Means(q, s', ps, o, n) ensures ParseQuery(q) == Matching(n) {
      InsideOnce(q, s, s');
      PartsRead(ps);
      ParserIsGrammar(TokensIn(ps), n);
    }
  }
}
