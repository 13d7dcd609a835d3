/** The visibility query language (pkg/tasks/engine.go): its tokens, its
    recursive-descent parser as a function of the tokens left, the documented
    grammar, and the agreement of the two. */
module Visibility {
  import opened Basics

  // ------------------------------------------------------------------- trees

  datatype Node =
    | And(left: Node, right: Node)
    | Or(left: Node, right: Node)
    | Not(inner: Node)
    | Compare(field: string, op: string, value: string)
    | In(field: string, negated: bool, values: seq<string>)
    | Between(field: string, low: string, high: string)

  datatype Tok = Ident(val: string) | Str(val: string) | Num(val: string) | Sym(val: string) | Kw(val: string)

  predicate IsValue(t: Tok) { t.Str? || t.Num? || t.Ident? }

  predicate IsOperator(s: string) { s in ["=", "!=", ">", "<", ">=", "<="] }

  // ------------------------------------------------------------------ parser

  datatype Parse<+T> = Fail | Ok(node: T, rest: seq<Tok>)

  predicate Next(ts: seq<Tok>, t: Tok) { ts != [] && ts[0] == t }

  function ParseValue(ts: seq<Tok>): Parse<string>
  {
    if ts != [] && IsValue(ts[0]) then Ok(ts[0].val, ts[1..]) else Fail
  }

  /** Values separated by commas, up to the closing parenthesis. */
  function ParseValues(ts: seq<Tok>): (r: Parse<seq<string>>)
    ensures r.Ok? ==> |r.rest| < |ts|
  {
    match ParseValue(ts)
    case Fail => Fail
    case Ok(v, rest) =>
      if Next(rest, Sym(",")) then
        (match ParseValues(rest[1..])
         case Fail => Fail
         case Ok(vs, end) => Ok([v] + vs, end))
      else if Next(rest, Sym(")")) then Ok([v], rest[1..])
      else Fail
  }

  function ParseValueList(ts: seq<Tok>): (r: Parse<seq<string>>)
    ensures r.Ok? ==> |r.rest| < |ts|
  {
    if Next(ts, Sym("(")) then ParseValues(ts[1..]) else Fail
  }

  function ParseIn(field: string, negated: bool, ts: seq<Tok>): (r: Parse<Node>)
    ensures r.Ok? ==> |r.rest| < |ts|
  {
    match ParseValueList(ts)
    case Fail => Fail
    case Ok(vs, rest) => Ok(In(field, negated, vs), rest)
  }

  function ParseBetween(field: string, ts: seq<Tok>): (r: Parse<Node>)
    ensures r.Ok? ==> |r.rest| < |ts|
  {
    match ParseValue(ts)
    case Fail => Fail
    case Ok(lo, rest) =>
      if !Next(rest, Kw("AND")) then Fail
      else
        match ParseValue(rest[1..])
        case Fail => Fail
        case Ok(hi, end) => Ok(Between(field, lo, hi), end)
  }

  function ParseComparison(ts: seq<Tok>): (r: Parse<Node>)
    ensures r.Ok? ==> |r.rest| < |ts|
  {
    if |ts| < 2 || !ts[0].Ident? then Fail
    else
      var field, op, rest := ts[0].val, ts[1], ts[2..];
      if op == Kw("IN") then ParseIn(field, false, rest)
      else if op == Kw("NOT") then (if Next(rest, Kw("IN")) then ParseIn(field, true, rest[1..]) else Fail)
      else if op == Kw("BETWEEN") then ParseBetween(field, rest)
      else if op.Sym? && IsOperator(op.val) then
        (match ParseValue(rest)
         case Fail => Fail
         case Ok(v, end) => Ok(Compare(field, op.val, v), end))
      else Fail
  }

  function ParseAtom(ts: seq<Tok>): (r: Parse<Node>)
    ensures r.Ok? ==> |r.rest| < |ts|
    decreases |ts|, 0
  {
    if Next(ts, Sym("(")) then
      match ParseOr(ts[1..])
      case Fail => Fail
      case Ok(n, rest) => if Next(rest, Sym(")")) then Ok(n, rest[1..]) else Fail
    else ParseComparison(ts)
  }

  function ParseNot(ts: seq<Tok>): (r: Parse<Node>)
    ensures r.Ok? ==> |r.rest| < |ts|
    decreases |ts|, 1
  {
    if Next(ts, Kw("NOT")) then
      match ParseNot(ts[1..])
      case Fail => Fail
      case Ok(n, rest) => Ok(Not(n), rest)
    else ParseAtom(ts)
  }

  function ParseAnd(ts: seq<Tok>): (r: Parse<Node>)
    ensures r.Ok? ==> |r.rest| < |ts|
    decreases |ts|, 2
  {
    match ParseNot(ts)
    case Fail => Fail
    case Ok(a, rest) => AndRest(a, rest)
  }

  /** The loop of the AND level, with what it has built so far. */
  function AndRest(a: Node, ts: seq<Tok>): (r: Parse<Node>)
    ensures r.Ok? ==> |r.rest| <= |ts|
    decreases |ts|, 1
  {
    if !Next(ts, Kw("AND")) then Ok(a, ts)
    else
      match ParseNot(ts[1..])
      case Fail => Fail
      case Ok(b, rest) => AndRest(And(a, b), rest)
  }

  function ParseOr(ts: seq<Tok>): (r: Parse<Node>)
    ensures r.Ok? ==> |r.rest| < |ts|
    decreases |ts|, 3
  {
    match ParseAnd(ts)
    case Fail => Fail
    case Ok(a, rest) => OrRest(a, rest)
  }

  function OrRest(a: Node, ts: seq<Tok>): (r: Parse<Node>)
    ensures r.Ok? ==> |r.rest| <= |ts|
    decreases |ts|, 1
  {
    if !Next(ts, Kw("OR")) then Ok(a, ts)
    else
      match ParseAnd(ts[1..])
      case Fail => Fail
      case Ok(b, rest) => OrRest(Or(a, b), rest)
  }

  /** A query is a whole expression with nothing left over. */
  function ParseTokens(ts: seq<Tok>): Option<Node>
  {
    match ParseOr(ts)
    case Fail => None
    case Ok(n, rest) => if rest == [] then Some(n) else None
  }

  // ----------------------------------------------------------------- grammar

  /** Derivations of the documented grammar, one constructor per production. */
  datatype OrExpr = OrOne(first: AndExpr) | OrMore(init: OrExpr, last: AndExpr)
  datatype AndExpr = AndOne(first: NotExpr) | AndMore(init: AndExpr, last: NotExpr)
  datatype NotExpr = Negated(inner: NotExpr) | Plain(atom: Atom)
  datatype Atom = Paren(expr: OrExpr) | Comparison(cmp: Cmp)
  datatype Cmp =
    | Operation(field: string, op: string, value: Tok)
    | Membership(field: string, negated: bool, values: seq<Tok>)
    | Range(field: string, low: Tok, high: Tok)

  /** A value: anything but a symbol or a keyword. */
  predicate Plainly(t: Tok) { !t.Sym? && !t.Kw? }

  predicate CmpOk(c: Cmp)
  {
    match c
    case Operation(_, op, value) => op in {"=", "!=", ">", "<", ">=", "<="} && Plainly(value)
    case Membership(_, _, values) => values != [] && forall i :: 0 <= i < |values| ==> Plainly(values[i])
    case Range(_, low, high) => Plainly(low) && Plainly(high)
  }

  predicate AtomOk(a: Atom) { match a case Paren(e) => OrOk(e) case Comparison(c) => CmpOk(c) }
  predicate NotOk(n: NotExpr) { match n case Negated(i) => NotOk(i) case Plain(a) => AtomOk(a) }
  predicate AndOk(a: AndExpr) { match a case AndOne(n) => NotOk(n) case AndMore(i, n) => AndOk(i) && NotOk(n) }
  predicate OrOk(o: OrExpr) { match o case OrOne(a) => AndOk(a) case OrMore(i, a) => OrOk(i) && AndOk(a) }

  function Commas(vs: seq<Tok>): seq<Tok>
    requires vs != []
  {
    if |vs| == 1 then vs else [vs[0], Sym(",")] + Commas(vs[1..])
  }

  function CmpYield(c: Cmp): seq<Tok>
    requires CmpOk(c)
  {
    match c
    case Operation(f, op, v) => [Ident(f), Sym(op), v]
    case Membership(f, neg, vs) => [Ident(f)] + (if neg then [Kw("NOT")] else []) + [Kw("IN"), Sym("(")] + Commas(vs)
        + [Sym(")")]
    case Range(f, lo, hi) => [Ident(f), Kw("BETWEEN"), lo, Kw("AND"), hi]
  }

  function AtomYield(a: Atom): seq<Tok>
    requires AtomOk(a)
  {
    match a case Paren(e) => [Sym("(")] + OrYield(e) + [Sym(")")] case Comparison(c) => CmpYield(c)
  }

  function NotYield(n: NotExpr): seq<Tok>
    requires NotOk(n)
  {
    match n case Negated(i) => [Kw("NOT")] + NotYield(i) case Plain(a) => AtomYield(a)
  }

  function AndYield(a: AndExpr): seq<Tok>
    requires AndOk(a)
  {
    match a case AndOne(n) => NotYield(n) case AndMore(i, n) => AndYield(i) + ([Kw("AND")] + NotYield(n))
  }

  function OrYield(o: OrExpr): seq<Tok>
    requires OrOk(o)
  {
    match o case OrOne(a) => AndYield(a) case OrMore(i, a) => OrYield(i) + ([Kw("OR")] + AndYield(a))
  }

  function Vals(vs: seq<Tok>): seq<string> { seq(|vs|, i requires 0 <= i < |vs| => vs[i].val) }

  function CmpTree(c: Cmp): Node
  {
    match c
    case Operation(f, op, v) => Compare(f, op, v.val)
    case Membership(f, neg, vs) => In(f, neg, Vals(vs))
    case Range(f, lo, hi) => Between(f, lo.val, hi.val)
  }

  function AtomTree(a: Atom): Node { match a case Paren(e) => OrTree(e) case Comparison(c) => CmpTree(c) }
  function NotTree(n: NotExpr): Node { match n case Negated(i) => Not(NotTree(i)) case Plain(a) => AtomTree(a) }
  function AndTree(a: AndExpr): Node
  {
    match a
    case AndOne(n) => NotTree(n)
    case AndMore(i, n) => And(AndTree(i), NotTree(n))
  }

  function OrTree(o: OrExpr): Node
  {
    match o
    case OrOne(a) => AndTree(a)
    case OrMore(i, a) => Or(OrTree(i), AndTree(a))
  }

  // ------------------------------------------- every derivation is accepted

  lemma {:induction false} ValuesComplete(vs: seq<Tok>, rest: seq<Tok>)
    requires vs != [] && forall i :: 0 <= i < |vs| ==> Plainly(vs[i])
    ensures ParseValues(Commas(vs) + [Sym(")")] + rest) == Ok(Vals(vs), rest)
  {
    var ts := Commas(vs) + [Sym(")")] + rest;
    if |vs| == 1 {
      assert ts[1..] == [Sym(")")] + rest && ts[1..][1..] == rest;
      assert Vals(vs) == [vs[0].val];
    } else {
      ValuesComplete(vs[1..], rest);
      assert ts[1..] == [Sym(",")] + (Commas(vs[1..]) + [Sym(")")] + rest);
      assert ts[1..][1..] == Commas(vs[1..]) + [Sym(")")] + rest;
      assert Vals(vs) == [vs[0].val] + Vals(vs[1..]);
    }
  }

  lemma {:induction false} InComplete(f: string, neg: bool, vs: seq<Tok>, rest: seq<Tok>)
    requires CmpOk(Membership(f, neg, vs))
    ensures ParseIn(f, neg, [Sym("(")] + (Commas(vs) + [Sym(")")] + rest)) == Ok(In(f, neg, Vals(vs)), rest)
  {
    ValuesComplete(vs, rest);
    var tail := Commas(vs) + [Sym(")")] + rest;
    assert ([Sym("(")] + tail)[1..] == tail;
  }

  lemma ComparesIn(f: string, list: seq<Tok>)
    ensures ParseComparison([Ident(f), Kw("IN")] + list) == ParseIn(f, false, list)
    ensures ParseComparison([Ident(f), Kw("NOT"), Kw("IN")] + list) == ParseIn(f, true, list)
  {
    assert ([Ident(f), Kw("IN")] + list)[2..] == list;
    var negated := [Ident(f), Kw("NOT"), Kw("IN")] + list;
    assert negated[2..] == [Kw("IN")] + list && negated[2..][1..] == list;
  }

  lemma {:induction false} MembershipYield(f: string, neg: bool, vs: seq<Tok>, rest: seq<Tok>)
    requires CmpOk(Membership(f, neg, vs))
    ensures CmpYield(Membership(f, neg, vs)) + rest
         == (if neg then [Ident(f), Kw("NOT"), Kw("IN")] else [Ident(f), Kw("IN")])
            + ([Sym("(")] + (Commas(vs) + [Sym(")")] + rest))
  {
  }

  lemma RangeComplete(f: string, lo: Tok, hi: Tok, rest: seq<Tok>)
    requires Plainly(lo) && Plainly(hi)
    ensures ParseComparison(CmpYield(Range(f, lo, hi)) + rest) == Ok(Between(f, lo.val, hi.val), rest)
  {
    var ts := CmpYield(Range(f, lo, hi)) + rest;
    var after := [Kw("AND"), hi] + rest;
    assert ts[2..] == [lo] + after && ts[2..][1..] == after;
    assert after[1..] == [hi] + rest && after[1..][1..] == rest;
  }

  lemma CmpComplete(c: Cmp, rest: seq<Tok>)
    requires CmpOk(c)
    ensures ParseComparison(CmpYield(c) + rest) == Ok(CmpTree(c), rest)
  {
    match c {
      case Operation(f, op, v) =>
        var ts := CmpYield(c) + rest;
        assert ts[2..] == [v] + rest && ts[2..][1..] == rest;
      case Membership(f, neg, vs) =>
        MembershipYield(f, neg, vs, rest);
        ComparesIn(f, [Sym("(")] + (Commas(vs) + [Sym(")")] + rest));
        InComplete(f, neg, vs, rest);
      case Range(f, lo, hi) => RangeComplete(f, lo, hi, rest);
    }
  }

  lemma CmpStarts(c: Cmp, rest: seq<Tok>)
    requires CmpOk(c)
    ensures var ts := CmpYield(c) + rest; ts != [] && ts[0].Ident?
  {
  }

  lemma {:induction false} AtomComplete(a: Atom, rest: seq<Tok>)
    requires AtomOk(a)
    ensures ParseAtom(AtomYield(a) + rest) == Ok(AtomTree(a), rest)
    ensures !Next(AtomYield(a) + rest, Kw("NOT"))
    decreases a, 0
  {
    match a {
      case Comparison(c) =>
        CmpStarts(c, rest);
        CmpComplete(c, rest);
      case Paren(e) =>
        var close := [Sym(")")] + rest;
        OrComplete(e, close);
        assert (AtomYield(a) + rest)[1..] == OrYield(e) + close;
        assert close[1..] == rest;
    }
  }

  lemma {:induction false} NotComplete(n: NotExpr, rest: seq<Tok>)
    requires NotOk(n)
    ensures ParseNot(NotYield(n) + rest) == Ok(NotTree(n), rest)
    decreases n, 1
  {
    match n {
      case Plain(a) => AtomComplete(a, rest);
      case Negated(i) =>
        NotComplete(i, rest);
        assert (NotYield(n) + rest)[1..] == NotYield(i) + rest;
    }
  }

  lemma Parted(left: seq<Tok>, k: Tok, right: seq<Tok>, rest: seq<Tok>)
    ensures var more := [k] + right + rest;
            left + ([k] + right) + rest == left + more && Next(more, k) && more[1..] == right + rest
  {
  }

  lemma {:induction false} AndComplete(a: AndExpr, rest: seq<Tok>)
    requires AndOk(a)
    ensures ParseAnd(AndYield(a) + rest) == AndRest(AndTree(a), rest)
    decreases a, 2
  {
    match a {
      case AndOne(n) => NotComplete(n, rest);
      case AndMore(i, n) =>
        var more := [Kw("AND")] + NotYield(n) + rest;
        AndComplete(i, more);
        NotComplete(n, rest);
        Parted(AndYield(i), Kw("AND"), NotYield(n), rest);
    }
  }

  /** With anything but AND after it, an OR-level derivation is read whole. */
  lemma {:induction false} OrComplete(o: OrExpr, rest: seq<Tok>)
    requires OrOk(o) && !Next(rest, Kw("AND"))
    ensures ParseOr(OrYield(o) + rest) == OrRest(OrTree(o), rest)
    decreases o, 3
  {
    match o {
      case OrOne(a) => AndComplete(a, rest);
      case OrMore(i, a) =>
        var more := [Kw("OR")] + AndYield(a) + rest;
        OrComplete(i, more);
        AndComplete(a, rest);
        Parted(OrYield(i), Kw("OR"), AndYield(a), rest);
    }
  }

  // --------------------------------------------- everything accepted derives

  lemma {:induction false} ValuesSound(ts: seq<Tok>) returns (vs: seq<Tok>)
    requires ParseValues(ts).Ok?
    ensures vs != [] && (forall i :: 0 <= i < |vs| ==> Plainly(vs[i]))
    ensures ts == Commas(vs) + [Sym(")")] + ParseValues(ts).rest
    ensures Vals(vs) == ParseValues(ts).node
  {
    var rest := ts[1..];
    if Next(rest, Sym(",")) {
      var tail := ValuesSound(rest[1..]);
      vs := [ts[0]] + tail;
      assert vs[1..] == tail;
      CommaFirst(ts, Commas(tail), ParseValues(rest[1..]).rest);
      assert Vals(vs) == [ts[0].val] + Vals(tail);
    } else {
      vs := [ts[0]];
      assert ts == [ts[0]] + [Sym(")")] + rest[1..];
      assert Vals(vs) == [ts[0].val];
    }
  }

  lemma CommaFirst(ts: seq<Tok>, list: seq<Tok>, rest: seq<Tok>)
    requires |ts| >= 2 && ts[1] == Sym(",") && ts[1..][1..] == list + [Sym(")")] + rest
    ensures ts == [ts[0], Sym(",")] + list + [Sym(")")] + rest
  {
    assert ts == [ts[0], Sym(",")] + ts[1..][1..];
  }

  lemma InSound(f: string, neg: bool, ts: seq<Tok>) returns (c: Cmp)
    requires ParseIn(f, neg, ts).Ok?
    ensures c.Membership? && c.field == f && c.negated == neg && CmpOk(c) && CmpTree(c) == ParseIn(f, neg, ts).node
    ensures ts == [Sym("(")] + Commas(c.values) + [Sym(")")] + ParseIn(f, neg, ts).rest
  {
    var vs := ValuesSound(ts[1..]);
    c := Membership(f, neg, vs);
    assert ts == [ts[0]] + ts[1..];
  }

  lemma BetweenSound(f: string, ts: seq<Tok>) returns (c: Cmp)
    requires ParseBetween(f, ts).Ok?
    ensures CmpOk(c) && [Ident(f), Kw("BETWEEN")] + ts == CmpYield(c) + ParseBetween(f, ts).rest
    ensures CmpTree(c) == ParseBetween(f, ts).node
  {
    c := Range(f, ts[0], ts[2]);
    assert ts[1..][1..] == ts[2..] && ts[2..][1..] == ts[3..];
    assert ts == [ts[0], ts[1], ts[2]] + ts[3..];
  }

  lemma MembershipSound(f: string, neg: bool, ts: seq<Tok>) returns (c: Cmp)
    requires ParseIn(f, neg, ts).Ok?
    ensures CmpOk(c) && CmpTree(c) == ParseIn(f, neg, ts).node
    ensures [Ident(f)] + (if neg then [Kw("NOT")] else []) + [Kw("IN")] + ts == CmpYield(c) + ParseIn(f, neg, ts).rest
  {
    c := InSound(f, neg, ts);
  }

  lemma CmpSound(ts: seq<Tok>) returns (c: Cmp)
    requires ParseComparison(ts).Ok?
    ensures CmpOk(c) && ts == CmpYield(c) + ParseComparison(ts).rest && CmpTree(c) == ParseComparison(ts).node
  {
    var field, op, rest := ts[0].val, ts[1], ts[2..];
    assert ts == [ts[0], ts[1]] + rest;
    if op == Kw("IN") {
      c := MembershipSound(field, false, rest);
      assert ts == [Ident(field)] + [] + [Kw("IN")] + rest;
    } else if op == Kw("NOT") {
      c := MembershipSound(field, true, rest[1..]);
      assert ts == [Ident(field)] + [Kw("NOT")] + [Kw("IN")] + rest[1..];
    } else if op == Kw("BETWEEN") {
      c := BetweenSound(field, rest);
    } else {
      c := Operation(field, op.val, rest[0]);
      assert ts == CmpYield(c) + rest[1..];
    }
  }

  lemma {:induction false} AtomSound(ts: seq<Tok>) returns (a: Atom)
    requires ParseAtom(ts).Ok?
    ensures AtomOk(a) && ts == AtomYield(a) + ParseAtom(ts).rest && AtomTree(a) == ParseAtom(ts).node
    decreases |ts|, 0
  {
    if Next(ts, Sym("(")) {
      var e := OrSound(ts[1..]);
      a := Paren(e);
      var rest := ParseOr(ts[1..]).rest;
      assert ts == [ts[0]] + ts[1..] && rest == [rest[0]] + rest[1..];
    } else {
      var c := CmpSound(ts);
      a := Comparison(c);
    }
  }

  lemma {:induction false} NotSound(ts: seq<Tok>) returns (n: NotExpr)
    requires ParseNot(ts).Ok?
    ensures NotOk(n) && ts == NotYield(n) + ParseNot(ts).rest && NotTree(n) == ParseNot(ts).node
    decreases |ts|, 1
  {
    if Next(ts, Kw("NOT")) {
      var i := NotSound(ts[1..]);
      n := Negated(i);
      assert ts == [ts[0]] + ts[1..];
    } else {
      var a := AtomSound(ts);
      n := Plain(a);
    }
  }

  lemma Joined(left: seq<Tok>, k: Tok, right: seq<Tok>, rest: seq<Tok>, ts: seq<Tok>)
    requires Next(ts, k) && ts[1..] == right + rest
    ensures left + ts == left + ([k] + right) + rest
  {
    assert ts == [k] + ts[1..];
  }

  lemma {:induction false} AndSound(ts: seq<Tok>) returns (a: AndExpr)
    requires ParseAnd(ts).Ok?
    ensures AndOk(a) && ts == AndYield(a) + ParseAnd(ts).rest && AndTree(a) == ParseAnd(ts).node
    decreases |ts|, 2
  {
    var n := NotSound(ts);
    a := AndRestSound(AndOne(n), ParseNot(ts).rest);
  }

  lemma {:induction false} AndRestSound(a: AndExpr, ts: seq<Tok>) returns (a': AndExpr)
    requires AndOk(a) && AndRest(AndTree(a), ts).Ok?
    ensures AndOk(a') && AndYield(a) + ts == AndYield(a') + AndRest(AndTree(a), ts).rest
    ensures AndTree(a') == AndRest(AndTree(a), ts).node
    decreases |ts|, 1
  {
    if Next(ts, Kw("AND")) {
      var n := NotSound(ts[1..]);
      var rest := ParseNot(ts[1..]).rest;
      Joined(AndYield(a), Kw("AND"), NotYield(n), rest, ts);
      a' := AndRestSound(AndMore(a, n), rest);
    } else {
      a' := a;
    }
  }

  lemma {:induction false} OrSound(ts: seq<Tok>) returns (o: OrExpr)
    requires ParseOr(ts).Ok?
    ensures OrOk(o) && ts == OrYield(o) + ParseOr(ts).rest && OrTree(o) == ParseOr(ts).node
    decreases |ts|, 3
  {
    var a := AndSound(ts);
    o := OrRestSound(OrOne(a), ParseAnd(ts).rest);
  }

  lemma {:induction false} OrRestSound(o: OrExpr, ts: seq<Tok>) returns (o': OrExpr)
    requires OrOk(o) && OrRest(OrTree(o), ts).Ok?
    ensures OrOk(o') && OrYield(o) + ts == OrYield(o') + OrRest(OrTree(o), ts).rest
    ensures OrTree(o') == OrRest(OrTree(o), ts).node
    decreases |ts|, 1
  {
    if Next(ts, Kw("OR")) {
      var a := AndSound(ts[1..]);
      var rest := ParseAnd(ts[1..]).rest;
      Joined(OrYield(o), Kw("OR"), AndYield(a), rest, ts);
      o' := OrRestSound(OrMore(o, a), rest);
    } else {
      o' := o;
    }
  }

  /** The derivation o reads ts as n. */
  ghost predicate Derives(o: OrExpr, ts: seq<Tok>, n: Node)
  {
    OrOk(o) && OrYield(o) == ts && OrTree(o) == n
  }

  /** The parser accepts exactly the documented grammar, OR loosest, then AND,
      then NOT, and returns the tree of the derivation: all derivations of the
      same tokens have that tree. */
  lemma ParserIsGrammar(ts: seq<Tok>, n: Node)
    ensures ParseTokens(ts) == Some(n) <==> exists o :: Derives(o, ts, n)
  {
    if ParseTokens(ts) == Some(n) {
      var o := OrSound(ts);
      assert OrYield(o) + [] == OrYield(o);
      assert Derives(o, ts, n);
    }
    forall o | Derives(o, ts, n) ensures ParseTokens(ts) == Some(n) {
      OrComplete(o, []);
      assert OrYield(o) + [] == OrYield(o);
    }
  }

  // ----------------------------------------------------------------- printing

  /** A tree as tokens, every AND and OR in parentheses, every value quoted. */
  function TokensOf(n: Node): seq<Tok>
  {
    match n
    case And(a, b) => [Sym("(")] + TokensOf(a) + [Kw("AND")] + TokensOf(b) + [Sym(")")]
    case Or(a, b) => [Sym("(")] + TokensOf(a) + [Kw("OR")] + TokensOf(b) + [Sym(")")]
    case Not(a) => [Kw("NOT")] + TokensOf(a)
    case Compare(f, op, v) => [Ident(f), Sym(op), Str(v)]
    case In(f, neg, vs) =>
      [Ident(f)] + (if neg then [Kw("NOT")] else []) + [Kw("IN"), Sym("(")]
      + (if vs == [] then [] else Commas(Quoted(vs))) + [Sym(")")]
    case Between(f, lo, hi) => [Ident(f), Kw("BETWEEN"), Str(lo), Kw("AND"), Str(hi)]
  }

  function Quoted(vs: seq<string>): (ts: seq<Tok>)
    ensures |ts| == |vs|
  {
    seq(|vs|, i requires 0 <= i < |vs| => Str(vs[i]))
  }

  /** Trees the grammar can express. */
  predicate Expressible(n: Node)
  {
    match n
    case And(a, b) => Expressible(a) && Expressible(b)
    case Or(a, b) => Expressible(a) && Expressible(b)
    case Not(a) => Expressible(a)
    case Compare(_, op, _) => IsOperator(op)
    case In(_, _, vs) => vs != []
    case Between(_, _, _) => true
  }

  function AsNot(n: Node): NotExpr
  {
    match n
    case And(a, b) => Plain(Paren(OrOne(AndMore(AndOne(AsNot(a)), AsNot(b)))))
    case Or(a, b) => Plain(Paren(OrMore(OrOne(AndOne(AsNot(a))), AndOne(AsNot(b)))))
    case Not(a) => Negated(AsNot(a))
    case Compare(f, op, v) => Plain(Comparison(Operation(f, op, Str(v))))
    case In(f, neg, vs) => Plain(Comparison(Membership(f, neg, Quoted(vs))))
    case Between(f, lo, hi) => Plain(Comparison(Range(f, Str(lo), Str(hi))))
  }

  /** A NOT-level derivation, lifted to the OR level. */
  lemma {:induction false} Lifted(n: NotExpr)
    requires NotOk(n)
    ensures var o := OrOne(AndOne(n)); OrOk(o) && OrYield(o) == NotYield(n) && OrTree(o) == NotTree(n)
  {
    assert AndOk(AndOne(n)) && AndYield(AndOne(n)) == NotYield(n) && AndTree(AndOne(n)) == NotTree(n);
  }

  /** An expression in parentheses. */
  lemma {:induction false} Enclosed(o: OrExpr)
    requires OrOk(o)
    ensures var n := Plain(Paren(o));
            NotOk(n) && NotTree(n) == OrTree(o) && NotYield(n) == [Sym("(")] + OrYield(o) + [Sym(")")]
  {
    var atom := Paren(o);
    assert AtomOk(atom) && AtomTree(atom) == OrTree(o) && AtomYield(atom) == [Sym("(")] + OrYield(o) + [Sym(")")];
  }

  lemma {:induction false} BothHold(a: NotExpr, b: NotExpr)
    requires NotOk(a) && NotOk(b)
    ensures var o := OrOne(AndMore(AndOne(a), b));
            OrOk(o) && OrTree(o) == And(NotTree(a), NotTree(b))
                && OrYield(o) == NotYield(a) + ([Kw("AND")] + NotYield(b))
  {
    var both := AndMore(AndOne(a), b);
    assert AndOk(AndOne(a)) && AndYield(AndOne(a)) == NotYield(a) && AndTree(AndOne(a)) == NotTree(a);
    assert AndOk(both) && AndYield(both) == NotYield(a) + ([Kw("AND")] + NotYield(b));
    assert AndTree(both) == And(NotTree(a), NotTree(b));
  }

  lemma Bracketed(open: seq<Tok>, a: seq<Tok>, op: seq<Tok>, b: seq<Tok>, close: seq<Tok>)
    ensures open + (a + (op + b)) + close == open + a + op + b + close
  {
  }

  lemma {:induction false} AndDerives(a: NotExpr, b: NotExpr)
    requires NotOk(a) && NotOk(b)
    ensures var n := Plain(Paren(OrOne(AndMore(AndOne(a), b))));
            && NotOk(n) && NotTree(n) == And(NotTree(a), NotTree(b))
            && NotYield(n) == [Sym("(")] + NotYield(a) + [Kw("AND")] + NotYield(b) + [Sym(")")]
  {
    BothHold(a, b);
    Enclosed(OrOne(AndMore(AndOne(a), b)));
    Bracketed([Sym("(")], NotYield(a), [Kw("AND")], NotYield(b), [Sym(")")]);
  }

  lemma {:induction false} OrDerives(a: NotExpr, b: NotExpr)
    requires NotOk(a) && NotOk(b)
    ensures var n := Plain(Paren(OrMore(OrOne(AndOne(a)), AndOne(b))));
            && NotOk(n) && NotTree(n) == Or(NotTree(a), NotTree(b))
            && NotYield(n) == [Sym("(")] + NotYield(a) + [Kw("OR")] + NotYield(b) + [Sym(")")]
  {
    Lifted(a);
    var both := OrMore(OrOne(AndOne(a)), AndOne(b));
    assert AndOk(AndOne(b)) && AndYield(AndOne(b)) == NotYield(b) && AndTree(AndOne(b)) == NotTree(b);
    assert OrOk(both) && OrYield(both) == NotYield(a) + ([Kw("OR")] + NotYield(b));
    assert OrTree(both) == Or(NotTree(a), NotTree(b));
    var atom := Paren(both);
    assert AtomOk(atom) && AtomYield(atom) == [Sym("(")] + OrYield(both) + [Sym(")")] && AtomTree(atom) == OrTree(both);
  }

  lemma CmpDerives(c: Cmp)
    requires CmpOk(c)
    ensures var n := Plain(Comparison(c)); NotOk(n) && NotYield(n) == CmpYield(c) && NotTree(n) == CmpTree(c)
  {
    var atom := Comparison(c);
    assert AtomOk(atom) && AtomYield(atom) == CmpYield(c) && AtomTree(atom) == CmpTree(c);
  }

  lemma {:induction false} PrintingDerives(n: Node)
    requires Expressible(n)
    ensures NotOk(AsNot(n)) && NotYield(AsNot(n)) == TokensOf(n) && NotTree(AsNot(n)) == n
  {
    match n {
      case And(a, b) =>
        PrintingDerives(a);
        PrintingDerives(b);
        AndDerives(AsNot(a), AsNot(b));
      case Or(a, b) =>
        PrintingDerives(a);
        PrintingDerives(b);
        OrDerives(AsNot(a), AsNot(b));
      case Not(a) => PrintingDerives(a);
      case Compare(f, op, v) => CmpDerives(Operation(f, op, Str(v)));
      case In(f, neg, vs) =>
        CmpDerives(Membership(f, neg, Quoted(vs)));
        assert Vals(Quoted(vs)) == vs;
      case Between(f, lo, hi) => CmpDerives(Range(f, Str(lo), Str(hi)));
    }
  }

  /** Parsing the printed tokens of a tree gives the tree back. */
  lemma {:induction false} TokensRoundTrip(n: Node)
    requires Expressible(n)
    ensures ParseTokens(TokensOf(n)) == Some(n)
  {
    PrintingDerives(n);
    var o := OrOne(AndOne(AsNot(n)));
    Lifted(AsNot(n));
    assert Derives(o, TokensOf(n), n);
    ParserIsGrammar(TokensOf(n), n);
  }
}
