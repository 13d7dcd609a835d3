/** The visibility parser as written: a token list, a position that the parse
    methods advance, and loops at the OR, AND and value-list levels
    (pkg/tasks/engine.go). */
module QueryParser {
  import opened Basics
  import opened Visibility
  import opened Lexer

  class VParser {
    const toks: seq<Tok>
    var pos: nat

    ghost predicate Valid()
      reads this
    {
      pos <= |toks|
    }

    ghost function Left(): seq<Tok>
      requires Valid()
      reads this
    {
      toks[pos..]
    }

    /** The method's result and position are those of the parse p. */
    ghost predicate Agrees<T(!new)>(r: Option<T>, p: Parse<T>)
      requires Valid()
      reads this
    {
      match p
      case Fail => r == None
      case Ok(n, rest) => r == Some(n) && Left() == rest
    }

    constructor (toks: seq<Tok>)
      ensures Valid() && this.toks == toks && Left() == toks
    {
      this.toks := toks;
      pos := 0;
    }

    method Eat() returns (t: Option<Tok>)
      requires Valid()
      modifies this
      ensures Valid()
      ensures if old(Left()) == [] then t == None && pos == old(pos)
              else t == Some(old(Left())[0]) && Left() == old(Left())[1..] && pos == old(pos) + 1
    {
      if pos >= |toks| { return None; }
      t := Some(toks[pos]);
      pos := pos + 1;
    }

    method ExpectSym(s: string) returns (ok: bool)
      requires Valid()
      modifies this
      ensures Valid() && ok == Next(old(Left()), Sym(s))
      ensures ok ==> Left() == old(Left())[1..]
    {
      var t := Eat();
      ok := t == Some(Sym(s));
    }

    method ParseValue() returns (r: Option<string>)
      requires Valid()
      modifies this
      ensures Valid() && Agrees(r, Visibility.ParseValue(old(Left())))
    {
      var t := Eat();
      r := if t.Some? && IsValue(t.value) then Some(t.value.val) else None;
    }

    method ParseValueList() returns (r: Option<seq<string>>)
      requires Valid()
      modifies this
      ensures Valid() && Agrees(r, Visibility.ParseValueList(old(Left())))
    {
      var open := ExpectSym("(");
      if !open { return None; }
      var out: seq<string> := [];
      ghost var all := Visibility.ParseValues(Left());
      AfterNothing(all);
      var more := true;
      while more
        invariant Valid()
        invariant more ==> all == After(out, Visibility.ParseValues(Left()))
        invariant !more ==> all == if Next(Left(), Sym(")")) then Ok(out, Left()[1..]) else Fail
        decreases |toks| - pos, more
      {
        ghost var ts := Left();
        var v := ParseValue();
        if v == None { return None; }
        AfterSnoc(out, v.value, if Next(Left(), Sym(",")) then Visibility.ParseValues(Left()[1..]) else Fail);
        out := out + [v.value];
        more := pos < |toks| && toks[pos] == Sym(",");
        if more { var _ := Eat(); }
      }
      var close := ExpectSym(")");
      if !close { return None; }
      r := Some(out);
    }

    method ParseComparison() returns (r: Option<Node>)
      requires Valid()
      modifies this
      ensures Valid() && Agrees(r, Visibility.ParseComparison(old(Left())))
    {
      ghost var ts := Left();
      var id := Eat();
      if id == None || !id.value.Ident? { return None; }
      var op := Eat();
      if op == None { return None; }
      assert Left() == ts[2..];
      if op.value.Kw? {
        r := ParseKeyword(id.value.val, op.value.val);
      } else if op.value.Sym? && IsOperator(op.value.val) {
        var v := ParseValue();
        if v == None { return None; }
        r := Some(Compare(id.value.val, op.value.val, v.value));
      } else {
        r := None;
      }
    }

    /** The comparison forms introduced by a keyword. */
    method ParseKeyword(field: string, k: string) returns (r: Option<Node>)
      requires Valid()
      modifies this
      ensures Valid() && Agrees(r, match k
                                   case "IN" => ParseIn(field, false, old(Left()))
                                   case "NOT" =>
                                       if Next(old(Left()), Kw("IN")) then ParseIn(field, true, old(Left())[1..])
                                           else Fail
                                   case "BETWEEN" => ParseBetween(field, old(Left()))
                                   case _ => Fail)
    {
      if k == "IN" {
        var vs := ParseValueList();
        if vs == None { return None; }
        r := Some(In(field, false, vs.value));
      } else if k == "NOT" {
        var n2 := Eat();
        if n2 != Some(Kw("IN")) { return None; }
        var vs := ParseValueList();
        if vs == None { return None; }
        r := Some(In(field, true, vs.value));
      } else if k == "BETWEEN" {
        var lo := ParseValue();
        if lo == None { return None; }
        var and := Eat();
        if and != Some(Kw("AND")) { return None; }
        var hi := ParseValue();
        if hi == None { return None; }
        r := Some(Between(field, lo.value, hi.value));
      } else {
        r := None;
      }
    }

    method ParseAtom() returns (r: Option<Node>)
      requires Valid()
      modifies this
      ensures Valid() && Agrees(r, Visibility.ParseAtom(old(Left())))
      decreases |toks| - pos, 0
    {
      if pos >= |toks| { return None; }
      if toks[pos] == Sym("(") {
        var _ := Eat();
        var n := ParseOr();
        if n == None { return None; }
        var close := ExpectSym(")");
        if !close { return None; }
        r := n;
      } else {
        r := ParseComparison();
      }
    }

    method ParseNot() returns (r: Option<Node>)
      requires Valid()
      modifies this
      ensures Valid() && Agrees(r, Visibility.ParseNot(old(Left())))
      decreases |toks| - pos, 1
    {
      if pos < |toks| && toks[pos] == Kw("NOT") {
        var _ := Eat();
        var inner := ParseNot();
        if inner == None { return None; }
        r := Some(Not(inner.value));
      } else {
        r := ParseAtom();
      }
    }

    method ParseAnd() returns (r: Option<Node>)
      requires Valid()
      modifies this
      ensures Valid() && Agrees(r, Visibility.ParseAnd(old(Left())))
      decreases |toks| - pos, 2
    {
      ghost var ts := Left();
      var a := ParseNot();
      if a == None { return None; }
      while pos < |toks| && toks[pos] == Kw("AND")
        invariant Valid() && pos > old(pos) && a.Some?
        invariant Visibility.ParseAnd(ts) == AndRest(a.value, Left())
        decreases |toks| - pos
      {
        var _ := Eat();
        var b := ParseNot();
        if b == None { return None; }
        a := Some(And(a.value, b.value));
      }
      r := a;
    }

    method ParseOr() returns (r: Option<Node>)
      requires Valid()
      modifies this
      ensures Valid() && Agrees(r, Visibility.ParseOr(old(Left())))
      decreases |toks| - pos, 3
    {
      ghost var ts := Left();
      var a := ParseAnd();
      if a == None { return None; }
      while pos < |toks| && toks[pos] == Kw("OR")
        invariant Valid() && pos > old(pos) && a.Some?
        invariant Visibility.ParseOr(ts) == OrRest(a.value, Left())
        decreases |toks| - pos
      {
        var _ := Eat();
        var b := ParseAnd();
        if b == None { return None; }
        a := Some(Or(a.value, b.value));
      }
      r := a;
    }
  }

  /** A value-list parse with the values read before it put in front. */
  ghost function After(vs: seq<string>, p: Parse<seq<string>>): Parse<seq<string>>
  {
    match p case Fail => Fail case Ok(more, rest) => Ok(vs + more, rest)
  }

  lemma AfterNothing(p: Parse<seq<string>>)
    ensures After([], p) == p
  {
    if p.Ok? { assert [] + p.node == p.node; }
  }

  lemma AfterSnoc(vs: seq<string>, v: string, p: Parse<seq<string>>)
    ensures After(vs, After([v], p)) == After(vs + [v], p)
  {
    if p.Ok? { assert vs + ([v] + p.node) == vs + [v] + p.node; }
  }

  /** An empty query matches every row; any other is tokenized and parsed whole. */
  method ParseVisibilityQuery(q: string) returns (r: Query)
    ensures r == ParseQuery(q)
  {
    var s := Trim(q);
    if s == "" { return Everything; }
    var toks := VTokenize(s);
    if toks == None { return Malformed; }
    var p := new VParser(toks.value);
    var n := p.ParseOr();
    if n == None { return Malformed; }
    if p.pos != |p.toks| { return Malformed; }
    r := Matching(n.value);
  }
}
