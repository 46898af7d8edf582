/** The condition grammar: trees, their tokens, and a recursive-descent parser that builds them.

      or         := and ("||" and)*
      and        := not ("&&" not)*
      not        := "!" not | comparison
      comparison := primary (comparator primary)?
      primary    := "(" or ")" | number | string | keyword | reference

    The evaluator in Conditions never builds a tree; this parser is what it is proved against. */
module Grammar {
  import opened Basics
  import opened Lexer

  /** Concrete trees: parentheses are kept. */
  datatype Expr =
    | Or(left: Expr, right: Expr)
    | And(left: Expr, right: Expr)
    | Not(inner: Expr)
    | Compare(left: Expr, op: Kind, right: Expr)
    | Paren(inner: Expr)
    | Leaf(token: Token)

  predicate IsComparator(k: Kind) { k in {EQ, NE, GT, GE, LT, LE} }

  predicate IsOperand(k: Kind) { k in {NUM, STR, KW, REF} }

  /** The binding strength of the outermost operator. */
  function Level(e: Expr): nat {
    match e
    case Or(_, _) => 0 case And(_, _) => 1 case Not(_) => 2 case Compare(_, _, _) => 3 case _ => 4
  }

  /** Leaves and operators are of the right kinds. */
  predicate Shaped(e: Expr) {
    match e
    case Or(l, r) => Shaped(l) && Shaped(r)
    case And(l, r) => Shaped(l) && Shaped(r)
    case Not(i) => Shaped(i)
    case Compare(l, op, r) => IsComparator(op) && Shaped(l) && Shaped(r)
    case Paren(i) => Shaped(i)
    case Leaf(t) => IsOperand(t.kind)
  }

  /** `e` is derived by the grammar from the nonterminal of the given level. */
  predicate Derives(level: nat, e: Expr)
    decreases e
  {
    && level <= Level(e)
    && match e
       case Or(l, r) => Derives(0, l) && Derives(1, r)
       case And(l, r) => Derives(1, l) && Derives(2, r)
       case Not(i) => Derives(2, i)
       case Compare(l, op, r) => Derives(4, l) && IsComparator(op) && Derives(4, r)
       case Paren(i) => Derives(0, i)
       case Leaf(t) => IsOperand(t.kind)
  }

  lemma {:induction false} DerivedIsShaped(level: nat, e: Expr)
    requires Derives(level, e)
    ensures Shaped(e)
    decreases e
  {
    match e
    case Or(l, r) => DerivedIsShaped(0, l); DerivedIsShaped(1, r);
    case And(l, r) => DerivedIsShaped(1, l); DerivedIsShaped(2, r);
    case Not(i) => DerivedIsShaped(2, i);
    case Compare(l, op, r) => DerivedIsShaped(4, l); DerivedIsShaped(4, r);
    case Paren(i) => DerivedIsShaped(0, i);
    case Leaf(_) =>
  }

  function Fixed(k: Kind): Token { Token(k, Symbol(k)) }

  function Toks(e: Expr): (ts: seq<Token>)
    ensures ts != []
  {
    match e
    case Or(l, r) => Toks(l) + [Fixed(OR)] + Toks(r)
    case And(l, r) => Toks(l) + [Fixed(AND)] + Toks(r)
    case Not(i) => [Fixed(NOT)] + Toks(i)
    case Compare(l, op, r) => Toks(l) + [Fixed(op)] + Toks(r)
    case Paren(i) => [Fixed(LP)] + Toks(i) + [Fixed(RP)]
    case Leaf(t) => [t]
  }

  // ------------------------------------------------------------------ the parser

  datatype Parse = Failed | Parsed(tree: Expr, rest: seq<Token>)

  predicate Next(ts: seq<Token>, k: Kind) { ts != [] && ts[0].kind == k }

  predicate NextCompares(ts: seq<Token>) { ts != [] && IsComparator(ts[0].kind) }

  function ParseOr(ts: seq<Token>): (p: Parse)
    ensures p.Parsed? ==> |p.rest| < |ts| && Shaped(p.tree)
    decreases |ts|, 6
  {
    match ParseAnd(ts)
    case Failed => Failed
    case Parsed(e, rest) => OrTail(e, rest)
  }

  function OrTail(e: Expr, ts: seq<Token>): (p: Parse)
    requires Shaped(e)
    ensures p.Parsed? ==> |p.rest| <= |ts| && Shaped(p.tree)
    decreases |ts|, 5
  {
    if !Next(ts, OR) then Parsed(e, ts)
    else match ParseAnd(ts[1..])
      case Failed => Failed
      case Parsed(f, rest) => OrTail(Or(e, f), rest)
  }

  function ParseAnd(ts: seq<Token>): (p: Parse)
    ensures p.Parsed? ==> |p.rest| < |ts| && Shaped(p.tree)
    decreases |ts|, 4
  {
    match ParseNot(ts)
    case Failed => Failed
    case Parsed(e, rest) => AndTail(e, rest)
  }

  function AndTail(e: Expr, ts: seq<Token>): (p: Parse)
    requires Shaped(e)
    ensures p.Parsed? ==> |p.rest| <= |ts| && Shaped(p.tree)
    decreases |ts|, 3
  {
    if !Next(ts, AND) then Parsed(e, ts)
    else match ParseNot(ts[1..])
      case Failed => Failed
      case Parsed(f, rest) => AndTail(And(e, f), rest)
  }

  function ParseNot(ts: seq<Token>): (p: Parse)
    ensures p.Parsed? ==> |p.rest| < |ts| && Shaped(p.tree)
    decreases |ts|, 2
  {
    if !Next(ts, NOT) then ParseComparison(ts)
    else match ParseNot(ts[1..])
      case Failed => Failed
      case Parsed(e, rest) => Parsed(Not(e), rest)
  }

  function ParseComparison(ts: seq<Token>): (p: Parse)
    ensures p.Parsed? ==> |p.rest| < |ts| && Shaped(p.tree)
    decreases |ts|, 1
  {
    match ParsePrimary(ts)
    case Failed => Failed
    case Parsed(e, rest) =>
      if !NextCompares(rest) then Parsed(e, rest)
      else match ParsePrimary(rest[1..])
        case Failed => Failed
        case Parsed(f, end) => Parsed(Compare(e, rest[0].kind, f), end)
  }

  function ParsePrimary(ts: seq<Token>): (p: Parse)
    ensures p.Parsed? ==> |p.rest| < |ts| && Shaped(p.tree)
    decreases |ts|, 0
  {
    if ts == [] then Failed
    else if ts[0].kind == LP then
      match ParseOr(ts[1..])
      case Failed => Failed
      case Parsed(e, rest) => if Next(rest, RP) then Parsed(Paren(e), rest[1..]) else Failed
    else if IsOperand(ts[0].kind) then Parsed(Leaf(ts[0]), ts[1..])
    else Failed
  }

  /** The whole token list as one tree. */
  function ParseAll(ts: seq<Token>): (e: Option<Expr>)
    ensures e.Some? ==> Shaped(e.value)
  {
    match ParseOr(ts)
    case Failed => None
    case Parsed(e, rest) => if rest == [] then Some(e) else None
  }

  // ------------------------------------------------------------------ completeness

  lemma FirstOfSum(a: seq<Token>, b: seq<Token>)
    requires a != []
    ensures (a + b) != [] && (a + b)[0] == a[0] && (a + b)[1..] == a[1..] + b
  {}

  lemma Grouped(a: seq<Token>, t: Token, b: seq<Token>, rest: seq<Token>)
    ensures (a + [t] + b) + rest == a + ([t] + (b + rest))
    ensures ([t] + (b + rest))[1..] == b + rest
  {}

  lemma {:induction false} PrimaryStarts(e: Expr)
    requires Derives(3, e)
    ensures Toks(e)[0].kind != NOT
  {
    if e.Compare? { PrimaryStarts(e.left); }
  }

  lemma {:induction false} PrimaryComplete(e: Expr, rest: seq<Token>)
    requires Derives(4, e)
    ensures ParsePrimary(Toks(e) + rest) == Parsed(e, rest)
    decreases e, 0
  {
    FirstOfSum(Toks(e), rest);
    if e.Paren? {
      var tail := [Fixed(RP)] + rest;
      assert Toks(e)[1..] + rest == Toks(e.inner) + tail;
      OrComplete(e.inner, tail);
      assert tail[1..] == rest;
    } else {
      assert Toks(e)[1..] + rest == rest;
    }
  }

  lemma {:induction false} ComparisonComplete(e: Expr, rest: seq<Token>)
    requires Derives(3, e) && !NextCompares(rest)
    ensures ParseComparison(Toks(e) + rest) == Parsed(e, rest)
    decreases e, 1
  {
    if e.Compare? {
      var tail := [Fixed(e.op)] + (Toks(e.right) + rest);
      Grouped(Toks(e.left), Fixed(e.op), Toks(e.right), rest);
      PrimaryComplete(e.left, tail);
      PrimaryComplete(e.right, rest);
    } else {
      PrimaryComplete(e, rest);
    }
  }

  lemma {:induction false} NotComplete(e: Expr, rest: seq<Token>)
    requires Derives(2, e) && !NextCompares(rest)
    ensures ParseNot(Toks(e) + rest) == Parsed(e, rest)
    decreases e, 2
  {
    FirstOfSum(Toks(e), rest);
    if e.Not? {
      assert Toks(e)[1..] == Toks(e.inner);
      NotComplete(e.inner, rest);
    } else {
      PrimaryStarts(e);
      ComparisonComplete(e, rest);
    }
  }

  lemma {:induction false} AndComplete(e: Expr, rest: seq<Token>)
    requires Derives(1, e) && !NextCompares(rest)
    ensures Shaped(e) && ParseAnd(Toks(e) + rest) == AndTail(e, rest)
    decreases e, 3
  {
    DerivedIsShaped(1, e);
    if e.And? {
      var tail := [Fixed(AND)] + (Toks(e.right) + rest);
      Grouped(Toks(e.left), Fixed(AND), Toks(e.right), rest);
      AndComplete(e.left, tail);
      NotComplete(e.right, rest);
    } else {
      NotComplete(e, rest);
    }
  }

  lemma {:induction false} OrComplete(e: Expr, rest: seq<Token>)
    requires Derives(0, e) && !NextCompares(rest) && !Next(rest, AND)
    ensures Shaped(e) && ParseOr(Toks(e) + rest) == OrTail(e, rest)
    decreases e, 4
  {
    DerivedIsShaped(0, e);
    if e.Or? {
      var tail := [Fixed(OR)] + (Toks(e.right) + rest);
      Grouped(Toks(e.left), Fixed(OR), Toks(e.right), rest);
      OrComplete(e.left, tail);
      AndComplete(e.right, rest);
    } else {
      AndComplete(e, rest);
    }
  }

  // ------------------------------------------------------------------ soundness

  /** Operators and parentheses carry their own text, as the tokenizer produces them. */
  predicate Regular(ts: seq<Token>) {
    forall t :: t in ts && Symbol(t.kind) != "" ==> t == Fixed(t.kind)
  }

  lemma ParenTokens(ts: seq<Token>, e: Expr, rest: seq<Token>)
    requires Regular(ts) && ts != [] && ts[0].kind == LP && ts[1..] == Toks(e) + rest && Next(rest, RP)
    ensures ts == Toks(Paren(e)) + rest[1..]
  {
    assert rest[0] in Toks(e) + rest;
    assert rest == [Fixed(RP)] + rest[1..];
    assert ts == [Fixed(LP)] + ts[1..];
    Enclosed(Fixed(LP), Toks(e), Fixed(RP), rest[1..]);
  }

  lemma Enclosed(a: Token, ts: seq<Token>, b: Token, rest: seq<Token>)
    ensures [a] + (ts + ([b] + rest)) == ([a] + ts + [b]) + rest
  {}

  lemma {:induction false} PrimarySound(ts: seq<Token>)
    requires Regular(ts)
    ensures var p := ParsePrimary(ts); p.Parsed? ==> Derives(4, p.tree) && ts == Toks(p.tree) + p.rest
    decreases |ts|, 0
  {
    if ParsePrimary(ts).Parsed? {
      if ts[0].kind == LP {
        OrSound(ts[1..]);
        ParenTokens(ts, ParseOr(ts[1..]).tree, ParseOr(ts[1..]).rest);
      } else {
        assert ts == [ts[0]] + ts[1..];
      }
    }
  }

  lemma CompareTokens(ts: seq<Token>, l: Expr, middle: seq<Token>, r: Expr, rest: seq<Token>)
    requires Regular(ts) && ts == Toks(l) + middle && NextCompares(middle) && middle[1..] == Toks(r) + rest
    ensures ts == Toks(Compare(l, middle[0].kind, r)) + rest
  {
    assert middle[0] in ts;
    assert middle == [Fixed(middle[0].kind)] + middle[1..];
    Grouped(Toks(l), middle[0], Toks(r), rest);
  }

  lemma {:induction false} ComparisonSound(ts: seq<Token>)
    requires Regular(ts)
    ensures var p := ParseComparison(ts); p.Parsed? ==> Derives(3, p.tree) && ts == Toks(p.tree) + p.rest
    decreases |ts|, 1
  {
    var p := ParseComparison(ts);
    if p.Parsed? {
      PrimarySound(ts);
      var l := ParsePrimary(ts);
      if NextCompares(l.rest) {
        PrimarySound(l.rest[1..]);
        CompareTokens(ts, l.tree, l.rest, p.tree.right, p.rest);
      }
    }
  }

  lemma {:induction false} NotSound(ts: seq<Token>)
    requires Regular(ts)
    ensures var p := ParseNot(ts); p.Parsed? ==> Derives(2, p.tree) && ts == Toks(p.tree) + p.rest
    decreases |ts|, 2
  {
    if Next(ts, NOT) {
      assert ts == [Fixed(NOT)] + ts[1..];
      NotSound(ts[1..]);
    } else {
      ComparisonSound(ts);
    }
  }

  lemma {:induction false} AndTailSound(e: Expr, ts: seq<Token>)
    requires Regular(ts) && Shaped(e) && Derives(1, e)
    ensures var p := AndTail(e, ts); p.Parsed? ==> Derives(1, p.tree) && Toks(e) + ts == Toks(p.tree) + p.rest
    decreases |ts|
  {
    if Next(ts, AND) && ParseNot(ts[1..]).Parsed? {
      assert ts == [Fixed(AND)] + ts[1..];
      NotSound(ts[1..]);
      var p := ParseNot(ts[1..]);
      Grouped(Toks(e), Fixed(AND), Toks(p.tree), p.rest);
      AndTailSound(And(e, p.tree), p.rest);
    }
  }

  lemma {:induction false} AndSound(ts: seq<Token>)
    requires Regular(ts)
    ensures var p := ParseAnd(ts); p.Parsed? ==> Derives(1, p.tree) && ts == Toks(p.tree) + p.rest
    decreases |ts|, 4
  {
    NotSound(ts);
    if ParseNot(ts).Parsed? { AndTailSound(ParseNot(ts).tree, ParseNot(ts).rest); }
  }

  lemma {:induction false} OrTailSound(e: Expr, ts: seq<Token>)
    requires Regular(ts) && Shaped(e) && Derives(0, e)
    ensures var p := OrTail(e, ts); p.Parsed? ==> Derives(0, p.tree) && Toks(e) + ts == Toks(p.tree) + p.rest
    decreases |ts|, 5
  {
    if Next(ts, OR) && ParseAnd(ts[1..]).Parsed? {
      assert ts == [Fixed(OR)] + ts[1..];
      AndSound(ts[1..]);
      var p := ParseAnd(ts[1..]);
      Grouped(Toks(e), Fixed(OR), Toks(p.tree), p.rest);
      OrTailSound(Or(e, p.tree), p.rest);
    }
  }

  lemma {:induction false} OrSound(ts: seq<Token>)
    requires Regular(ts)
    ensures var p := ParseOr(ts); p.Parsed? ==> Derives(0, p.tree) && ts == Toks(p.tree) + p.rest
    decreases |ts|, 6
  {
    AndSound(ts);
    if ParseAnd(ts).Parsed? { OrTailSound(ParseAnd(ts).tree, ParseAnd(ts).rest); }
  }

  // ------------------------------------------------------------------ the language

  /** The parser accepts exactly the sentences of the grammar, and its tree is the sentence's
      only derivation. */
  lemma ParserIsExact(ts: seq<Token>, e: Expr)
    requires Regular(ts)
    ensures ParseAll(ts) == Some(e) <==> Derives(0, e) && Toks(e) == ts
  {
    if ParseAll(ts) == Some(e) {
      OrSound(ts);
    }
    if Derives(0, e) && Toks(e) == ts {
      OrComplete(e, []);
      assert Toks(e) + [] == ts;
    }
  }

  // ------------------------------------------------------------------ parentheses

  function Wrap(level: nat, e: Expr): Expr {
    if Level(e) < level then Paren(e) else e
  }

  /** `e` with the parentheses that precedence needs below the given level, and no others. */
  function Bracket(level: nat, e: Expr): (b: Expr)
    decreases e
  {
    Wrap(level,
      match e
      case Or(l, r) => Or(Bracket(0, l), Bracket(1, r))
      case And(l, r) => And(Bracket(1, l), Bracket(2, r))
      case Not(i) => Not(Bracket(2, i))
      case Compare(l, op, r) => Compare(Bracket(4, l), op, Bracket(4, r))
      case Paren(i) => Paren(Bracket(0, i))
      case Leaf(t) => Leaf(t))
  }

  /** Bracketing any tree gives one the grammar derives. */
  lemma {:induction false} BracketDerives(level: nat, e: Expr)
    requires Shaped(e) && level <= 4
    ensures Derives(level, Bracket(level, e))
    decreases e
  {
    match e
    case Or(l, r) => BracketDerives(0, l); BracketDerives(1, r);
    case And(l, r) => BracketDerives(1, l); BracketDerives(2, r);
    case Not(i) => BracketDerives(2, i);
    case Compare(l, op, r) => BracketDerives(4, l); BracketDerives(4, r);
    case Paren(i) => BracketDerives(0, i);
    case Leaf(_) =>
  }

  /** A tree that needs no parentheses gets none. */
  lemma {:induction false} BracketAddsOnlyNeeded(level: nat, e: Expr)
    requires Derives(level, e)
    ensures Bracket(level, e) == e
    decreases e
  {
    match e
    case Or(l, r) => BracketAddsOnlyNeeded(0, l); BracketAddsOnlyNeeded(1, r);
    case And(l, r) => BracketAddsOnlyNeeded(1, l); BracketAddsOnlyNeeded(2, r);
    case Not(i) => BracketAddsOnlyNeeded(2, i);
    case Compare(l, op, r) => BracketAddsOnlyNeeded(4, l); BracketAddsOnlyNeeded(4, r);
    case Paren(i) => BracketAddsOnlyNeeded(0, i);
    case Leaf(_) =>
  }
}
