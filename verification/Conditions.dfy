/** Values, comparison and evaluation of conditions.

    `Parser` evaluates while it parses and builds no tree; it is proved to return the meaning of
    the tree the grammar gives its tokens, and to call the resolver once for each reference. */
module Conditions {
  import opened Basics
  import opened Lexer
  import opened Grammar
  import Ordering

  /** What a reference may resolve to. `text` is what `str` prints. */
  datatype Value =
    | Null
    | Bool(b: bool)
    | Num(n: real, text: string)
    | Str(s: string)
    | Coll(size: nat, text: string)
    | Other(truthy: bool, text: string)

  /** The host's `float` of a string and its reading of a number literal. */
  datatype Host = Host(floatOf: string -> Option<real>, literal: string -> Value)

  datatype Env = Env(resolve: string -> Value, host: Host)

  datatype Outcome = Ok(value: bool) | ConditionError

  // ------------------------------------------------------------------ strings

  function StripLeft(s: string): string {
    s[Spaces(s)..]
  }

  function StripRight(s: string): (r: string)
    ensures r <= s && (r == "" || EndsSolid(r))
  {
    if s == "" || EndsSolid(s) then s else StripRight(s[..|s| - 1])
  }

  function Strip(s: string): string { StripRight(StripLeft(s)) }

  const OPEN := "{{"
  const CLOSE := "}}"

  predicate Ends(s: string, p: string) {
    |p| <= |s| && s[|s| - |p|..] == p
  }

  function StripBraces(s: string): string {
    var t := Strip(s);
    if |t| >= 4 && Starts(t, OPEN) && Ends(t, CLOSE) then Strip(t[2..|t| - 2]) else t
  }

  // ------------------------------------------------------------------ values

  function CoerceBool(v: Value): bool {
    match v
    case Bool(b) => b
    case Null => false
    case Num(n, _) => n != 0.0
    case Str(s) => Lower(Strip(s)) !in ["", "false", "no", "0", "null", "none"]
    case Coll(size, _) => size > 0
    case Other(truthy, _) => truthy
  }

  function ToNumber(host: Host, v: Value): Option<real> {
    match v
    case Num(n, _) => Some(n)
    case Str(s) => host.floatOf(s)
    case _ => None
  }

  function Stringify(v: Value): string {
    match v
    case Null => ""
    case Bool(b) => if b then "true" else "false"
    case Num(_, text) => text
    case Str(s) => s
    case Coll(_, text) => text
    case Other(_, text) => text
  }

  /** Both as numbers when both are numeric, else both as text. */
  function CompareValues(host: Host, a: Value, op: Kind, b: Value): bool
    requires IsComparator(op)
  {
    var x, y := ToNumber(host, a), ToNumber(host, b);
    if x.Some? && y.Some? then
      match op
      case EQ => x.value == y.value
      case NE => x.value != y.value
      case GT => x.value > y.value
      case GE => x.value >= y.value
      case LT => x.value < y.value
      case LE => x.value <= y.value
    else
      var s, t := Stringify(a), Stringify(b);
      match op
      case EQ => s == t
      case NE => s != t
      case GT => Ordering.LexLess(t, s)
      case GE => s == t || Ordering.LexLess(t, s)
      case LT => Ordering.LexLess(s, t)
      case LE => s == t || Ordering.LexLess(s, t)
  }

  // ------------------------------------------------------------------ meaning

  function LeafValue(env: Env, t: Token): Value {
    match t.kind
    case NUM => env.host.literal(t.text)
    case STR => Str(if |t.text| >= 2 then t.text[1..|t.text| - 1] else "")
    case KW => if Lower(t.text) == "true" then Bool(true) else if Lower(t.text) == "false" then Bool(false) else Null
    case REF => env.resolve(t.text)
    case _ => Null
  }

  function Denote(env: Env, e: Expr): Value
    requires Shaped(e)
  {
    match e
    case Or(l, r) => Bool(CoerceBool(Denote(env, l)) || CoerceBool(Denote(env, r)))
    case And(l, r) => Bool(CoerceBool(Denote(env, l)) && CoerceBool(Denote(env, r)))
    case Not(i) => Bool(!CoerceBool(Denote(env, i)))
    case Compare(l, op, r) => Bool(CompareValues(env.host, Denote(env, l), op, Denote(env, r)))
    case Paren(i) => Denote(env, i)
    case Leaf(t) => LeafValue(env, t)
  }

  /** The texts of the references, in order. */
  function Refs(ts: seq<Token>): seq<string> {
    if ts == [] then []
    else (if ts[0].kind == REF then [ts[0].text] else []) + Refs(ts[1..])
  }

  lemma {:induction false} RefsAppend(a: seq<Token>, b: seq<Token>)
    ensures Refs(a + b) == Refs(a) + Refs(b)
  {
    if a == [] {
      assert a + b == b;
    } else {
      RefsAppend(a[1..], b);
      assert (a + b)[1..] == a[1..] + b;
      Reassociate(if a[0].kind == REF then [a[0].text] else [], Refs(a[1..]), Refs(b));
    }
  }

  /** Calls logged over two neighbouring stretches of tokens are those of the whole stretch. */
  lemma LogJoin(ts: seq<Token>, a: nat, b: nat, c: nat, at: seq<string>, middle: seq<string>, end: seq<string>)
    requires a <= b <= c <= |ts|
    requires middle == at + Refs(ts[a..b]) && end == middle + Refs(ts[b..c])
    ensures end == at + Refs(ts[a..c])
  {
    RefsAppend(ts[a..b], ts[b..c]);
    assert ts[a..b] + ts[b..c] == ts[a..c];
    Reassociate(at, Refs(ts[a..b]), Refs(ts[b..c]));
  }

  // ------------------------------------------------------------------ the evaluator

  /** `v` is the value of what the grammar's parser reads, and `ahead` is what it leaves. */
  ghost predicate Agrees(env: Env, p: Parse, v: Option<Value>, ahead: seq<Token>)
    requires p.Parsed? ==> Shaped(p.tree)
  {
    match p
    case Failed => v.None?
    case Parsed(e, rest) => v == Some(Denote(env, e)) && ahead == rest
  }

  class Parser {
    const tokens: seq<Token>
    const env: Env
    var pos: nat
    ghost var calls: seq<string>

    constructor (tokens: seq<Token>, env: Env)
      ensures this.tokens == tokens && this.env == env && pos == 0 && calls == []
    {
      this.tokens, this.env, pos, calls := tokens, env, 0, [];
    }

    ghost predicate Valid() reads this { pos <= |tokens| }

    ghost function Ahead(): seq<Token>
      requires Valid()
      reads this
    {
      tokens[pos..]
    }

    /** The references read since position `from` are the calls made since then. */
    twostate predicate CalledInOrder()
      requires old(Valid()) && Valid()
      reads this
    {
      old(pos) <= pos && calls == old(calls) + Refs(tokens[old(pos)..pos])
    }

    predicate Peek(k: Kind)
      requires Valid()
      reads this
    {
      pos < |tokens| && tokens[pos].kind == k
    }

    /** Steps over a token that is no reference. */
    method Advance() returns (t: Token)
      requires Valid() && pos < |tokens| && tokens[pos].kind != REF
      modifies this
      ensures Valid() && t == tokens[old(pos)] && pos == old(pos) + 1
      ensures Ahead() == old(Ahead())[1..] && t == old(Ahead())[0]
      ensures CalledInOrder()
    {
      t := tokens[pos];
      pos := pos + 1;
      assert tokens[old(pos)..pos] == [t];
      assert Refs([t]) == [];
    }

    method Resolve() returns (v: Value)
      requires Valid() && Peek(REF)
      modifies this
      ensures Valid() && v == env.resolve(tokens[old(pos)].text) && pos == old(pos) + 1
      ensures Ahead() == old(Ahead())[1..]
      ensures CalledInOrder()
    {
      var t := tokens[pos];
      pos := pos + 1;
      v := env.resolve(t.text);
      calls := calls + [t.text];
      assert tokens[old(pos)..pos] == [t];
      assert Refs([t]) == [t.text];
    }

    method Parse() returns (v: Option<Value>)
      requires Valid() && pos == 0 && calls == []
      modifies this
      ensures v == match ParseAll(tokens) case None => None case Some(e) => Some(Denote(env, e))
      ensures v.Some? ==> calls == Refs(tokens)
    {
      assert Ahead() == tokens;
      v := ParseOr();
      if v.Some? && pos != |tokens| {
        return None;
      }
      assert v.Some? ==> tokens[0..pos] == tokens;
    }

    /** The operator and the operand after it. */
    method OperandOfOr() returns (v: Option<Value>)
      requires Valid() && Peek(OR)
      modifies this
      ensures Valid() && CalledInOrder() && pos > old(pos)
      ensures Agrees(env, Grammar.ParseAnd(old(Ahead())[1..]), v, Ahead())
      decreases |tokens| - pos, 6
    {
      var _ := Advance();
      ghost var p1, c1 := pos, calls;
      v := ParseAnd();
      LogJoin(tokens, old(pos), p1, pos, old(calls), c1, calls);
    }

    method ParseOr() returns (v: Option<Value>)
      requires Valid()
      modifies this
      ensures Valid() && CalledInOrder() && (v.Some? ==> pos > old(pos))
      ensures Agrees(env, Grammar.ParseOr(old(Ahead())), v, Ahead())
      decreases |tokens| - pos, 7
    {
      var first := ParseAnd();
      if first.None? { return None; }
      var left := first.value;
      ghost var e := Grammar.ParseAnd(old(Ahead())).tree;
      while Peek(OR)
        invariant Valid() && CalledInOrder() && pos > old(pos)
        invariant Shaped(e) && left == Denote(env, e)
        invariant Grammar.ParseOr(old(Ahead())) == OrTail(e, Ahead())
        decreases |tokens| - pos
      {
        ghost var ahead, p0, c0 := Ahead(), pos, calls;
        var right := OperandOfOr();
        LogJoin(tokens, old(pos), p0, pos, old(calls), c0, calls);
        if right.None? { return None; }
        left := Bool(CoerceBool(left) || CoerceBool(right.value));
        e := Or(e, Grammar.ParseAnd(ahead[1..]).tree);
      }
      return Some(left);
    }

    /** The operator and the operand after it. */
    method OperandOfAnd() returns (v: Option<Value>)
      requires Valid() && Peek(AND)
      modifies this
      ensures Valid() && CalledInOrder() && pos > old(pos)
      ensures Agrees(env, Grammar.ParseNot(old(Ahead())[1..]), v, Ahead())
      decreases |tokens| - pos, 4
    {
      var _ := Advance();
      ghost var p1, c1 := pos, calls;
      v := ParseNot();
      LogJoin(tokens, old(pos), p1, pos, old(calls), c1, calls);
    }

    method ParseAnd() returns (v: Option<Value>)
      requires Valid()
      modifies this
      ensures Valid() && CalledInOrder() && (v.Some? ==> pos > old(pos))
      ensures Agrees(env, Grammar.ParseAnd(old(Ahead())), v, Ahead())
      decreases |tokens| - pos, 5
    {
      var first := ParseNot();
      if first.None? { return None; }
      var left := first.value;
      ghost var e := Grammar.ParseNot(old(Ahead())).tree;
      while Peek(AND)
        invariant Valid() && CalledInOrder() && pos > old(pos)
        invariant Shaped(e) && left == Denote(env, e)
        invariant Grammar.ParseAnd(old(Ahead())) == AndTail(e, Ahead())
        decreases |tokens| - pos
      {
        ghost var ahead, p0, c0 := Ahead(), pos, calls;
        var right := OperandOfAnd();
        LogJoin(tokens, old(pos), p0, pos, old(calls), c0, calls);
        if right.None? { return None; }
        left := Bool(CoerceBool(left) && CoerceBool(right.value));
        e := And(e, Grammar.ParseNot(ahead[1..]).tree);
      }
      return Some(left);
    }

    method ParseNot() returns (v: Option<Value>)
      requires Valid()
      modifies this
      ensures Valid() && CalledInOrder() && (v.Some? ==> pos > old(pos))
      ensures Agrees(env, Grammar.ParseNot(old(Ahead())), v, Ahead())
      decreases |tokens| - pos, 3
    {
      if !Peek(NOT) {
        v := ParseComparison();
        return;
      }
      var _ := Advance();
      ghost var p1, c1 := pos, calls;
      var inner := ParseNot();
      LogJoin(tokens, old(pos), p1, pos, old(calls), c1, calls);
      if inner.None? { return None; }
      return Some(Bool(!CoerceBool(inner.value)));
    }

    method ParseComparison() returns (v: Option<Value>)
      requires Valid()
      modifies this
      ensures Valid() && CalledInOrder() && (v.Some? ==> pos > old(pos))
      ensures Agrees(env, Grammar.ParseComparison(old(Ahead())), v, Ahead())
      decreases |tokens| - pos, 2
    {
      v := ParsePrimary();
      if v.None? || pos >= |tokens| || !IsComparator(tokens[pos].kind) { return; }
      ghost var p1, c1 := pos, calls;
      v := CompareWith(v.value, old(Ahead()));
      LogJoin(tokens, old(pos), p1, pos, old(calls), c1, calls);
    }

    /** The operator and the right operand of a comparison whose left operand was read from `ts`. */
    method CompareWith(left: Value, ghost ts: seq<Token>) returns (v: Option<Value>)
      requires Valid() && pos < |tokens| && IsComparator(tokens[pos].kind)
      requires Agrees(env, Grammar.ParsePrimary(ts), Some(left), Ahead())
      modifies this
      ensures Valid() && CalledInOrder() && (v.Some? ==> pos > old(pos))
      ensures Agrees(env, Grammar.ParseComparison(ts), v, Ahead())
      decreases |tokens| - pos, 2
    {
      var op := Advance();
      ghost var p1, c1 := pos, calls;
      var right := ParsePrimary();
      LogJoin(tokens, old(pos), p1, pos, old(calls), c1, calls);
      if right.None? { return None; }
      return Some(Bool(CompareValues(env.host, left, op.kind, right.value)));
    }

    method ParsePrimary() returns (v: Option<Value>)
      requires Valid()
      modifies this
      ensures Valid() && CalledInOrder() && (v.Some? ==> pos > old(pos))
      ensures Agrees(env, Grammar.ParsePrimary(old(Ahead())), v, Ahead())
      decreases |tokens| - pos, 1
    {
      if pos >= |tokens| { return None; }
      if Peek(LP) {
        v := ParseGroup();
        return;
      }
      if Peek(REF) {
        var r := Resolve();
        return Some(r);
      }
      var t := Advance();
      if !IsOperand(t.kind) { return None; }
      return Some(LeafValue(env, t));
    }

    /** The branch of `ParsePrimary` for parentheses. */
    method ParseGroup() returns (v: Option<Value>)
      requires Valid() && Peek(LP)
      modifies this
      ensures Valid() && CalledInOrder() && (v.Some? ==> pos > old(pos))
      ensures Agrees(env, Grammar.ParsePrimary(old(Ahead())), v, Ahead())
      decreases |tokens| - pos, 0
    {
      var _ := Advance();
      ghost var p1, c1 := pos, calls;
      v := ParseOr();
      ghost var p2, c2 := pos, calls;
      LogJoin(tokens, old(pos), p1, p2, old(calls), c1, c2);
      if v.None? || !Peek(RP) { return None; }
      var _ := Advance();
      LogJoin(tokens, old(pos), p2, pos, old(calls), c2, calls);
    }
  }

  // ------------------------------------------------------------------ entry points

  function ConditionTokens(s: string): Option<seq<Token>> {
    Tokens(RulesFor(KINDS), StripBraces(s))
  }

  /** The only tree of a condition text, when it has one. */
  function ConditionTree(s: string): (e: Option<Expr>)
    ensures e.Some? ==> Shaped(e.value)
  {
    match ConditionTokens(s)
    case None => None
    case Some(ts) => ParseAll(ts)
  }

  /** What evaluating a condition means; only texts are parsed. */
  function Meaning(env: Env, expr: Value): Outcome {
    match expr
    case Bool(b) => Ok(b)
    case Null => Ok(false)
    case Str(s) =>
      (match ConditionTree(s)
       case None => ConditionError
       case Some(e) => Ok(CoerceBool(Denote(env, e))))
    case _ => Ok(CoerceBool(expr))
  }

  method EvaluateCondition(expr: Value, env: Env) returns (r: Outcome, ghost calls: seq<string>)
    ensures r == Meaning(env, expr)
    ensures expr.Bool? ==> r == Ok(expr.b)
    ensures expr.Null? ==> r == Ok(false)
    ensures expr.Num? ==> r == Ok(expr.n != 0.0)
    ensures expr.Coll? ==> r == Ok(expr.size > 0)
    ensures expr.Other? ==> r == Ok(expr.truthy)
    ensures r.Ok? && expr.Str? ==> ConditionTokens(expr.s).Some? && calls == Refs(ConditionTokens(expr.s).value)
    ensures !expr.Str? ==> calls == []
  {
    calls := [];
    if expr.Bool? { return Ok(expr.b), calls; }
    if expr.Null? { return Ok(false), calls; }
    if !expr.Str? { return Ok(CoerceBool(expr)), calls; }
    var tokens := Tokenize(RulesFor(KINDS), StripBraces(expr.s));
    if tokens.None? || tokens.value == [] { return ConditionError, calls; }
    var parser := new Parser(tokens.value, env);
    var value := parser.Parse();
    calls := parser.calls;
    if value.None? { return ConditionError, calls; }
    return Ok(CoerceBool(value.value)), calls;
  }

  function NoValue(): string -> Value { _ => Null }

  /** The linter's check: evaluation with a resolver that knows nothing. */
  method ValidateConditionSyntax(expr: Value, host: Host) returns (ok: bool)
    ensures forall env :: ok <==> Meaning(env, expr).Ok?
  {
    var r, _ := EvaluateCondition(expr, Env(NoValue(), host));
    return r.Ok?;
  }

  // ------------------------------------------------------------------ the accepted texts

  lemma {:induction false} PiecesAreRegular(kinds: seq<Kind>, s: string)
    requires Scan(RulesFor(kinds), s).Some?
    ensures Regular(Scan(RulesFor(kinds), s).value)
  {
    if s != "" {
      var t := NextPiece(RulesFor(kinds), s).value;
      var i := FirstOfSplits(RulesFor(kinds), s);
      PiecesAreRegular(kinds, s[|t.text|..]);
      assert Scan(RulesFor(kinds), s).value == [t] + Scan(RulesFor(kinds), s[|t.text|..]).value;
    }
  }

  lemma {:induction false} VisibleAreRegular(pieces: seq<Token>)
    requires Regular(pieces)
    ensures Regular(Visible(pieces))
  {
    if pieces != [] { VisibleAreRegular(pieces[1..]); }
  }

  lemma TokensAreRegular(kinds: seq<Kind>, s: string)
    requires Tokens(RulesFor(kinds), s).Some?
    ensures Regular(Tokens(RulesFor(kinds), s).value)
  {
    PiecesAreRegular(kinds, s);
    VisibleAreRegular(Scan(RulesFor(kinds), s).value);
  }

  /** A text is accepted, whatever the resolver, if and only if its tokens are a sentence. */
  lemma AcceptsExactlySentences(env: Env, s: string)
    ensures Meaning(env, Str(s)).Ok? <==> exists e :: Derives(0, e) && ConditionTokens(s) == Some(Toks(e))
  {
    if ConditionTokens(s).Some? {
      var ts := ConditionTokens(s).value;
      TokensAreRegular(KINDS, StripBraces(s));
      if ConditionTree(s).Some? { ParserIsExact(ts, ConditionTree(s).value); }
      forall e | Derives(0, e) && ts == Toks(e) ensures ConditionTree(s) == Some(e) { ParserIsExact(ts, e); }
    }
  }

  /** The value of a sentence is that of its derivation. */
  lemma EvaluatesToDenotation(env: Env, s: string, e: Expr)
    requires Derives(0, e) && ConditionTokens(s) == Some(Toks(e))
    ensures Shaped(e) && Meaning(env, Str(s)) == Ok(CoerceBool(Denote(env, e)))
  {
    DerivedIsShaped(0, e);
    TokensAreRegular(KINDS, StripBraces(s));
    ParserIsExact(Toks(e), e);
  }

  // ------------------------------------------------------------------ print, then evaluate

  lemma EarlierSymbolFails(j: Kind, k: Kind)
    requires Symbol(k) != "" && Position(j) < Position(k)
    ensures MatchLen(j, Symbol(k)) == 0
  {
    var s := Symbol(k);
    if MatchLen(j, s) > 0 {
      MatchStartsInitial(j, s);
      InitialFamily(j, s[0]);
      InitialFamily(k, s[0]);
      OneFamily(j, k);
    }
  }

  lemma SymbolIsLexeme(k: Kind)
    requires Symbol(k) != ""
    ensures IsLexeme(KINDS, Fixed(k))
  {
    var s, i := Symbol(k), Position(k);
    var rules := RulesFor(KINDS);
    KindsHavePositions();
    forall j | 0 <= j < i ensures !Matches(rules[j], s) { EarlierSymbolFails(KINDS[j], k); }
    SymbolMatches(k);
    FirstOfIs(rules, s, i);
    assert s[..|s|] == s;
  }

  lemma SymbolMatches(k: Kind)
    requires Symbol(k) != ""
    ensures MatchLen(k, Symbol(k)) == |Symbol(k)|
  {
    var s := Symbol(k);
    assert s[..|s|] == s;
  }

  lemma KindsHavePositions()
    ensures forall i :: 0 <= i < |KINDS| ==> Position(KINDS[i]) == i
    ensures forall k: Kind :: Position(k) < |KINDS| && KINDS[Position(k)] == k
  {}

  /** Every operand of the tree is a token of its own text. */
  predicate Lexical(e: Expr) {
    match e
    case Or(l, r) => Lexical(l) && Lexical(r)
    case And(l, r) => Lexical(l) && Lexical(r)
    case Not(i) => Lexical(i)
    case Compare(l, _, r) => Lexical(l) && Lexical(r)
    case Paren(i) => Lexical(i)
    case Leaf(t) => IsLexeme(KINDS, t)
  }

  lemma {:induction false} TokensAreLexemes(e: Expr)
    requires Shaped(e) && Lexical(e)
    ensures forall t :: t in Toks(e) ==> IsLexeme(KINDS, t)
  {
    match e
    case Or(l, r) => SymbolIsLexeme(OR); TokensAreLexemes(l); TokensAreLexemes(r);
    case And(l, r) => SymbolIsLexeme(AND); TokensAreLexemes(l); TokensAreLexemes(r);
    case Not(i) => SymbolIsLexeme(NOT); TokensAreLexemes(i);
    case Compare(l, op, r) => SymbolIsLexeme(op); TokensAreLexemes(l); TokensAreLexemes(r);
    case Paren(i) => SymbolIsLexeme(LP); SymbolIsLexeme(RP); TokensAreLexemes(i);
    case Leaf(_) =>
  }

  /** The added parentheses change neither the shape's operands nor the value. */
  lemma {:induction false} BracketMeansTheSame(env: Env, level: nat, e: Expr)
    requires Shaped(e) && Lexical(e) && level <= 4
    ensures Shaped(Bracket(level, e)) && Lexical(Bracket(level, e))
    ensures Denote(env, Bracket(level, e)) == Denote(env, e)
    decreases e
  {
    match e
    case Or(l, r) => BracketMeansTheSame(env, 0, l); BracketMeansTheSame(env, 1, r);
    case And(l, r) => BracketMeansTheSame(env, 1, l); BracketMeansTheSame(env, 2, r);
    case Not(i) => BracketMeansTheSame(env, 2, i);
    case Compare(l, op, r) => BracketMeansTheSame(env, 4, l); BracketMeansTheSame(env, 4, r);
    case Paren(i) => BracketMeansTheSame(env, 0, i);
    case Leaf(_) =>
  }

  /** A text that begins and ends with a character stripping leaves alone. */
  predicate Solid(s: string) {
    EndsSolid(s) && !IsSpace(s[0])
  }

  lemma SolidIsStripped(s: string)
    requires Solid(s)
    ensures Strip(s) == s
  {
    SpanIs(s, IsSpace, 0);
    assert s[0..] == s;
  }

  lemma LexemeEdges(t: Token)
    requires IsLexeme(KINDS, t)
    ensures Solid(t.text) && t.text[0] != '{'
  {
    LexemeStarts(KINDS, t);
    var i := FirstOfSplits(RulesFor(KINDS), t.text);
    MatchStartsInitial(KINDS[i], t.text);
    MatchEnds(KINDS[i], t.text);
  }

  lemma {:induction false} RenderingIsSolid(ts: seq<Token>)
    requires ts != [] && forall t :: t in ts ==> IsLexeme(KINDS, t)
    ensures Solid(Render(ts)) && Render(ts)[0] == ts[0].text[0] != '{'
  {
    LexemeEdges(ts[0]);
    if |ts| > 1 { RenderingIsSolid(ts[1..]); }
  }

  /** Printing any tree with the parentheses its precedence needs, with or without the outer
      braces, and evaluating the text gives the tree's value. */
  lemma PrintThenEvaluate(env: Env, e: Expr)
    requires Shaped(e) && Lexical(e)
    ensures var text := Render(Toks(Bracket(0, e)));
      && Meaning(env, Str(text)) == Ok(CoerceBool(Denote(env, e)))
      && Meaning(env, Str(OPEN + text + CLOSE)) == Ok(CoerceBool(Denote(env, e)))
  {
    var b := Bracket(0, e);
    var text := Render(Toks(b));
    BracketMeansTheSame(env, 0, e);
    BracketDerives(0, e);
    TokensAreLexemes(b);
    RenderThenTokenize(Toks(b));
    RenderingIsSolid(Toks(b));
    UnbracedText(text);
    EvaluatesToDenotation(env, text, b);
    EvaluatesToDenotation(env, OPEN + text + CLOSE, b);
  }

  lemma UnbracedText(text: string)
    requires Solid(text) && text[0] != '{'
    ensures StripBraces(text) == text && StripBraces(OPEN + text + CLOSE) == text
  {
    var braced := OPEN + text + CLOSE;
    SolidIsStripped(text);
    SolidIsStripped(braced);
    assert braced[2..|braced| - 2] == text;
    assert braced[..2] == OPEN && braced[|braced| - 2..] == CLOSE;
    if Starts(text, OPEN) { StartsWithFirst(text, OPEN); }
  }

  // ------------------------------------------------------------------ literals

  lemma AloneInFamily(j: Kind, k: Kind, s: string)
    requires k in {STR, KW, REF, NUM} && j != k && s != "" && Initial(k, s[0])
    ensures MatchLen(j, s) == 0
  {
    if MatchLen(j, s) > 0 {
      MatchStartsInitial(j, s);
      InitialFamily(j, s[0]);
      InitialFamily(k, s[0]);
    }
  }

  /** An operand that matches its own pattern whole is a lexeme. */
  lemma OperandIsLexeme(k: Kind, s: string)
    requires IsOperand(k) && MatchLen(k, s) == |s| > 0
    ensures IsLexeme(KINDS, Token(k, s))
  {
    var i, rules := Position(k), RulesFor(KINDS);
    KindsHavePositions();
    MatchStartsInitial(k, s);
    forall j | 0 <= j < i ensures !Matches(rules[j], s) { AloneInFamily(KINDS[j], k, s); }
    FirstOfIs(rules, s, i);
    assert s[..|s|] == s;
  }

  /** Any text in quotes it does not contain is a string literal, and its value is the text. */
  lemma QuotedText(env: Env, quote: char, s: string)
    requires (quote == '\'' || quote == '"') && forall i :: 0 <= i < |s| ==> s[i] != quote
    ensures var t := Token(STR, [quote] + s + [quote]); IsLexeme(KINDS, t) && LeafValue(env, t) == Str(s)
  {
    var text := [quote] + s + [quote];
    assert text[1..] == s + [quote];
    SpanIs(s + [quote], Lexer.Not(quote), |s|);
    OperandIsLexeme(STR, text);
    assert text[1..|text| - 1] == s;
  }

  predicate AllDigits(s: string) { s != "" && forall i :: 0 <= i < |s| ==> '0' <= s[i] <= '9' }

  /** A number is digits, with or without a minus before them and a point and digits after them ... */
  lemma NumberIsOperand(sign: string, whole: string, frac: string)
    requires (sign == "" || sign == "-") && AllDigits(whole)
    requires frac == "" || (frac[0] == '.' && AllDigits(frac[1..]))
    ensures IsLexeme(KINDS, Token(NUM, sign + whole + frac))
  {
    var t := whole + frac;
    UnsignedIsWhole(t, whole, frac);
    assert sign + whole + frac == sign + t;
    if sign == "-" { assert (sign + t)[1..] == t; } else { assert sign + t == t; }
    OperandIsLexeme(NUM, sign + t);
  }

  lemma UnsignedIsWhole(t: string, whole: string, frac: string)
    requires t == whole + frac && AllDigits(whole) && (frac == "" || (frac[0] == '.' && AllDigits(frac[1..])))
    ensures t != "" && t[0] != '-' && WholeLen(t) == |t|
  {
    SpanIs(t, IsDigit, |whole|);
    assert t[|whole|..] == frac;
    if frac != "" { SpanIs(frac[1..], IsDigit, |frac| - 1); }
  }

  lemma NumberLexeme(t: string)
    requires IsLexeme(KINDS, Token(NUM, t))
    ensures NumLen(t) == |t| > 0
  {
    var i := FirstOfSplits(RulesFor(KINDS), t);
  }

  /** ... and nothing else. */
  lemma OnlyNumbers(t: string) returns (sign: string, whole: string, frac: string)
    requires IsLexeme(KINDS, Token(NUM, t))
    ensures (sign == "" || sign == "-") && AllDigits(whole)
    ensures frac == "" || (frac[0] == '.' && AllDigits(frac[1..]))
    ensures t == sign + whole + frac
  {
    NumberLexeme(t);
    sign := if t[0] == '-' then "-" else "";
    var u := t[|sign|..];
    assert t == sign + u;
    whole, frac := WholeAndFraction(u);
    Reassociate(sign, whole, frac);
  }

  lemma WholeAndFraction(u: string) returns (whole: string, frac: string)
    requires WholeLen(u) == |u| > 0
    ensures AllDigits(whole) && u == whole + frac
    ensures frac == "" || (frac[0] == '.' && AllDigits(frac[1..]))
  {
    whole, frac := u[..Digits(u)], u[Digits(u)..];
  }

  /** Names with a dot between each two. */
  function Dotted(names: seq<string>): string
    requires names != []
  {
    if |names| == 1 then names[0] else names[0] + ("." + Dotted(names[1..]))
  }

  predicate AllWords(names: seq<string>) {
    forall i :: 0 <= i < |names| ==> names[i] != "" && forall c :: c in names[i] ==> IsWord(c)
  }

  lemma {:induction false} DottedIsPath(names: seq<string>)
    requires names != [] && AllWords(names)
    ensures Dotted(names) != "" && PathLen(Dotted(names)) == |Dotted(names)|
  {
    var (w, s) := (names[0], Dotted(names));
    assert forall j :: 0 <= j < |w| ==> IsWord(w[j]);
    if |names| == 1 {
      SpanIs(s, IsWord, |w|);
      assert s[|w|..] == "";
    } else {
      DottedIsPath(names[1..]);
      SpanIs(s, IsWord, |w|);
      var rest := "." + Dotted(names[1..]);
      assert s[|w|..] == rest && rest[1..] == Dotted(names[1..]);
    }
  }

  lemma QuotedIsArgument(quote: char, s: string, r: string)
    requires (quote == '\'' || quote == '"') && forall i :: 0 <= i < |s| ==> s[i] != quote
    requires r != "" && !IsSpace(r[0])
    ensures ArgLen(Argument(quote, s, r)) == |s| + 2
  {
    var t := [quote] + s + [quote] + r;
    SpanIs(t, IsSpace, 0);
    assert t[0..] == t && t[1..] == s + [quote] + r;
    SpanIs(t[1..], Lexer.Not(quote), |s|);
    assert t[|s| + 2..] == r;
    SpanIs(r, IsSpace, 0);
  }

  /** The references: a field of the form by its path, ... */
  lemma FormReference(names: seq<string>)
    requires names != [] && AllWords(names)
    ensures IsLexeme(KINDS, Token(REF, FORM + Dotted(names)))
  {
    var s := FORM + Dotted(names);
    DottedIsPath(names);
    assert s[..6] == FORM && s[6..] == Dotted(names);
    OperandIsLexeme(REF, s);
  }

  lemma StepMatches(arg: string)
    requires StepArgLen(arg) == |arg| > 0
    ensures MatchLen(REF, STEP + arg) == 6 + |arg|
  {
    PrefixChars(arg);
    StepLenIs(STEP + arg, arg);
  }

  lemma StepLenIs(s: string, arg: string)
    requires |s| >= 6 && s[..6] == STEP && s[1] == 's' && s[6..] == arg && StepArgLen(arg) == |arg| > 0
    ensures MatchLen(REF, s) == 6 + |arg|
  {
    OtherPrefix(s, FORM);
  }

  lemma NotForm(s: string, c: char)
    requires |s| >= 2 && s[1] == c && c != 'f' && c != 's'
    ensures !Starts(s, FORM) && !Starts(s, STEP)
  {
    if |s| >= 6 { assert s[..6][1] == s[1] && FORM[1] == 'f' && STEP[1] == 's'; }
  }

  lemma EnvOnly(s: string, n: nat)
    requires !Starts(s, FORM) && !Starts(s, STEP) && EnvLen(s) == n > 0
    ensures MatchLen(REF, s) == n
  {}

  lemma EnvIsOperand(s: string)
    requires |s| >= 2 && s[1] == 'e' && EnvLen(s) == |s|
    ensures IsLexeme(KINDS, Token(REF, s))
  {
    NotForm(s, 'e');
    EnvOnly(s, |s|);
    OperandIsLexeme(REF, s);
  }

  lemma Prefixed(p: string, arg: string)
    ensures (p + arg)[..|p|] == p && (p + arg)[|p|..] == arg
    ensures forall i :: 0 <= i < |p| ==> (p + arg)[i] == p[i]
  {}

  lemma PrefixChars(arg: string)
    ensures (SECRET + arg)[..8] == SECRET && (SECRET + arg)[8..] == arg
    ensures (SECRET + arg)[1] == 's' && (SECRET + arg)[2] == 'e'
    ensures (ENV + arg)[..5] == ENV && (ENV + arg)[5..] == arg && (ENV + arg)[1] == 'e'
    ensures (STEP + arg)[..6] == STEP && (STEP + arg)[6..] == arg && (STEP + arg)[1] == 's'
  {
    Prefixed(SECRET, arg);
    Prefixed(ENV, arg);
    Prefixed(STEP, arg);
  }

  lemma EnvStarts(arg: string)
    requires EnvArgLen(arg) == |arg| > 0
    ensures EnvLen(ENV + arg) == 5 + |arg| && (ENV + arg)[1] == 'e'
  {
    PrefixChars(arg);
    EnvLenIs(ENV + arg, arg);
  }

  lemma EnvLenIs(s: string, arg: string)
    requires |s| >= 5 && s[..5] == ENV && s[5..] == arg && EnvArgLen(arg) == |arg| > 0
    ensures EnvLen(s) == 5 + |arg|
  {}

  lemma SecretIsOperand(s: string)
    requires |s| >= 3 && s[1] == 's' && s[2] == 'e' && SecretLen(s) == |s|
    ensures IsLexeme(KINDS, Token(REF, s))
  {
    OtherPrefix(s, FORM);
    OtherPrefix(s, STEP);
    OtherPrefix(s, ENV);
    SecretOnly(s, |s|);
    OperandIsLexeme(REF, s);
  }

  lemma SecretOnly(s: string, n: nat)
    requires !Starts(s, FORM) && !Starts(s, STEP) && !Starts(s, ENV) && SecretLen(s) == n > 0
    ensures MatchLen(REF, s) == n
  {}

  lemma SecretStarts(arg: string)
    requires LastArgLen(arg) == |arg| > 0
    ensures SecretLen(SECRET + arg) == 8 + |arg|
    ensures (SECRET + arg)[1] == 's' && (SECRET + arg)[2] == 'e'
  {
    PrefixChars(arg);
    SecretLenIs(SECRET + arg, arg);
  }

  lemma SecretLenIs(s: string, arg: string)
    requires |s| >= 8 && s[..8] == SECRET && s[8..] == arg && LastArgLen(arg) == |arg| > 0
    ensures SecretLen(s) == 8 + |arg|
  {
  }

  /** A quoted argument and what comes after it. */
  function Argument(quote: char, text: string, end: string): string { [quote] + text + [quote] + end }

  lemma StepArgument(quote: char, id: string, end: string)
    requires (quote == '\'' || quote == '"') && forall i :: 0 <= i < |id| ==> id[i] != quote
    requires end != "" && end[0] == ')' && StepEndLen(end) == |end|
    ensures StepArgLen(Argument(quote, id, end)) == |Argument(quote, id, end)|
  {
    QuotedIsArgument(quote, id, end);
    assert Argument(quote, id, end)[|id| + 2..] == end;
  }

  lemma LastArgument(quote: char, name: string)
    requires (quote == '\'' || quote == '"') && forall i :: 0 <= i < |name| ==> name[i] != quote
    ensures LastArgLen(Argument(quote, name, ")")) == |name| + 3
  {
    QuotedIsArgument(quote, name, ")");
    assert Argument(quote, name, ")")[|name| + 2..] == ")";
  }

  lemma EnvArgument(quote: char, name: string, end: string)
    requires (quote == '\'' || quote == '"') && forall i :: 0 <= i < |name| ==> name[i] != quote
    requires end != "" && !IsSpace(end[0]) && EnvEndLen(end) == |end|
    ensures EnvArgLen(Argument(quote, name, end)) == |Argument(quote, name, end)|
  {
    QuotedIsArgument(quote, name, end);
    assert Argument(quote, name, end)[|name| + 2..] == end;
  }

  /** ... a step's output by its quoted id, ... */
  lemma StepReference(quote: char, id: string)
    requires (quote == '\'' || quote == '"') && forall i :: 0 <= i < |id| ==> id[i] != quote
    ensures IsLexeme(KINDS, Token(REF, STEP + Argument(quote, id, ")")))
  {
    assert ")"[1..] == "";
    StepArgument(quote, id, ")");
    StepMatches(Argument(quote, id, ")"));
    OperandIsLexeme(REF, STEP + Argument(quote, id, ")"));
  }

  lemma PathEnds(path: string)
    requires path != "" && PathLen(path) == |path|
    ensures StepEndLen(")" + ("." + path)) == |path| + 2
  {
    var dotted := "." + path;
    assert dotted[1..] == path && (")" + dotted)[1..] == dotted;
  }

  /** ... or a part of it by the path to it, ... */
  lemma StepReferenceByPath(quote: char, id: string, names: seq<string>)
    requires (quote == '\'' || quote == '"') && forall i :: 0 <= i < |id| ==> id[i] != quote
    requires names != [] && AllWords(names)
    ensures IsLexeme(KINDS, Token(REF, STEP + Argument(quote, id, ")" + ("." + Dotted(names)))))
  {
    var end := ")" + ("." + Dotted(names));
    DottedIsPath(names);
    PathEnds(Dotted(names));
    StepArgument(quote, id, end);
    StepMatches(Argument(quote, id, end));
    OperandIsLexeme(REF, STEP + Argument(quote, id, end));
  }

  /** ... an environment variable by its quoted name, ... */
  lemma EnvReference(quote: char, name: string)
    requires (quote == '\'' || quote == '"') && forall i :: 0 <= i < |name| ==> name[i] != quote
    ensures IsLexeme(KINDS, Token(REF, ENV + Argument(quote, name, ")")))
  {
    EnvArgument(quote, name, ")");
    EnvStarts(Argument(quote, name, ")"));
    EnvIsOperand(ENV + Argument(quote, name, ")"));
  }

  lemma DefaultEnds(quote: char, other: string)
    requires (quote == '\'' || quote == '"') && forall i :: 0 <= i < |other| ==> other[i] != quote
    ensures EnvEndLen("," + Argument(quote, other, ")")) == |other| + 4
  {
    var last := Argument(quote, other, ")");
    LastArgument(quote, other);
    assert ("," + last)[1..] == last;
  }

  /** ... also with a quoted default, ... */
  lemma EnvReferenceWithDefault(quote: char, name: string, other: string)
    requires (quote == '\'' || quote == '"') && forall i :: 0 <= i < |name| ==> name[i] != quote
    requires forall i :: 0 <= i < |other| ==> other[i] != quote
    ensures IsLexeme(KINDS, Token(REF, ENV + Argument(quote, name, "," + Argument(quote, other, ")"))))
  {
    var end := "," + Argument(quote, other, ")");
    DefaultEnds(quote, other);
    EnvArgument(quote, name, end);
    EnvStarts(Argument(quote, name, end));
    EnvIsOperand(ENV + Argument(quote, name, end));
  }

  /** ... and a secret by its quoted name. */
  lemma SecretReference(quote: char, name: string)
    requires (quote == '\'' || quote == '"') && forall i :: 0 <= i < |name| ==> name[i] != quote
    ensures IsLexeme(KINDS, Token(REF, SECRET + Argument(quote, name, ")")))
  {
    LastArgument(quote, name);
    SecretStarts(Argument(quote, name, ")"));
    SecretIsOperand(SECRET + Argument(quote, name, ")"));
  }

  lemma OtherPrefix(s: string, p: string)
    requires |s| >= 3 && |p| >= 3 && (s[1] != p[1] || s[2] != p[2])
    ensures !Starts(s, p)
  {
    if |p| <= |s| { assert s[..|p|][1] == s[1] && s[..|p|][2] == s[2]; }
  }

  /** The keywords are true, false and null in any case, and nothing else. */
  lemma KeywordMeaning(env: Env, t: Token)
    requires IsLexeme(KINDS, t) && t.kind == KW
    ensures LeafValue(env, t) == Bool(true) <==> Lower(t.text) == "true"
    ensures LeafValue(env, t) == Bool(false) <==> Lower(t.text) == "false"
    ensures LeafValue(env, t) == Null <==> Lower(t.text) == "null"
  {
    var i := FirstOfSplits(RulesFor(KINDS), t.text);
    var w :=
      if KeywordLen(t.text, "true") > 0 then "true" else if KeywordLen(t.text, "false") > 0 then "false" else "null";
    assert t.text[..|w|] == t.text;
  }

  // ------------------------------------------------------------------ what printed conditions come to

  /** The text of a tree, with the parentheses its precedence needs. */
  function Printed(e: Expr): string { Render(Toks(Bracket(0, e))) }

  /** When two conditions come to `x` and `y`, the text that joins them by "||" comes to their disjunction
      and the one that joins them by "&&" to their conjunction; negated by "!" the first comes to the
      opposite, and in parentheses to the same. */
  lemma ConnectivesMean(env: Env, l: Expr, r: Expr, x: bool, y: bool)
    requires Shaped(l) && Lexical(l) && Shaped(r) && Lexical(r)
    requires Meaning(env, Str(Printed(l))) == Ok(x) && Meaning(env, Str(Printed(r))) == Ok(y)
    ensures Meaning(env, Str(Printed(Or(l, r)))) == Ok(x || y)
    ensures Meaning(env, Str(Printed(And(l, r)))) == Ok(x && y)
    ensures Meaning(env, Str(Printed(Expr.Not(l)))) == Ok(!x)
    ensures Meaning(env, Str(Printed(Paren(l)))) == Ok(x)
  {
    PrintThenEvaluate(env, l);
    PrintThenEvaluate(env, r);
    PrintThenEvaluate(env, Or(l, r));
    PrintThenEvaluate(env, And(l, r));
    PrintThenEvaluate(env, Expr.Not(l));
    PrintThenEvaluate(env, Paren(l));
  }

  /** A tree that the grammar derives is printed as its tokens stand. */
  lemma SentenceMeans(env: Env, e: Expr)
    requires Derives(0, e) && Lexical(e)
    ensures Shaped(e) && Meaning(env, Str(Render(Toks(e)))) == Ok(CoerceBool(Denote(env, e)))
  {
    DerivedIsShaped(0, e);
    BracketAddsOnlyNeeded(0, e);
    PrintThenEvaluate(env, e);
  }

  /** A token that is an operand. */
  predicate Operand(t: Token) { IsOperand(t.kind) && IsLexeme(KINDS, t) }

  /** A single operand comes to whether its value is true: of text it is, unless nothing or one of five
      words is left when blanks and case are ignored; of a number, unless it is zero; of a list or an
      object, unless it is empty. */
  lemma OperandMeans(env: Env, t: Token)
    requires Operand(t)
    ensures Meaning(env, Str(t.text))
         == Ok(match LeafValue(env, t)
               case Bool(b) => b
               case Null => false
               case Num(n, _) => n != 0.0
               case Str(s) =>
                 (var u := Lower(Strip(s));
                  && u != "" && u != "false" && u != "no" && u != "0" && u != "null" && u != "none")
               case Coll(size, _) => size > 0
               case Other(truthy, _) => truthy)
  {
    LeafMeans(env, t);
    TruthIs(LeafValue(env, t));
  }

  lemma TruthIs(v: Value)
    ensures CoerceBool(v)
      == match v
         case Bool(b) => b
         case Null => false
         case Num(n, _) => n != 0.0
         case Str(s) =>
           (var u := Lower(Strip(s));
            && u != "" && u != "false" && u != "no" && u != "0" && u != "null" && u != "none")
         case Coll(size, _) => size > 0
         case Other(truthy, _) => truthy
  {}

  lemma LeafMeans(env: Env, t: Token)
    requires Operand(t)
    ensures Meaning(env, Str(t.text)) == Ok(CoerceBool(LeafValue(env, t)))
  {
    SentenceMeans(env, Leaf(t));
    assert Render([t]) == t.text;
  }

  /** A reference stands for what the resolver gives, a number for what the host reads. */
  lemma OperandStandsFor(env: Env, t: Token)
    requires t.kind == REF || t.kind == NUM
    ensures t.kind == REF ==> LeafValue(env, t) == env.resolve(t.text)
    ensures t.kind == NUM ==> LeafValue(env, t) == env.host.literal(t.text)
  {}

  /** Words with a blank between each two. */
  function Spaced(words: seq<string>): string
    requires words != []
  {
    if |words| == 1 then words[0] else words[0] + " " + Spaced(words[1..])
  }

  function Texts(ts: seq<Token>): (words: seq<string>)
    ensures |words| == |ts|
  {
    seq(|ts|, i requires 0 <= i < |ts| => ts[i].text)
  }

  lemma TextsAround(a: seq<Token>, t: Token, b: seq<Token>)
    ensures Texts(a + [t] + b) == Texts(a) + [t.text] + Texts(b)
    ensures Texts([t] + a) == [t.text] + Texts(a)
  {}

  lemma TextsGrouped(ts: seq<Token>)
    ensures Texts([Fixed(LP)] + ts + [Fixed(RP)]) == ["("] + Texts(ts) + [")"]
  {}

  lemma {:induction false} RenderIsSpaced(ts: seq<Token>)
    requires ts != []
    ensures Render(ts) == Spaced(Texts(ts))
  {
    if |ts| > 1 {
      RenderIsSpaced(ts[1..]);
      assert Texts(ts)[1..] == Texts(ts[1..]);
    }
  }

  /** What a value is as a number, when it is one. A boolean is none, however it prints. */
  ghost predicate HasNumber(host: Host, v: Value, n: Option<real>) {
    match v
    case Num(x, _) => n == Some(x)
    case Str(s) => n == host.floatOf(s)
    case _ => n == None
  }

  /** What it is as text. */
  ghost predicate HasText(v: Value, text: string) {
    match v
    case Null => text == ""
    case Bool(b) => text == if b then "true" else "false"
    case Num(_, t) => text == t
    case Str(t) => text == t
    case Coll(_, t) => text == t
    case Other(_, t) => text == t
  }

  lemma ComparisonSentence(l: Token, op: Kind, r: Token)
    requires Operand(l) && Operand(r) && IsComparator(op)
    ensures var e := Compare(Leaf(l), op, Leaf(r));
      && Derives(3, e) && Lexical(e) && Toks(e) == [l, Fixed(op), r]
      && Render(Toks(e)) == Spaced([l.text, Symbol(op), r.text])
  {
    var e := Compare(Leaf(l), op, Leaf(r));
    assert Toks(e) == [l, Fixed(op), r];
    RenderIsSpaced(Toks(e));
    assert Texts([l, Fixed(op), r]) == [l.text, Symbol(op), r.text];
  }

  lemma ComparedMeans(env: Env, l: Token, op: Kind, r: Token)
    requires Operand(l) && Operand(r) && IsComparator(op)
    ensures Meaning(env, Str(Spaced([l.text, Symbol(op), r.text])))
         == Ok(CompareValues(env.host, LeafValue(env, l), op, LeafValue(env, r)))
  {
    ComparisonSentence(l, op, r);
    SentenceComesTo(env, Compare(Leaf(l), op, Leaf(r)), Spaced([l.text, Symbol(op), r.text]),
                    Bool(CompareValues(env.host, LeafValue(env, l), op, LeafValue(env, r))));
  }

  lemma SentenceComesTo(env: Env, e: Expr, text: string, v: Value)
    requires Derives(0, e) && Lexical(e) && Render(Toks(e)) == text && Shaped(e) && Denote(env, e) == v
    ensures Meaning(env, Str(text)) == Ok(CoerceBool(v))
  {
    SentenceMeans(env, e);
  }

  lemma ComparedAs(host: Host, v: Value, op: Kind, w: Value, x: Option<real>, y: Option<real>, s: string, t: string)
    requires IsComparator(op) && HasNumber(host, v, x) && HasNumber(host, w, y) && HasText(v, s) && HasText(w, t)
    ensures CompareValues(host, v, op, w)
      == if x.Some? && y.Some? then
           (if op == EQ then x.value == y.value else if op == NE then x.value != y.value
            else if op == LT then x.value < y.value else if op == LE then x.value <= y.value
            else if op == GT then x.value > y.value else x.value >= y.value)
         else
           (if op == EQ then s == t else if op == NE then s != t
            else if op == LT then Ordering.LexLess(s, t) else if op == LE then !Ordering.LexLess(t, s)
            else if op == GT then Ordering.LexLess(t, s) else !Ordering.LexLess(s, t))
  {
    Ordering.LexTrichotomy(s, t);
  }

  /** Two operands with a comparison between them: when both are numbers they are compared as numbers, and
      otherwise as text. */
  lemma ComparisonMeans(env: Env, l: Token, op: Kind, r: Token, x: Option<real>, y: Option<real>, s: string, t: string)
    requires Operand(l) && Operand(r) && IsComparator(op)
    requires HasNumber(env.host, LeafValue(env, l), x) && HasNumber(env.host, LeafValue(env, r), y)
    requires HasText(LeafValue(env, l), s) && HasText(LeafValue(env, r), t)
    ensures var m := Meaning(env, Str(Spaced([l.text, Symbol(op), r.text])));
      if x.Some? && y.Some? then
        m == Ok(if op == EQ then x.value == y.value else if op == NE then x.value != y.value
                else if op == LT then x.value < y.value else if op == LE then x.value <= y.value
                else if op == GT then x.value > y.value else x.value >= y.value)
      else
        m == Ok(if op == EQ then s == t else if op == NE then s != t
                else if op == LT then Ordering.LexLess(s, t) else if op == LE then !Ordering.LexLess(t, s)
                else if op == GT then Ordering.LexLess(t, s) else !Ordering.LexLess(s, t))
  {
    ComparedMeans(env, l, op, r);
    ComparedAs(env.host, LeafValue(env, l), op, LeafValue(env, r), x, y, s, t);
  }

  /** The comparators and the connectives as they are written. */
  lemma SymbolsAre()
    ensures Symbol(EQ) == "==" && Symbol(NE) == "!=" && Symbol(LT) == "<" && Symbol(LE) == "<="
    ensures Symbol(GT) == ">" && Symbol(GE) == ">="
    ensures Symbol(AND) == "&&" && Symbol(OR) == "||" && Symbol(Kind.NOT) == "!"
  {}

  // Which operator binds how strongly.

  /** `e` is a derivation whose words are `words` and whose value is true or false as `x` says. */
  ghost predicate Reads(env: Env, e: Expr, level: nat, words: seq<string>, x: bool) {
    Derives(level, e) && Lexical(e) && Shaped(e) && CoerceBool(Denote(env, e)) == x && words == Texts(Toks(e))
  }

  /** Some derivation from the grammar's nonterminal of the level reads so. */
  ghost predicate Reading(env: Env, level: nat, words: seq<string>, x: bool) {
    exists e :: Reads(env, e, level, words, x)
  }

  lemma ReadingMeans(env: Env, level: nat, words: seq<string>, x: bool)
    requires Reading(env, level, words, x)
    ensures words != [] && Meaning(env, Str(Spaced(words))) == Ok(x)
  {
    var e :| Reads(env, e, level, words, x);
    Weaken(level, 0, e);
    SentenceMeans(env, e);
    RenderIsSpaced(Toks(e));
  }

  lemma OperandReads(env: Env, t: Token, x: bool)
    requires Operand(t) && Meaning(env, Str(t.text)) == Ok(x)
    ensures Reading(env, 4, [t.text], x)
  {
    SentenceMeans(env, Leaf(t));
    assert Render([t]) == t.text && Texts([t]) == [t.text];
    assert Reads(env, Leaf(t), 4, [t.text], x);
  }

  lemma ComparisonReads(env: Env, a: Token, op: Kind, b: Token, x: bool)
    requires Operand(a) && Operand(b) && IsComparator(op)
    requires Meaning(env, Str(Spaced([a.text, Symbol(op), b.text]))) == Ok(x)
    ensures Reading(env, 3, [a.text, Symbol(op), b.text], x)
  {
    var e := Compare(Leaf(a), op, Leaf(b));
    ComparisonSentence(a, op, b);
    SentenceMeans(env, e);
    assert Texts([a, Fixed(op), b]) == [a.text, Symbol(op), b.text];
    assert Reads(env, e, 3, [a.text, Symbol(op), b.text], x);
  }

  lemma OrReads(env: Env, m: nat, u: seq<string>, x: bool, n: nat, v: seq<string>, y: bool)
    requires Reading(env, m, u, x) && Reading(env, n, v, y) && n >= 1
    ensures Reading(env, 0, u + ["||"] + v, x || y)
  {
    var l :| Reads(env, l, m, u, x);
    var r :| Reads(env, r, n, v, y);
    Weaken(m, 0, l);
    Weaken(n, 1, r);
    TextsAround(Toks(l), Fixed(OR), Toks(r));
    assert Reads(env, Or(l, r), 0, u + ["||"] + v, x || y);
  }

  lemma AndReads(env: Env, m: nat, u: seq<string>, x: bool, n: nat, v: seq<string>, y: bool)
    requires Reading(env, m, u, x) && Reading(env, n, v, y) && m >= 1 && n >= 2
    ensures Reading(env, 1, u + ["&&"] + v, x && y)
  {
    var l :| Reads(env, l, m, u, x);
    var r :| Reads(env, r, n, v, y);
    Weaken(m, 1, l);
    Weaken(n, 2, r);
    TextsAround(Toks(l), Fixed(AND), Toks(r));
    assert Reads(env, And(l, r), 1, u + ["&&"] + v, x && y);
  }

  lemma NotReads(env: Env, m: nat, u: seq<string>, x: bool)
    requires Reading(env, m, u, x) && m >= 2
    ensures Reading(env, 2, ["!"] + u, !x)
  {
    var e :| Reads(env, e, m, u, x);
    Weaken(m, 2, e);
    TextsAround(Toks(e), Fixed(Kind.NOT), []);
    assert Reads(env, Expr.Not(e), 2, ["!"] + u, !x);
  }

  lemma GroupReads(env: Env, m: nat, u: seq<string>, x: bool)
    requires Reading(env, m, u, x)
    ensures Reading(env, 4, ["("] + u + [")"], x)
  {
    var e :| Reads(env, e, m, u, x);
    Weaken(m, 0, e);
    TextsGrouped(Toks(e));
    assert Reads(env, Paren(e), 4, ["("] + u + [")"], x);
  }

  lemma Weaken(m: nat, n: nat, e: Expr)
    requires n <= m && Derives(m, e)
    ensures Derives(n, e)
  {}

  /** Of three operands that come to `x`, `y` and `z`: "&&" binds more strongly than "||" on either side of
      it, and parentheses come first. */
  lemma AndBeforeOr(env: Env, a: Token, b: Token, c: Token, x: bool, y: bool, z: bool)
    requires Operand(a) && Operand(b) && Operand(c)
    requires Meaning(env, Str(a.text)) == Ok(x) && Meaning(env, Str(b.text)) == Ok(y)
    requires Meaning(env, Str(c.text)) == Ok(z)
    ensures Meaning(env, Str(Spaced([a.text, "||", b.text, "&&", c.text]))) == Ok(x || (y && z))
    ensures Meaning(env, Str(Spaced([a.text, "&&", b.text, "||", c.text]))) == Ok((x && y) || z)
    ensures Meaning(env, Str(Spaced([a.text, "&&", "(", b.text, "||", c.text, ")"]))) == Ok(x && (y || z))
  {
    OperandReads(env, a, x);
    OperandReads(env, b, y);
    OperandReads(env, c, z);
    OrThenAnd(env, a.text, b.text, c.text, x, y, z);
    AndThenOr(env, a.text, b.text, c.text, x, y, z);
    GroupFirst(env, a.text, b.text, c.text, x, y, z);
    ReadingMeans(env, 0, [a.text, "||", b.text, "&&", c.text], x || (y && z));
    ReadingMeans(env, 0, [a.text, "&&", b.text, "||", c.text], (x && y) || z);
    ReadingMeans(env, 1, [a.text, "&&", "(", b.text, "||", c.text, ")"], x && (y || z));
  }

  lemma OrThenAnd(env: Env, a: string, b: string, c: string, x: bool, y: bool, z: bool)
    requires Reading(env, 4, [a], x) && Reading(env, 4, [b], y) && Reading(env, 4, [c], z)
    ensures Reading(env, 0, [a, "||", b, "&&", c], x || (y && z))
  {
    AndReads(env, 4, [b], y, 4, [c], z);
    OrReads(env, 4, [a], x, 1, [b] + ["&&"] + [c], y && z);
    assert [a] + ["||"] + ([b] + ["&&"] + [c]) == [a, "||", b, "&&", c];
  }

  lemma AndThenOr(env: Env, a: string, b: string, c: string, x: bool, y: bool, z: bool)
    requires Reading(env, 4, [a], x) && Reading(env, 4, [b], y) && Reading(env, 4, [c], z)
    ensures Reading(env, 0, [a, "&&", b, "||", c], (x && y) || z)
  {
    AndReads(env, 4, [a], x, 4, [b], y);
    OrReads(env, 1, [a] + ["&&"] + [b], x && y, 4, [c], z);
    assert [a] + ["&&"] + [b] + ["||"] + [c] == [a, "&&", b, "||", c];
  }

  lemma EitherReads(env: Env, a: string, b: string, x: bool, y: bool)
    requires Reading(env, 4, [a], x) && Reading(env, 4, [b], y)
    ensures Reading(env, 4, ["(", a, "||", b, ")"], x || y)
  {
    OrReads(env, 4, [a], x, 4, [b], y);
    assert [a] + ["||"] + [b] == [a, "||", b];
    GroupReads(env, 0, [a, "||", b], x || y);
    GroupWords(a, b, "");
  }

  lemma GroupFirst(env: Env, a: string, b: string, c: string, x: bool, y: bool, z: bool)
    requires Reading(env, 4, [a], x) && Reading(env, 4, [b], y) && Reading(env, 4, [c], z)
    ensures Reading(env, 1, [a, "&&", "(", b, "||", c, ")"], x && (y || z))
  {
    EitherReads(env, b, c, y, z);
    AndReads(env, 4, [a], x, 4, ["(", b, "||", c, ")"], y || z);
    GroupWords(a, b, c);
  }

  lemma GroupWords(a: string, b: string, c: string)
    ensures [a] + ["&&"] + ["(", b, "||", c, ")"] == [a, "&&", "(", b, "||", c, ")"]
    ensures ["("] + [a, "||", b] + [")"] == ["(", a, "||", b, ")"]
    ensures ["!"] + [a, b, c] == ["!", a, b, c]
  {}

  /** "!" binds more strongly than "&&" and "||". */
  lemma NotBeforeAnd(env: Env, a: Token, b: Token, x: bool, y: bool)
    requires Operand(a) && Operand(b)
    requires Meaning(env, Str(a.text)) == Ok(x) && Meaning(env, Str(b.text)) == Ok(y)
    ensures Meaning(env, Str(Spaced(["!", a.text, "||", b.text]))) == Ok(!x || y)
    ensures Meaning(env, Str(Spaced(["!", a.text, "&&", b.text]))) == Ok(!x && y)
  {
    OperandReads(env, a, x);
    OperandReads(env, b, y);
    NotThenOr(env, a.text, b.text, x, y);
    NotThenAnd(env, a.text, b.text, x, y);
    ReadingMeans(env, 0, ["!", a.text, "||", b.text], !x || y);
    ReadingMeans(env, 1, ["!", a.text, "&&", b.text], !x && y);
  }

  lemma NotThenOr(env: Env, a: string, b: string, x: bool, y: bool)
    requires Reading(env, 4, [a], x) && Reading(env, 4, [b], y)
    ensures Reading(env, 0, ["!", a, "||", b], !x || y)
  {
    NotReads(env, 4, [a], x);
    OrReads(env, 2, ["!"] + [a], !x, 4, [b], y);
    assert ["!"] + [a] + ["||"] + [b] == ["!", a, "||", b];
  }

  lemma NotThenAnd(env: Env, a: string, b: string, x: bool, y: bool)
    requires Reading(env, 4, [a], x) && Reading(env, 4, [b], y)
    ensures Reading(env, 1, ["!", a, "&&", b], !x && y)
  {
    NotReads(env, 4, [a], x);
    AndReads(env, 2, ["!"] + [a], !x, 4, [b], y);
    assert ["!"] + [a] + ["&&"] + [b] == ["!", a, "&&", b];
  }

  /** It binds less strongly than a comparison: the whole comparison is negated. */
  lemma NotAfterComparison(env: Env, a: Token, op: Kind, b: Token, x: bool)
    requires Operand(a) && Operand(b) && IsComparator(op)
    requires Meaning(env, Str(Spaced([a.text, Symbol(op), b.text]))) == Ok(x)
    ensures Meaning(env, Str(Spaced(["!", a.text, Symbol(op), b.text]))) == Ok(!x)
  {
    ComparisonReads(env, a, op, b, x);
    NotReads(env, 3, [a.text, Symbol(op), b.text], x);
    GroupWords(a.text, Symbol(op), b.text);
    ReadingMeans(env, 2, ["!", a.text, Symbol(op), b.text], !x);
  }

  // ------------------------------------------------------------------ comparison

  /** Equality and inequality, and each order and its converse, are complements. */
  lemma CompareComplements(host: Host, a: Value, b: Value)
    ensures CompareValues(host, a, NE, b) == !CompareValues(host, a, EQ, b)
    ensures CompareValues(host, a, GE, b) == !CompareValues(host, a, LT, b)
    ensures CompareValues(host, a, LE, b) == !CompareValues(host, a, GT, b)
    ensures CompareValues(host, a, GT, b) == CompareValues(host, b, LT, a)
    ensures CompareValues(host, a, LE, b) == (CompareValues(host, a, LT, b) || CompareValues(host, a, EQ, b))
  {
    Ordering.LexTrichotomy(Stringify(a), Stringify(b));
  }

  predicate Numeric(host: Host, v: Value) { ToNumber(host, v).Some? }

  /** `<` is transitive on three values unless exactly two of them are numeric. */
  lemma LessIsTransitive(host: Host, a: Value, b: Value, c: Value)
    requires (Numeric(host, a) && Numeric(host, b) && Numeric(host, c))
      || (!Numeric(host, a) && !Numeric(host, b)) || (!Numeric(host, b) && !Numeric(host, c))
      || (!Numeric(host, a) && !Numeric(host, c))
    requires CompareValues(host, a, LT, b) && CompareValues(host, b, LT, c)
    ensures CompareValues(host, a, LT, c)
  {
    if !(Numeric(host, a) && Numeric(host, b)) && !(Numeric(host, b) && Numeric(host, c)) {
      Ordering.LexTransitive(Stringify(a), Stringify(b), Stringify(c));
    }
  }

  /** `a` is below `b` and `b` below `c`, but `a` not below `c`. */
  predicate BreaksTransitivity(host: Host, a: Value, b: Value, c: Value) {
    CompareValues(host, a, LT, b) && CompareValues(host, b, LT, c) && !CompareValues(host, a, LT, c)
  }

  /** With exactly two numeric values it can fail, whichever two they are: 9 and 10 compare as numbers
      with each other, but as text with "5x", which lies between "10" and "9". */
  lemma LessNeedNotBeTransitive(host: Host)
    requires host.floatOf("5x") == None
    ensures BreaksTransitivity(host, Num(10.0, "10"), Str("5x"), Num(9.0, "9"))
    ensures BreaksTransitivity(host, Num(9.0, "9"), Num(10.0, "10"), Str("5x"))
    ensures BreaksTransitivity(host, Str("5x"), Num(9.0, "9"), Num(10.0, "10"))
  {
    assert Ordering.LexLess("10", "5x") && Ordering.LexLess("5x", "9");
    assert !Ordering.LexLess("9", "5x") && !Ordering.LexLess("5x", "10");
  }
}
