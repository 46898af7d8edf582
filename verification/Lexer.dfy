/** The condition tokenizer: an ordered list of rules, the first that matches wins.

    Each rule is the length of the longest prefix its pattern matches, 0 when it does not match;
    the patterns have no ambiguity, so this is also what a backtracking matcher returns.
    Character classes are ASCII. */
module Lexer {
  import opened Basics

  datatype Kind = WS | AND | OR | EQ | NE | GE | LE | GT | LT | NOT | LP | RP | REF | NUM | STR | KW

  datatype Token = Token(kind: Kind, text: string)

  /** A pattern is given by the length of what it matches at the start of a text, 0 for no match. */
  datatype Rule = Rule(kind: Kind, len: string -> nat)

  const KINDS: seq<Kind> := [WS, AND, OR, EQ, NE, GE, LE, GT, LT, NOT, LP, RP, REF, NUM, STR, KW]

  // ------------------------------------------------------------------ character classes

  predicate IsSpace(c: char) { c == ' ' || 9 <= c as int <= 13 || 28 <= c as int <= 31 }
  predicate IsDigit(c: char) { '0' <= c <= '9' }
  predicate IsWord(c: char) { IsDigit(c) || 'a' <= c <= 'z' || 'A' <= c <= 'Z' || c == '_' }

  /** Length of the longest prefix of characters satisfying `p`. */
  function Span(s: string, p: char -> bool): (n: nat)
    ensures n <= |s| && (forall i :: 0 <= i < n ==> p(s[i])) && (n < |s| ==> !p(s[n]))
  {
    if s == "" || !p(s[0]) then 0 else 1 + Span(s[1..], p)
  }

  lemma {:induction false} SpanIs(s: string, p: char -> bool, n: nat)
    requires n <= |s| && (forall i :: 0 <= i < n ==> p(s[i])) && (n < |s| ==> !p(s[n]))
    ensures Span(s, p) == n
  {
    if n > 0 {
      forall i | 0 <= i < n - 1 ensures p(s[1..][i]) { assert p(s[i + 1]); }
      SpanIs(s[1..], p, n - 1);
    }
  }

  /** A span that stops inside `s`, or in front of `r`, is not changed by appending `r`. */
  lemma SpanAppend(s: string, r: string, p: char -> bool)
    requires Span(s, p) < |s| || r == "" || !p(r[0])
    ensures Span(s + r, p) == Span(s, p)
  {
    SpanIs(s + r, p, Span(s, p));
  }

  predicate Starts(s: string, p: string) {
    |p| <= |s| && s[..|p|] == p
  }

  function Spaces(s: string): nat { Span(s, IsSpace) }
  function Digits(s: string): nat { Span(s, IsDigit) }

  // ------------------------------------------------------------------ the patterns

  function FracLen(s: string): (n: nat)
    ensures n <= |s|
  {
    if s != "" && s[0] == '.' && Digits(s[1..]) > 0 then 1 + Digits(s[1..]) else 0
  }

  function WholeLen(s: string): (n: nat)
    ensures n <= |s|
  {
    if Digits(s) == 0 then 0 else Digits(s) + FracLen(s[Digits(s)..])
  }

  /** Digits with an optional sign before them and an optional fraction after them. */
  function NumLen(s: string): (n: nat)
    ensures n <= |s|
  {
    if s != "" && s[0] == '-' then
      if WholeLen(s[1..]) == 0 then 0 else 1 + WholeLen(s[1..])
    else WholeLen(s)
  }

  function Not(quote: char): char -> bool { c => c != quote }

  /** A quoted string: everything up to the next occurrence of the opening quote. */
  function StrLen(s: string): (n: nat)
    ensures n <= |s| && n != 1
  {
    if s == "" || (s[0] != '\'' && s[0] != '"') then 0
    else
      var body := Span(s[1..], Not(s[0]));
      if 1 + body < |s| then body + 2 else 0
  }

  /** `name(.name)*` after a dot, when there is one. */
  function DotPathLen(s: string): (n: nat)
    ensures n <= |s|
  {
    if s != "" && s[0] == '.' && PathLen(s[1..]) > 0 then 1 + PathLen(s[1..]) else 0
  }

  function PathLen(s: string): (n: nat)
    ensures n <= |s|
  {
    var w := Span(s, IsWord);
    if w == 0 then 0 else w + DotPathLen(s[w..])
  }

  /** A quoted argument with spaces around it. */
  function ArgLen(s: string): (n: nat)
    ensures n <= |s|
  {
    var t := s[Spaces(s)..];
    var q := StrLen(t);
    if q == 0 then 0 else Spaces(s) + q + Spaces(t[q..])
  }

  const FORM := "$form."
  const STEP := "$step("
  const ENV := "$env("
  const SECRET := "$secret("

  function FormLen(s: string): (n: nat)
    ensures n <= |s|
  {
    if Starts(s, FORM) && PathLen(s[6..]) > 0 then 6 + PathLen(s[6..]) else 0
  }

  /** One part after another, both of which have to match. */
  function Both(first: nat, second: nat): nat {
    if first == 0 || second == 0 then 0 else first + second
  }

  function CloseLen(s: string): (n: nat)
    ensures n <= |s|
  {
    if s != "" && s[0] == ')' then 1 else 0
  }

  /** An argument and the closing parenthesis. */
  function LastArgLen(s: string): (n: nat)
    ensures n <= |s|
  {
    Both(ArgLen(s), CloseLen(s[ArgLen(s)..]))
  }

  function StepEndLen(s: string): (n: nat)
    ensures n <= |s|
  {
    if s != "" && s[0] == ')' then 1 + DotPathLen(s[1..]) else 0
  }

  function StepArgLen(s: string): (n: nat)
    ensures n <= |s|
  {
    Both(ArgLen(s), StepEndLen(s[ArgLen(s)..]))
  }

  function StepLen(s: string): (n: nat)
    ensures n <= |s|
  {
    if Starts(s, STEP) then Both(6, StepArgLen(s[6..])) else 0
  }

  /** The closing parenthesis, or a default value before it. */
  function EnvEndLen(s: string): (n: nat)
    ensures n <= |s|
  {
    if s != "" && s[0] == ',' then Both(1, LastArgLen(s[1..])) else CloseLen(s)
  }

  function EnvArgLen(s: string): (n: nat)
    ensures n <= |s|
  {
    Both(ArgLen(s), EnvEndLen(s[ArgLen(s)..]))
  }

  function EnvLen(s: string): (n: nat)
    ensures n <= |s|
  {
    if Starts(s, ENV) then Both(5, EnvArgLen(s[5..])) else 0
  }

  function SecretLen(s: string): (n: nat)
    ensures n <= |s|
  {
    if Starts(s, SECRET) then Both(8, LastArgLen(s[8..])) else 0
  }

  function RefLen(s: string): (n: nat)
    ensures n <= |s|
  {
    if FormLen(s) > 0 then FormLen(s)
    else if StepLen(s) > 0 then StepLen(s)
    else if EnvLen(s) > 0 then EnvLen(s)
    else SecretLen(s)
  }

  function LowerChar(c: char): char {
    if 'A' <= c <= 'Z' then (c as int + 32) as char else c
  }

  function Lower(s: string): (r: string)
    ensures |r| == |s| && forall i :: 0 <= i < |s| ==> r[i] == LowerChar(s[i])
  {
    if s == "" then "" else [LowerChar(s[0])] + Lower(s[1..])
  }

  function UpperChar(c: char): char {
    if 'a' <= c <= 'z' then (c as int - 32) as char else c
  }

  function Upper(s: string): (r: string)
    ensures |r| == |s| && forall i :: 0 <= i < |s| ==> r[i] == UpperChar(s[i])
  {
    if s == "" then "" else [UpperChar(s[0])] + Upper(s[1..])
  }

  /** A keyword, whatever its case, that no word character follows. */
  function KeywordLen(s: string, w: string): nat {
    if |w| <= |s| && Lower(s[..|w|]) == w && (|w| == |s| || !IsWord(s[|w|])) then |w| else 0
  }

  function KwLen(s: string): (n: nat)
    ensures n <= |s|
  {
    if KeywordLen(s, "true") > 0 then 4
    else if KeywordLen(s, "false") > 0 then 5
    else if KeywordLen(s, "null") > 0 then 4
    else 0
  }

  /** The text of the rules that are a fixed string. */
  function Symbol(k: Kind): string {
    match k
    case AND => "&&" case OR => "||" case EQ => "==" case NE => "!=" case GE => ">=" case LE => "<="
    case GT => ">" case LT => "<" case NOT => "!" case LP => "(" case RP => ")"
    case _ => ""
  }

  function MatchLen(k: Kind, s: string): (n: nat)
    ensures n <= |s|
  {
    match k
    case WS => Spaces(s)
    case REF => RefLen(s)
    case NUM => NumLen(s)
    case STR => StrLen(s)
    case KW => KwLen(s)
    case _ => if Starts(s, Symbol(k)) then |Symbol(k)| else 0
  }

  // ------------------------------------------------------------------ the scanner

  function Pattern(k: Kind): string -> nat { s => MatchLen(k, s) }

  /** The rules of the given kinds, in order. */
  function RulesFor(kinds: seq<Kind>): (r: seq<Rule>)
    ensures |r| == |kinds| && forall i :: 0 <= i < |kinds| ==> r[i] == Rule(kinds[i], Pattern(kinds[i]))
  {
    seq(|kinds|, i requires 0 <= i < |kinds| => Rule(kinds[i], Pattern(kinds[i])))
  }

  predicate Matches(r: Rule, s: string) {
    0 < r.len(s) <= |s|
  }

  /** The first of the rules that matches at the start of `s`. */
  function FirstOf(rules: seq<Rule>, s: string): (r: Option<Rule>)
    ensures r.Some? ==> Matches(r.value, s)
  {
    if rules == [] then None
    else if Matches(rules[0], s) then Some(rules[0])
    else FirstOf(rules[1..], s)
  }

  /** The piece at the start of `s`. */
  function NextPiece(rules: seq<Rule>, s: string): (t: Option<Token>)
    ensures t.Some? ==> 0 < |t.value.text| <= |s| && t.value.text == s[..|t.value.text|]
  {
    match FirstOf(rules, s)
    case None => None
    case Some(r) => Some(Token(r.kind, s[..r.len(s)]))
  }

  /** The pieces of the text, whitespace included; None when no rule matches somewhere. */
  function Scan(rules: seq<Rule>, s: string): Option<seq<Token>>
    decreases |s|
  {
    if s == "" then Some([])
    else
      var t := NextPiece(rules, s);
      if t.None? then None else Prepend([t.value], Scan(rules, s[|t.value.text|..]))
  }

  function Prepend(pieces: seq<Token>, rest: Option<seq<Token>>): Option<seq<Token>> {
    if rest.None? then None else Some(pieces + rest.value)
  }

  function Visible(pieces: seq<Token>): seq<Token> {
    if pieces == [] then []
    else (if pieces[0].kind == WS then [] else [pieces[0]]) + Visible(pieces[1..])
  }

  function Text(pieces: seq<Token>): string {
    if pieces == [] then "" else pieces[0].text + Text(pieces[1..])
  }

  function Tokens(rules: seq<Rule>, s: string): Option<seq<Token>> {
    match Scan(rules, s)
    case None => None
    case Some(pieces) => Some(Visible(pieces))
  }

  /** The loop over positions and rules. */
  method Tokenize(rules: seq<Rule>, expr: string) returns (tokens: Option<seq<Token>>)
    ensures tokens == Tokens(rules, expr)
  {
    var out := [];
    var pos := 0;
    ghost var pieces: seq<Token> := [];
    ghost var whole := Scan(rules, expr);
    NothingScanned(rules, expr);
    while pos < |expr|
      invariant 0 <= pos <= |expr| && out == Visible(pieces)
      invariant whole == Prepend(pieces, Scan(rules, expr[pos..]))
    {
      var piece := MatchAt(rules, expr, pos);
      if piece.None? {
        return None;
      }
      var t := piece.value;
      OneMorePiece(whole, Scan(rules, expr[pos..]), Scan(rules, expr[pos + |t.text|..]), pieces, t);
      if t.kind != WS {
        out := out + [t];
      }
      pieces := pieces + [t];
      pos := pos + |t.text|;
    }
    AllScanned(rules, expr, pieces);
    return Some(out);
  }

  /** The inner loop over the rules, at one position. */
  method MatchAt(rules: seq<Rule>, expr: string, pos: nat) returns (piece: Option<Token>)
    requires pos < |expr|
    ensures piece == NextPiece(rules, expr[pos..])
    ensures piece.None? ==> Scan(rules, expr[pos..]) == None
    ensures piece.Some? ==>
              && 0 < |piece.value.text| <= |expr| - pos
              && Scan(rules, expr[pos..]) == Prepend([piece.value], Scan(rules, expr[pos + |piece.value.text|..]))
  {
    var at := expr[pos..];
    var i := 0;
    while i < |rules|
      invariant 0 <= i <= |rules| && FirstOf(rules, at) == FirstOf(rules[i..], at)
    {
      assert rules[i..][1..] == rules[i + 1..];
      if Matches(rules[i], at) {
        var n := rules[i].len(at);
        DropDrop(expr, pos, n);
        return Some(Token(rules[i].kind, at[..n]));
      }
      i := i + 1;
    }
    return None;
  }

  lemma NothingScanned(rules: seq<Rule>, expr: string)
    ensures Scan(rules, expr) == Prepend([], Scan(rules, expr[0..]))
  {
    assert expr[0..] == expr;
    if Scan(rules, expr).Some? { assert [] + Scan(rules, expr).value == Scan(rules, expr).value; }
  }

  lemma AllScanned(rules: seq<Rule>, expr: string, pieces: seq<Token>)
    requires Scan(rules, expr) == Prepend(pieces, Scan(rules, expr[|expr|..]))
    ensures Tokens(rules, expr) == Some(Visible(pieces))
  {
    assert pieces + [] == pieces;
  }

  lemma OneMorePiece(whole: Option<seq<Token>>, here: Option<seq<Token>>, rest: Option<seq<Token>>,
                     pieces: seq<Token>, t: Token)
    requires whole == Prepend(pieces, here) && here == Prepend([t], rest)
    ensures whole == Prepend(pieces + [t], rest)
    ensures Visible(pieces + [t]) == Visible(pieces) + (if t.kind == WS then [] else [t])
  {
    PrependOne(pieces, t, rest);
    VisibleAppend(pieces, t);
  }

  lemma DropDrop(s: string, i: nat, j: nat)
    requires i + j <= |s|
    ensures s[i..][j..] == s[i + j..]
  {}

  lemma PrependOne(pieces: seq<Token>, t: Token, rest: Option<seq<Token>>)
    ensures Prepend(pieces, Prepend([t], rest)) == Prepend(pieces + [t], rest)
  {
    if rest.Some? { assert pieces + ([t] + rest.value) == pieces + [t] + rest.value; }
  }

  lemma {:induction false} VisibleAppend(pieces: seq<Token>, t: Token)
    ensures Visible(pieces + [t]) == Visible(pieces) + (if t.kind == WS then [] else [t])
  {
    var end := if t.kind == WS then [] else [t];
    if pieces == [] {
      assert pieces + [t] == [t] && [t][1..] == [];
      Reassociate(end, [], []);
    } else {
      var head := if pieces[0].kind == WS then [] else [pieces[0]];
      VisibleAppend(pieces[1..], t);
      assert (pieces + [t])[1..] == pieces[1..] + [t];
      Reassociate(head, Visible(pieces[1..]), end);
    }
  }

  /** The tokens and the skipped pieces, put back together, are the input. */
  lemma {:induction false} NothingIsLost(rules: seq<Rule>, s: string)
    requires Scan(rules, s).Some?
    ensures Text(Scan(rules, s).value) == s
  {
    if s != "" {
      var t := NextPiece(rules, s).value;
      NothingIsLost(rules, s[|t.text|..]);
      assert Scan(rules, s).value[1..] == Scan(rules, s[|t.text|..]).value;
      assert s == t.text + s[|t.text|..];
    }
  }

  /** Every piece is non-empty, and a skipped one is whitespace. */
  lemma {:induction false} OnlySpaceIsSkipped(kinds: seq<Kind>, s: string)
    requires Scan(RulesFor(kinds), s).Some?
    ensures forall p :: p in Scan(RulesFor(kinds), s).value ==>
      p.text != "" && (p.kind == WS ==> forall c :: c in p.text ==> IsSpace(c))
  {
    if s != "" {
      var t := NextPiece(RulesFor(kinds), s).value;
      SpacePiece(kinds, s);
      OnlySpaceIsSkipped(kinds, s[|t.text|..]);
      assert Scan(RulesFor(kinds), s).value == [t] + Scan(RulesFor(kinds), s[|t.text|..]).value;
    }
  }

  lemma SpacePiece(kinds: seq<Kind>, s: string)
    requires NextPiece(RulesFor(kinds), s).Some?
    ensures var t := NextPiece(RulesFor(kinds), s).value; t.kind == WS ==> forall c :: c in t.text ==> IsSpace(c)
  {
    var i := FirstOfSplits(RulesFor(kinds), s);
  }

  // ------------------------------------------------------------------ printing

  /** The tokens separated by single blanks. */
  function Render(tokens: seq<Token>): string {
    if tokens == [] then ""
    else if |tokens| == 1 then tokens[0].text
    else tokens[0].text + " " + Render(tokens[1..])
  }

  /** The characters a rule's match can begin with. */
  predicate Initial(k: Kind, c: char) {
    match k
    case WS => IsSpace(c)
    case REF => c == '$'
    case NUM => c == '-' || IsDigit(c)
    case STR => c == '\'' || c == '"'
    case KW => LowerChar(c) in "tfn"
    case _ => c == Symbol(k)[0]
  }

  lemma MatchStartsInitial(k: Kind, s: string)
    requires MatchLen(k, s) > 0
    ensures s != "" && Initial(k, s[0])
  {
    match k
    case WS => assert IsSpace(s[0]);
    case REF => RefStarts(s);
    case NUM => if s[0] != '-' { assert IsDigit(s[0..][0]); }
    case STR =>
    case KW => KwStarts(s);
    case _ => StartsWithFirst(s, Symbol(k));
  }

  lemma StartsWithFirst(s: string, p: string)
    requires Starts(s, p) && p != ""
    ensures s != "" && s[0] == p[0]
  {
    assert s[..|p|][0] == s[0];
  }

  lemma RefStarts(s: string)
    requires RefLen(s) > 0
    ensures s != "" && s[0] == '$'
  {
    if FormLen(s) > 0 { StartsWithFirst(s, FORM); }
    else if StepLen(s) > 0 { StartsWithFirst(s, STEP); }
    else if EnvLen(s) > 0 { StartsWithFirst(s, ENV); }
    else { StartsWithFirst(s, SECRET); }
  }

  lemma KwStarts(s: string)
    requires KwLen(s) > 0
    ensures s != "" && LowerChar(s[0]) in "tfn"
  {
    var w := if KeywordLen(s, "true") > 0 then "true" else if KeywordLen(s, "false") > 0 then "false" else "null";
    assert Lower(s[..|w|])[0] == w[0];
  }

  /** `r` is empty or begins with a blank: what may follow a token in a rendering. */
  predicate Blank(r: string) {
    r == "" || r[0] == ' '
  }

  lemma DigitsAppend(s: string, r: string)
    requires Blank(r)
    ensures Digits(s + r) == Digits(s)
  {
    SpanAppend(s, r, IsDigit);
  }

  lemma FracAppend(s: string, r: string)
    requires Blank(r)
    ensures FracLen(s + r) == FracLen(s)
  {
    if s != "" {
      DropAppend(s, r, 1);
      DigitsAppend(s[1..], r);
    }
  }

  lemma WholeAppend(s: string, r: string)
    requires WholeLen(s) > 0 && Blank(r)
    ensures WholeLen(s + r) == WholeLen(s)
  {
    DigitsAppend(s, r);
    DropAppend(s, r, Digits(s));
    FracAppend(s[Digits(s)..], r);
  }

  lemma NumAppend(s: string, r: string)
    requires NumLen(s) > 0 && Blank(r)
    ensures NumLen(s + r) == NumLen(s)
  {
    if s[0] == '-' {
      DropAppend(s, r, 1);
      WholeAppend(s[1..], r);
    } else {
      WholeAppend(s, r);
    }
  }

  lemma StrAppend(s: string, r: string)
    requires StrLen(s) > 0
    ensures StrLen(s + r) == StrLen(s)
  {
    assert (s + r)[1..] == s[1..] + r;
    SpanAppend(s[1..], r, Not(s[0]));
  }

  lemma {:induction false} PathAppend(s: string, r: string)
    requires Blank(r)
    ensures PathLen(s + r) == PathLen(s)
    decreases |s|
  {
    SpanAppend(s, r, IsWord);
    var w := Span(s, IsWord);
    assert (s + r)[w..] == s[w..] + r;
    if w > 0 { DotPathAppend(s[w..], r); }
  }

  lemma {:induction false} DotPathAppend(s: string, r: string)
    requires Blank(r)
    ensures DotPathLen(s + r) == DotPathLen(s)
    decreases |s|
  {
    if s != "" {
      assert (s + r)[1..] == s[1..] + r;
      PathAppend(s[1..], r);
    }
  }

  lemma DropAppend(s: string, r: string, k: nat)
    requires k <= |s|
    ensures (s + r)[k..] == s[k..] + r
  {}

  /** An argument followed by something in `s` ends there whatever is appended. */
  lemma ArgAppend(s: string, r: string)
    requires 0 < ArgLen(s) < |s|
    ensures ArgLen(s + r) == ArgLen(s)
  {
    var t := s[Spaces(s)..];
    var q := StrLen(t);
    SpanAppend(s, r, IsSpace);
    DropAppend(s, r, Spaces(s));
    StrAppend(t, r);
    DropAppend(t, r, q);
    SpanAppend(t[q..], r, IsSpace);
  }

  lemma StartsAppend(s: string, p: string, r: string)
    requires |p| <= |s|
    ensures Starts(s + r, p) == Starts(s, p)
  {
    assert (s + r)[..|p|] == s[..|p|];
  }

  /** Texts that start with different prefixes of a reference are different. */
  lemma OnePrefix(s: string)
    ensures Starts(s, FORM) ==> !Starts(s, STEP) && !Starts(s, ENV) && !Starts(s, SECRET)
    ensures Starts(s, STEP) ==> !Starts(s, ENV) && !Starts(s, SECRET)
    ensures Starts(s, ENV) ==> !Starts(s, SECRET)
  {
    if Starts(s, FORM) { assert s[1] == s[..6][1]; }
    if Starts(s, STEP) { assert s[1] == s[..6][1] && s[2] == s[..6][2]; }
    if Starts(s, ENV) { assert s[1] == s[..5][1]; }
    if Starts(s, SECRET) { assert s[1] == s[..8][1] && s[2] == s[..8][2]; }
  }

  lemma FormAppend(s: string, r: string)
    requires FormLen(s) == |s| > 0 && Blank(r)
    ensures FormLen(s + r) == |s|
  {
    StartsAppend(s, FORM, r);
    DropAppend(s, r, 6);
    PathAppend(s[6..], r);
  }

  lemma LastArgAppend(s: string, r: string)
    requires LastArgLen(s) == |s| > 0
    ensures LastArgLen(s + r) == |s|
  {
    ArgAppend(s, r);
    DropAppend(s, r, ArgLen(s));
  }

  lemma StepArgAppend(s: string, r: string)
    requires StepArgLen(s) == |s| > 0 && Blank(r)
    ensures StepArgLen(s + r) == |s|
  {
    ArgAppend(s, r);
    var e := s[ArgLen(s)..];
    DropAppend(s, r, ArgLen(s));
    DropAppend(e, r, 1);
    DotPathAppend(e[1..], r);
  }

  lemma StepAppend(s: string, r: string)
    requires StepLen(s) == |s| > 0 && Blank(r)
    ensures StepLen(s + r) == |s|
  {
    StartsAppend(s, STEP, r);
    DropAppend(s, r, 6);
    StepArgAppend(s[6..], r);
  }

  lemma EnvEndAppend(s: string, r: string)
    requires EnvEndLen(s) == |s| > 0
    ensures EnvEndLen(s + r) == |s|
  {
    if s[0] == ',' {
      DropAppend(s, r, 1);
      LastArgAppend(s[1..], r);
    }
  }

  lemma EnvArgAppend(s: string, r: string)
    requires EnvArgLen(s) == |s| > 0
    ensures EnvArgLen(s + r) == |s|
  {
    ArgAppend(s, r);
    DropAppend(s, r, ArgLen(s));
    EnvEndAppend(s[ArgLen(s)..], r);
  }

  lemma EnvAppend(s: string, r: string)
    requires EnvLen(s) == |s| > 0
    ensures EnvLen(s + r) == |s|
  {
    StartsAppend(s, ENV, r);
    DropAppend(s, r, 5);
    EnvArgAppend(s[5..], r);
  }

  lemma SecretAppend(s: string, r: string)
    requires SecretLen(s) == |s| > 0
    ensures SecretLen(s + r) == |s|
  {
    StartsAppend(s, SECRET, r);
    DropAppend(s, r, 8);
    LastArgAppend(s[8..], r);
  }

  lemma RefAppend(s: string, r: string)
    requires RefLen(s) == |s| > 0 && Blank(r)
    ensures RefLen(s + r) == |s|
  {
    OnePrefix(s + r);
    if FormLen(s) > 0 { FormAppend(s, r); }
    else if StepLen(s) > 0 { StepAppend(s, r); }
    else if EnvLen(s) > 0 { EnvAppend(s, r); }
    else { SecretAppend(s, r); }
  }

  lemma KeywordAppend(s: string, r: string, w: string)
    requires KeywordLen(s, w) == |s| > 0 && Blank(r)
    ensures KeywordLen(s + r, w) == |s|
  {
    assert (s + r)[..|w|] == s[..|w|] == s;
    if r != "" { assert (s + r)[|w|] == r[0]; }
  }

  lemma KwAppend(s: string, r: string)
    requires KwLen(s) == |s| > 0 && Blank(r)
    ensures KwLen(s + r) == |s|
  {
    var w := if KeywordLen(s, "true") > 0 then "true" else if KeywordLen(s, "false") > 0 then "false" else "null";
    KeywordAppend(s, r, w);
    KeywordStarts(s + r, w);
    if KeywordLen(s + r, "true") > 0 { KeywordStarts(s + r, "true"); }
    if KeywordLen(s + r, "false") > 0 { KeywordStarts(s + r, "false"); }
  }

  lemma KeywordStarts(s: string, w: string)
    requires KeywordLen(s, w) > 0
    ensures s != "" && LowerChar(s[0]) == w[0]
  {
    assert Lower(s[..|w|])[0] == LowerChar(s[..|w|][0]);
  }

  /** A full match is still the whole match when a blank follows. */
  lemma FullMatchAppend(k: Kind, s: string, r: string)
    requires k != WS && MatchLen(k, s) == |s| > 0 && Blank(r)
    ensures MatchLen(k, s + r) == |s|
  {
    match k
    case WS =>
    case REF => RefAppend(s, r);
    case NUM => NumAppend(s, r);
    case STR => StrAppend(s, r);
    case KW => KwAppend(s, r);
    case _ => StartsAppend(s, Symbol(k), r);
  }

  /** Rules that can begin with the same character. */
  function Family(k: Kind): nat {
    match k
    case WS => 0 case AND => 1 case OR => 2 case EQ => 3 case NE => 4 case NOT => 4 case GE => 5 case GT => 5
    case LE => 6 case LT => 6 case LP => 7 case RP => 8 case REF => 9 case NUM => 10 case STR => 11 case KW => 12
  }

  function FamilyOf(c: char): nat {
    if IsSpace(c) then 0 else if c == '&' then 1 else if c == '|' then 2 else if c == '=' then 3
    else if c == '!' then 4 else if c == '>' then 5 else if c == '<' then 6 else if c == '(' then 7
    else if c == ')' then 8 else if c == '$' then 9 else if c == '-' || IsDigit(c) then 10
    else if c == '\'' || c == '"' then 11 else 12
  }

  lemma InitialFamily(k: Kind, c: char)
    requires Initial(k, c)
    ensures Family(k) == FamilyOf(c)
  {}

  lemma SymbolThenBlank(j: Kind, k: Kind, s: string, r: string)
    requires j in {NE, GE, LE} && k in {NOT, GT, LT} && Starts(s, Symbol(k)) && |s| == 1 && Blank(r)
    ensures MatchLen(j, s + r) == 0
  {
    if |s + r| >= 2 { assert (s + r)[..2][1] == ' '; }
  }

  /** A rule tried before the one that matches all of `s` does not match when a blank follows. */
  lemma EarlierRuleFails(j: Kind, k: Kind, s: string, r: string)
    requires k != WS && MatchLen(k, s) == |s| > 0 && Blank(r) && MatchLen(j, s) == 0
    requires Family(j) == Family(k) && j != k ==> j in {NE, GE, LE} && k in {NOT, GT, LT}
    ensures MatchLen(j, s + r) == 0
  {
    if MatchLen(j, s + r) > 0 {
      MatchStartsInitial(j, s + r);
      MatchStartsInitial(k, s);
      InitialFamily(j, s[0]);
      InitialFamily(k, s[0]);
      SymbolThenBlank(j, k, s, r);
    }
  }

  /** The rule `FirstOf` picks, and those before it. */
  lemma {:induction false} FirstOfSplits(rules: seq<Rule>, s: string) returns (i: nat)
    requires FirstOf(rules, s).Some?
    ensures i < |rules| && FirstOf(rules, s) == Some(rules[i])
    ensures forall j :: 0 <= j < i ==> !Matches(rules[j], s)
  {
    if Matches(rules[0], s) { i := 0; }
    else {
      var m := FirstOfSplits(rules[1..], s);
      i := m + 1;
      forall j | 0 <= j < i ensures !Matches(rules[j], s) {
        if j > 0 { assert rules[j] == rules[1..][j - 1]; }
      }
    }
  }

  lemma {:induction false} FirstOfIs(rules: seq<Rule>, s: string, i: nat)
    requires i < |rules| && Matches(rules[i], s)
    requires forall j :: 0 <= j < i ==> !Matches(rules[j], s)
    ensures FirstOf(rules, s) == Some(rules[i])
  {
    if i > 0 {
      forall j | 0 <= j < i - 1 ensures !Matches(rules[1..][j], s) { assert rules[1..][j] == rules[j + 1]; }
      FirstOfIs(rules[1..], s, i - 1);
    }
  }

  /** Among the rules of one family the longer symbol comes first. */
  ghost predicate WellOrdered(kinds: seq<Kind>) {
    forall i, j :: 0 <= j < i < |kinds| && Family(kinds[j]) == Family(kinds[i]) ==>
      kinds[j] in {NE, GE, LE} && kinds[i] in {NOT, GT, LT}
  }

  function Position(k: Kind): nat {
    match k
    case WS => 0 case AND => 1 case OR => 2 case EQ => 3 case NE => 4 case GE => 5 case LE => 6 case GT => 7
    case LT => 8 case NOT => 9 case LP => 10 case RP => 11 case REF => 12 case NUM => 13 case STR => 14 case KW => 15
  }

  lemma OneFamily(j: Kind, k: Kind)
    requires Family(j) == Family(k) && Position(j) < Position(k)
    ensures j in {NE, GE, LE} && k in {NOT, GT, LT}
  {}

  lemma KindsAreWellOrdered()
    ensures WellOrdered(KINDS)
  {
    assert forall i :: 0 <= i < |KINDS| ==> Position(KINDS[i]) == i;
    forall i, j | 0 <= j < i < |KINDS| && Family(KINDS[j]) == Family(KINDS[i])
      ensures KINDS[j] in {NE, GE, LE} && KINDS[i] in {NOT, GT, LT}
    {
      OneFamily(KINDS[j], KINDS[i]);
    }
  }

  /** `t` is what the tokenizer makes of its own text. */
  predicate IsLexeme(kinds: seq<Kind>, t: Token) {
    t.kind != WS && t.text != "" && NextPiece(RulesFor(kinds), t.text) == Some(t)
  }

  lemma LexemeIsNext(kinds: seq<Kind>, t: Token, r: string)
    requires WellOrdered(kinds) && IsLexeme(kinds, t) && Blank(r)
    ensures NextPiece(RulesFor(kinds), t.text + r) == Some(t)
  {
    var s, rules := t.text, RulesFor(kinds);
    var i := FirstOfSplits(rules, s);
    var k := kinds[i];
    assert rules[i] == Rule(k, Pattern(k));
    assert MatchLen(k, s) == |s|;
    FullMatchAppend(k, s, r);
    forall j | 0 <= j < i ensures !Matches(rules[j], s + r) {
      assert !Matches(rules[j], s);
      EarlierRuleFails(kinds[j], k, s, r);
    }
    FirstOfIs(rules, s + r, i);
    assert (s + r)[..|s|] == s;
  }

  const BLANK := Token(WS, " ")

  /** The pieces of a rendering. */
  function Spaced(tokens: seq<Token>): seq<Token> {
    if |tokens| <= 1 then tokens else [tokens[0], BLANK] + Spaced(tokens[1..])
  }

  lemma {:induction false} SpacedVisible(tokens: seq<Token>)
    requires forall t :: t in tokens ==> t.kind != WS
    ensures Visible(Spaced(tokens)) == tokens
  {
    if |tokens| > 1 {
      SpacedVisible(tokens[1..]);
      var tail := [BLANK] + Spaced(tokens[1..]);
      assert Spaced(tokens) == [tokens[0]] + tail;
      assert tail[1..] == Spaced(tokens[1..]);
      assert Visible(tail) == tokens[1..];
      assert Spaced(tokens)[1..] == tail;
    }
  }

  /** A lexeme starts with no space when the whitespace rule is tried first. */
  lemma LexemeStarts(kinds: seq<Kind>, t: Token)
    requires |kinds| > 0 && kinds[0] == WS && IsLexeme(kinds, t)
    ensures !IsSpace(t.text[0])
  {
    var rules := RulesFor(kinds);
    var i := FirstOfSplits(rules, t.text);
    assert !Matches(rules[0], t.text);
  }

  lemma BlankIsNext(kinds: seq<Kind>, r: string)
    requires |kinds| > 0 && kinds[0] == WS && r != "" && !IsSpace(r[0])
    ensures NextPiece(RulesFor(kinds), " " + r) == Some(BLANK)
  {
    var s := " " + r;
    SpanIs(s, IsSpace, 1);
    FirstOfIs(RulesFor(kinds), s, 0);
    assert s[..1] == " ";
  }

  lemma ScanAfter(rules: seq<Rule>, t: Token, rest: string)
    requires t.text != "" && NextPiece(rules, t.text + rest) == Some(t)
    ensures Scan(rules, t.text + rest) == Prepend([t], Scan(rules, rest))
  {
    assert (t.text + rest)[|t.text|..] == rest;
  }

  lemma ScanAfterBlank(rules: seq<Rule>, t: Token, u: string)
    requires t.text != "" && NextPiece(rules, t.text + (" " + u)) == Some(t)
    requires NextPiece(rules, " " + u) == Some(BLANK)
    ensures Scan(rules, t.text + " " + u) == Prepend([t, BLANK], Scan(rules, u))
  {
    var rest := " " + u;
    ScanAfter(rules, t, rest);
    ScanAfter(rules, BLANK, u);
    assert t.text + rest == t.text + " " + u;
    PrependTwo(t, BLANK, Scan(rules, u));
  }

  lemma PrependTwo(a: Token, b: Token, rest: Option<seq<Token>>)
    ensures Prepend([a], Prepend([b], rest)) == Prepend([a, b], rest)
  {
    if rest.Some? { assert [a] + ([b] + rest.value) == [a, b] + rest.value; }
  }

  lemma {:induction false} RenderingPieces(kinds: seq<Kind>, tokens: seq<Token>)
    requires WellOrdered(kinds) && |kinds| > 0 && kinds[0] == WS
    requires forall t :: t in tokens ==> IsLexeme(kinds, t)
    ensures Scan(RulesFor(kinds), Render(tokens)) == Some(Spaced(tokens))
  {
    if |tokens| == 1 {
      var t := tokens[0];
      LexemeIsNext(kinds, t, "");
      ScanAfter(RulesFor(kinds), t, "");
      assert t.text + "" == t.text;
      assert tokens == [t] + [];
    } else if |tokens| > 1 {
      var t, tail := tokens[0], tokens[1..];
      var u := Render(tail);
      assert tail[0] in tokens;
      LexemeStarts(kinds, tail[0]);
      BlankIsNext(kinds, u);
      LexemeIsNext(kinds, t, " " + u);
      ScanAfterBlank(RulesFor(kinds), t, u);
      RenderingPieces(kinds, tail);
    }
  }

  /** Tokenizing a rendering gives the tokens back. */
  lemma RenderThenTokenize(tokens: seq<Token>)
    requires forall t :: t in tokens ==> IsLexeme(KINDS, t)
    ensures Tokens(RulesFor(KINDS), Render(tokens)) == Some(tokens)
  {
    KindsAreWellOrdered();
    RenderingPieces(KINDS, tokens);
    SpacedVisible(tokens);
  }

  /** The last character of a text is not whitespace. */
  predicate EndsSolid(s: string) {
    s != "" && !IsSpace(s[|s| - 1])
  }

  lemma {:induction false} PathEnds(s: string)
    requires PathLen(s) == |s| > 0
    ensures EndsSolid(s)
    decreases |s|
  {
    var w := Span(s, IsWord);
    if w < |s| {
      PathEnds(s[w..][1..]);
      assert s[w..][1..] == s[w + 1..];
    } else { assert IsWord(s[|s| - 1]); }
  }

  lemma LastArgEnds(s: string)
    requires LastArgLen(s) == |s| > 0
    ensures EndsSolid(s)
  {
    assert s[ArgLen(s)..][0] == ')' == s[|s| - 1];
  }

  lemma StepArgEnds(s: string)
    requires StepArgLen(s) == |s| > 0
    ensures EndsSolid(s)
  {
    var e := s[ArgLen(s)..];
    if |e| > 1 { PathEnds(e[1..][1..]); assert e[1..][1..] == e[2..]; }
    else { assert e[0] == s[|s| - 1]; }
  }

  lemma EnvArgEnds(s: string)
    requires EnvArgLen(s) == |s| > 0
    ensures EndsSolid(s)
  {
    var e := s[ArgLen(s)..];
    if e[0] == ',' { LastArgEnds(e[1..]); } else { assert e[0] == s[|s| - 1]; }
  }

  lemma TailEnds(s: string, k: nat)
    requires k < |s| && EndsSolid(s[k..])
    ensures EndsSolid(s)
  {
    assert s[k..][|s| - k - 1] == s[|s| - 1];
  }

  lemma RefEnds(s: string)
    requires RefLen(s) == |s| > 0
    ensures EndsSolid(s)
  {
    if FormLen(s) > 0 { PathEnds(s[6..]); TailEnds(s, 6); }
    else if StepLen(s) > 0 { StepArgEnds(s[6..]); TailEnds(s, 6); }
    else if EnvLen(s) > 0 { EnvArgEnds(s[5..]); TailEnds(s, 5); }
    else { LastArgEnds(s[8..]); TailEnds(s, 8); }
  }

  lemma WholeEnds(s: string)
    requires WholeLen(s) == |s| > 0
    ensures EndsSolid(s)
  {
    var f := s[Digits(s)..];
    if f != "" { assert IsDigit(f[1..][|f| - 2]); assert f[1..][|f| - 2] == s[|s| - 1]; }
    else { assert IsDigit(s[|s| - 1]); }
  }

  lemma NumEnds(s: string)
    requires NumLen(s) == |s| > 0
    ensures EndsSolid(s)
  {
    if s[0] == '-' { WholeEnds(s[1..]); } else { WholeEnds(s); }
  }

  lemma KwEnds(s: string)
    requires KwLen(s) == |s| > 0
    ensures EndsSolid(s)
  {
    var w := if KeywordLen(s, "true") > 0 then "true" else if KeywordLen(s, "false") > 0 then "false" else "null";
    assert s[..|w|] == s;
    assert LowerChar(s[|s| - 1]) == w[|w| - 1];
  }

  /** No match but whitespace ends in whitespace. */
  lemma MatchEnds(k: Kind, s: string)
    requires k != WS && MatchLen(k, s) == |s| > 0
    ensures EndsSolid(s)
  {
    match k
    case WS =>
    case REF => RefEnds(s);
    case NUM => NumEnds(s);
    case STR => StrEnds(s);
    case KW => KwEnds(s);
    case _ => assert s == Symbol(k);
  }

  lemma StrEnds(s: string)
    requires StrLen(s) == |s| > 0
    ensures EndsSolid(s)
  {
    var body := Span(s[1..], Not(s[0]));
    assert !Not(s[0])(s[1..][body]);
  }
}
