/** The run-scoped token vault: one token for each (type, value), and back. */
module Vault {
  import opened Basics
  import opened Lexer
  import opened Ordering
  import opened Splice
  import opened Substitution

  type Key = (string, string)

  // ------------------------------------------------------------------ token texts

  predicate IsUpper(c: char) { 'A' <= c <= 'Z' || c == '_' }

  function DigitChar(d: nat): char
    requires d < 10
  {
    (d + '0' as int) as char
  }

  function Decimal(n: nat): (s: string)
    ensures s != "" && forall i :: 0 <= i < |s| ==> IsDigit(s[i])
  {
    if n < 10 then [DigitChar(n)] else Decimal(n / 10) + [DigitChar(n % 10)]
  }

  const PREFIX := "__PII_"
  const SUFFIX := "__"

  /** The part of a token between its fixed ends. */
  function Body(kind: string, n: nat): string { Upper(kind) + "_" + Decimal(n) }

  function TokenText(kind: string, n: nat): string { PREFIX + Body(kind, n) + SUFFIX }

  lemma {:induction false} DecimalInjective(m: nat, n: nat)
    requires Decimal(m) == Decimal(n)
    ensures m == n
  {
    var s := Decimal(m);
    if m >= 10 && n >= 10 {
      assert s[..|s| - 1] == Decimal(m / 10) && s[..|s| - 1] == Decimal(n / 10);
      DecimalInjective(m / 10, n / 10);
      assert s[|s| - 1] == DigitChar(m % 10) == DigitChar(n % 10);
    } else if m < 10 && n < 10 {
      assert s[0] == DigitChar(m) == DigitChar(n);
    }
  }

  /** The number that decimal digits spell. */
  function Spelled(s: string): int {
    if s == "" then 0 else 10 * Spelled(s[..|s| - 1]) + (s[|s| - 1] as int - '0' as int)
  }

  lemma {:induction false} DecimalSpells(n: nat)
    ensures Spelled(Decimal(n)) == n
    ensures n > 0 ==> Decimal(n)[0] != '0'
  {
    var s := Decimal(n);
    if n >= 10 {
      DecimalSpells(n / 10);
      assert s[..|s| - 1] == Decimal(n / 10) && s[0] == Decimal(n / 10)[0];
    } else {
      assert s[..0] == "";
    }
  }

  /** `i` is the last place of an underscore in `s`. */
  predicate LastUnderscore(s: string, i: nat) {
    i < |s| && s[i] == '_' && forall j :: i < j < |s| ==> s[j] != '_'
  }

  lemma BodyUnderscore(u: string, d: string)
    requires forall i :: 0 <= i < |d| ==> IsDigit(d[i])
    ensures LastUnderscore(u + "_" + d, |u|)
  {
    var s := u + "_" + d;
    forall j | |u| < j < |s| ensures s[j] != '_' { assert s[j] == d[j - |u| - 1]; }
  }

  /** The digits after the last underscore are the number. */
  lemma SameBody(u: string, d: string, v: string, e: string)
    requires u + "_" + d == v + "_" + e
    requires (forall i :: 0 <= i < |d| ==> IsDigit(d[i])) && (forall i :: 0 <= i < |e| ==> IsDigit(e[i]))
    ensures u == v && d == e
  {
    var s, t := u + "_" + d, v + "_" + e;
    BodyUnderscore(u, d);
    BodyUnderscore(v, e);
    assert |u| == |v|;
    assert u == s[..|u|] && v == t[..|u|];
    assert d == s[|u| + 1..] && e == t[|u| + 1..];
  }

  /** Different numbers, or types that differ in more than case, give different tokens. */
  lemma TokenTextInjective(k: string, m: nat, l: string, n: nat)
    requires TokenText(k, m) == TokenText(l, n)
    ensures Upper(k) == Upper(l) && m == n
  {
    var s, t := TokenText(k, m), TokenText(l, n);
    assert Body(k, m) == s[6..|s| - 2] && Body(l, n) == t[6..|t| - 2];
    SameBody(Upper(k), Decimal(m), Upper(l), Decimal(n));
    DecimalInjective(m, n);
  }

  // ------------------------------------------------------------------ the maps

  /** `v2t` gives each (type, value) its token, `t2v` reads tokens back. */
  datatype Maps = Maps(v2t: map<Key, string>, t2v: map<string, Key>, counters: map<string, nat>)

  const EMPTY := Maps(map[], map[], map[])

  function Count(s: Maps, kind: string): nat {
    if kind in s.counters then s.counters[kind] else 0
  }

  function TokenizeKey(s: Maps, key: Key): Maps {
    if key in s.v2t then s
    else
      var n := Count(s, key.0) + 1;
      var token := TokenText(key.0, n);
      Maps(s.v2t[key := token], s.t2v[token := key], s.counters[key.0 := n])
  }

  function TokenizeAll(s: Maps, keys: seq<Key>): Maps {
    if keys == [] then s else TokenizeKey(TokenizeAll(s, keys[..|keys| - 1]), keys[|keys| - 1])
  }

  lemma {:induction false} TokenizeAllAppend(s: Maps, a: seq<Key>, b: seq<Key>)
    ensures TokenizeAll(s, a + b) == TokenizeAll(TokenizeAll(s, a), b)
  {
    if b == [] {
      assert a + b == a;
    } else {
      TokenizeAllAppend(s, a, b[..|b| - 1]);
      assert (a + b)[..|a + b| - 1] == a + b[..|b| - 1];
    }
  }

  /** `m` keeps everything `l` has. */
  ghost predicate Extends(l: map<Key, string>, m: map<Key, string>) {
    forall k :: k in l ==> k in m && m[k] == l[k]
  }

  /** Tokenizing adds the key and changes no token already given. */
  lemma {:induction false} TokensAreKept(s: Maps, keys: seq<Key>)
    ensures Extends(s.v2t, TokenizeAll(s, keys).v2t)
    ensures forall k :: k in keys ==> k in TokenizeAll(s, keys).v2t
  {
    if keys != [] {
      TokensAreKept(s, keys[..|keys| - 1]);
    }
  }

  lemma OneMoreValue(keys: seq<Key>, last: Key, kind: string)
    ensures |set k | k in keys + [last] && k.0 == kind|
         == |set k | k in keys && k.0 == kind| + if last.0 == kind && last !in keys then 1 else 0
  {
    var before := set k | k in keys && k.0 == kind;
    assert (set k | k in keys + [last] && k.0 == kind) == before + if last.0 == kind then {last} else {};
  }

  /** Each type's counter is the number of its different values so far. */
  lemma {:induction false} CountersCount(keys: seq<Key>, kind: string)
    ensures Count(TokenizeAll(EMPTY, keys), kind) == |set k | k in keys && k.0 == kind|
    ensures forall k :: k in TokenizeAll(EMPTY, keys).v2t <==> k in keys
  {
    if keys == [] {
      assert (set k | k in keys && k.0 == kind) == {};
    } else {
      var (init, last) := (keys[..|keys| - 1], keys[|keys| - 1]);
      CountersCount(init, kind);
      assert keys == init + [last];
      OneMoreValue(init, last, kind);
    }
  }

  /** A numbered token of its type. */
  ghost predicate Numbered(s: Maps, k: Key) {
    k in s.v2t && exists n :: 1 <= n <= Count(s, k.0) && s.v2t[k] == TokenText(k.0, n)
  }

  ghost predicate AllNumbered(s: Maps) {
    forall k :: k in s.v2t ==> Numbered(s, k) && s.v2t[k] in s.t2v
  }

  ghost predicate OneValueEach(s: Maps) {
    forall k, l :: k in s.v2t && l in s.v2t && k.0 == l.0 && s.v2t[k] == s.v2t[l] ==> k == l
  }

  /** What every vault keeps, whatever the types. */
  ghost predicate Consistent(s: Maps) {
    && AllNumbered(s) && OneValueEach(s)
    && (forall t :: t in s.t2v ==> s.t2v[t] in s.v2t && s.v2t[s.t2v[t]] == t)
  }

  ghost predicate Inverse(s: Maps) {
    && (forall k :: k in s.v2t ==> s.v2t[k] in s.t2v && s.t2v[s.v2t[k]] == k)
    && (forall t :: t in s.t2v ==> s.t2v[t] in s.v2t && s.v2t[s.t2v[t]] == t)
  }

  lemma FreshNumber(s: Maps, key: Key, k: Key)
    requires Consistent(s) && key !in s.v2t && k in s.v2t && k.0 == key.0
    ensures s.v2t[k] != TokenText(key.0, Count(s, key.0) + 1)
  {
    var n :| 1 <= n <= Count(s, k.0) && s.v2t[k] == TokenText(k.0, n);
    if s.v2t[k] == TokenText(key.0, Count(s, key.0) + 1) {
      TokenTextInjective(k.0, n, key.0, Count(s, key.0) + 1);
    }
  }

  lemma StillNumbered(s: Maps, key: Key, k: Key)
    requires Numbered(s, k) && k != key
    ensures Numbered(TokenizeKey(s, key), k)
  {
    var n :| 1 <= n <= Count(s, k.0) && s.v2t[k] == TokenText(k.0, n);
    assert n <= Count(TokenizeKey(s, key), k.0);
  }

  lemma TokenizeKeyNumbers(s: Maps, key: Key)
    requires AllNumbered(s) && key !in s.v2t
    ensures AllNumbered(TokenizeKey(s, key))
  {
    var r := TokenizeKey(s, key);
    var n := Count(s, key.0) + 1;
    assert r.v2t[key] == TokenText(key.0, n) && n <= Count(r, key.0);
    forall k | k in r.v2t ensures Numbered(r, k) && r.v2t[k] in r.t2v {
      if k != key { StillNumbered(s, key, k); }
    }
  }

  lemma TokenizeKeyKeepsApart(s: Maps, key: Key)
    requires Consistent(s) && key !in s.v2t
    ensures OneValueEach(TokenizeKey(s, key))
  {
    var token := TokenText(key.0, Count(s, key.0) + 1);
    forall k | k in s.v2t && k.0 == key.0 ensures s.v2t[k] != token { FreshNumber(s, key, k); }
  }

  lemma TokenizeKeyKeepsConsistent(s: Maps, key: Key)
    requires Consistent(s)
    ensures Consistent(TokenizeKey(s, key))
  {
    if key !in s.v2t {
      TokenizeKeyNumbers(s, key);
      TokenizeKeyKeepsApart(s, key);
    }
  }

  lemma {:induction false} AlwaysConsistent(keys: seq<Key>)
    ensures Consistent(TokenizeAll(EMPTY, keys))
  {
    if keys != [] {
      AlwaysConsistent(keys[..|keys| - 1]);
      TokenizeKeyKeepsConsistent(TokenizeAll(EMPTY, keys[..|keys| - 1]), keys[|keys| - 1]);
    }
  }

  /** Types used with the vault that differ do so in more than case. */
  ghost predicate DistinctTypes(keys: seq<Key>) {
    forall k, l :: k in keys && l in keys && Upper(k.0) == Upper(l.0) ==> k.0 == l.0
  }

  lemma {:induction false} OnlyTheseKeys(keys: seq<Key>)
    ensures forall k :: k in TokenizeAll(EMPTY, keys).v2t ==> k in keys
  {
    if keys != [] { OnlyTheseKeys(keys[..|keys| - 1]); }
  }

  /** The first value of a type gets number 1. */
  lemma {:induction false} FirstNumber(keys: seq<Key>, kind: string) returns (value: string)
    requires exists k :: k in keys && k.0 == kind
    ensures (kind, value) in TokenizeAll(EMPTY, keys).v2t
    ensures TokenizeAll(EMPTY, keys).v2t[(kind, value)] == TokenText(kind, 1)
    ensures kind in TokenizeAll(EMPTY, keys).counters
  {
    var before, last := keys[..|keys| - 1], keys[|keys| - 1];
    var s := TokenizeAll(EMPTY, before);
    if exists k :: k in before && k.0 == kind {
      value := FirstNumber(before, kind);
      TokenStays(s, last, (kind, value));
    } else {
      assert keys == before + [last];
      value := last.1;
      NotCounted(before, kind);
      OnlyTheseKeys(before);
      FirstOfItsType(s, last);
    }
  }

  lemma TokenStays(s: Maps, next: Key, key: Key)
    requires key in s.v2t && key.0 in s.counters
    ensures var r := TokenizeKey(s, next); key in r.v2t && r.v2t[key] == s.v2t[key] && key.0 in r.counters
  {}

  lemma FirstOfItsType(s: Maps, key: Key)
    requires key !in s.v2t && key.0 !in s.counters
    ensures var r := TokenizeKey(s, key); key in r.v2t && r.v2t[key] == TokenText(key.0, 1) && key.0 in r.counters
  {}

  lemma {:induction false} NotCounted(keys: seq<Key>, kind: string)
    requires forall k :: k in keys ==> k.0 != kind
    ensures kind !in TokenizeAll(EMPTY, keys).counters
  {
    if keys != [] { NotCounted(keys[..|keys| - 1], kind); }
  }

  lemma SameTokenSameType(s: Maps, k: Key, l: Key)
    requires Numbered(s, k) && Numbered(s, l) && s.v2t[k] == s.v2t[l]
    ensures Upper(k.0) == Upper(l.0)
  {
    var m :| 1 <= m <= Count(s, k.0) && s.v2t[k] == TokenText(k.0, m);
    var n :| 1 <= n <= Count(s, l.0) && s.v2t[l] == TokenText(l.0, n);
    TokenTextInjective(k.0, m, l.0, n);
  }

  /** Types that differ only in case have the same first token, which reads back as one of them. */
  lemma SameFirstToken(keys: seq<Key>, k: Key, l: Key)
    requires Inverse(TokenizeAll(EMPTY, keys)) && k in keys && l in keys && Upper(k.0) == Upper(l.0)
    ensures k.0 == l.0
  {
    var s := TokenizeAll(EMPTY, keys);
    var v := FirstNumber(keys, k.0);
    var w := FirstNumber(keys, l.0);
    assert s.t2v[TokenText(k.0, 1)] == (k.0, v) && s.t2v[TokenText(l.0, 1)] == (l.0, w);
  }

  lemma DistinctGiveInverse(keys: seq<Key>)
    requires DistinctTypes(keys) && Consistent(TokenizeAll(EMPTY, keys))
    ensures Inverse(TokenizeAll(EMPTY, keys))
  {
    var s := TokenizeAll(EMPTY, keys);
    OnlyTheseKeys(keys);
    forall k | k in s.v2t ensures s.v2t[k] in s.t2v && s.t2v[s.v2t[k]] == k {
      SameTokenSameType(s, k, s.t2v[s.v2t[k]]);
    }
  }

  /** The two maps of a vault are mutually inverse, after any sequence of calls, if and only if no
      two of the types used differ only in case. */
  lemma InverseIffDistinctTypes(keys: seq<Key>)
    ensures Inverse(TokenizeAll(EMPTY, keys)) <==> DistinctTypes(keys)
  {
    AlwaysConsistent(keys);
    if DistinctTypes(keys) {
      DistinctGiveInverse(keys);
    } else if Inverse(TokenizeAll(EMPTY, keys)) {
      forall k, l | k in keys && l in keys && Upper(k.0) == Upper(l.0) ensures k.0 == l.0 {
        SameFirstToken(keys, k, l);
      }
    }
  }

  // ------------------------------------------------------------------ reading tokens back

  /** Length of a token at the start of `s`: the prefix, letters and underscores, an underscore,
      digits, the suffix. 0 when there is none. The run of letters and underscores ends at the
      first digit, so the pattern matches in at most one way. */
  function MatchToken(s: string): (n: nat)
    ensures n <= |s|
  {
    if Starts(s, PREFIX) then Both(6, MatchBody(s[6..])) else 0
  }

  function MatchBody(s: string): (n: nat)
    ensures n <= |s|
  {
    var u := Span(s, IsUpper);
    if u >= 2 && s[u - 1] == '_' then Both(u, MatchNumber(s[u..])) else 0
  }

  function MatchNumber(s: string): (n: nat)
    ensures n <= |s|
  {
    var d := Digits(s);
    if d > 0 && Starts(s[d..], SUFFIX) then d + 2 else 0
  }

  /** What the pattern matches: the prefix, letters and underscores, an underscore, digits, the suffix. */
  lemma MatchedText(s: string, u: string, d: string, r: string)
    requires u != "" && (forall i :: 0 <= i < |u| ==> IsUpper(u[i]))
    requires d != "" && (forall i :: 0 <= i < |d| ==> IsDigit(d[i]))
    requires s == "__PII_" + (u + "_" + (d + ("__" + r)))
    ensures MatchToken(s) == 6 + |u| + 1 + |d| + 2
  {
    var (run, tail) := (u + "_", d + ("__" + r));
    assert s[..6] == PREFIX && s[6..] == run + tail;
    SpanIs(run + tail, IsUpper, |run|);
    assert (run + tail)[|run|..] == tail;
    MatchedNumber(d, r);
  }

  lemma MatchedNumber(d: string, r: string)
    requires d != "" && (forall i :: 0 <= i < |d| ==> IsDigit(d[i]))
    ensures MatchNumber(d + ("__" + r)) == |d| + 2
  {
    var tail := d + ("__" + r);
    SpanIs(tail, IsDigit, |d|);
    assert tail[|d|..] == "__" + r && ("__" + r)[..2] == SUFFIX;
  }

  /** And nothing else. */
  lemma OnlyTokensMatch(s: string) returns (u: string, d: string)
    requires MatchToken(s) > 0
    ensures u != "" && (forall i :: 0 <= i < |u| ==> IsUpper(u[i]))
    ensures d != "" && (forall i :: 0 <= i < |d| ==> IsDigit(d[i]))
    ensures s[..MatchToken(s)] == "__PII_" + (u + "_" + (d + "__"))
  {
    var t := s[6..];
    var k := Span(t, IsUpper);
    var v := t[k..];
    var m := Digits(v);
    u, d := t[..k - 1], v[..m];
    assert s[..6] == PREFIX && s == PREFIX + t;
    assert t[..k] == u + "_" && v[..m + 2] == d + SUFFIX by { assert v[m..][..2] == SUFFIX; }
    ThreeParts(s, t, v, k, m + 2);
    assert u + "_" + (d + SUFFIX) == t[..k] + v[..m + 2];
  }

  lemma ThreeParts(s: string, t: string, v: string, k: nat, n: nat)
    requires s == PREFIX + t && k <= |t| && v == t[k..] && n <= |v|
    ensures s[..6 + k + n] == PREFIX + (t[..k] + v[..n])
  {
    assert t[..k + n] == t[..k] + v[..n];
  }

  function TokenPattern(): string -> nat { s => MatchToken(s) }

  /** What a matched token is replaced by: its value, or itself when the vault does not know it. */
  function Reader(t2v: map<string, Key>): string -> string {
    token => if token in t2v then t2v[token].1 else token
  }

  function Detokenized(t2v: map<string, Key>, s: string): string {
    Substitute(TokenPattern(), Reader(t2v), s)
  }

  /** Any token at the start of a text is read whole: a known one becomes its value, an unknown one stays. */
  lemma TokenIsRead(t2v: map<string, Key>, u: string, d: string, r: string)
    requires u != "" && (forall i :: 0 <= i < |u| ==> IsUpper(u[i]))
    requires d != "" && (forall i :: 0 <= i < |d| ==> IsDigit(d[i]))
    ensures var token := "__PII_" + (u + "_" + (d + "__"));
      Detokenized(t2v, token + r) == (if token in t2v then t2v[token].1 else token) + Detokenized(t2v, r)
  {
    var token := "__PII_" + (u + "_" + (d + "__"));
    assert token + r == "__PII_" + (u + "_" + (d + ("__" + r)));
    MatchedText(token + r, u, d, r);
    MatchIsReplaced(TokenPattern(), Reader(t2v), token, r);
  }

  /** Where no token begins, a character stays. */
  lemma CharacterStays(t2v: map<string, Key>, s: string)
    requires s != "" && MatchToken(s) == 0
    ensures Detokenized(t2v, s) == [s[0]] + Detokenized(t2v, s[1..])
  {
    FirstIsKept(TokenPattern(), Reader(t2v), s);
  }

  /** A type the pattern can read: its upper-case form is letters and underscores. */
  predicate Readable(kind: string) {
    kind != "" && forall i :: 0 <= i < |kind| ==> IsUpper(UpperChar(kind[i]))
  }

  lemma NumberMatches(n: nat, r: string)
    ensures MatchNumber(Decimal(n) + SUFFIX + r) == |Decimal(n)| + 2
  {
    var d := Decimal(n);
    var s := d + SUFFIX + r;
    SpanIs(s, IsDigit, |d|);
    assert s[|d|..] == SUFFIX + r;
    assert (SUFFIX + r)[..2] == SUFFIX;
  }

  lemma BodyMatches(kind: string, n: nat, r: string)
    requires Readable(kind)
    ensures MatchBody(Body(kind, n) + SUFFIX + r) == |Body(kind, n)| + 2
  {
    var run := Upper(kind) + "_";
    var tail := Decimal(n) + SUFFIX + r;
    assert Body(kind, n) + SUFFIX + r == run + tail;
    SpanIs(run + tail, IsUpper, |run|);
    assert (run + tail)[|run|..] == tail;
    NumberMatches(n, r);
  }

  /** Whatever follows a token of a readable type, it is matched whole. */
  lemma TokenMatches(kind: string, n: nat, r: string)
    requires Readable(kind)
    ensures MatchToken(TokenText(kind, n) + r) == |TokenText(kind, n)|
    ensures (TokenText(kind, n) + r)[..|TokenText(kind, n)|] == TokenText(kind, n)
    ensures (TokenText(kind, n) + r)[|TokenText(kind, n)|..] == r
  {
    var s := TokenText(kind, n) + r;
    assert s[..6] == PREFIX;
    assert s[6..] == Body(kind, n) + SUFFIX + r;
    BodyMatches(kind, n, r);
  }

  /** The pattern matches a token whole if and only if its type is readable; a digit in the type,
      as in ipv4, or an empty type makes a token that is never read back. */
  lemma MatchedIffReadable(kind: string, n: nat)
    ensures MatchToken(TokenText(kind, n)) == |TokenText(kind, n)| <==> Readable(kind)
  {
    var s := TokenText(kind, n);
    if Readable(kind) {
      TokenMatches(kind, n, "");
      assert s + "" == s;
    } else {
      assert s[6..] == Body(kind, n) + SUFFIX;
      UnreadableBody(kind, n);
    }
  }

  lemma UnreadableBody(kind: string, n: nat)
    requires !Readable(kind)
    ensures MatchBody(Body(kind, n) + SUFFIX) < |Body(kind, n) + SUFFIX|
  {
    var s := Body(kind, n) + SUFFIX;
    var u := Span(s, IsUpper);
    if kind == "" {
      assert s == "_" + (Decimal(n) + SUFFIX);
      SpanIs(s, IsUpper, 1);
    } else {
      var i :| 0 <= i < |kind| && !IsUpper(UpperChar(kind[i]));
      assert s[i] == UpperChar(kind[i]);
      assert u <= i;
      // The digits stop at the underscore after the type at the latest, and more than the suffix follows.
      var d := Digits(s[u..]);
      assert s[|kind|] == '_' && s[u..][|kind| - u] == '_';
      assert d <= |kind| - u;
    }
  }

  // ------------------------------------------------------------------ round trip

  const MARK := "__PII"

  /** The mark occurs nowhere in `gap`. */
  predicate Unmarked(gap: string) {
    gap == "" || (!Starts(gap, MARK) && Unmarked(gap[1..]))
  }

  lemma UnderscoresApart(s: string, k: nat)
    requires 1 <= k <= 4 && k + 1 < |s| && s[k] == '_' && s[k + 1] == '_'
    ensures !Starts(s, PREFIX)
  {
    if |s| >= 6 { assert s[..6][k] == s[k] && s[..6][k + 1] == s[k + 1]; }
  }

  lemma PrefixHasMark(gap: string, rest: string)
    requires |gap| >= 5 && !Starts(gap, MARK)
    ensures !Starts(gap + rest, PREFIX)
  {
    var s := gap + rest;
    assert PREFIX[..5] == MARK;
    if |s| >= 6 { assert s[..6][..5] == gap[..5]; }
  }

  /** A match cannot begin in a gap that a token, or nothing, follows. */
  lemma NoMatchInGap(gap: string, rest: string)
    requires gap != "" && Unmarked(gap)
    requires rest == "" || Starts(rest, SUFFIX)
    ensures MatchToken(gap + rest) == 0
  {
    if |gap| >= 5 {
      PrefixHasMark(gap, rest);
    } else if rest != "" {
      assert rest[..2][0] == '_' && rest[..2][1] == '_';
      UnderscoresApart(gap + rest, |gap|);
    }
  }

  lemma {:induction false} UnmarkedSuffix(gap: string, i: nat)
    requires Unmarked(gap) && i <= |gap|
    ensures Unmarked(gap[i..])
  {
    if i == 0 { assert gap[0..] == gap; }
    else { UnmarkedSuffix(gap[1..], i - 1); assert gap[1..][i - 1..] == gap[i..]; }
  }

  lemma UnmarkedIsKept(t2v: map<string, Key>, gap: string, rest: string)
    requires Unmarked(gap) && (rest == "" || Starts(rest, SUFFIX))
    ensures Detokenized(t2v, gap + rest) == gap + Detokenized(t2v, rest)
  {
    forall i | 0 <= i < |gap| ensures TokenPattern()(gap[i..] + rest) == 0 {
      UnmarkedSuffix(gap, i);
      NoMatchInGap(gap[i..], rest);
    }
    GapIsKept(TokenPattern(), Reader(t2v), gap, rest);
  }

  /** `word` is a token of a readable type that reads as `value`. */
  ghost predicate ReadsAs(t2v: map<string, Key>, word: string, value: string) {
    && word in t2v && t2v[word].1 == value
    && exists n :: word == TokenText(t2v[word].0, n) && Readable(t2v[word].0)
  }

  lemma TokenIsMarked(kind: string, n: nat, rest: string)
    ensures TokenText(kind, n) != "" && Starts(TokenText(kind, n) + rest, SUFFIX)
  {
    assert (TokenText(kind, n) + rest)[..2] == PREFIX[..2];
  }

  lemma ReadableMatches(t2v: map<string, Key>, word: string, value: string, rest: string)
    requires ReadsAs(t2v, word, value)
    ensures word != "" && Starts(word + rest, SUFFIX) && MatchToken(word + rest) == |word|
  {
    var kind := t2v[word].0;
    var n :| word == TokenText(kind, n) && Readable(kind);
    TokenMatches(kind, n, rest);
    TokenIsMarked(kind, n, rest);
  }

  lemma TokenReadsBack(t2v: map<string, Key>, word: string, value: string, rest: string)
    requires ReadsAs(t2v, word, value)
    ensures Starts(word + rest, SUFFIX)
    ensures Detokenized(t2v, word + rest) == value + Detokenized(t2v, rest)
  {
    ReadableMatches(t2v, word, value, rest);
    var pattern := TokenPattern();
    assert pattern(word + rest) == |word|;
    MatchIsReplaced(pattern, Reader(t2v), word, rest);
  }

  lemma {:induction false} WovenReadsBack(t2v: map<string, Key>, gaps: seq<string>, words: seq<string>,
                                          values: seq<string>)
    requires |gaps| == |words| + 1 && |values| == |words|
    requires forall i :: 0 <= i < |gaps| ==> Unmarked(gaps[i])
    requires forall i :: 0 <= i < |words| ==> ReadsAs(t2v, words[i], values[i])
    ensures Detokenized(t2v, Weave(gaps, words)) == Weave(gaps, values)
  {
    if words == [] {
      UnmarkedIsKept(t2v, gaps[0], "");
      assert gaps[0] + "" == gaps[0];
    } else {
      var tail := Weave(gaps[1..], words[1..]);
      assert ReadsAs(t2v, words[0], values[0]);
      TokenReadsBack(t2v, words[0], values[0], tail);
      UnmarkedIsKept(t2v, gaps[0], words[0] + tail);
      forall i | 0 <= i < |words| - 1 ensures ReadsAs(t2v, words[1..][i], values[1..][i]) {
        assert ReadsAs(t2v, words[i + 1], values[i + 1]);
      }
      WovenReadsBack(t2v, gaps[1..], words[1..], values[1..]);
    }
  }

  // ------------------------------------------------------------------ tokenizing a text

  function KeyOf(f: Finding): Key { (f.kind, f.value) }

  function KeysOf(fs: seq<Finding>): (keys: seq<Key>)
    ensures |keys| == |fs| && forall i :: 0 <= i < |fs| ==> keys[i] == KeyOf(fs[i])
  {
    seq(|fs|, i requires 0 <= i < |fs| => KeyOf(fs[i]))
  }

  /** Each finding's token. */
  function TokenOf(v2t: map<Key, string>): Mask {
    f => if KeyOf(f) in v2t then v2t[KeyOf(f)] else ""
  }

  lemma {:induction false} SpliceSameMasks(text: string, fs: seq<Finding>, m: Mask, n: Mask)
    requires forall f :: f in fs ==> m(f) == n(f)
    ensures SpliceAll(text, fs, m) == SpliceAll(text, fs, n)
  {
    if fs != [] { SpliceSameMasks(text, fs[..|fs| - 1], m, n); }
  }

  /** Tokenizing the next finding leaves what was spliced so far as it is. */
  lemma OneMoreToken(text: string, start: Maps, sorted: seq<Finding>, i: nat, before: Maps, after: Maps)
    requires i < |sorted| && before == TokenizeAll(start, KeysOf(sorted[..i]))
    requires after == TokenizeKey(before, KeyOf(sorted[i]))
    ensures after == TokenizeAll(start, KeysOf(sorted[..i + 1]))
    ensures SpliceAll(text, sorted[..i + 1], TokenOf(after.v2t))
         == Replace(SpliceAll(text, sorted[..i], TokenOf(before.v2t)), sorted[i], TokenOf(after.v2t))
  {
    assert KeysOf(sorted[..i + 1])[..i] == KeysOf(sorted[..i]) && sorted[..i + 1][..i] == sorted[..i];
    TokensAreKept(start, KeysOf(sorted[..i]));
    forall g | g in sorted[..i] ensures TokenOf(before.v2t)(g) == TokenOf(after.v2t)(g) {
      assert KeyOf(g) in KeysOf(sorted[..i]);
    }
    SpliceSameMasks(text, sorted[..i], TokenOf(before.v2t), TokenOf(after.v2t));
  }

  class TokenVault {
    var valueToToken: map<Key, string>
    var tokenToValue: map<string, Key>
    var counters: map<string, nat>

    constructor ()
      ensures State() == EMPTY
    {
      valueToToken, tokenToValue, counters := map[], map[], map[];
    }

    function State(): Maps reads this { Maps(valueToToken, tokenToValue, counters) }

    method Tokenize(kind: string, value: string) returns (token: string)
      modifies this
      ensures State() == TokenizeKey(old(State()), (kind, value))
      ensures (kind, value) in valueToToken && token == valueToToken[(kind, value)]
      ensures (kind, value) in old(valueToToken) ==> token == old(valueToToken[(kind, value)])
      ensures (kind, value) !in old(valueToToken) ==>
                var n := (if kind in old(counters) then old(counters[kind]) else 0) + 1;
                && token == "__PII_" + (Upper(kind) + "_" + Decimal(n)) + "__"
                && counters == old(counters)[kind := n]
    {
      var key := (kind, value);
      if key in valueToToken { return valueToToken[key]; }
      var counter := (if kind in counters then counters[kind] else 0) + 1;
      counters := counters[kind := counter];
      token := TokenText(kind, counter);
      valueToToken := valueToToken[key := token];
      tokenToValue := tokenToValue[token := key];
    }

    method Detokenize(token: string) returns (r: Option<Key>)
      ensures r == if token in tokenToValue then Some(tokenToValue[token]) else None
    {
      if token in tokenToValue { return Some(tokenToValue[token]); }
      return None;
    }

    /** Replaces findings from the last to the first; tokens are handed out in that order. */
    method TokenizeText(text: string, findings: seq<Finding>) returns (result: string)
      modifies this
      ensures var sorted := Sort(findings, LatestFirst());
        && State() == TokenizeAll(old(State()), KeysOf(sorted))
        && result == SpliceAll(text, sorted, TokenOf(valueToToken))
    {
      var sorted := Sort(findings, LatestFirst());
      result := text;
      for i := 0 to |sorted|
        invariant State() == TokenizeAll(old(State()), KeysOf(sorted[..i]))
        invariant result == SpliceAll(text, sorted[..i], TokenOf(valueToToken))
      {
        var f := sorted[i];
        ghost var before := State();
        var token := Tokenize(f.kind, f.value);
        OneMoreToken(text, old(State()), sorted, i, before, State());
        result := Take(result, f.start) + token + Drop(result, f.end);
      }
      assert sorted[..|sorted|] == sorted;
    }

    method DetokenizeText(text: string) returns (result: string)
      ensures result == Detokenized(tokenToValue, text)
    {
      result := SubstituteAll(TokenPattern(), Reader(tokenToValue), text);
    }

    method Clear()
      modifies this
      ensures State() == EMPTY
    {
      valueToToken, tokenToValue, counters := map[], map[], map[];
    }
  }

  // ------------------------------------------------------------------ the round trip

  /** The value is the text of the span. So it is with every detector but the one for secrets behind a
      key, which reports the secret as value and key and secret together as span. */
  ghost predicate Exact(text: string, fs: seq<Finding>) {
    forall f :: f in fs ==> Within(f, |text|) && f.value == text[f.start..f.end]
  }

  /** The value is a part of the text of the span, as with every detector. */
  ghost predicate PartOfSpan(text: string, f: Finding) {
    Within(f, |text|) && exists a :: f.start <= a && a + |f.value| <= f.end && OccursAt(text, f.value, a)
  }

  predicate OccursAt(text: string, s: string, a: nat) { a + |s| <= |text| && text[a..a + |s|] == s }

  function ValuesOf(fs: seq<Finding>): (values: seq<string>)
    ensures |values| == |fs| && forall i :: 0 <= i < |fs| ==> values[i] == fs[i].value
  {
    seq(|fs|, i requires 0 <= i < |fs| => fs[i].value)
  }

  lemma {:induction false} SpansAt(text: string, from: nat, fs: seq<Finding>, i: nat)
    requires Ascends(fs, from, |text|) && i < |fs|
    ensures Within(fs[i], |text|) && Spans(text, from, fs)[i] == text[fs[i].start..fs[i].end]
    decreases i
  {
    AscendsWithin(fs[1..], fs[0].end, |text|);
    if i > 0 { SpansAt(text, fs[0].end, fs[1..], i - 1); }
  }

  lemma {:induction false} MasksAt(fs: seq<Finding>, mask: Mask, i: nat)
    requires i < |fs|
    ensures Masks(fs, mask)[i] == mask(fs[i])
  {
    if i > 0 { MasksAt(fs[1..], mask, i - 1); }
  }

  /** A key tokenized once reads back from the vault as it is after further calls. */
  lemma KeyReadsBack(keys: seq<Key>, later: seq<Key>, key: Key)
    requires key in keys && Readable(key.0) && DistinctTypes(keys + later)
    ensures var s, t := TokenizeAll(EMPTY, keys), TokenizeAll(EMPTY, keys + later);
      key in s.v2t && ReadsAs(t.t2v, s.v2t[key], key.1)
  {
    var s, t := TokenizeAll(EMPTY, keys), TokenizeAll(EMPTY, keys + later);
    TokenizeAllAppend(EMPTY, keys, later);
    TokensAreKept(EMPTY, keys);
    TokensAreKept(s, later);
    InverseIffDistinctTypes(keys + later);
    AlwaysConsistent(keys);
    assert Numbered(s, key);
    var n :| 1 <= n <= Count(s, key.0) && s.v2t[key] == TokenText(key.0, n);
    assert t.t2v[t.v2t[key]] == key;
  }

  /** The text outside the findings holds no mark. */
  ghost predicate UnmarkedOutside(text: string, fs: seq<Finding>) {
    var inOrder := Sort(fs, EarliestFirst());
    Ascends(inOrder, 0, |text|) && forall gap :: gap in Gaps(text, 0, inOrder) ==> Unmarked(gap)
  }

  /** Every finding has a token that reads as its value. */
  ghost predicate AllReadable(fs: seq<Finding>, v2t: map<Key, string>, t2v: map<string, Key>) {
    forall f :: f in fs ==> KeyOf(f) in v2t && ReadsAs(t2v, v2t[KeyOf(f)], f.value)
  }

  lemma KeysReadBack(fs: seq<Finding>, keys: seq<Key>, later: seq<Key>)
    requires DistinctTypes(keys + later)
    requires forall f :: f in fs ==> KeyOf(f) in keys && Readable(f.kind)
    ensures AllReadable(fs, TokenizeAll(EMPTY, keys).v2t, TokenizeAll(EMPTY, keys + later).t2v)
  {
    forall f | f in fs
      ensures KeyOf(f) in TokenizeAll(EMPTY, keys).v2t
      ensures ReadsAs(TokenizeAll(EMPTY, keys + later).t2v, TokenizeAll(EMPTY, keys).v2t[KeyOf(f)], f.value)
    {
      KeyReadsBack(keys, later, KeyOf(f));
    }
  }

  /** What is read back is the text with each finding's value in the place of its span. */
  lemma SplicedReadsBack(text: string, fs: seq<Finding>, v2t: map<Key, string>, t2v: map<string, Key>)
    requires Apart(fs, |text|) && UnmarkedOutside(text, fs) && AllReadable(fs, v2t, t2v)
    ensures var inOrder := Sort(fs, EarliestFirst());
      Detokenized(t2v, SpliceAll(text, Sort(fs, LatestFirst()), TokenOf(v2t)))
        == Weave(Gaps(text, 0, inOrder), ValuesOf(inOrder))
  {
    DisjointSplice(text, fs, TokenOf(v2t));
    SameElements(Sort(fs, EarliestFirst()), fs);
    TokensReadBack(text, Sort(fs, EarliestFirst()), v2t, t2v);
  }

  lemma TokensReadBack(text: string, fs: seq<Finding>, v2t: map<Key, string>, t2v: map<string, Key>)
    requires Ascends(fs, 0, |text|) && AllReadable(fs, v2t, t2v)
    requires forall gap :: gap in Gaps(text, 0, fs) ==> Unmarked(gap)
    ensures Detokenized(t2v, Weave(Gaps(text, 0, fs), Masks(fs, TokenOf(v2t))))
         == Weave(Gaps(text, 0, fs), ValuesOf(fs))
  {
    var words, values := Masks(fs, TokenOf(v2t)), ValuesOf(fs);
    forall i | 0 <= i < |words| ensures ReadsAs(t2v, words[i], values[i]) {
      assert fs[i] in fs;
      MasksAt(fs, TokenOf(v2t), i);
    }
    WovenReadsBack(t2v, Gaps(text, 0, fs), words, values);
  }

  predicate ShorterOrSame(words: seq<string>, spans: seq<string>) {
    |words| == |spans|
    && forall i :: 0 <= i < |words| ==> |words[i]| <= |spans[i]| && (|words[i]| == |spans[i]| ==> words[i] == spans[i])
  }

  /** Putting shorter words between the same gaps makes a shorter text. */
  lemma {:induction false} WeaveShrinks(gaps: seq<string>, words: seq<string>, spans: seq<string>)
    requires ShorterOrSame(words, spans) && |gaps| == |words| + 1
    ensures |Weave(gaps, words)| <= |Weave(gaps, spans)|
    ensures |Weave(gaps, words)| == |Weave(gaps, spans)| ==> words == spans
  {
    if words != [] {
      assert |words[0]| <= |spans[0]|;
      forall i | 0 <= i < |words| - 1
        ensures |words[1..][i]| <= |spans[1..][i]|
        ensures |words[1..][i]| == |spans[1..][i]| ==> words[1..][i] == spans[1..][i]
      {
        assert words[1..][i] == words[i + 1] && spans[1..][i] == spans[i + 1];
      }
      WeaveShrinks(gaps[1..], words[1..], spans[1..]);
      assert words == [words[0]] + words[1..] && spans == [spans[0]] + spans[1..];
    }
  }

  lemma ValueFits(text: string, f: Finding)
    requires PartOfSpan(text, f)
    ensures |f.value| <= f.end - f.start
    ensures |f.value| == f.end - f.start ==> f.value == text[f.start..f.end]
  {
    var a :| f.start <= a && a + |f.value| <= f.end && OccursAt(text, f.value, a);
  }

  lemma ValuesFitSpans(text: string, fs: seq<Finding>)
    requires Ascends(fs, 0, |text|) && forall f :: f in fs ==> PartOfSpan(text, f)
    ensures ShorterOrSame(ValuesOf(fs), Spans(text, 0, fs))
    ensures forall i :: 0 <= i < |fs| ==> Within(fs[i], |text|) && Spans(text, 0, fs)[i] == text[fs[i].start..fs[i].end]
  {
    forall i | 0 <= i < |fs|
      ensures Within(fs[i], |text|) && Spans(text, 0, fs)[i] == text[fs[i].start..fs[i].end]
      ensures |fs[i].value| <= |Spans(text, 0, fs)[i]|
      ensures |fs[i].value| == |Spans(text, 0, fs)[i]| ==> fs[i].value == Spans(text, 0, fs)[i]
    {
      SpansAt(text, 0, fs, i);
      assert fs[i] in fs;
      ValueFits(text, fs[i]);
    }
  }

  /** Values in the place of spans give the text itself exactly when they are the spans. */
  lemma ValuesGiveTextIff(text: string, fs: seq<Finding>, inOrder: seq<Finding>)
    requires Ascends(inOrder, 0, |text|) && forall f :: f in inOrder <==> f in fs
    requires forall f :: f in fs ==> PartOfSpan(text, f)
    ensures Weave(Gaps(text, 0, inOrder), ValuesOf(inOrder)) == text <==> Exact(text, fs)
  {
    var (values, spans) := (ValuesOf(inOrder), Spans(text, 0, inOrder));
    TextIsWoven(text, 0, inOrder);
    assert text[0..] == text;
    ValuesFitSpans(text, inOrder);
    WeaveShrinks(Gaps(text, 0, inOrder), values, spans);
    SameIffExact(text, fs, inOrder, values, spans);
  }

  lemma SameIffExact(text: string, fs: seq<Finding>, inOrder: seq<Finding>, values: seq<string>, spans: seq<string>)
    requires (forall f :: f in inOrder <==> f in fs) && forall f :: f in fs ==> Within(f, |text|)
    requires values == ValuesOf(inOrder) && |spans| == |inOrder|
    requires forall i :: 0 <= i < |inOrder| ==>
      Within(inOrder[i], |text|) && spans[i] == text[inOrder[i].start..inOrder[i].end]
    ensures values == spans <==> Exact(text, fs)
  {
    if values == spans {
      forall f | f in fs ensures f.value == text[f.start..f.end] {
        var i :| 0 <= i < |inOrder| && inOrder[i] == f;
        assert values[i] == spans[i];
      }
    } else if Exact(text, fs) {
      forall i | 0 <= i < |inOrder| ensures values[i] == spans[i] { assert inOrder[i] in fs; }
    }
  }

  lemma ReadsBackLater(keys: seq<Key>, text: string, fs: seq<Finding>, later: seq<Key>)
    requires Apart(fs, |text|) && UnmarkedOutside(text, fs)
    requires DistinctTypes(keys + later)
    requires forall f :: f in fs ==> KeyOf(f) in keys && Readable(f.kind)
    ensures var inOrder := Sort(fs, EarliestFirst());
      var spliced := SpliceAll(text, Sort(fs, LatestFirst()), TokenOf(TokenizeAll(EMPTY, keys).v2t));
      Detokenized(TokenizeAll(EMPTY, keys + later).t2v, spliced) == Weave(Gaps(text, 0, inOrder), ValuesOf(inOrder))
  {
    KeysReadBack(fs, keys, later);
    SplicedReadsBack(text, fs, TokenizeAll(EMPTY, keys).v2t, TokenizeAll(EMPTY, keys + later).t2v);
  }

  lemma KeysAreThere(fs: seq<Finding>, sorted: seq<Finding>, earlier: seq<Key>)
    requires multiset(sorted) == multiset(fs)
    ensures forall f :: f in fs ==> KeyOf(f) in earlier + KeysOf(sorted)
  {
    SameElements(sorted, fs);
    forall f | f in fs ensures KeyOf(f) in earlier + KeysOf(sorted) {
      var j :| 0 <= j < |sorted| && sorted[j] == f;
      assert KeysOf(sorted)[j] == KeyOf(f);
    }
  }

  /** A text tokenized in a vault that has made `earlier` keys, and detokenized after `later` ones. */
  function ThereAndBack(earlier: seq<Key>, text: string, fs: seq<Finding>, later: seq<Key>): string {
    var sorted := Sort(fs, LatestFirst());
    var at := TokenizeAll(TokenizeAll(EMPTY, earlier), KeysOf(sorted));
    Detokenized(TokenizeAll(at, later).t2v, SpliceAll(text, sorted, TokenOf(at.v2t)))
  }

  /** In a vault with any history, and after any further calls, the text comes back with each value in
      the place of its span. */
  lemma ValuesComeBack(earlier: seq<Key>, text: string, fs: seq<Finding>, later: seq<Key>)
    requires Apart(fs, |text|) && UnmarkedOutside(text, fs)
    requires forall f :: f in fs ==> Readable(f.kind)
    requires DistinctTypes(earlier + KeysOf(Sort(fs, LatestFirst())) + later)
    ensures var inOrder := Sort(fs, EarliestFirst());
      ThereAndBack(earlier, text, fs, later) == Weave(Gaps(text, 0, inOrder), ValuesOf(inOrder))
  {
    var sorted := Sort(fs, LatestFirst());
    TokenizeAllAppend(EMPTY, earlier, KeysOf(sorted));
    TokenizeAllAppend(EMPTY, earlier + KeysOf(sorted), later);
    KeysAreThere(fs, sorted, earlier);
    ReadsBackLater(earlier + KeysOf(sorted), text, fs, later);
  }

  /** So it comes back as it was if and only if every value is the whole text of its span. */
  lemma RoundTrip(earlier: seq<Key>, text: string, fs: seq<Finding>, later: seq<Key>)
    requires Apart(fs, |text|) && UnmarkedOutside(text, fs)
    requires forall f :: f in fs ==> Readable(f.kind) && PartOfSpan(text, f)
    requires DistinctTypes(earlier + KeysOf(Sort(fs, LatestFirst())) + later)
    ensures ThereAndBack(earlier, text, fs, later) == text <==> Exact(text, fs)
  {
    ValuesComeBack(earlier, text, fs, later);
    SameElements(Sort(fs, EarliestFirst()), fs);
    ValuesGiveTextIff(text, fs, Sort(fs, EarliestFirst()));
  }

  lemma OneSorted(f: Finding, le: (Finding, Finding) -> bool)
    ensures Sort([f], le) == [f]
  {
    assert [f][1..] == [];
  }

  lemma OneInPlace(text: string, f: Finding)
    requires f.start == 0 && f.end == |text|
    ensures Ascends([f], 0, |text|) && Gaps(text, 0, [f]) == ["", ""]
    ensures Weave(["", ""], ValuesOf([f])) == f.value
  {
    assert text[0..f.start] == "" && text[f.end..] == "" && [f][1..] == [];
    assert ValuesOf([f]) == [f.value] && ["", ""][1..] == [""] && [f.value][1..] == [];
    assert Gaps(text, f.end, [f][1..]) == [""];
    assert "" + (f.value + "") == f.value;
  }

  /** A secret behind its key, alone in a text: only the secret comes back. */
  lemma KeyIsLost(earlier: seq<Key>, text: string, f: Finding, later: seq<Key>)
    requires f.start == 0 && f.end == |text| && PartOfSpan(text, f) && Readable(f.kind)
    requires DistinctTypes(earlier + [KeyOf(f)] + later)
    ensures ThereAndBack(earlier, text, [f], later) == f.value
  {
    OneSorted(f, LatestFirst());
    OneSorted(f, EarliestFirst());
    OneInPlace(text, f);
    assert KeysOf([f]) == [KeyOf(f)];
    ValuesComeBack(earlier, text, [f], later);
  }
}
