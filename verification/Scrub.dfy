/** Scrubbing known secret values out of JSON-like data. */
module Scrub {
  import opened Lexer
  import opened Ordering
  import opened Substitution

  const REDACTED := "***REDACTED***"
  const MIN_SECRET_LEN := 4

  datatype Json =
    | Atom(text: string)
    | Text(s: string)
    | Items(tuple: bool, items: seq<Json>)
    | Dict(entries: seq<Entry>)

  datatype Entry = Entry(key: string, value: Json)

  // ------------------------------------------------------------------ strings

  predicate Contains(s: string, u: string) {
    Starts(s, u) || (s != "" && Contains(s[1..], u))
  }

  /** The pattern that matches exactly the text `u`. */
  function Literally(u: string): string -> nat { s => if Starts(s, u) then |u| else 0 }

  function Always(r: string): string -> string { _ => r }

  /** Replaces every occurrence. */
  function Replaced(s: string, u: string): string {
    Substitute(Literally(u), Always(REDACTED), s)
  }

  function ScrubText(s: string, values: seq<string>): string {
    if values == [] then s
    else
      var before := ScrubText(s, values[..|values| - 1]);
      var u := values[|values| - 1];
      if Contains(before, u) then Replaced(before, u) else before
  }

  method ScrubString(s: string, values: seq<string>) returns (scrubbed: string)
    ensures scrubbed == ScrubText(s, values)
  {
    scrubbed := s;
    for i := 0 to |values|
      invariant scrubbed == ScrubText(s, values[..i])
    {
      assert values[..i + 1][..i] == values[..i];
      if Contains(scrubbed, values[i]) {
        scrubbed := SubstituteAll(Literally(values[i]), Always(REDACTED), scrubbed);
      }
    }
    assert values[..|values|] == values;
  }

  /** The secrets long enough to be looked for, longest first. */
  function Relevant(secrets: seq<string>): seq<string> {
    Sort(LongEnough(secrets), LongestFirst())
  }

  function LongEnough(secrets: seq<string>): (r: seq<string>)
    ensures forall u :: u in r <==> u in secrets && |u| >= MIN_SECRET_LEN
  {
    if secrets == [] then []
    else (if |secrets[0]| >= MIN_SECRET_LEN then [secrets[0]] else []) + LongEnough(secrets[1..])
  }

  function LongestFirst(): (string, string) -> bool { (a: string, b: string) => |a| >= |b| }

  lemma RelevantAre(secrets: seq<string>)
    ensures forall u :: u in Relevant(secrets) <==> u in secrets && |u| >= MIN_SECRET_LEN
    ensures SortedBy(Relevant(secrets), LongestFirst())
  {
    SameElements(Relevant(secrets), LongEnough(secrets));
    SortSorts(LongEnough(secrets), LongestFirst());
  }

  // ------------------------------------------------------------------ structures

  function ScrubJson(j: Json, values: seq<string>): Json {
    match j
    case Atom(_) => j
    case Text(s) => Text(ScrubText(s, values))
    case Items(t, items) => Items(t, seq(|items|, i requires 0 <= i < |items| => ScrubJson(items[i], values)))
    case Dict(entries) =>
      Dict(seq(|entries|, i requires 0 <= i < |entries| => Entry(entries[i].key, ScrubJson(entries[i].value, values))))
  }

  /** The scrubbing entry point; without any long enough secret the data is returned as it is. */
  function RedactSecretValues(j: Json, secrets: seq<string>): Json {
    if LongEnough(secrets) == [] then j else ScrubJson(j, Relevant(secrets))
  }

  /** The variant that also blanks the value of every key whose name looks sensitive. */
  function RedactSensitive(j: Json, values: seq<string>, sensitive: string -> bool): Json {
    match j
    case Atom(_) => j
    case Text(s) => Text(ScrubText(s, values))
    case Items(t, items) =>
      Items(t, seq(|items|, i requires 0 <= i < |items| => RedactSensitive(items[i], values, sensitive)))
    case Dict(entries) =>
      Dict(seq(|entries|, i requires 0 <= i < |entries| =>
        Entry(entries[i].key, if sensitive(entries[i].key) then Text(REDACTED)
                              else RedactSensitive(entries[i].value, values, sensitive))))
  }

  // ------------------------------------------------------------------ where occurrences can be

  /** Some end of `a` is a beginning of `b`. */
  predicate Overlaps(a: string, b: string) {
    exists k :: 1 <= k <= |a| && k <= |b| && a[|a| - k..] == b[..k]
  }

  /** A secret that neither lies in the replacement, nor overlaps one of its ends, nor contains it. */
  predicate Removable(u: string) {
    && u != "" && !Contains(REDACTED, u) && !Contains(u, REDACTED)
    && !Overlaps(REDACTED, u) && !Overlaps(u, REDACTED)
  }

  lemma StartsCons(c: char, s: string, u: string)
    requires u != ""
    ensures Starts([c] + s, u) <==> u[0] == c && Starts(s, u[1..])
  {
    if |u| <= |s| + 1 { assert ([c] + s)[..|u|] == [c] + s[..|u| - 1]; }
    assert u == [u[0]] + u[1..];
  }

  lemma {:induction false} ContainedLater(s: string, i: nat, u: string)
    requires i <= |s| && Contains(s[i..], u)
    ensures Contains(s, u)
  {
    if i == 0 { assert s[0..] == s; }
    else { assert s[1..][i - 1..] == s[i..]; ContainedLater(s[1..], i - 1, u); }
  }

  /** An end of `u` that starts where a replacement does. */
  lemma EndAtReplacement(u: string, i: nat, rest: string)
    requires i < |u| && Starts(REDACTED + rest, u[i..])
    ensures Overlaps(u, REDACTED) || Contains(u, REDACTED)
  {
    var k := |u| - i;
    if k <= |REDACTED| {
      assert u[|u| - k..] == (REDACTED + rest)[..k] == REDACTED[..k];
    } else {
      assert u[i..][..|REDACTED|] == (REDACTED + rest)[..|REDACTED|] == REDACTED;
      ContainedLater(u, i, REDACTED);
    }
  }

  /** An end of a removable secret at the start of the result was there before. */
  lemma {:induction false} StartSurvives(s: string, v: string, u: string, i: nat)
    requires Removable(u) && i <= |u|
    ensures Starts(Replaced(s, v), u[i..]) ==> Starts(s, u[i..])
    decreases |s|
  {
    if i < |u| && s != "" {
      var n := Literally(v)(s);
      if 0 < n <= |s| {
        var rest := Replaced(s[n..], v);
        if Starts(REDACTED + rest, u[i..]) { EndAtReplacement(u, i, rest); }
      } else {
        FirstIsKept(Literally(v), Always(REDACTED), s);
        StartsCons(s[0], Replaced(s[1..], v), u[i..]);
        StartsCons(s[0], s[1..], u[i..]);
        assert s == [s[0]] + s[1..] && u[i..][1..] == u[i + 1..];
        StartSurvives(s[1..], v, u, i + 1);
      }
    }
  }

  /** `u` starting inside a replacement. */
  lemma StartsInReplacement(i: nat, rest: string, u: string)
    requires i < |REDACTED| && u != "" && Starts(REDACTED[i..] + rest, u)
    ensures Contains(REDACTED, u) || Overlaps(REDACTED, u)
  {
    var (r, k) := (REDACTED[i..], |REDACTED| - i);
    if |u| <= k {
      assert u == (r + rest)[..|u|] == r[..|u|];
      ContainedLater(REDACTED, i, u);
    } else {
      assert REDACTED[|REDACTED| - k..] == (r + rest)[..|u|][..k] == u[..k];
    }
  }

  /** A removable secret occurs in no end of the replacement followed by a text without it. */
  lemma {:induction false} NotAcross(i: nat, rest: string, u: string)
    requires Removable(u) && i <= |REDACTED| && !Contains(rest, u)
    ensures !Contains(REDACTED[i..] + rest, u)
    decreases |REDACTED| - i
  {
    if i == |REDACTED| {
      assert REDACTED[i..] + rest == rest;
    } else {
      if Starts(REDACTED[i..] + rest, u) { StartsInReplacement(i, rest, u); }
      assert (REDACTED[i..] + rest)[1..] == REDACTED[i + 1..] + rest;
      NotAcross(i + 1, rest, u);
    }
  }

  /** Replacing any secret leaves no occurrence of it, and brings no other one back. */
  lemma {:induction false} ReplaceRemoves(s: string, v: string, u: string)
    requires Removable(u) && v != "" && (u == v || !Contains(s, u))
    ensures !Contains(Replaced(s, v), u)
    decreases |s|
  {
    if s != "" {
      var n := Literally(v)(s);
      if 0 < n <= |s| {
        if Contains(s[n..], u) { ContainedLater(s, n, u); }
        ReplaceRemoves(s[n..], v, u);
        NotAcross(0, Replaced(s[n..], v), u);
        assert REDACTED[0..] == REDACTED;
      } else {
        FirstIsKept(Literally(v), Always(REDACTED), s);
        ReplaceRemoves(s[1..], v, u);
        StartSurvives(s, v, u, 0);
        assert u[0..] == u;
        assert Replaced(s, v)[1..] == Replaced(s[1..], v);
      }
    }
  }

  // ------------------------------------------------------------------ completeness

  lemma {:induction false} ScrubTextRemoves(s: string, values: seq<string>, u: string)
    requires u in values && forall v :: v in values ==> Removable(v)
    ensures !Contains(ScrubText(s, values), u)
  {
    var init, v := values[..|values| - 1], values[|values| - 1];
    var before := ScrubText(s, init);
    assert values == init + [v] && v in values;
    if u in init { ScrubTextRemoves(s, init, u); }
    if Contains(before, v) { ReplaceRemoves(before, v, u); }
  }

  predicate CleanText(s: string, secrets: set<string>) { forall u :: u in secrets ==> !Contains(s, u) }

  /** No string anywhere inside contains a secret. */
  predicate Clean(j: Json, secrets: set<string>) {
    match j
    case Atom(_) => true
    case Text(s) => CleanText(s, secrets)
    case Items(_, items) => forall i :: 0 <= i < |items| ==> Clean(items[i], secrets)
    case Dict(entries) => forall i :: 0 <= i < |entries| ==> Clean(entries[i].value, secrets)
  }

  /** The same constructors, lengths, keys and non-strings at every place. */
  predicate SameShape(a: Json, b: Json) {
    match a
    case Atom(_) => b == a
    case Text(_) => b.Text?
    case Items(t, items) =>
      (&& b.Items? && b.tuple == t && |b.items| == |items|
       && forall i :: 0 <= i < |items| ==> SameShape(items[i], b.items[i]))
    case Dict(entries) =>
      (&& b.Dict? && |b.entries| == |entries|
       && forall i :: 0 <= i < |entries| ==>
            b.entries[i].key == entries[i].key && SameShape(entries[i].value, b.entries[i].value))
  }

  function Members(values: seq<string>): set<string> { set u | u in values }

  lemma {:induction false} ScrubJsonCleans(j: Json, values: seq<string>)
    requires forall v :: v in values ==> Removable(v)
    ensures Clean(ScrubJson(j, values), Members(values))
  {
    match j
    case Atom(_) =>
    case Text(s) =>
      forall u | u in values ensures !Contains(ScrubText(s, values), u) { ScrubTextRemoves(s, values, u); }
    case Items(_, items) =>
      forall i | 0 <= i < |items| ensures Clean(ScrubJson(items[i], values), Members(values)) {
        ScrubJsonCleans(items[i], values);
      }
    case Dict(entries) =>
      forall i | 0 <= i < |entries| ensures Clean(ScrubJson(entries[i].value, values), Members(values)) {
        ScrubJsonCleans(entries[i].value, values);
      }
  }

  lemma {:induction false} ScrubJsonKeepsShape(j: Json, values: seq<string>)
    ensures SameShape(j, ScrubJson(j, values))
  {
    match j
    case Atom(_) =>
    case Text(_) =>
    case Items(_, items) =>
      forall i | 0 <= i < |items| ensures SameShape(items[i], ScrubJson(items[i], values)) {
        ScrubJsonKeepsShape(items[i], values);
      }
    case Dict(entries) =>
      forall i | 0 <= i < |entries| ensures SameShape(entries[i].value, ScrubJson(entries[i].value, values)) {
        ScrubJsonKeepsShape(entries[i].value, values);
      }
  }

  lemma {:induction false} CleanTextIsKept(s: string, values: seq<string>)
    requires forall u :: u in values ==> !Contains(s, u)
    ensures ScrubText(s, values) == s
  {
    if values != [] { CleanTextIsKept(s, values[..|values| - 1]); }
  }

  lemma {:induction false} CleanJsonIsKept(j: Json, values: seq<string>)
    requires values != [] ==> Clean(j, Members(values))
    ensures ScrubJson(j, values) == j
  {
    match j
    case Atom(_) =>
    case Text(s) => CleanTextIsKept(s, values);
    case Items(_, items) =>
      forall i | 0 <= i < |items| ensures ScrubJson(items[i], values) == items[i] { CleanJsonIsKept(items[i], values); }
    case Dict(entries) =>
      forall i | 0 <= i < |entries| ensures ScrubJson(entries[i].value, values) == entries[i].value {
        CleanJsonIsKept(entries[i].value, values);
      }
  }

  /** When no long secret lies in the replacement, overlaps one of its ends or contains it, the result
      holds none of them in any string at any depth, has the shape and the keys of the input, and is
      left alone by a second pass; data without secrets is left alone by the first. */
  lemma ScrubbingIsComplete(j: Json, secrets: seq<string>)
    requires forall u :: u in secrets && |u| >= 4 ==> Removable(u)
    ensures Clean(RedactSecretValues(j, secrets), set u | u in secrets && |u| >= 4)
    ensures SameShape(j, RedactSecretValues(j, secrets))
    ensures RedactSecretValues(RedactSecretValues(j, secrets), secrets) == RedactSecretValues(j, secrets)
    ensures Clean(j, set u | u in secrets && |u| >= 4) ==> RedactSecretValues(j, secrets) == j
  {
    assert Members(LongEnough(secrets)) == set u | u in secrets && |u| >= 4;
    var values := Relevant(secrets);
    RelevantAre(secrets);
    assert Members(values) == Members(LongEnough(secrets));
    if LongEnough(secrets) == [] { CleanJsonIsKept(j, []); }
    ScrubJsonKeepsShape(j, values);
    ScrubJsonCleans(j, values);
    CleanJsonIsKept(ScrubJson(j, values), values);
    if Clean(j, Members(values)) { CleanJsonIsKept(j, values); }
  }

  /** The variant for logs is as complete. It blanks the value of every sensitive key and keeps the rest:
      each item and each entry in its place, keys and non-strings as they are, strings scrubbed. */
  lemma {:induction false} SensitiveIsComplete(j: Json, values: seq<string>, sensitive: string -> bool)
    requires forall v :: v in values ==> Removable(v)
    ensures Clean(RedactSensitive(j, values, sensitive), Members(values))
    ensures var r := RedactSensitive(j, values, sensitive);
      match j
      case Atom(_) => r == j
      case Text(s) => r == Text(ScrubText(s, values))
      case Items(t, items) =>
        && r.Items? && r.tuple == t && |r.items| == |items|
        && (forall i :: 0 <= i < |items| ==> r.items[i] == RedactSensitive(items[i], values, sensitive))
      case Dict(entries) =>
        && r.Dict? && |r.entries| == |entries|
        && (forall i :: 0 <= i < |entries| ==>
              && r.entries[i].key == entries[i].key
              && r.entries[i].value == if sensitive(entries[i].key) then Text("***REDACTED***")
                                       else RedactSensitive(entries[i].value, values, sensitive))
  {
    match j
    case Atom(_) =>
    case Text(s) =>
      forall u | u in values ensures !Contains(ScrubText(s, values), u) { ScrubTextRemoves(s, values, u); }
    case Items(_, items) =>
      forall i | 0 <= i < |items| ensures Clean(RedactSensitive(items[i], values, sensitive), Members(values)) {
        SensitiveIsComplete(items[i], values, sensitive);
      }
    case Dict(entries) =>
      forall i | 0 <= i < |entries|
        ensures Clean(RedactSensitive(entries[i].value, values, sensitive), Members(values))
      {
        SensitiveIsComplete(entries[i].value, values, sensitive);
      }
  }

  // ------------------------------------------------------------------ what the conditions are for

  lemma {:induction false} ContainsLength(s: string, u: string)
    requires Contains(s, u)
    ensures |u| <= |s| && (|u| == |s| ==> u == s)
  {
    if Starts(s, u) { assert |u| == |s| ==> s[..|s|] == s; } else { ContainsLength(s[1..], u); }
  }

  /** Longest first: a string that is a secret becomes exactly the replacement, even when it
      contains shorter secrets. */
  lemma {:induction false} SecretBecomesReplacement(u: string, values: seq<string>)
    requires SortedBy(values, LongestFirst()) && u in values && forall v :: v in values ==> Removable(v)
    ensures ScrubText(u, values) == REDACTED
  {
    var init, v := values[..|values| - 1], values[|values| - 1];
    assert values == init + [v] && v in values;
    if u in init {
      SecretBecomesReplacement(u, init);
    } else {
      forall w | w in init ensures !Contains(u, w) {
        var k :| 0 <= k < |init| && init[k] == w;
        assert LongestFirst()(values[k], values[|values| - 1]);
        if Contains(u, w) { ContainsLength(u, w); }
      }
      CleanTextIsKept(u, init);
      assert u[..|u|] == u && u[|u|..] == "" && Substitute(Literally(u), Always(REDACTED), "") == "";
      assert REDACTED + "" == REDACTED;
    }
  }

  /** So a value that is a long secret is blanked, whatever the other secrets are. */
  lemma SecretIsBlanked(u: string, secrets: seq<string>)
    requires u in secrets && |u| >= 4 && forall v :: v in secrets && |v| >= 4 ==> Removable(v)
    ensures RedactSecretValues(Text(u), secrets) == Text("***REDACTED***")
  {
    RelevantAre(secrets);
    SecretBecomesReplacement(u, Relevant(secrets));
  }

  lemma {:induction false} ContainsInside(s: string, r: string, u: string)
    requires Contains(s, r) && Contains(r, u)
    ensures Contains(s, u)
    decreases |s|
  {
    if Starts(s, r) { StartsInside(s, r, u); } else { ContainsInside(s[1..], r, u); }
  }

  lemma {:induction false} StartsInside(s: string, r: string, u: string)
    requires Starts(s, r) && Contains(r, u)
    ensures Contains(s, u)
    decreases |r|
  {
    if Starts(r, u) { assert s[..|u|] == s[..|r|][..|u|]; }
    else { assert s[1..][..|r| - 1] == s[..|r|][1..]; StartsInside(s[1..], r[1..], u); }
  }

  lemma {:induction false} ReplacingPutsReplacement(s: string, v: string)
    requires v != "" && Contains(s, v)
    ensures Contains(Replaced(s, v), REDACTED)
    decreases |s|
  {
    if Starts(s, v) {
      assert (REDACTED + Replaced(s[|v|..], v))[..|REDACTED|] == REDACTED;
    } else {
      FirstIsKept(Literally(v), Always(REDACTED), s);
      ReplacingPutsReplacement(s[1..], v);
      assert Replaced(s, v)[1..] == Replaced(s[1..], v);
    }
  }

  /** Once a secret was found, the replacement is in the result whatever is replaced later. */
  lemma {:induction false} ReplacementStays(s: string, values: seq<string>, v: string)
    requires v in values && Contains(s, v) && forall w :: w in values ==> w != ""
    ensures Contains(ScrubText(s, values), REDACTED)
  {
    var init, last := values[..|values| - 1], values[|values| - 1];
    assert values == init + [last] && last in values;
    var before := ScrubText(s, init);
    assert forall w :: w in init ==> w in values;
    if w :| w in init && Contains(s, w) {
      ReplacementStays(s, init, w);
    } else {
      CleanTextIsKept(s, init);
    }
    if Contains(before, last) { ReplacingPutsReplacement(before, last); }
  }

  /** `u` is still in the text after scrubbing. */
  predicate Leaks(values: seq<string>, s: string, u: string) { Contains(ScrubText(s, values), u) }

  // One secret that is not removable: a text whose scrubbing leaves it.

  /** When `u` occurs early in its first `m` characters followed by itself, it repeats its first one. */
  lemma EarlyRepeats(u: string, m: nat, tail: string, p: nat)
    requires p < m < |u| && Starts(u[p..m] + (u + tail), u)
    ensures u[m] == u[0]
  {
    var t := u[p..m] + (u + tail);
    assert t[..|u|][0] == u[p] && t[..|u|][m] == u[p];
  }

  /** A match with a shorter rest behind it is replaced once. */
  lemma ReplacedBefore(v: string, rest: string)
    requires v != "" && |rest| < |v|
    ensures Replaced(v + rest, v) == REDACTED + rest
  {
    assert Starts(v + rest, v) by { assert (v + rest)[..|v|] == v; }
    MatchIsReplaced(Literally(v), Always(REDACTED), v, rest);
    GapIsKept(Literally(v), Always(REDACTED), rest, "");
    assert rest + "" == rest;
  }

  lemma ReplacedOnce(u: string, m: nat, tail: string)
    requires m < |u| && |tail| < |u| && (m > 0 ==> u[m] == '*' && u[0] != '*')
    ensures Replaced(u[..m] + (u + tail), u) == u[..m] + (REDACTED + tail)
  {
    forall p | 0 <= p < m ensures Literally(u)(u[..m][p..] + (u + tail)) == 0 {
      assert u[..m][p..] == u[p..m];
      if Starts(u[p..m] + (u + tail), u) { EarlyRepeats(u, m, tail, p); }
    }
    GapIsKept(Literally(u), Always(REDACTED), u[..m], u + tail);
    ReplacedBefore(u, tail);
  }

  /** What `ReplacedOnce` makes of the text still holds `u`. */
  lemma StillThere(u: string, m: nat, tail: string, i: nat)
    requires m < |u| && |tail| < |u| && (m > 0 ==> u[m] == '*' && u[0] != '*')
    requires var r := u[..m] + (REDACTED + tail); i <= |r| && Starts(r[i..], u)
    ensures Leaks([u], u[..m] + (u + tail), u)
  {
    var s, r := u[..m] + (u + tail), u[..m] + (REDACTED + tail);
    ReplacedOnce(u, m, tail);
    assert s[m..] == u + tail && Starts(u + tail, u);
    ContainedLater(s, m, u);
    assert [u][..0] == [] && ScrubText(s, [u]) == Replaced(s, u);
    ContainedLater(r, i, u);
  }

  lemma InsideLeaks(u: string)
    requires u != "" && Contains(REDACTED, u)
    ensures Leaks([u], u, u)
  {
    assert u[..|u|] == u && Starts(u, u);
    assert u[|u|..] == "" && REDACTED + "" == REDACTED;
    assert [u][..0] == [] && ScrubText(u, [u]) == Replaced(u, u);
  }

  lemma OverlapAfterLeaks(u: string, k: nat)
    requires 1 <= k <= |u| && k <= |REDACTED| && REDACTED[|REDACTED| - k..] == u[..k]
    ensures exists s :: Leaks([u], s, u)
  {
    var (i, tail) := (|REDACTED| - k, u[k..]);
    var r := u[..0] + (REDACTED + tail);
    assert r[i..] == REDACTED[i..] + tail == u[..k] + u[k..] == u;
    StillThere(u, 0, tail, i);
  }

  lemma OverlapBeforeLeaks(u: string, k: nat)
    requires u != "" && u[0] != '*' && 1 <= k <= |u| && k <= |REDACTED| && u[|u| - k..] == REDACTED[..k]
    ensures exists s :: Leaks([u], s, u)
  {
    var m := |u| - k;
    assert u[m] == u[m..][0] == '*';
    var r := u[..m] + (REDACTED + "");
    assert r[..|u|] == u[..m] + REDACTED[..k] == u && r[0..] == r;
    StillThere(u, m, "", 0);
  }

  /** Where a text first contains another. */
  lemma {:induction false} Where(s: string, u: string) returns (i: nat)
    requires Contains(s, u)
    ensures i <= |s| && Starts(s[i..], u)
  {
    if Starts(s, u) {
      i := 0;
      assert s[0..] == s;
    } else {
      i := Where(s[1..], u);
      assert s[1..][i..] == s[i + 1..];
      i := i + 1;
    }
  }

  lemma AroundLeaks(u: string)
    requires u != "" && u[0] != '*' && Contains(u, REDACTED)
    ensures exists s :: Leaks([u], s, u)
  {
    var m := Where(u, REDACTED);
    var tail := u[m..][|REDACTED|..];
    assert u[m] == u[m..][0] == '*';
    var r := u[..m] + (REDACTED + tail);
    assert u[m..] == REDACTED + tail && r == u && r[0..] == r && r[..|u|] == u;
    StillThere(u, m, tail, 0);
  }

  lemma BeginsWithStar(u: string)
    requires u != "" && u[0] == '*'
    ensures Overlaps(REDACTED, u)
  {
    assert REDACTED[|REDACTED| - 1..] == "*" == u[..1];
  }

  lemma NotRemovableLeaks(u: string)
    requires u != "" && !Removable(u)
    ensures exists s :: Leaks([u], s, u)
  {
    if Contains(REDACTED, u) {
      InsideLeaks(u);
    } else if Overlaps(REDACTED, u) {
      var k :| 1 <= k <= |REDACTED| && k <= |u| && REDACTED[|REDACTED| - k..] == u[..k];
      OverlapAfterLeaks(u, k);
    } else {
      if u[0] == '*' { BeginsWithStar(u); }
      if Overlaps(u, REDACTED) {
        var k :| 1 <= k <= |u| && k <= |REDACTED| && u[|u| - k..] == REDACTED[..k];
        OverlapBeforeLeaks(u, k);
      } else {
        AroundLeaks(u);
      }
    }
  }

  /** One secret is removed from every text if and only if it neither lies in the replacement, nor
      overlaps one of its ends, nor contains it. */
  lemma RemovedIffRemovable(u: string)
    requires u != ""
    ensures (forall s :: !Leaks([u], s, u)) <==> Removable(u)
  {
    if Removable(u) {
      forall s ensures !Leaks([u], s, u) { ScrubTextRemoves(s, [u], u); }
    } else {
      NotRemovableLeaks(u);
    }
  }

  predicate StarFree(u: string) { forall i :: 0 <= i < |u| ==> u[i] != '*' }

  lemma OverlapHasStar(u: string)
    requires Overlaps(REDACTED, u) || Overlaps(u, REDACTED) || Contains(u, REDACTED)
    ensures !StarFree(u)
  {
    if Overlaps(REDACTED, u) {
      var k :| 1 <= k <= |REDACTED| && k <= |u| && REDACTED[|REDACTED| - k..] == u[..k];
      assert u[k - 1] == REDACTED[|REDACTED| - k..][k - 1];
    } else if Overlaps(u, REDACTED) {
      var k :| 1 <= k <= |u| && k <= |REDACTED| && u[|u| - k..] == REDACTED[..k];
      assert u[|u| - k] == REDACTED[..k][0];
    } else {
      var i := Where(u, REDACTED);
      assert u[i] == u[i..][..|REDACTED|][0];
    }
  }

  /** A secret without stars can at most lie in the replacement. */
  lemma StarFreeIsRemovable(u: string)
    requires u != "" && StarFree(u)
    ensures Removable(u) <==> !Contains(REDACTED, u)
  {
    if Overlaps(REDACTED, u) || Overlaps(u, REDACTED) || Contains(u, REDACTED) { OverlapHasStar(u); }
  }

  /** Any number of secrets without stars are removed from every text if and only if none of them is
      part of the replacement. */
  lemma CompleteIffNotInReplacement(values: seq<string>)
    requires forall v :: v in values ==> v != "" && StarFree(v)
    ensures (forall s, u :: u in values ==> !Leaks(values, s, u))
       <==> (forall v :: v in values ==> !Contains(REDACTED, v))
  {
    if forall v :: v in values ==> !Contains(REDACTED, v) {
      forall v | v in values ensures Removable(v) { StarFreeIsRemovable(v); }
      forall s, u | u in values ensures !Leaks(values, s, u) { ScrubTextRemoves(s, values, u); }
    } else {
      var v :| v in values && Contains(REDACTED, v);
      assert Starts(v, v) by { assert v[..|v|] == v; }
      ReplacementStays(v, values, v);
      ContainsInside(ScrubText(v, values), REDACTED, v);
      assert Leaks(values, v, v);
    }
  }

  lemma ScrubOneMore(s: string, first: string, v: string)
    requires !Contains(s, first) && Contains(s, v)
    ensures ScrubText(s, [first, v]) == Replaced(s, v)
  {
    CleanTextIsKept(s, [first]);
    assert [first, v][..1] == [first];
  }

  lemma EndOfReplacement(rest: string)
    ensures Contains(REDACTED + rest, "**" + rest)
  {
    var (r, u) := (REDACTED + rest, "**" + rest);
    assert r[12..] == u && u[..|u|] == u;
    ContainedLater(r, 12, u);
  }

  /** A secret with a star can be put together by replacing another one. */
  lemma StarsCanLeak()
    ensures !Contains("sec1ab", "**ab") && Contains(ScrubText("sec1ab", ["**ab", "sec1"]), "**ab")
  {
    NotInSample("sec1ab");
    assert "sec1" + "ab" == "sec1ab" && "**" + "ab" == "**ab";
    assert Starts("sec1ab", "sec1");
    ScrubOneMore("sec1ab", "**ab", "sec1");
    ReplacedBefore("sec1", "ab");
    EndOfReplacement("ab");
  }

  lemma NotInSample(s: string)
    requires s == "sec1ab"
    ensures !Contains(s, "**ab")
  {
    assert s[0] == 's' && s[1..][0] == 'e' && s[2..][0] == 'c' && s[1..][1..] == s[2..];
    assert !Contains(s[3..], "**ab") by { if Contains(s[3..], "**ab") { ContainsLength(s[3..], "**ab"); } }
    assert s[2..][1..] == s[3..];
    assert !Contains(s[2..], "**ab") && !Contains(s[1..], "**ab");
  }
}
