/** Redacting and tokenizing what the detector reports: de-duplicated findings, spliced.

    When no overlap is left, every reported span is replaced exactly. When two kept findings overlap,
    the replacement of the later one shifts the text under the earlier one's end, and what happens
    depends on lengths. */
module Redaction {
  import opened Ordering
  import opened Splice
  import opened Dedupe
  import Vault

  /** `redact` on the matches `items` of the patterns in `text`. */
  function Redacted(pri: Priorities, text: string, items: seq<Finding>, mask: Mask): string {
    SpliceAll(text, Sort(Deduped(pri, items), LatestFirst()), mask)
  }

  method RedactMatches(text: string, items: seq<Finding>, mask: Mask) returns (out: string)
    ensures out == Redacted(Standard(), text, items, mask)
  {
    var findings := Dedupe.Dedupe(Standard(), items);
    out := Redact(text, findings, mask);
  }

  /** Matches as the detector makes them: inside the text, and identified by type and span. */
  ghost predicate Matches(text: string, items: seq<Finding>) {
    Identified(items) && forall f :: f in items ==> Within(f, |text|)
  }

  /** When of any two overlapping matches one is dominated: the text between the kept findings stays,
      each of them is replaced exactly, and every match lies inside one that is replaced. */
  lemma RedactionIsExact(pri: Priorities, text: string, items: seq<Finding>, mask: Mask)
    requires Matches(text, items) && Resolvable(pri, items)
    ensures var inOrder := Sort(Deduped(pri, items), EarliestFirst());
      && Ascends(inOrder, 0, |text|)
      && text == Weave(Gaps(text, 0, inOrder), Spans(text, 0, inOrder))
      && Redacted(pri, text, items, mask) == Weave(Gaps(text, 0, inOrder), Masks(inOrder, mask))
      && forall f :: f in items ==> exists k :: k in inOrder && Encloses(k, f)
  {
    var kept := Deduped(pri, items);
    DisjointIffResolvable(pri, items, |text|);
    DisjointSplice(text, kept, mask);
    SameElements(Sort(kept, EarliestFirst()), kept);
    forall f | f in items ensures exists k :: k in Sort(kept, EarliestFirst()) && Encloses(k, f) {
      CoverageIsKept(pri, items, f);
      var k :| k in kept && Encloses(k, f);
      assert k in Sort(kept, EarliestFirst());
    }
  }

  /** And a text whose matches were tokenized comes back exactly when their values are their spans. */
  lemma MatchesRoundTrip(pri: Priorities, earlier: seq<Vault.Key>, text: string, items: seq<Finding>,
                         later: seq<Vault.Key>)
    requires Matches(text, items) && Resolvable(pri, items)
    requires forall f :: f in items ==> Vault.Readable(f.kind) && Vault.PartOfSpan(text, f)
    requires Vault.UnmarkedOutside(text, Deduped(pri, items))
    requires Vault.DistinctTypes(earlier + Vault.KeysOf(Sort(Deduped(pri, items), LatestFirst())) + later)
    ensures Vault.ThereAndBack(earlier, text, Deduped(pri, items), later) == text
       <==> Vault.Exact(text, Deduped(pri, items))
  {
    DisjointIffResolvable(pri, items, |text|);
    DedupedMembers(pri, items);
    Vault.RoundTrip(earlier, text, Deduped(pri, items), later);
  }

  // ------------------------------------------------------------------ two findings that overlap

  /** `f` begins inside `g`, or with it. */
  predicate BeginsInside(f: Finding, g: Finding) {
    g.start <= f.start < g.end && f.start <= f.end
  }

  function Max(a: nat, b: nat): nat { if a < b then b else a }

  /** The position from which the text goes on after `f` and then `g` were replaced, `m` characters
      being put in the place of `f`. */
  function GoesOnAt(f: Finding, g: Finding, m: nat): nat
    requires BeginsInside(f, g)
  {
    if g.end <= f.start + m then f.end else f.end + g.end - f.start - m
  }

  /** What is left of the replacement of `f`. */
  function Remnant(f: Finding, g: Finding, word: string): string
    requires BeginsInside(f, g)
  {
    if g.end <= f.start + |word| then word[g.end - f.start..] else ""
  }

  /** The text behind the replacement of `g`. */
  function Behind(text: string, f: Finding, g: Finding, word: string): string
    requires BeginsInside(f, g)
  {
    Remnant(f, g, word) + Drop(text, GoesOnAt(f, g, |word|))
  }

  lemma ReplaceInside(text: string, f: Finding, g: Finding, mask: Mask)
    requires BeginsInside(f, g) && Within(f, |text|) && Within(g, |text|)
    ensures SpliceAll(text, [f, g], mask) == text[..g.start] + mask(g) + Behind(text, f, g, mask(f))
  {
    assert [f, g][..1] == [f] && [f][..0] == [];
    assert SpliceAll(text, [f], mask) == text[..f.start] + mask(f) + text[f.end..];
    AroundInner(text, f, g, mask(f));
  }

  lemma AroundInner(text: string, f: Finding, g: Finding, word: string)
    requires BeginsInside(f, g) && Within(f, |text|) && Within(g, |text|)
    ensures var spliced := text[..f.start] + word + text[f.end..];
      Take(spliced, g.start) == text[..g.start] && Drop(spliced, g.end) == Behind(text, f, g, word)
  {
    var tail := text[f.end..];
    var spliced := text[..f.start] + word + tail;
    assert Take(spliced, g.start) == text[..g.start];
    if g.end <= f.start + |word| {
      assert Drop(spliced, g.end) == word[g.end - f.start..] + tail;
    } else if g.end <= |spliced| {
      assert Drop(spliced, g.end) == tail[g.end - f.start - |word|..] == text[f.end + g.end - f.start - |word|..];
      assert "" + Drop(spliced, g.end) == Drop(spliced, g.end);
    }
  }

  /** For any text, any two findings of which the one that is replaced first begins inside the other or
      with it, and any replacements: the result is the text before both, the replacement of the outer one,
      the end of the inner one's replacement if it reaches out, and the text from some position on. That
      position lies before the end of the findings, so that a part of them is left in the text, if and
      only if the inner one ends first and its replacement is longer than its span. It lies behind it, so
      that other text is lost, if and only if the replacement is shorter than the overlap. */
  lemma OverlapSplice(text: string, fs: seq<Finding>, f: Finding, g: Finding, mask: Mask)
    requires Sort(fs, LatestFirst()) == [f, g] && BeginsInside(f, g) && Within(f, |text|) && Within(g, |text|)
    ensures SpliceAll(text, Sort(fs, LatestFirst()), mask) ==
      text[..g.start] + mask(g) + (Remnant(f, g, mask(f)) + Drop(text, GoesOnAt(f, g, |mask(f)|)))
    ensures var (m, end, p) := (|mask(f)|, Max(f.end, g.end), GoesOnAt(f, g, |mask(f)|));
      && (p < end <==> f.end < g.end && m > f.end - f.start)
      && (p > end <==> m < (if f.end < g.end then f.end else g.end) - f.start)
  {
    ReplaceInside(text, f, g, mask);
  }

  // ------------------------------------------------------------------ a password that stays

  lemma OnlyThese(kept: seq<Finding>, f: Finding, g: Finding)
    requires f != g && f in kept && g in kept
    requires forall x :: x in kept ==> (x == f || x == g) && multiset(kept)[x] == 1
    ensures multiset(kept) == multiset{f, g}
  {
    forall x ensures multiset(kept)[x] == multiset{f, g}[x] {
      assert x in multiset(kept) <==> x in kept;
    }
  }

  /** A finding stays beside one that contains it, if it is shorter and has the higher priority. */
  lemma InnerStays(pri: Priorities, f: Finding, g: Finding)
    requires BeginsInside(f, g) && f.end < g.end && pri(f.kind) > pri(g.kind)
    ensures multiset(Deduped(pri, [f, g])) == multiset{f, g}
  {
    var items := [f, g];
    assert !Covers(f, g) && f in items && g in items;
    KeptIffUndominated(pri, items, f);
    KeptIffUndominated(pri, items, g);
    DedupedMembers(pri, items);
    DedupedHasNoRepeats(pri, items);
    OnlyThese(Deduped(pri, items), f, g);
  }

  lemma NoRemnant(text: string, f: Finding, g: Finding, word: string)
    requires BeginsInside(f, g) && f.end < g.end <= |text| && f.end - f.start < |word| <= g.end - f.start
    ensures var p := f.end + g.end - f.start - |word|;
      p < g.end && Behind(text, f, g, word) == text[p..]
  {
    var p := f.end + g.end - f.start - |word|;
    assert Remnant(f, g, word) == "" && GoesOnAt(f, g, |word|) == p;
    assert "" + text[p..] == text[p..];
  }

  lemma EndLeft(text: string, f: Finding, g: Finding, mask: Mask)
    requires BeginsInside(f, g) && f.end < g.end <= |text| && f.end - f.start < |mask(f)| <= g.end - f.start
    ensures var p := f.end + g.end - f.start - |mask(f)|;
      p < g.end && SpliceAll(text, [f, g], mask) == text[..g.start] + mask(g) + text[p..]
  {
    ReplaceInside(text, f, g, mask);
    EndFrom(text, f, g, mask(f), text[..g.start] + mask(g), SpliceAll(text, [f, g], mask));
  }

  lemma EndFrom(text: string, f: Finding, g: Finding, word: string, start: string, spliced: string)
    requires BeginsInside(f, g) && f.end < g.end <= |text| && f.end - f.start < |word| <= g.end - f.start
    requires spliced == start + Behind(text, f, g, word)
    ensures var p := f.end + g.end - f.start - |word|;
      p < g.end && spliced == start + text[p..]
  {
    NoRemnant(text, f, g, word);
  }

  lemma TwoInOrder(fs: seq<Finding>, f: Finding, g: Finding)
    requires multiset(fs) == multiset{f, g} && g.start < f.start
    ensures Sort(fs, LatestFirst()) == [f, g]
  {
    var r := Sort(fs, LatestFirst());
    SortSorts(fs, LatestFirst());
    assert |r| == |multiset(r)| == 2;
    assert r == [r[0], r[1]];
    assert multiset{r[0], r[1]} == multiset{f, g};
    assert r[0] in multiset{f, g} && r[1] in multiset{f, g} && f in multiset(r) && g in multiset(r);
    assert LatestFirst()(r[0], r[1]);
  }

  /** Then a replacement longer than its span leaves the end of the containing one in the text. */
  lemma EndStays(pri: Priorities, text: string, f: Finding, g: Finding, mask: Mask)
    requires BeginsInside(f, g) && g.start < f.start && f.end < g.end <= |text| && pri(f.kind) > pri(g.kind)
    requires f.end - f.start < |mask(f)| <= g.end - f.start
    ensures var p := f.end + g.end - f.start - |mask(f)|;
      p < g.end && Redacted(pri, text, [f, g], mask) == text[..g.start] + mask(g) + text[p..]
  {
    InnerStays(pri, f, g);
    TwoInOrder(Deduped(pri, [f, g]), f, g);
    EndLeft(text, f, g, mask);
  }

  const LITERAL := "***REDACTED***"

  function Literal(): Mask { _ => LITERAL }

  /** So it is with an address inside a password: the end of the password stays. */
  lemma OverlapsCanRemain()
    ensures var (text, address) := ("password=a@b.co:hunter22", Finding("email", "a@b.co", 9, 15));
      Redacted(Standard(), text, [address, Finding("kv_secret", text[9..], 0, |text|)], Literal())
        == "***REDACTED***" + "hunter22"
  {
    var text, f := "password=a@b.co:hunter22", Finding("email", "a@b.co", 9, 15);
    var g := Finding("kv_secret", text[9..], 0, |text|);
    HigherPriority();
    EndStays(Standard(), text, f, g, Literal());
    PasswordEnd(text);
  }

  lemma HigherPriority()
    ensures Standard()("email") > Standard()("kv_secret")
  {
    assert Standard()("email") == 80 && Standard()("kv_secret") == 70;
  }

  lemma PasswordEnd(text: string)
    requires text == "password=a@b.co:hunter22"
    ensures |text| == 24 && |LITERAL| == 14 && text[16..] == "hunter22"
    ensures text[..0] + LITERAL + text[16..] == "***REDACTED***" + "hunter22"
  {
    assert text[..0] + LITERAL == LITERAL;
  }
}
