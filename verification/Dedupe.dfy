/** Choosing among overlapping findings by priority and span. */
module Dedupe {
  import opened Ordering
  import opened Splice

  const PRIORITY: map<string, int> := map[
    "credit_card" := 90, "iban" := 90, "jwt" := 85, "email" := 80, "ssn" := 80,
    "google_api_key" := 75, "github_token" := 75, "sendgrid" := 75, "stripe_sk" := 75,
    "slack_token" := 75, "twilio" := 75, "aws_access_key_id" := 75, "api_key" := 72,
    "kv_secret" := 70, "entropy_token" := 55, "ipv6" := 50, "ipv4" := 50, "mac" := 50, "phone" := 40]

  type Priorities = string -> int

  function Standard(): Priorities { k => if k in PRIORITY then PRIORITY[k] else 50 }

  // ------------------------------------------------------------------ the code

  function Length(f: Finding): int { f.end - f.start }

  /** Higher priority first, then the longer span, then the earlier start. */
  function Ranking(pri: Priorities): (Finding, Finding) -> bool {
    (a: Finding, b: Finding) =>
      pri(a.kind) > pri(b.kind)
      || (pri(a.kind) == pri(b.kind)
          && (Length(a) > Length(b) || (Length(a) == Length(b) && a.start <= b.start)))
  }

  predicate SameSpan(k: Finding, f: Finding) { k.start == f.start && k.end == f.end }

  predicate Encloses(k: Finding, f: Finding) { k.start <= f.start && f.end <= k.end }

  /** A kept finding that makes `f` superfluous. */
  predicate Covers(k: Finding, f: Finding) {
    Encloses(k, f) && !(SameSpan(k, f) && k.kind != f.kind)
  }

  predicate Covered(kept: seq<Finding>, f: Finding) {
    exists i :: 0 <= i < |kept| && Covers(kept[i], f)
  }

  /** The findings kept from a list in rank order. */
  function Kept(items: seq<Finding>): (kept: seq<Finding>)
    ensures forall f :: f in kept ==> f in items
  {
    if items == [] then []
    else
      var before, f := Kept(items[..|items| - 1]), items[|items| - 1];
      if Covered(before, f) then before else before + [f]
  }

  function Deduped(pri: Priorities, items: seq<Finding>): seq<Finding> {
    Sort(Kept(Sort(items, Ranking(pri))), EarliestFirst())
  }

  method FindCover(kept: seq<Finding>, f: Finding) returns (drop: bool)
    ensures drop == Covered(kept, f)
  {
    for i := 0 to |kept|
      invariant forall j :: 0 <= j < i ==> !Covers(kept[j], f)
    {
      var k := kept[i];
      if f.start == k.start && f.end == k.end && f.kind != k.kind { continue; }
      if f.start >= k.start && f.end <= k.end { return true; }
    }
    return false;
  }

  /** One entry for each type, span and value: a dictionary whose keys keep their first place. */
  method Uniq(kept: seq<Finding>) returns (uniq: seq<Finding>)
    ensures (forall i, j :: 0 <= i < j < |kept| ==> kept[i] != kept[j]) ==> uniq == kept
  {
    uniq := [];
    for i := 0 to |kept|
      invariant (forall a, b :: 0 <= a < b < |kept| ==> kept[a] != kept[b]) ==> uniq == kept[..i]
    {
      if kept[i] !in uniq { uniq := uniq + [kept[i]]; }
    }
  }

  method Dedupe(pri: Priorities, items: seq<Finding>) returns (r: seq<Finding>)
    ensures r == Deduped(pri, items)
    ensures forall i, j :: 0 <= i < j < |r| ==> r[i].start <= r[j].start
  {
    if items == [] { return []; }
    var sorted := Sort(items, Ranking(pri));
    var kept := [];
    for i := 0 to |sorted|
      invariant kept == Kept(sorted[..i])
    {
      assert sorted[..i + 1][..i] == sorted[..i];
      var drop := FindCover(kept, sorted[i]);
      if !drop { kept := kept + [sorted[i]]; }
    }
    assert sorted[..|sorted|] == sorted;
    KeptAreUncovered(sorted);
    NoRepeats(kept);
    kept := Uniq(kept);
    r := Sort(kept, EarliestFirst());
    SortSorts(kept, EarliestFirst());
    forall i, j | 0 <= i < j < |r| ensures r[i].start <= r[j].start {
      assert EarliestFirst()(r[i], r[j]);
    }
  }

  // ------------------------------------------------------------------ what is kept

  /** No finding is covered by one before it. */
  ghost predicate Uncovered(kept: seq<Finding>) {
    forall i, j :: 0 <= i < j < |kept| ==> !Covers(kept[i], kept[j])
  }

  lemma {:induction false} KeptAreUncovered(items: seq<Finding>)
    ensures Uncovered(Kept(items))
  {
    if items != [] { KeptAreUncovered(items[..|items| - 1]); }
  }

  lemma NoRepeats(kept: seq<Finding>)
    requires Uncovered(kept)
    ensures forall i, j :: 0 <= i < j < |kept| ==> kept[i] != kept[j]
  {
    forall i, j | 0 <= i < j < |kept| ensures kept[i] != kept[j] {
      assert !Covers(kept[i], kept[j]);
      assert Encloses(kept[i], kept[i]);
    }
  }

  lemma {:induction false} KeptStaysSorted(items: seq<Finding>, le: (Finding, Finding) -> bool)
    requires SortedBy(items, le)
    ensures SortedBy(Kept(items), le)
  {
    if items != [] {
      var init, last := items[..|items| - 1], items[|items| - 1];
      KeptStaysSorted(init, le);
      forall k | k in Kept(init) ensures le(k, last) {
        var i :| 0 <= i < |init| && init[i] == k;
        assert le(items[i], items[|items| - 1]);
      }
    }
  }

  /** Every finding is kept, or covered by a kept one that comes before it. */
  lemma {:induction false} KeptOrCovered(items: seq<Finding>, le: (Finding, Finding) -> bool, f: Finding)
    requires SortedBy(items, le) && f in items
    ensures f in Kept(items) || exists k :: k in Kept(items) && Covers(k, f) && le(k, f)
  {
    var init, last := items[..|items| - 1], items[|items| - 1];
    assert items == init + [last];
    if f in init {
      KeptOrCovered(init, le, f);
    } else if Covered(Kept(init), f) {
      var i :| 0 <= i < |Kept(init)| && Covers(Kept(init)[i], f);
      var k := Kept(init)[i];
      assert k in Kept(init) && k in init;
      var j :| 0 <= j < |init| && init[j] == k;
      assert le(items[j], items[|items| - 1]);
      assert k in Kept(items);
    }
  }

  lemma DedupedMembers(pri: Priorities, items: seq<Finding>)
    ensures forall f :: f in Deduped(pri, items) <==> f in Kept(Sort(items, Ranking(pri)))
    ensures forall f :: f in Deduped(pri, items) ==> f in items
  {
    var sorted := Sort(items, Ranking(pri));
    SameElements(sorted, items);
    SameElements(Deduped(pri, items), Kept(sorted));
  }

  /** Nothing is invented, and every finding lies inside a kept one of at least its priority. */
  lemma CoverageIsKept(pri: Priorities, items: seq<Finding>, f: Finding)
    requires f in items
    ensures forall g :: g in Deduped(pri, items) ==> g in items
    ensures exists k :: k in Deduped(pri, items) && Encloses(k, f) && pri(k.kind) >= pri(f.kind)
    ensures f !in Deduped(pri, items) ==>
      exists k :: k in Deduped(pri, items) && Covers(k, f) && Ranking(pri)(k, f)
  {
    var le := Ranking(pri);
    var sorted := Sort(items, le);
    SortSorts(items, le);
    SameElements(sorted, items);
    DedupedMembers(pri, items);
    KeptOrCovered(sorted, le, f);
    if f !in Kept(sorted) {
      var k :| k in Kept(sorted) && Covers(k, f) && le(k, f);
      assert k in Deduped(pri, items) && Encloses(k, f);
    } else {
      assert f in Deduped(pri, items) && Encloses(f, f);
    }
  }

  lemma TiedSpans(pri: Priorities, f: Finding, g: Finding)
    requires Ranking(pri)(f, g) && Ranking(pri)(g, f)
    ensures SameSpan(f, g)
  {
    assert pri(f.kind) == pri(g.kind);
    assert Length(f) == Length(g);
    assert f.start == g.start;
  }

  /** In a list in rank order that holds no covered finding. */
  lemma NoneInside(pri: Priorities, kept: seq<Finding>, i: nat, j: nat)
    requires SortedBy(kept, Ranking(pri)) && Uncovered(kept) && i < |kept| && j < |kept| && i != j
    requires Ranking(pri)(kept[i], kept[j])
    ensures !Covers(kept[i], kept[j])
  {
    if j < i {
      TiedSpans(pri, kept[i], kept[j]);
      assert !Covers(kept[j], kept[i]);
    }
  }

  /** No kept finding lies inside one ranked before it, except the same span under another type. */
  lemma NoneInsideEarlier(pri: Priorities, items: seq<Finding>, f: Finding, g: Finding)
    requires f in Deduped(pri, items) && g in Deduped(pri, items) && f != g && Ranking(pri)(f, g)
    ensures Encloses(f, g) ==> SameSpan(f, g) && f.kind != g.kind
  {
    var sorted := Sort(items, Ranking(pri));
    var kept := Kept(sorted);
    DedupedMembers(pri, items);
    SortSorts(items, Ranking(pri));
    KeptStaysSorted(sorted, Ranking(pri));
    KeptAreUncovered(sorted);
    assert f in kept && g in kept;
    var i :| 0 <= i < |kept| && kept[i] == f;
    var j :| 0 <= j < |kept| && kept[j] == g;
    NoneInside(pri, kept, i, j);
  }

  // ------------------------------------------------------------------ idempotence

  /** Ties of a finer order are ties of a coarser one. */
  lemma {:induction false} TiesOfTies(s: seq<Finding>, fine: (Finding, Finding) -> bool,
                                      coarse: (Finding, Finding) -> bool, y: Finding)
    requires forall x :: fine(x, y) && fine(y, x) ==> coarse(x, y) && coarse(y, x)
    ensures Ties(s, fine, y) == Ties(Ties(s, coarse, y), fine, y)
  {
    if s != [] {
      var x, rest := s[0], s[1..];
      TiesOfTies(rest, fine, coarse, y);
      assert s == [x] + rest;
      TiesCons(x, rest, fine, y);
      TiesCons(x, rest, coarse, y);
      assert TieOf(x, fine, y) != [] ==> TieOf(x, coarse, y) == [x];
      if TieOf(x, coarse, y) == [x] { TiesCons(x, Ties(rest, coarse, y), fine, y); }
      else { assert [] + Ties(rest, coarse, y) == Ties(rest, coarse, y); }
    }
  }

  /** Sorting by start and then by rank again restores the rank order. */
  lemma RankAgain(pri: Priorities, kept: seq<Finding>)
    requires SortedBy(kept, Ranking(pri))
    ensures Sort(Sort(kept, EarliestFirst()), Ranking(pri)) == kept
  {
    var le, start := Ranking(pri), EarliestFirst();
    var r := Sort(kept, start);
    forall y ensures Ties(kept, le, y) == Ties(r, le, y) {
      TiesOfTies(kept, le, start, y);
      TiesOfTies(r, le, start, y);
      SortIsStable(kept, start, y);
    }
    SortIsUnique(kept, r, le);
  }

  lemma {:induction false} UncoveredAreKept(kept: seq<Finding>)
    requires Uncovered(kept)
    ensures Kept(kept) == kept
  {
    if kept != [] {
      var init, last := kept[..|kept| - 1], kept[|kept| - 1];
      UncoveredAreKept(init);
      assert kept == init + [last];
      forall i | 0 <= i < |init| ensures !Covers(init[i], last) {
        assert !Covers(kept[i], kept[|kept| - 1]);
      }
    }
  }

  /** A second pass changes nothing. */
  lemma DedupeIsIdempotent(pri: Priorities, items: seq<Finding>)
    ensures Deduped(pri, Deduped(pri, items)) == Deduped(pri, items)
  {
    var le := Ranking(pri);
    var sorted := Sort(items, le);
    SortSorts(items, le);
    KeptStaysSorted(sorted, le);
    RankAgain(pri, Kept(sorted));
    KeptAreUncovered(sorted);
    UncoveredAreKept(Kept(sorted));
  }

  // ------------------------------------------------------------------ which findings are kept

  /** Another finding of at least its priority makes `f` superfluous. */
  ghost predicate Dominated(pri: Priorities, items: seq<Finding>, f: Finding) {
    exists g :: g in items && g != f && Covers(g, f) && pri(g.kind) >= pri(f.kind)
  }

  /** Type and span identify a finding, as they do when each type has one pattern. */
  ghost predicate Identified(items: seq<Finding>) {
    forall f, g :: f in items && g in items && f.kind == g.kind && SameSpan(f, g) ==> f == g
  }

  lemma CoversTransitively(pri: Priorities, k: Finding, g: Finding, f: Finding)
    requires Covers(k, g) && Ranking(pri)(k, g) && Covers(g, f) && pri(g.kind) >= pri(f.kind)
    ensures Covers(k, f) && Ranking(pri)(k, f)
  {}

  lemma DominatedIsDropped(pri: Priorities, items: seq<Finding>, f: Finding, g: Finding)
    requires Identified(items) && f in items && g in items && g != f
    requires Covers(g, f) && pri(g.kind) >= pri(f.kind)
    ensures f !in Deduped(pri, items)
  {
    CoverageIsKept(pri, items, g);
    var k := g;
    if g !in Deduped(pri, items) {
      k :| k in Deduped(pri, items) && Covers(k, g) && Ranking(pri)(k, g);
    }
    CoversTransitively(pri, k, g, f);
    if f in Deduped(pri, items) { NoneInsideEarlier(pri, items, k, f); }
  }

  /** Exactly the findings that no other one of at least their priority makes superfluous are kept. */
  lemma KeptIffUndominated(pri: Priorities, items: seq<Finding>, f: Finding)
    requires Identified(items)
    ensures f in Deduped(pri, items) <==> f in items && !Dominated(pri, items, f)
    ensures f in Deduped(pri, items) <==>
      && f in items
      && forall g :: g in items && g != f && g.start <= f.start && f.end <= g.end && pri(g.kind) >= pri(f.kind) ==>
           g.start == f.start && g.end == f.end && g.kind != f.kind
  {
    DedupedMembers(pri, items);
    assert Dominated(pri, items, f) <==>
      exists g :: && g in items && g != f && g.start <= f.start && f.end <= g.end && pri(g.kind) >= pri(f.kind)
                  && !(g.start == f.start && g.end == f.end && g.kind != f.kind);
    if f in items && f !in Deduped(pri, items) {
      CoverageIsKept(pri, items, f);
      var k :| k in Deduped(pri, items) && Covers(k, f) && Ranking(pri)(k, f);
      assert Dominated(pri, items, f);
    } else if f in items && Dominated(pri, items, f) {
      var g :| g in items && g != f && Covers(g, f) && pri(g.kind) >= pri(f.kind);
      DominatedIsDropped(pri, items, f, g);
    }
  }

  // ------------------------------------------------------------------ when the kept ones are disjoint

  /** Of any two findings that are not clear of each other, one is dominated. */
  ghost predicate Resolvable(pri: Priorities, items: seq<Finding>) {
    forall f, g :: f in items && g in items && f != g && !Clear(f, g) ==>
      Dominated(pri, items, f) || Dominated(pri, items, g)
  }

  lemma DedupedHasNoRepeats(pri: Priorities, items: seq<Finding>)
    ensures forall f :: f in Deduped(pri, items) ==> multiset(Deduped(pri, items))[f] == 1
  {
    var kept := Kept(Sort(items, Ranking(pri)));
    KeptAreUncovered(Sort(items, Ranking(pri)));
    NoRepeats(kept);
    DistinctCountOnce(kept);
    SameElements(Deduped(pri, items), kept);
  }

  lemma {:induction false} DistinctCountOnce(s: seq<Finding>)
    requires forall i, j :: 0 <= i < j < |s| ==> s[i] != s[j]
    ensures forall f :: f in s ==> multiset(s)[f] == 1
  {
    if s != [] {
      var init, last := s[..|s| - 1], s[|s| - 1];
      assert s == init + [last];
      DistinctCountOnce(init);
      assert last !in multiset(init);
    }
  }

  /** Removing duplicates leaves no overlap if and only if of any two overlapping findings one is
      dominated. */
  lemma DisjointIffResolvable(pri: Priorities, items: seq<Finding>, n: nat)
    requires Identified(items) && forall f :: f in items ==> Within(f, n)
    ensures Apart(Deduped(pri, items), n) <==> Resolvable(pri, items)
  {
    var kept := Deduped(pri, items);
    forall f ensures f in kept <==> f in items && !Dominated(pri, items, f) { KeptIffUndominated(pri, items, f); }
    if Apart(kept, n) {
      ApartHasNoRepeats(kept, n);
      forall f, g | f in items && g in items && f != g && !Clear(f, g)
        ensures Dominated(pri, items, f) || Dominated(pri, items, g)
      {
        assert f in kept && g in kept ==> f in multiset(kept) && g in multiset(kept);
      }
    } else if Resolvable(pri, items) {
      DedupedHasNoRepeats(pri, items);
      forall i, j | 0 <= i < j < |kept| ensures Clear(kept[i], kept[j]) {
        assert kept[i] in kept && kept[j] in kept;
        TwoPlaces(kept, i, j);
      }
    }
  }

  lemma TwoPlaces(s: seq<Finding>, i: nat, j: nat)
    requires i < j < |s| && multiset(s)[s[i]] == 1
    ensures s[i] != s[j]
  {
    assert s == s[..j] + s[j..];
    assert s[..j][i] in multiset(s[..j]) && s[j..][0] in multiset(s[j..]);
  }
}
