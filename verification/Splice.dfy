/** Replacing the spans of findings in a text, from the last to the first.

    `Weave` is the simultaneous replacement this amounts to: the text between the findings stays,
    and each finding's span is exchanged for its replacement. */
module Splice {
  import opened Ordering

  datatype Finding = Finding(kind: string, value: string, start: nat, end: nat)

  type Mask = Finding -> string

  // ------------------------------------------------------------------ the code's way

  /** Slices that clamp to the length of the text. */
  function Take(s: string, n: nat): string { if n <= |s| then s[..n] else s }

  function Drop(s: string, n: nat): string { if n <= |s| then s[n..] else "" }

  function Replace(text: string, f: Finding, mask: Mask): string {
    Take(text, f.start) + mask(f) + Drop(text, f.end)
  }

  function SpliceAll(text: string, fs: seq<Finding>, mask: Mask): string {
    if fs == [] then text else Replace(SpliceAll(text, fs[..|fs| - 1], mask), fs[|fs| - 1], mask)
  }

  function LatestFirst(): (Finding, Finding) -> bool { (a: Finding, b: Finding) => a.start >= b.start }

  function EarliestFirst(): (Finding, Finding) -> bool { (a: Finding, b: Finding) => a.start <= b.start }

  /** The loop of `redact`, after detection. */
  method Redact(text: string, findings: seq<Finding>, mask: Mask) returns (out: string)
    ensures out == SpliceAll(text, Sort(findings, LatestFirst()), mask)
  {
    if findings == [] { return text; }
    var sorted := Sort(findings, LatestFirst());
    out := text;
    for i := 0 to |sorted|
      invariant out == SpliceAll(text, sorted[..i], mask)
    {
      out := Replace(out, sorted[i], mask);
      assert sorted[..i + 1][..i] == sorted[..i];
    }
    assert sorted[..|sorted|] == sorted;
  }

  // ------------------------------------------------------------------ simultaneous replacement

  function Weave(gaps: seq<string>, words: seq<string>): string
    requires |gaps| == |words| + 1
  {
    if words == [] then gaps[0] else gaps[0] + (words[0] + Weave(gaps[1..], words[1..]))
  }

  /** Spans in order, one after the other, from `from` on and inside a text of length `n`. */
  predicate Ascends(fs: seq<Finding>, from: nat, n: nat) {
    if fs == [] then from <= n else from <= fs[0].start <= fs[0].end && Ascends(fs[1..], fs[0].end, n)
  }

  lemma {:induction false} AscendsWithin(fs: seq<Finding>, from: nat, n: nat)
    requires Ascends(fs, from, n)
    ensures from <= n
  {
    if fs != [] { AscendsWithin(fs[1..], fs[0].end, n); }
  }

  /** The text between the findings. */
  function Gaps(text: string, from: nat, fs: seq<Finding>): (gaps: seq<string>)
    requires Ascends(fs, from, |text|)
    decreases fs
    ensures |gaps| == |fs| + 1
  {
    AscendsWithin(fs, from, |text|);
    if fs == [] then [text[from..]]
    else
      AscendsWithin(fs[1..], fs[0].end, |text|);
      [text[from..fs[0].start]] + Gaps(text, fs[0].end, fs[1..])
  }

  /** The text of the findings' spans. */
  function Spans(text: string, from: nat, fs: seq<Finding>): (spans: seq<string>)
    requires Ascends(fs, from, |text|)
    decreases fs
    ensures |spans| == |fs|
  {
    if fs == [] then []
    else
      AscendsWithin(fs[1..], fs[0].end, |text|);
      [text[fs[0].start..fs[0].end]] + Spans(text, fs[0].end, fs[1..])
  }

  function Masks(fs: seq<Finding>, mask: Mask): (words: seq<string>)
    ensures |words| == |fs|
  {
    if fs == [] then [] else [mask(fs[0])] + Masks(fs[1..], mask)
  }

  /** The gaps and the spans are all of the text. */
  lemma {:induction false} TextIsWoven(text: string, from: nat, fs: seq<Finding>)
    requires Ascends(fs, from, |text|)
    ensures from <= |text| && Weave(Gaps(text, from, fs), Spans(text, from, fs)) == text[from..]
    decreases fs
  {
    AscendsWithin(fs, from, |text|);
    if fs != [] {
      TextIsWoven(text, fs[0].end, fs[1..]);
      WeaveCons(text[from..fs[0].start], text[fs[0].start..fs[0].end],
                Gaps(text, fs[0].end, fs[1..]), Spans(text, fs[0].end, fs[1..]));
      assert text[from..] == text[from..fs[0].start] + (text[fs[0].start..fs[0].end] + text[fs[0].end..]);
    }
  }

  lemma WeaveCons(gap: string, word: string, gaps: seq<string>, words: seq<string>)
    requires |gaps| == |words| + 1
    ensures Weave([gap] + gaps, [word] + words) == gap + (word + Weave(gaps, words))
  {
    assert ([gap] + gaps)[1..] == gaps && ([word] + words)[1..] == words;
  }

  lemma ReplaceFirst(text: string, from: nat, f: Finding, woven: string, mask: Mask)
    requires from <= f.start <= f.end <= |text|
    ensures Replace(text[..f.end] + woven, f, mask) == text[..from] + (text[from..f.start] + (mask(f) + woven))
  {
    var spliced := text[..f.end] + woven;
    assert Take(spliced, f.start) == text[..from] + text[from..f.start];
    assert Drop(spliced, f.end) == woven;
  }

  /** Splicing from the last finding to the first is the simultaneous replacement. */
  lemma {:induction false} SpliceWeaves(text: string, from: nat, fs: seq<Finding>, mask: Mask)
    requires Ascends(fs, from, |text|)
    ensures from <= |text|
    ensures SpliceAll(text, Reverse(fs), mask) == text[..from] + Weave(Gaps(text, from, fs), Masks(fs, mask))
    decreases fs
  {
    AscendsWithin(fs, from, |text|);
    if fs == [] {
      assert text == text[..from] + text[from..];
    } else {
      var f, rest := fs[0], fs[1..];
      AscendsWithin(rest, f.end, |text|);
      SpliceWeaves(text, f.end, rest, mask);
      assert Reverse(fs)[..|rest|] == Reverse(rest);
      ReplaceFirst(text, from, f, Weave(Gaps(text, f.end, rest), Masks(rest, mask)), mask);
      WeaveCons(text[from..f.start], mask(f), Gaps(text, f.end, rest), Masks(rest, mask));
    }
  }

  // ------------------------------------------------------------------ disjoint findings in any order

  predicate Within(f: Finding, n: nat) { f.start <= f.end <= n }

  /** Two spans that do not overlap and start at different places. */
  predicate Clear(f: Finding, g: Finding) {
    f.start != g.start && (f.end <= g.start || g.end <= f.start)
  }

  /** Pairwise disjoint findings inside a text of length `n`. */
  predicate Apart(fs: seq<Finding>, n: nat) {
    && (forall i :: 0 <= i < |fs| ==> Within(fs[i], n))
    && (forall i, j :: 0 <= i < j < |fs| ==> Clear(fs[i], fs[j]))
  }

  /** The same, whatever the order: no finding occurs twice, and any two are clear of each other. */
  ghost predicate ApartSet(fs: multiset<Finding>, n: nat) {
    && (forall f :: f in fs ==> Within(f, n) && fs[f] == 1)
    && (forall f, g :: f in fs && g in fs && f != g ==> Clear(f, g))
  }

  lemma AddApart(f: Finding, fs: multiset<Finding>, n: nat)
    requires ApartSet(fs, n) && Within(f, n) && forall g :: g in fs ==> Clear(f, g)
    ensures ApartSet(multiset{f} + fs, n)
  {}

  lemma {:induction false} ApartHasNoRepeats(fs: seq<Finding>, n: nat)
    requires Apart(fs, n)
    ensures ApartSet(multiset(fs), n)
  {
    if fs != [] {
      var f, rest := fs[0], fs[1..];
      assert fs == [f] + rest;
      ApartHasNoRepeats(rest, n);
      forall g | g in rest ensures Clear(f, g) {
        var j :| 0 <= j < |rest| && rest[j] == g;
        assert fs[j + 1] == g;
      }
      AddApart(f, multiset(rest), n);
    }
  }

  lemma RestApart(f: Finding, fs: multiset<Finding>, n: nat)
    requires ApartSet(multiset{f} + fs, n)
    ensures ApartSet(fs, n) && Within(f, n) && forall g :: g in fs ==> Clear(f, g)
  {
    var all := multiset{f} + fs;
    assert f in all && all[f] == 1 + fs[f];
    forall g | g in fs ensures g in all && fs[g] == 1 && Clear(f, g) {
      assert g in all && g != f && all[g] == fs[g];
    }
  }

  lemma {:induction false} SortedApartAscends(fs: seq<Finding>, from: nat, n: nat)
    requires SortedBy(fs, EarliestFirst()) && ApartSet(multiset(fs), n) && from <= n
    requires forall f :: f in fs ==> from <= f.start
    ensures Ascends(fs, from, n)
  {
    if fs != [] {
      var f, rest := fs[0], fs[1..];
      assert fs == [f] + rest;
      RestApart(f, multiset(rest), n);
      forall g | g in rest ensures f.end <= g.start {
        var j :| 0 <= j < |rest| && rest[j] == g;
        assert EarliestFirst()(fs[0], fs[j + 1]);
        assert g in multiset(rest);
      }
      SortedApartAscends(rest, f.end, n);
    }
  }

  lemma StartsDiffer(fs: seq<Finding>, n: nat)
    requires ApartSet(multiset(fs), n)
    ensures forall x, y :: x in fs && y in fs && x.start == y.start ==> x == y
  {
    forall x, y | x in fs && y in fs && x.start == y.start ensures x == y {
      assert x in multiset(fs) && y in multiset(fs);
    }
  }

  /** For disjoint findings in any order, right-to-left splicing keeps the gaps in order and puts
      each replacement exactly where its span was, however long it is. */
  lemma DisjointSplice(text: string, fs: seq<Finding>, mask: Mask)
    requires Apart(fs, |text|)
    ensures var inOrder := Sort(fs, EarliestFirst());
      && Ascends(inOrder, 0, |text|)
      && text == Weave(Gaps(text, 0, inOrder), Spans(text, 0, inOrder))
      && SpliceAll(text, Sort(fs, LatestFirst()), mask) == Weave(Gaps(text, 0, inOrder), Masks(inOrder, mask))
  {
    var inOrder := Sort(fs, EarliestFirst());
    ApartHasNoRepeats(fs, |text|);
    SortSorts(fs, EarliestFirst());
    SortedApartAscends(inOrder, 0, |text|);
    StartsDiffer(fs, |text|);
    ReversedSort(fs, EarliestFirst(), LatestFirst());
    SpliceWeaves(text, 0, inOrder, mask);
    TextIsWoven(text, 0, inOrder);
    assert text[0..] == text;
    var woven := Weave(Gaps(text, 0, inOrder), Masks(inOrder, mask));
    assert text[..0] + woven == woven;
  }

  /** The order in which disjoint findings are given does not matter. */
  lemma FindingOrderIsIrrelevant(text: string, fs: seq<Finding>, gs: seq<Finding>, mask: Mask)
    requires Apart(fs, |text|) && multiset(fs) == multiset(gs)
    ensures SpliceAll(text, Sort(fs, LatestFirst()), mask) == SpliceAll(text, Sort(gs, LatestFirst()), mask)
  {
    ApartHasNoRepeats(fs, |text|);
    StartsDiffer(fs, |text|);
    SortIgnoresOrder(fs, gs, LatestFirst());
  }
}
