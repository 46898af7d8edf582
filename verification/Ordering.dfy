/** Orders and stable sorting shared by the models.

    Python's `sorted` and `list.sort`, and JavaScript's `Array.prototype.sort`, are stable;
    `Sort` is the reference they are modelled by. A stable sort is pinned down by its
    specification (`SortIsUnique`), so nothing below depends on how `Sort` works. */
module Ordering {

  ghost predicate TotalPreorder<T(!new)>(le: (T, T) -> bool) {
    && (forall x, y :: le(x, y) || le(y, x))
    && (forall x, y, z :: le(x, y) && le(y, z) ==> le(x, z))
  }

  ghost predicate SortedBy<T>(s: seq<T>, le: (T, T) -> bool) {
    forall i, j :: 0 <= i < j < |s| ==> le(s[i], s[j])
  }

  /** The elements of `s` that tie with `x`, in order. */
  function Ties<T>(s: seq<T>, le: (T, T) -> bool, x: T): (r: seq<T>)
    ensures forall y :: y in r ==> y in s
  {
    if s == [] then []
    else (if le(s[0], x) && le(x, s[0]) then [s[0]] else []) + Ties(s[1..], le, x)
  }

  function Insert<T>(x: T, s: seq<T>, le: (T, T) -> bool): (r: seq<T>)
    ensures multiset(r) == multiset(s) + multiset{x}
    ensures |r| == |s| + 1
  {
    if s == [] || le(x, s[0]) then [x] + s
    else
      assert s == [s[0]] + s[1..];
      [s[0]] + Insert(x, s[1..], le)
  }

  function Sort<T>(s: seq<T>, le: (T, T) -> bool): (r: seq<T>)
    ensures multiset(r) == multiset(s)
    ensures |r| == |s|
  {
    if s == [] then []
    else
      assert s == [s[0]] + s[1..];
      Insert(s[0], Sort(s[1..], le), le)
  }

  lemma SameElements<T>(r: seq<T>, s: seq<T>)
    requires multiset(r) == multiset(s)
    ensures forall x :: x in r <==> x in s
  {
    forall x ensures x in r <==> x in s {
      assert x in r <==> x in multiset(r);
      assert x in s <==> x in multiset(s);
    }
  }

  lemma {:induction false} InsertSorted<T(!new)>(x: T, s: seq<T>, le: (T, T) -> bool)
    requires TotalPreorder(le) && SortedBy(s, le)
    ensures SortedBy(Insert(x, s, le), le)
  {
    var r := Insert(x, s, le);
    if s == [] || le(x, s[0]) {
      forall i, j | 0 <= i < j < |r| ensures le(r[i], r[j]) {
        if i == 0 && j > 1 { assert le(s[0], s[j - 1]); }
      }
    } else {
      var t := Insert(x, s[1..], le);
      InsertSorted(x, s[1..], le);
      assert r == [s[0]] + t;
      forall j | 1 <= j < |r| ensures le(r[0], r[j]) {
        assert r[j] in multiset(t);
        assert r[j] == x || r[j] in s[1..];
      }
      forall i, j | 0 <= i < j < |r| ensures le(r[i], r[j]) {
        if i > 0 { assert le(t[i - 1], t[j - 1]); }
      }
    }
  }

  /** `[x]` when `x` ties with `y`, else nothing. */
  function TieOf<T>(x: T, le: (T, T) -> bool, y: T): seq<T> {
    if le(x, y) && le(y, x) then [x] else []
  }

  lemma TiesCons<T>(x: T, s: seq<T>, le: (T, T) -> bool, y: T)
    ensures Ties([x] + s, le, y) == TieOf(x, le, y) + Ties(s, le, y)
  {
    assert ([x] + s)[1..] == s;
  }

  lemma {:induction false} InsertTies<T(!new)>(x: T, s: seq<T>, le: (T, T) -> bool, y: T)
    requires TotalPreorder(le)
    ensures Ties(Insert(x, s, le), le, y) == TieOf(x, le, y) + Ties(s, le, y)
  {
    if s == [] || le(x, s[0]) {
      TiesCons(x, s, le, y);
    } else {
      var h, t := s[0], s[1..];
      assert s == [h] + t;
      InsertTies(x, t, le, y);
      TiesCons(h, Insert(x, t, le), le, y);
      TiesCons(h, t, le, y);
      // x is strictly above h here, so at most one of them ties with y.
      assert TieOf(h, le, y) == [] || TieOf(x, le, y) == [] by {
        assert le(x, y) && le(y, h) ==> le(x, h);
      }
    }
  }

  lemma {:induction false} SortSorts<T(!new)>(s: seq<T>, le: (T, T) -> bool)
    requires TotalPreorder(le)
    ensures SortedBy(Sort(s, le), le)
  {
    if s != [] {
      SortSorts(s[1..], le);
      InsertSorted(s[0], Sort(s[1..], le), le);
    }
  }

  /** Stability: elements that tie keep the order they came in. */
  lemma {:induction false} SortIsStable<T(!new)>(s: seq<T>, le: (T, T) -> bool, y: T)
    requires TotalPreorder(le)
    ensures Ties(Sort(s, le), le, y) == Ties(s, le, y)
  {
    if s != [] {
      SortIsStable(s[1..], le, y);
      InsertTies(s[0], Sort(s[1..], le), le, y);
    }
  }

  /** A sorted sequence with the ties of `s` in their order is the stable sort of `s`. */
  lemma {:induction false} SortIsUnique<T(!new)>(r: seq<T>, s: seq<T>, le: (T, T) -> bool)
    requires TotalPreorder(le)
    requires SortedBy(r, le)
    requires forall y :: Ties(r, le, y) == Ties(s, le, y)
    ensures r == Sort(s, le)
  {
    var t := Sort(s, le);
    SortSorts(s, le);
    forall y ensures Ties(t, le, y) == Ties(r, le, y) { SortIsStable(s, le, y); }
    SortedWithSameTies(r, t, le);
  }

  lemma TiesContain<T(!new)>(s: seq<T>, le: (T, T) -> bool, x: T)
    requires TotalPreorder(le) && x in s
    ensures Ties(s, le, x) != []
  {
    if s[0] != x { assert x in s[1..]; }
  }

  lemma {:induction false} SortedWithSameTies<T(!new)>(r: seq<T>, t: seq<T>, le: (T, T) -> bool)
    requires TotalPreorder(le) && SortedBy(r, le) && SortedBy(t, le)
    requires forall y :: Ties(r, le, y) == Ties(t, le, y)
    ensures r == t
  {
    if r != [] { TiesContain(r, le, r[0]); }
    if t != [] { TiesContain(t, le, t[0]); }
    if r != [] && t != [] {
      var x, y := r[0], t[0];
      assert Ties(t, le, x) != [] && Ties(r, le, y) != [];
      TieOfHead(r, t, le);
      assert Ties(r, le, x) == [x] + Ties(r[1..], le, x);
      assert Ties(t, le, x) == [y] + Ties(t[1..], le, x);
      assert Ties(r, le, x)[0] == Ties(t, le, x)[0];
      forall z ensures Ties(r[1..], le, z) == Ties(t[1..], le, z) {
        assert Ties(r, le, z) == Ties(t, le, z);
        assert r == [x] + r[1..] && t == [x] + t[1..];
        TiesCons(x, r[1..], le, z); TiesCons(x, t[1..], le, z);
        assert Ties(r[1..], le, z) == Ties(r, le, z)[|TieOf(x, le, z)|..];
        assert Ties(t[1..], le, z) == Ties(t, le, z)[|TieOf(x, le, z)|..];
      }
      SortedWithSameTies(r[1..], t[1..], le);
      assert r == [x] + r[1..] && t == [y] + t[1..];
    }
  }

  lemma TieWitness<T(!new)>(s: seq<T>, le: (T, T) -> bool, x: T) returns (i: nat)
    requires Ties(s, le, x) != []
    ensures i < |s| && le(s[i], x) && le(x, s[i])
  {
    if le(s[0], x) && le(x, s[0]) { i := 0; }
    else { var j := TieWitness(s[1..], le, x); i := j + 1; }
  }

  lemma TieOfHead<T(!new)>(r: seq<T>, t: seq<T>, le: (T, T) -> bool)
    requires TotalPreorder(le) && SortedBy(r, le) && SortedBy(t, le)
    requires r != [] && t != []
    requires Ties(t, le, r[0]) != [] && Ties(r, le, t[0]) != []
    ensures le(r[0], t[0]) && le(t[0], r[0])
  {
    var i := TieWitness(t, le, r[0]);
    var j := TieWitness(r, le, t[0]);
    assert le(t[0], t[i]) && le(r[0], r[j]);
  }

  lemma EmptyWithEmpty<T(!new)>(r: seq<T>, t: seq<T>)
    requires multiset(r) == multiset(t)
    ensures |r| == |t|
  {
    assert |r| == |multiset(r)| && |t| == |multiset(t)|;
  }

  lemma LowestFirst<T(!new)>(r: seq<T>, t: seq<T>, le: (T, T) -> bool)
    requires TotalPreorder(le) && SortedBy(r, le) && r != [] && t != []
    requires multiset(r) == multiset(t)
    ensures t[0] in r && le(r[0], t[0])
  {
    SameElements(r, t);
    assert t[0] in t;
    var j :| 0 <= j < |r| && r[j] == t[0];
    if j > 0 { assert le(r[0], r[j]); }
  }

  lemma SameTails<T(!new)>(r: seq<T>, t: seq<T>)
    requires multiset(r) == multiset(t) && r != [] && t != [] && r[0] == t[0]
    ensures multiset(r[1..]) == multiset(t[1..])
  {
    assert r == [r[0]] + r[1..] && t == [t[0]] + t[1..];
    assert multiset(r[1..]) == multiset(r) - multiset{r[0]};
    assert multiset(t[1..]) == multiset(t) - multiset{t[0]};
  }

  /** Two sorted arrangements of the same elements agree when ties are equal. */
  lemma {:induction false} SortedPermutationsAgree<T(!new)>(r: seq<T>, t: seq<T>, le: (T, T) -> bool)
    requires TotalPreorder(le) && SortedBy(r, le) && SortedBy(t, le)
    requires multiset(r) == multiset(t)
    requires forall x, y :: x in r && y in r && le(x, y) && le(y, x) ==> x == y
    ensures r == t
  {
    EmptyWithEmpty(r, t);
    if r != [] {
      LowestFirst(r, t, le);
      LowestFirst(t, r, le);
      SameTails(r, t);
      SortedPermutationsAgree(r[1..], t[1..], le);
      assert r == [r[0]] + r[1..] && t == [t[0]] + t[1..];
    }
  }

  /** Without distinct elements that tie, sorting forgets the order it was given. */
  lemma SortIgnoresOrder<T(!new)>(r: seq<T>, s: seq<T>, le: (T, T) -> bool)
    requires TotalPreorder(le) && multiset(r) == multiset(s)
    requires forall x, y :: x in r && y in r && le(x, y) && le(y, x) ==> x == y
    ensures Sort(r, le) == Sort(s, le)
  {
    SortSorts(r, le);
    SortSorts(s, le);
    SameElements(Sort(r, le), r);
    SortedPermutationsAgree(Sort(r, le), Sort(s, le), le);
  }

  function Reverse<T>(s: seq<T>): (r: seq<T>)
    ensures |r| == |s| && forall i :: 0 <= i < |s| ==> r[i] == s[|s| - 1 - i]
    ensures multiset(r) == multiset(s)
  {
    if s == [] then []
    else
      assert s == [s[0]] + s[1..];
      Reverse(s[1..]) + [s[0]]
  }

  lemma ReverseSorts<T(!new)>(s: seq<T>, up: (T, T) -> bool, down: (T, T) -> bool)
    requires SortedBy(s, up) && forall x, y :: down(x, y) == up(y, x)
    ensures SortedBy(Reverse(s), down)
  {
    forall i, j | 0 <= i < j < |s| ensures down(Reverse(s)[i], Reverse(s)[j]) {
      assert up(s[|s| - 1 - j], s[|s| - 1 - i]);
    }
  }

  /** Without distinct elements that tie, sorting by the converse order is reversal. */
  lemma ReversedSort<T(!new)>(s: seq<T>, up: (T, T) -> bool, down: (T, T) -> bool)
    requires TotalPreorder(up) && TotalPreorder(down) && forall x, y :: down(x, y) == up(y, x)
    requires forall x, y :: x in s && y in s && up(x, y) && up(y, x) ==> x == y
    ensures Sort(s, down) == Reverse(Sort(s, up))
  {
    SortSorts(s, up);
    SortSorts(s, down);
    ReverseSorts(Sort(s, up), up, down);
    SameElements(Sort(s, down), s);
    SortedPermutationsAgree(Sort(s, down), Reverse(Sort(s, up)), down);
  }

  /** Lexicographic order by character: what `<` means for strings, where a character is a code point in
      Python and a UTF-16 code unit in JavaScript. A JavaScript string is the sequence of its units here,
      so one with a character outside the basic plane has two characters in its place. */
  predicate LexLess(a: string, b: string) {
    b != [] && (a == [] || a[0] < b[0] || (a[0] == b[0] && LexLess(a[1..], b[1..])))
  }

  /** The first place where two texts differ decides; a text comes after its beginnings. */
  lemma {:induction false} LexLessIff(a: string, b: string)
    ensures LexLess(a, b) <==>
              exists k :: 0 <= k <= |a| && k < |b| && a[..k] == b[..k] && (k == |a| || a[k] < b[k])
  {
    if b == [] {
    } else if a == [] || a[0] != b[0] {
      assert a[..0] == b[..0];
      assert forall k :: 0 < k <= |a| && k < |b| ==> a[..k][0] == a[0] && b[..k][0] == b[0];
    } else {
      var (c, d) := (a[1..], b[1..]);
      LexLessIff(c, d);
      if j :| 0 <= j <= |c| && j < |d| && c[..j] == d[..j] && (j == |c| || c[j] < d[j]) {
        assert a[..j + 1] == [a[0]] + a[1..][..j] && b[..j + 1] == [b[0]] + b[1..][..j];
      }
      if k :| 0 <= k <= |a| && k < |b| && a[..k] == b[..k] && (k == |a| || a[k] < b[k]) {
        assert k > 0;
        assert a[1..][..k - 1] == a[..k][1..] && b[1..][..k - 1] == b[..k][1..];
      }
    }
  }

  lemma {:induction false} LexTrichotomy(a: string, b: string)
    ensures LexLess(a, b) || LexLess(b, a) || a == b
    ensures !(LexLess(a, b) && LexLess(b, a))
    ensures !LexLess(a, a)
  {
    if a != [] {
      LexIrreflexive(a[1..]);
    }
    if a != [] && b != [] {
      LexTrichotomy(a[1..], b[1..]);
      assert a == [a[0]] + a[1..] && b == [b[0]] + b[1..];
    }
  }

  lemma LexIrreflexive(a: string)
    ensures !LexLess(a, a)
  {}

  lemma {:induction false} LexTransitive(a: string, b: string, c: string)
    requires LexLess(a, b) && LexLess(b, c)
    ensures LexLess(a, c)
  {
    if a != [] && a[0] == b[0] && b[0] == c[0] {
      LexTransitive(a[1..], b[1..], c[1..]);
    }
  }
}
