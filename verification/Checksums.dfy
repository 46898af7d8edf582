/** The Luhn check (ISO/IEC 7812-1, Annex B) and the IBAN check (ISO/IEC 7064, MOD 97-10). */
module Checksums {
  import opened Basics
  import opened Lexer

  // ------------------------------------------------------------------ Luhn

  function CharValues(s: string): (ds: seq<int>)
    ensures |ds| == |s| && forall i :: 0 <= i < |s| ==> ds[i] == s[i] as int - '0' as int
  {
    seq(|s|, i requires 0 <= i < |s| => s[i] as int - '0' as int)
  }

  /** A digit's share of the sum; doubling takes 9 off above 9. */
  function Share(d: int, doubled: bool): int {
    if !doubled then d else if 2 * d > 9 then 2 * d - 9 else 2 * d
  }

  /** The sum from the right; `doubled` tells whether the last digit is doubled. */
  function LuhnSum(ds: seq<int>, doubled: bool): int {
    if ds == [] then 0 else Share(ds[|ds| - 1], doubled) + LuhnSum(ds[..|ds| - 1], !doubled)
  }

  predicate LuhnValid(ds: seq<int>) { LuhnSum(ds, false) % 10 == 0 }

  method LuhnOk(digits: string) returns (ok: bool)
    ensures ok == LuhnValid(CharValues(digits))
    ensures AreDigits(CharValues(digits)) ==> (ok <==> StandardSum(CharValues(digits), |digits|) % 10 == 0)
  {
    if AreDigits(CharValues(digits)) { LuhnMeetsStandard(CharValues(digits), |digits|); }
    var s, alt := 0, false;
    var i := |digits|;
    assert digits[..|digits|] == digits;
    while i > 0
      invariant 0 <= i <= |digits|
      invariant s + LuhnSum(CharValues(digits[..i]), alt) == LuhnSum(CharValues(digits), false)
    {
      i := i - 1;
      var n := digits[i] as int - '0' as int;
      assert CharValues(digits[..i + 1])[i] == n && CharValues(digits[..i + 1])[..i] == CharValues(digits[..i]);
      if alt {
        n := n * 2;
        if n > 9 { n := n - 9; }
      }
      s := s + n;
      alt := !alt;
    }
    ok := s % 10 == 0;
  }

  predicate AreDigits(ds: seq<int>) { forall i :: 0 <= i < |ds| ==> 0 <= ds[i] <= 9 }

  /** The weight of a place counted from the right, the last one being place 1. */
  function Weight(place: nat): int { if place % 2 == 0 then 2 else 1 }

  /** The standard's sum: the digits of each digit's product with its weight. The digits are the
      first ones of a number of `n` digits. */
  function StandardSum(ds: seq<int>, n: nat): int
    requires |ds| <= n
  {
    if ds == [] then 0
    else
      var product := ds[|ds| - 1] * Weight(n - |ds| + 1);
      StandardSum(ds[..|ds| - 1], n) + product / 10 + product % 10
  }

  /** The loop computes the standard's sum. */
  lemma {:induction false} LuhnMeetsStandard(ds: seq<int>, n: nat)
    requires AreDigits(ds) && |ds| <= n
    ensures LuhnSum(ds, (n - |ds|) % 2 == 1) == StandardSum(ds, n)
  {
    if ds != [] { LuhnMeetsStandard(ds[..|ds| - 1], n); }
  }

  /** Exactly one check digit makes a number valid: what the standard's sum of the digits before it lacks
      to the next multiple of ten. */
  lemma LuhnCheckDigit(ds: seq<int>, c: int, sum: int)
    requires AreDigits(ds) && 0 <= c <= 9 && sum == StandardSum(ds, |ds| + 1)
    ensures LuhnValid(ds + [c]) <==> c == (10 - sum % 10) % 10
  {
    LuhnSumSnoc(ds, c);
    LuhnMeetsStandard(ds, |ds| + 1);
    LacksToTen(sum, c);
  }

  lemma LuhnSumSnoc(ds: seq<int>, c: int)
    ensures LuhnSum(ds + [c], false) == c + LuhnSum(ds, true)
  {
    assert (ds + [c])[..|ds|] == ds;
  }

  lemma LacksToTen(s: int, c: int)
    requires 0 <= c <= 9
    ensures (c + s) % 10 == 0 <==> c == (10 - s % 10) % 10
  {}

  /** Whether the digit at `i` is doubled, when `last` tells it of the last one. */
  predicate Doubled(n: nat, i: nat, last: bool)
    requires i < n
  {
    last == ((n - i) % 2 == 1)
  }

  lemma {:induction false} ChangedSum(ds: seq<int>, last: bool, i: nat, e: int)
    requires i < |ds|
    ensures LuhnSum(ds[i := e], last)
      == LuhnSum(ds, last) - Share(ds[i], Doubled(|ds|, i, last)) + Share(e, Doubled(|ds|, i, last))
  {
    var init := ds[..|ds| - 1];
    if i == |ds| - 1 {
      assert ds[i := e][..i] == init;
    } else {
      assert ds[i := e][..|ds| - 1] == init[i := e];
      ChangedSum(init, !last, i, e);
    }
  }

  lemma ShareInjective(d: int, e: int, doubled: bool)
    requires 0 <= d <= 9 && 0 <= e <= 9 && d != e
    ensures (Share(e, doubled) - Share(d, doubled)) % 10 != 0
  {}

  lemma SumChanges(s: int, change: int)
    requires s % 10 == 0
    ensures (s + change) % 10 == 0 <==> change % 10 == 0
  {}

  /** Changing one digit of a valid number makes it invalid. */
  lemma LuhnCatchesOneDigit(ds: seq<int>, i: nat, e: int)
    requires AreDigits(ds) && LuhnValid(ds) && i < |ds| && 0 <= e <= 9 && e != ds[i]
    ensures !LuhnValid(ds[i := e])
  {
    var doubled := Doubled(|ds|, i, false);
    ChangedSum(ds, false, i, e);
    ShareInjective(ds[i], e, doubled);
    SumChanges(LuhnSum(ds, false), Share(e, doubled) - Share(ds[i], doubled));
  }

  function Swapped<T>(ds: seq<T>, i: nat): seq<T>
    requires i + 1 < |ds|
  {
    ds[i := ds[i + 1]][i + 1 := ds[i]]
  }

  /** What doubling adds to a digit. */
  function Added(d: int): int { Share(d, true) - d }

  lemma TwoShares(a: int, b: int, x: bool)
    ensures -Share(a, x) + Share(b, x) - Share(b, !x) + Share(a, !x)
         == if x then Added(b) - Added(a) else Added(a) - Added(b)
  {}

  lemma NextIsNotDoubled(n: nat, i: nat)
    requires i + 1 < n
    ensures Doubled(n, i + 1, false) == !Doubled(n, i, false)
  {}

  /** Two changes, one after the other. */
  lemma ChangedTwice(ds: seq<int>, i: nat, e: int, j: nat, f: int)
    requires i < |ds| && j < |ds| && i != j
    ensures LuhnSum(ds[i := e][j := f], false) == LuhnSum(ds, false)
      - Share(ds[i], Doubled(|ds|, i, false)) + Share(e, Doubled(|ds|, i, false))
      - Share(ds[j], Doubled(|ds|, j, false)) + Share(f, Doubled(|ds|, j, false))
  {
    ChangedSum(ds, false, i, e);
    ChangedSum(ds[i := e], false, j, f);
  }

  lemma SwappedSum(ds: seq<int>, i: nat)
    requires i + 1 < |ds|
    ensures var change := Added(ds[i + 1]) - Added(ds[i]);
      LuhnSum(Swapped(ds, i), false) == LuhnSum(ds, false) + (if Doubled(|ds|, i, false) then change else -change)
  {
    ChangedTwice(ds, i, ds[i + 1], i + 1, ds[i]);
    NextIsNotDoubled(|ds|, i);
    TwoShares(ds[i], ds[i + 1], Doubled(|ds|, i, false));
  }

  lemma AddedAlike(a: int, b: int)
    requires 0 <= a <= 9 && 0 <= b <= 9
    ensures (Added(b) - Added(a)) % 10 == 0 <==> a == b || (a == 0 && b == 9) || (a == 9 && b == 0)
    ensures (Added(b) - Added(a)) % 10 == 0 <==> (-(Added(b) - Added(a))) % 10 == 0
  {
    assert Added(a) == if a <= 4 then a else a - 9;
    assert Added(b) == if b <= 4 then b else b - 9;
  }

  /** Swapping two neighbouring digits of a valid number goes unnoticed if and only if they are
      equal or are 0 and 9. */
  lemma LuhnAndSwaps(ds: seq<int>, i: nat)
    requires AreDigits(ds) && LuhnValid(ds) && i + 1 < |ds|
    ensures LuhnValid(Swapped(ds, i))
      <==> ds[i] == ds[i + 1] || (ds[i] == 0 && ds[i + 1] == 9) || (ds[i] == 9 && ds[i + 1] == 0)
  {
    var change := Added(ds[i + 1]) - Added(ds[i]);
    SwappedSum(ds, i);
    AddedAlike(ds[i], ds[i + 1]);
    SumChanges(LuhnSum(ds, false), change);
    SumChanges(LuhnSum(ds, false), -change);
  }

  // ------------------------------------------------------------------ IBAN

  predicate IsLetter(c: char) { 'a' <= c <= 'z' || 'A' <= c <= 'Z' }

  /** The text without spaces, in upper case. */
  function Compact(s: string): string {
    if s == "" then "" else (if s[0] == ' ' then "" else [UpperChar(s[0])]) + Compact(s[1..])
  }

  /** Country code and check digits moved to the end. */
  function Rearranged(s: string): string
    requires |s| >= 4
  {
    s[4..] + s[..4]
  }

  /** A letter counts as two digits, A being 10. */
  function Expanded(c: char): seq<int> {
    if IsLetter(c) then [(c as int - 55) / 10, (c as int - 55) % 10] else [c as int - '0' as int]
  }

  function Converted(s: string): seq<int> {
    if s == "" then [] else Expanded(s[0]) + Converted(s[1..])
  }

  /** The number that digits spell, after `n`. */
  function Number(ds: seq<int>, n: int): int {
    if ds == [] then n else Number(ds[..|ds| - 1], n) * 10 + ds[|ds| - 1]
  }

  datatype Verdict = Valid | Invalid | NotANumber

  predicate Alphanumeric(s: string) { forall c :: c in s ==> IsDigit(c) || IsLetter(c) }

  /** Validity by the standard: the rearranged, converted text as one big number is 1 modulo 97. */
  function IbanVerdict(iban: string): Verdict {
    var s := Compact(iban);
    if !(15 <= |s| <= 34) then Invalid
    else if !Alphanumeric(s) then NotANumber
    else if Number(Converted(Rearranged(s)), 0) % 97 == 1 then Valid
    else Invalid
  }

  method IbanOk(iban: string) returns (v: Verdict)
    ensures v == IbanVerdict(iban)
    ensures v == Valid <==>
              && 15 <= |Compact(iban)| <= 34 && Alphanumeric(Compact(iban))
              && Number(Converted(Compact(iban)[4..] + Compact(iban)[..4]), 0) % 97 == 1
    ensures v == NotANumber <==> 15 <= |Compact(iban)| <= 34 && !Alphanumeric(Compact(iban))
  {
    var s := Compact(iban);
    if !(15 <= |s| <= 34) { return Invalid; }
    if !Alphanumeric(s) { return NotANumber; }
    var rem := Remainder(Converted(Rearranged(s)));
    return if rem == 1 then Valid else Invalid;
  }

  /** The loop over the digits, which never holds more than two of them. */
  method Remainder(digits: seq<int>) returns (rem: int)
    ensures rem == Number(digits, 0) % 97
  {
    rem := 0;
    for i := 0 to |digits|
      invariant rem == Number(digits[..i], 0) % 97
    {
      assert digits[..i + 1][..i] == digits[..i];
      StepMod(Number(digits[..i], 0), digits[i]);
      rem := (rem * 10 + digits[i]) % 97;
    }
    assert digits[..|digits|] == digits;
  }

  lemma StepMod(n: int, d: int)
    ensures ((n % 97) * 10 + d) % 97 == (n * 10 + d) % 97
  {
    assert n == 97 * (n / 97) + n % 97;
    assert n * 10 + d == 97 * (10 * (n / 97)) + ((n % 97) * 10 + d);
    AddMultiple((n % 97) * 10 + d, 10 * (n / 97));
  }

  lemma {:induction false} AddMultiple(n: int, k: int)
    ensures (97 * k + n) % 97 == n % 97
    decreases if k < 0 then -k else k
  {
    if k > 0 { AddMultiple(n, k - 1); assert (97 * (k - 1) + n + 97) % 97 == (97 * (k - 1) + n) % 97; }
    if k < 0 { AddMultiple(n, k + 1); assert (97 * (k + 1) + n - 97) % 97 == (97 * (k + 1) + n) % 97; }
  }

  lemma {:induction false} ConvertedSnoc(s: string, c: char)
    ensures Converted(s + [c]) == Converted(s) + Expanded(c)
  {
    if s == "" {
      assert [c][1..] == "" && s + [c] == [c];
    } else {
      ConvertedSnoc(s[1..], c);
      assert (s + [c])[1..] == s[1..] + [c];
    }
  }

  // ------------------------------------------------------------------ what the remainder catches

  function Power(k: nat): int { if k == 0 then 1 else 10 * Power(k - 1) }

  /** 97 divides no power of ten: 10 times 68 is 1 modulo 97. */
  lemma {:induction false} TensCancel(a: int, k: nat)
    requires (a * Power(k)) % 97 == 0
    ensures a % 97 == 0
  {
    if k > 0 {
      var x := a * Power(k - 1);
      assert a * Power(k) == 10 * x;
      assert 68 * (10 * x) == 97 * (7 * x) + x;
      MultipleOf(10 * x, 68);
      AddMultiple(x, 7 * x);
      TensCancel(a, k - 1);
    }
  }

  lemma MultipleOf(n: int, m: int)
    requires n % 97 == 0
    ensures (m * n) % 97 == 0
  {
    assert n == 97 * (n / 97);
    assert m * n == 97 * (m * (n / 97)) + 0;
    AddMultiple(0, m * (n / 97));
  }

  lemma {:induction false} NumberAppend(a: seq<int>, b: seq<int>, n: int)
    ensures Number(a + b, n) == Number(b, Number(a, n))
  {
    if b == [] {
      assert a + b == a;
    } else {
      NumberAppend(a, b[..|b| - 1], n);
      assert (a + b)[..|a + b| - 1] == a + b[..|b| - 1];
    }
  }

  /** Digits after a number shift it. */
  lemma {:induction false} NumberShifts(ds: seq<int>, n: int, delta: int)
    ensures Number(ds, n + delta) == Number(ds, n) + delta * Power(|ds|)
  {
    if ds != [] { NumberShifts(ds[..|ds| - 1], n, delta); }
  }

  lemma {:induction false} ConvertedAppend(s: string, t: string)
    ensures Converted(s + t) == Converted(s) + Converted(t)
  {
    if s == "" {
      assert s + t == t;
    } else {
      ConvertedAppend(s[1..], t);
      assert (s + t)[1..] == s[1..] + t;
      Reassociate(Expanded(s[0]), Converted(s[1..]), Converted(t));
    }
  }

  /** The value a character contributes. */
  function Value(c: char): int { if IsLetter(c) then c as int - 55 else c as int - '0' as int }

  predicate SameClass(c: char, d: char) { (IsDigit(c) && IsDigit(d)) || (IsLetter(c) && IsLetter(d)) }

  /** A number after one more character. */
  function Entered(c: char, n: int): int { if IsLetter(c) then 100 * n + Value(c) else 10 * n + Value(c) }

  lemma ExpandedEnters(c: char, n: int)
    ensures Number(Expanded(c), n) == Entered(c, n)
  {
    var x := Expanded(c);
    if IsLetter(c) {
      assert x[..1] == [x[0]] && x[..1][..0] == [];
      assert Number(x, n) == Number(x[..1], n) * 10 + x[1] && Number(x[..1], n) == n * 10 + x[0];
    } else {
      assert x[..0] == [];
    }
  }

  /** A counts as 10 and Z as 35; digits count as themselves. */
  lemma CharactersCount(c: char)
    ensures 'A' <= c <= 'Z' ==> Number(Converted([c]), 0) == 10 + (c as int - 'A' as int)
    ensures '0' <= c <= '9' ==> Number(Converted([c]), 0) == c as int - '0' as int
  {
    ConvertedSnoc("", c);
    assert "" + [c] == [c] && Converted("") + Expanded(c) == Expanded(c);
    ExpandedEnters(c, 0);
  }

  lemma NumberOfThree(before: string, c: char, after: string)
    ensures Number(Converted(before + [c] + after), 0)
      == Number(Converted(after), Entered(c, Number(Converted(before), 0)))
  {
    ConvertedAppend(before + [c], after);
    ConvertedSnoc(before, c);
    NumberAppend(Converted(before) + Expanded(c), Converted(after), 0);
    NumberAppend(Converted(before), Expanded(c), 0);
    ExpandedEnters(c, Number(Converted(before), 0));
  }

  /** Replacing a character by one of its class moves the number by a multiple of a power of ten. */
  lemma ReplacedNumber(before: string, c: char, d: char, after: string)
    requires SameClass(c, d)
    ensures Number(Converted(before + [d] + after), 0) - Number(Converted(before + [c] + after), 0)
      == (Value(d) - Value(c)) * Power(|Converted(after)|)
  {
    var n := Number(Converted(before), 0);
    NumberOfThree(before, c, after);
    NumberOfThree(before, d, after);
    EnteredShifts(Converted(after), c, d, n);
  }

  lemma EnteredShifts(ds: seq<int>, c: char, d: char, n: int)
    requires SameClass(c, d)
    ensures Number(ds, Entered(d, n)) - Number(ds, Entered(c, n)) == (Value(d) - Value(c)) * Power(|ds|)
  {
    var delta := Value(d) - Value(c);
    assert Entered(d, n) == Entered(c, n) + delta;
    NumberShifts(ds, Entered(c, n), delta);
  }

  /** The remainder tells two numbers apart that differ in one character of a class. */
  lemma ReplacedRemainder(before: string, c: char, d: char, after: string)
    requires SameClass(c, d) && -97 < Value(d) - Value(c) < 97 && Value(d) != Value(c)
    ensures Number(Converted(before + [d] + after), 0) % 97 != Number(Converted(before + [c] + after), 0) % 97
  {
    ReplacedNumber(before, c, d, after);
    var m, n := Number(Converted(before + [c] + after), 0), Number(Converted(before + [d] + after), 0);
    if m % 97 == n % 97 {
      SameRemainder(m, n);
      TensCancel(Value(d) - Value(c), |Converted(after)|);
    }
  }

  lemma SameRemainder(m: int, n: int)
    requires m % 97 == n % 97
    ensures (n - m) % 97 == 0
  {}

  lemma {:induction false} CompactAppend(s: string, t: string)
    ensures Compact(s + t) == Compact(s) + Compact(t)
  {
    if s == "" {
      assert s + t == t;
    } else {
      var head := if s[0] == ' ' then "" else [UpperChar(s[0])];
      CompactAppend(s[1..], t);
      assert (s + t)[1..] == s[1..] + t;
      Reassociate(head, Compact(s[1..]), Compact(t));
    }
  }

  lemma CompactThree(a: string, c: char, b: string)
    requires c != ' '
    ensures Compact(a + [c] + b) == Compact(a) + [UpperChar(c)] + Compact(b)
  {
    assert a + [c] + b == a + ([c] + b);
    CompactAppend(a, [c] + b);
    CompactCons(c, b);
    Reassociate(Compact(a), [UpperChar(c)], Compact(b));
  }


  lemma CompactCons(c: char, t: string)
    requires c != ' '
    ensures Compact([c] + t) == [UpperChar(c)] + Compact(t)
  {
    assert ([c] + t)[1..] == t;
  }

  /** What comes before and after a character once the first four are moved to the end. */
  function Around(p: string, q: string): (string, string)
    requires |p| + 1 + |q| >= 4
  {
    if |p| >= 4 then (p[4..], q + p[..4]) else (q[3 - |p|..] + p, q[..3 - |p|])
  }

  lemma RearrangedAround(p: string, c: char, q: string)
    requires |p| + 1 + |q| >= 4
    ensures Rearranged(p + [c] + q) == Around(p, q).0 + [c] + Around(p, q).1
  {
    var s := p + [c] + q;
    if |p| >= 4 {
      assert s[4..] == p[4..] + [c] + q && s[..4] == p[..4];
    } else {
      assert s[4..] == q[3 - |p|..] && s[..4] == p + [c] + q[..3 - |p|];
    }
  }

  lemma ReplacedVerdict(p: string, c: char, d: char, q: string)
    requires IbanVerdict(p + [c] + q) == Valid
    requires SameClass(c, d) && UpperChar(d) != UpperChar(c)
    ensures IbanVerdict(p + [d] + q) == Invalid
  {
    var r, t := Compact(p), Compact(q);
    CompactThree(p, c, q);
    CompactThree(p, d, q);
    StillAlphanumeric(r, UpperChar(c), UpperChar(d), t);
    var (before, after) := Around(r, t);
    RearrangedAround(r, UpperChar(c), t);
    RearrangedAround(r, UpperChar(d), t);
    ReplacedRemainder(before, UpperChar(c), UpperChar(d), after);
  }

  /** Replacing one digit by another digit, or one letter by another letter, anywhere in a valid
      IBAN makes it invalid. */
  lemma IbanCatchesOneCharacter(iban: string, i: nat, d: char)
    requires IbanVerdict(iban) == Valid
    requires i < |iban| && SameClass(iban[i], d) && UpperChar(d) != UpperChar(iban[i])
    ensures IbanVerdict(iban[i := d]) == Invalid
  {
    assert iban == iban[..i] + [iban[i]] + iban[i + 1..];
    assert iban[i := d] == iban[..i] + [d] + iban[i + 1..];
    ReplacedVerdict(iban[..i], iban[i], d, iban[i + 1..]);
  }

  lemma StillAlphanumeric(p: string, c: char, e: char, q: string)
    requires Alphanumeric(p + [c] + q) && (IsDigit(e) || IsLetter(e))
    ensures Alphanumeric(p + [e] + q)
  {
    forall x | x in p + [e] + q ensures IsDigit(x) || IsLetter(x) {
      if x != e { assert x in p + [c] + q; }
    }
  }

  // ------------------------------------------------------------------ check digits

  function Digit(c: char): int { c as int - '0' as int }

  /** Two digits at the end of a text. */
  lemma TwoDigitsEnter(s: string, t: char, u: char)
    requires IsDigit(t) && IsDigit(u)
    ensures Number(Converted(s + [t] + [u]), 0) == 100 * Number(Converted(s), 0) + 10 * Digit(t) + Digit(u)
  {
    ConvertedSnoc(s, t);
    ConvertedSnoc(s + [t], u);
    NumberAppend(Converted(s), Expanded(t), 0);
    NumberAppend(Converted(s + [t]), Expanded(u), 0);
    ExpandedEnters(t, Number(Converted(s), 0));
    ExpandedEnters(u, Number(Converted(s + [t]), 0));
  }

  lemma CompactDigits(s: string, t: char, u: char)
    requires Compact(s) == s && IsDigit(t) && IsDigit(u)
    ensures Compact(s + [t] + [u]) == s + [t] + [u]
  {
    CompactThree(s, t, "");
    CompactThree(s + [t], u, "");
    assert s + [t] + "" == s + [t] && s + [t] + [u] + "" == s + [t] + [u];
  }

  /** An IBAN with the check digits `t` and `u`. */
  function Issued(country: string, t: char, u: char, account: string): string {
    country + [t] + [u] + account
  }

  lemma IssuedText(country: string, t: char, u: char, account: string)
    requires Compact(country) == country && Compact(account) == account && Alphanumeric(country + account)
    requires IsDigit(t) && IsDigit(u)
    ensures Compact(Issued(country, t, u, account)) == Issued(country, t, u, account)
    ensures Alphanumeric(Issued(country, t, u, account))
  {
    CompactDigits(country, t, u);
    CompactAppend(country + [t] + [u], account);
    forall c | c in Issued(country, t, u, account) ensures IsDigit(c) || IsLetter(c) {
      if c != t && c != u { assert c in country + account; }
    }
  }

  lemma IssuedRearranged(country: string, t: char, u: char, account: string, s: string)
    requires |country| == 2 && s == Issued(country, t, u, account)
    ensures |s| >= 4 && Rearranged(s) == account + country + [t] + [u]
  {
    assert s[4..] == account && s[..4] == country + [t] + [u];
  }

  lemma VerdictIs(s: string, n: int)
    requires 15 <= |s| <= 34 && Compact(s) == s && Alphanumeric(s) && Number(Converted(Rearranged(s)), 0) == n
    ensures IbanVerdict(s) == Valid <==> n % 97 == 1
  {}

  lemma IssuedNumber(country: string, account: string, t: char, u: char, sum: int)
    requires |country| == 2 && IsDigit(t) && IsDigit(u)
    requires sum == Number(Converted(account + country + ['0'] + ['0']), 0) + (10 * Digit(t) + Digit(u))
    ensures |Issued(country, t, u, account)| >= 4
    ensures Number(Converted(Rearranged(Issued(country, t, u, account))), 0) == sum
  {
    IssuedRearranged(country, t, u, account, Issued(country, t, u, account));
    TwoDigitsEnter(account + country, t, u);
    TwoDigitsEnter(account + country, '0', '0');
  }

  /** Issuing an IBAN: check digits make a country code and an account number valid if and only if, added
      to the number that has zeros in their place, they leave 1 modulo 97. */
  lemma CheckDigitsIff(country: string, account: string, t: char, u: char, sum: int)
    requires |country| == 2 && 11 <= |account| <= 30 && IsDigit(t) && IsDigit(u)
    requires Compact(country) == country && Compact(account) == account && Alphanumeric(country + account)
    requires sum == Number(Converted(account + country + ['0'] + ['0']), 0) + (10 * Digit(t) + Digit(u))
    ensures IbanVerdict(Issued(country, t, u, account)) == Valid <==> sum % 97 == 1
  {
    IssuedText(country, t, u, account);
    IssuedNumber(country, account, t, u, sum);
    VerdictIs(Issued(country, t, u, account), sum);
  }

  /** The check digits of the standard, 98 less the remainder of that number, always do. */
  lemma CheckDigitsExist(country: string, account: string, t: char, u: char, n: int)
    requires |country| == 2 && 11 <= |account| <= 30 && IsDigit(t) && IsDigit(u)
    requires Compact(country) == country && Compact(account) == account && Alphanumeric(country + account)
    requires n == Number(Converted(account + country + ['0'] + ['0']), 0)
    requires 10 * Digit(t) + Digit(u) == 98 - n % 97
    ensures IbanVerdict(Issued(country, t, u, account)) == Valid
  {
    var sum := n + (10 * Digit(t) + Digit(u));
    Complement(n, 10 * Digit(t) + Digit(u), sum);
    CheckDigitsIff(country, account, t, u, sum);
  }

  lemma Complement(n: int, d: int, sum: int)
    requires d == 98 - n % 97 && sum == n + d
    ensures sum % 97 == 1
  {
    AddMultiple(98, n / 97);
    assert n + d == 97 * (n / 97) + 98;
  }
}
