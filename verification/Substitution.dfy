/** Left-to-right substitution of non-overlapping matches: Python's `re.sub` and `str.replace`.

    A pattern gives the length of its match at the start of a text, 0 for no match. */
module Substitution {
  import opened Basics

  function Substitute(pattern: string -> nat, repl: string -> string, s: string): string
    decreases |s|
  {
    if s == "" then ""
    else
      var n := pattern(s);
      if 0 < n <= |s| then repl(s[..n]) + Substitute(pattern, repl, s[n..])
      else [s[0]] + Substitute(pattern, repl, s[1..])
  }

  method SubstituteAll(pattern: string -> nat, repl: string -> string, s: string) returns (out: string)
    ensures out == Substitute(pattern, repl, s)
  {
    out := "";
    var pos := 0;
    while pos < |s|
      invariant 0 <= pos <= |s|
      invariant out + Substitute(pattern, repl, s[pos..]) == Substitute(pattern, repl, s)
    {
      var n := pattern(s[pos..]);
      ghost var before := out;
      ghost var rest := Substitute(pattern, repl, s[pos..]);
      if 0 < n <= |s| - pos {
        out := out + repl(s[pos..][..n]);
        assert s[pos..][n..] == s[pos + n..];
        Reassociate(before, repl(s[pos..][..n]), Substitute(pattern, repl, s[pos + n..]));
        pos := pos + n;
      } else {
        out := out + [s[pos]];
        assert s[pos..][1..] == s[pos + 1..];
        Reassociate(before, [s[pos]], Substitute(pattern, repl, s[pos + 1..]));
        pos := pos + 1;
      }
    }
  }

  lemma FirstIsKept(pattern: string -> nat, repl: string -> string, s: string)
    requires s != "" && !(0 < pattern(s) <= |s|)
    ensures Substitute(pattern, repl, s) == [s[0]] + Substitute(pattern, repl, s[1..])
  {}

  /** Where no match begins, the text is kept. */
  lemma {:induction false} GapIsKept(pattern: string -> nat, repl: string -> string, gap: string, rest: string)
    requires forall i :: 0 <= i < |gap| ==> pattern(gap[i..] + rest) == 0
    ensures Substitute(pattern, repl, gap + rest) == gap + Substitute(pattern, repl, rest)
  {
    if gap == "" {
      assert gap + rest == rest;
    } else {
      var tail := gap[1..];
      assert gap[0..] == gap;
      FirstIsKept(pattern, repl, gap + rest);
      assert (gap + rest)[1..] == tail + rest;
      forall i | 0 <= i < |tail| ensures pattern(tail[i..] + rest) == 0 {
        assert tail[i..] == gap[i + 1..];
      }
      GapIsKept(pattern, repl, tail, rest);
      assert [gap[0]] + (tail + Substitute(pattern, repl, rest)) == gap + Substitute(pattern, repl, rest);
    }
  }

  lemma MatchIsReplaced(pattern: string -> nat, repl: string -> string, word: string, rest: string)
    requires word != "" && pattern(word + rest) == |word|
    ensures Substitute(pattern, repl, word + rest) == repl(word) + Substitute(pattern, repl, rest)
  {
    assert (word + rest)[..|word|] == word && (word + rest)[|word|..] == rest;
  }
}
