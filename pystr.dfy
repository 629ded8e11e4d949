/** The Python 2 `str` operations the configuration scripts rely on, over
    ASCII text: `lower`, `strip`, `in`, `replace`, `split` on one character,
    `join`, and the two slices `s[n:]` and `s[-n:]`. */
module PyStr {

  /** `c.lower()` on an ASCII character. */
  function LowerChar(c: char): char
  {
    if 'A' <= c <= 'Z' then (c as int + 32) as char else c
  }

  /** `s.lower()`. */
  function Lower(s: string): (r: string)
    ensures |r| == |s|
    ensures forall i {:trigger r[i]} :: 0 <= i < |s| ==> r[i] == LowerChar(s[i])
  {
    seq(|s|, i requires 0 <= i < |s| => LowerChar(s[i]))
  }

  /** The characters `str.strip()` removes (ASCII whitespace). */
  predicate IsSpace(c: char)
  {
    c == ' ' || c == '\t' || c == '\n' || c == '\r' || c as int == 11 || c as int == 12
  }

  function LStrip(s: string): (r: string)
    decreases |s|
  {
    if s != [] && IsSpace(s[0]) then LStrip(s[1..]) else s
  }

  function RStrip(s: string): (r: string)
    decreases |s|
  {
    if s != [] && IsSpace(s[|s| - 1]) then RStrip(s[..|s| - 1]) else s
  }

  /** `s.strip()`. */
  function Strip(s: string): string
  {
    RStrip(LStrip(s))
  }

  predicate StartsWith(s: string, prefix: string)
  {
    |prefix| <= |s| && s[..|prefix|] == prefix
  }

  predicate EndsWith(s: string, suffix: string)
  {
    |suffix| <= |s| && s[|s| - |suffix|..] == suffix
  }

  /** Python's `sub in s`; the empty string is in every string. */
  predicate Contains(s: string, sub: string)
    decreases |s|
  {
    StartsWith(s, sub) || (s != [] && Contains(s[1..], sub))
  }

  /** `s[n:]`. */
  function From(s: string, n: nat): (r: string)
  {
    if n <= |s| then s[n..] else []
  }

  /** `s[-n:]` for n > 0: the last n characters, or all of s when it is shorter. */
  function LastN(s: string, n: nat): (r: string)
  {
    if n <= |s| then s[|s| - n..] else s
  }

  /** `s.replace('', rep)`: rep before every character and at the end. */
  function Interleave(s: string, rep: string): string
    decreases |s|
  {
    if s == [] then rep else rep + [s[0]] + Interleave(s[1..], rep)
  }

  /** `s.replace(pat, rep)`: every non-overlapping occurrence of pat, scanned
      from the left, is replaced by rep. */
  function ReplaceAll(s: string, pat: string, rep: string): string
    decreases |s|
  {
    if pat == [] then Interleave(s, rep)
    else if |s| < |pat| then s
    else if s[..|pat|] == pat then rep + ReplaceAll(s[|pat|..], pat, rep)
    else [s[0]] + ReplaceAll(s[1..], pat, rep)
  }

  /** `s.split(c)` for a one-character separator. */
  function Split(s: string, c: char): (r: seq<string>)
    ensures |r| >= 1
    decreases |s|
  {
    if s == [] then [[]]
    else
      var rest := Split(s[1..], c);
      if s[0] == c then [[]] + rest
      else [[s[0]] + rest[0]] + rest[1..]
  }

  /** `sep.join(parts)`. */
  function Join(sep: string, parts: seq<string>): string
    decreases |parts|
  {
    if parts == [] then []
    else if |parts| == 1 then parts[0]
    else parts[0] + sep + Join(sep, parts[1..])
  }

  // ---------------------------------------------------------------------
  // Character maps and filters used to characterise `replace`.
  // ---------------------------------------------------------------------

  /** Every character of s that is in keys replaced by c. */
  function MapSet(s: string, keys: set<char>, c: char): (r: string)
    ensures |r| == |s|
    ensures forall i {:trigger r[i]} :: 0 <= i < |s| ==> r[i] == if s[i] in keys then c else s[i]
  {
    seq(|s|, i requires 0 <= i < |s| => if s[i] in keys then c else s[i])
  }

  /** s with every character of keys deleted. */
  function FilterOut(s: string, keys: set<char>): (r: string)
    decreases |s|
  {
    if s == [] then []
    else (if s[0] in keys then [] else [s[0]]) + FilterOut(s[1..], keys)
  }

  // ---------------------------------------------------------------------
  // Lemmas
  // ---------------------------------------------------------------------

  lemma JoinCons(sep: string, p: string, parts: seq<string>)
    requires |parts| >= 1
    ensures Join(sep, [p] + parts) == p + sep + Join(sep, parts)
  {
    assert ([p] + parts)[1..] == parts;
  }

  /** `c.join(s.split(c)) == s`: splitting loses nothing. */
  lemma {:induction false} JoinSplit(s: string, c: char)
    ensures Join([c], Split(s, c)) == s
    decreases |s|
  {
    if s != [] {
      var rest := Split(s[1..], c);
      JoinSplit(s[1..], c);
      if s[0] == c {
        JoinCons([c], [], rest);
        assert s == [c] + s[1..];
      } else if |rest| == 1 {
        assert Split(s, c) == [[s[0]] + rest[0]];
        assert s == [s[0]] + s[1..];
      } else {
        assert Split(s, c) == [[s[0]] + rest[0]] + rest[1..];
        JoinCons([c], [s[0]] + rest[0], rest[1..]);
        assert [rest[0]] + rest[1..] == rest;
        JoinCons([c], rest[0], rest[1..]);
        assert s == [s[0]] + s[1..];
      }
    }
  }

  /** No piece produced by `split(c)` contains c. */
  lemma {:induction false} SplitPiecesFree(s: string, c: char)
    ensures forall i :: 0 <= i < |Split(s, c)| ==> c !in Split(s, c)[i]
    decreases |s|
  {
    if s != [] {
      SplitPiecesFree(s[1..], c);
    }
  }

  /** `split(c)` yields at least two pieces exactly when c occurs in s. */
  lemma {:induction false} SplitHasTwoPieces(s: string, c: char)
    ensures |Split(s, c)| >= 2 <==> c in s
    decreases |s|
  {
    if s != [] {
      SplitHasTwoPieces(s[1..], c);
      assert c in s <==> s[0] == c || c in s[1..];
    }
  }

  /** A string without c splits into itself alone. */
  lemma SplitWithoutSep(s: string, c: char)
    requires c !in s
    ensures Split(s, c) == [s]
  {
    SplitHasTwoPieces(s, c);
    JoinSplit(s, c);
  }

  /** A separator after a separator-free head starts a rep piece. */
  lemma {:induction false} SplitAfterHead(a: string, c: char, b: string)
    requires c !in a
    ensures Split(a + [c] + b, c) == [a] + Split(b, c)
    decreases |a|
  {
    if a == [] {
      assert a + [c] + b == [c] + b;
      assert ([c] + b)[1..] == b;
    } else {
      SplitAfterHead(a[1..], c, b);
      assert (a + [c] + b)[1..] == a[1..] + [c] + b;
      assert [a[0]] + a[1..] == a;
    }
  }

  /** A separator before a separator-free tail ends the last piece. */
  lemma {:induction false} SplitBeforeTail(m: string, c: char, e: string)
    requires c !in e
    ensures Split(m + [c] + e, c) == Split(m, c) + [e]
    decreases |m|
  {
    if m == [] {
      assert m + [c] + e == [c] + e;
      assert ([c] + e)[1..] == e;
      SplitWithoutSep(e, c);
    } else {
      SplitBeforeTail(m[1..], c, e);
      assert (m + [c] + e)[1..] == m[1..] + [c] + e;
      var r := Split(m[1..], c);
      if m[0] != c {
        assert (r + [e])[0] == r[0];
        assert (r + [e])[1..] == r[1..] + [e];
      }
    }
  }

  lemma {:induction false} FilterOutConcat(a: string, b: string, keys: set<char>)
    ensures FilterOut(a + b, keys) == FilterOut(a, keys) + FilterOut(b, keys)
    decreases |a|
  {
    if a != [] {
      FilterOutConcat(a[1..], b, keys);
      assert (a + b)[1..] == a[1..] + b;
    } else {
      assert a + b == b;
    }
  }

  /** Replacing one character by one character maps it everywhere. */
  lemma {:induction false} ReplaceCharIsMap(s: string, a: char, b: char)
    ensures ReplaceAll(s, [a], [b]) == MapSet(s, {a}, b)
    decreases |s|
  {
    if s != [] {
      ReplaceCharIsMap(s[1..], a, b);
      assert s[..1] == [s[0]];
      assert MapSet(s, {a}, b) == MapSet([s[0]], {a}, b) + MapSet(s[1..], {a}, b);
    }
  }

  /** Replacing one character by nothing deletes it. */
  lemma {:induction false} ReplaceCharIsDelete(s: string, a: char)
    ensures ReplaceAll(s, [a], []) == FilterOut(s, {a})
    decreases |s|
  {
    if s != [] {
      ReplaceCharIsDelete(s[1..], a);
      assert s[..1] == [s[0]];
    }
  }

  /** Replacing one character by a string is splitting on it and joining. */
  lemma {:induction false} ReplaceCharIsSplitJoin(s: string, c: char, rep: string)
    ensures ReplaceAll(s, [c], rep) == Join(rep, Split(s, c))
    decreases |s|
  {
    if s != [] {
      ReplaceCharIsSplitJoin(s[1..], c, rep);
      ReplaceCharStep(s, c, rep);
      if s[0] == c {
        JoinSplitAtSeparator(s, c, rep);
      } else {
        JoinSplitAtOther(s, c, rep);
      }
    }
  }

  /** One character of the input replaced or kept. */
  lemma ReplaceCharStep(s: string, c: char, rep: string)
    requires s != []
    ensures ReplaceAll(s, [c], rep) ==
              (if s[0] == c then rep else [s[0]]) + ReplaceAll(s[1..], [c], rep)
  {
    assert s[..1] == [s[0]];
  }

  lemma JoinSplitAtSeparator(s: string, c: char, rep: string)
    requires s != [] && s[0] == c
    ensures Join(rep, Split(s, c)) == rep + Join(rep, Split(s[1..], c))
  {
    var rest := Split(s[1..], c);
    assert Split(s, c) == [[]] + rest;
    JoinCons(rep, [], rest);
    assert [] + rep + Join(rep, rest) == rep + Join(rep, rest);
  }

  lemma JoinSplitAtOther(s: string, c: char, rep: string)
    requires s != [] && s[0] != c
    ensures Join(rep, Split(s, c)) == [s[0]] + Join(rep, Split(s[1..], c))
  {
    var rest := Split(s[1..], c);
    var head := [s[0]] + rest[0];
    if |rest| == 1 {
      assert Split(s, c) == [head];
    } else {
      var more := Join(rep, rest[1..]);
      assert Split(s, c) == [head] + rest[1..];
      JoinCons(rep, head, rest[1..]);
      assert [rest[0]] + rest[1..] == rest;
      JoinCons(rep, rest[0], rest[1..]);
      assert head + rep + more == [s[0]] + (rest[0] + rep + more);
    }
  }

  lemma ReplaceShortUnchanged(s: string, pat: string, rep: string)
    requires pat != [] && |s| < |pat|
    ensures ReplaceAll(s, pat, rep) == s
  {
  }

  lemma ReplaceStepNoMatch(s: string, pat: string, rep: string)
    requires pat != [] && |s| >= |pat| && s[..|pat|] != pat
    ensures ReplaceAll(s, pat, rep) == [s[0]] + ReplaceAll(s[1..], pat, rep)
  {
  }

  /** A stretch without the pattern's first character is copied unchanged,
      and the scan resumes right after it. */
  lemma {:induction false} ReplaceSkipsFree(a: string, b: string, pat: string, rep: string)
    requires pat != [] && pat[0] !in a
    ensures ReplaceAll(a + b, pat, rep) == a + ReplaceAll(b, pat, rep)
    decreases |a|
  {
    if a == [] {
      assert a + b == b;
    } else {
      assert a == [a[0]] + a[1..];
      ReplaceSkipsFree(a[1..], b, pat, rep);
      ReplaceSkipsFreeStep(a, b, pat, rep);
    }
  }

  /** The inductive step of ReplaceSkipsFree: the first character of the
      stretch is copied, the rest as the hypothesis says. */
  lemma ReplaceSkipsFreeStep(a: string, b: string, pat: string, rep: string)
    requires pat != [] && a != [] && a[0] != pat[0]
    requires ReplaceAll(a[1..] + b, pat, rep) == a[1..] + ReplaceAll(b, pat, rep)
    ensures ReplaceAll(a + b, pat, rep) == a + ReplaceAll(b, pat, rep)
  {
    var s := a + b;
    assert s[0] == a[0] && s[1..] == a[1..] + b;
    ReplaceSkipHead(s, pat, rep);
    assert [a[0]] + (a[1..] + ReplaceAll(b, pat, rep)) == a + ReplaceAll(b, pat, rep);
  }

  /** A first character that cannot start the pattern is copied. */
  lemma ReplaceSkipHead(s: string, pat: string, rep: string)
    requires pat != [] && s != [] && s[0] != pat[0]
    ensures ReplaceAll(s, pat, rep) == [s[0]] + ReplaceAll(s[1..], pat, rep)
  {
    if |s| < |pat| {
      ReplaceShortUnchanged(s, pat, rep);
      ReplaceShortUnchanged(s[1..], pat, rep);
      assert s == [s[0]] + s[1..];
    } else {
      assert s[..|pat|][0] == s[0];
      ReplaceStepNoMatch(s, pat, rep);
    }
  }

  /** An occurrence at the scan position is replaced, and the scan resumes
      after it. */
  lemma ReplaceAtMatch(pat: string, b: string, rep: string)
    requires pat != []
    ensures ReplaceAll(pat + b, pat, rep) == rep + ReplaceAll(b, pat, rep)
  {
    assert (pat + b)[..|pat|] == pat;
    assert (pat + b)[|pat|..] == b;
  }

  predicate AllChar(s: string, c: char)
  {
    forall i :: 0 <= i < |s| ==> s[i] == c
  }

  lemma {:induction false} FilterOutAllChar(s: string, c: char)
    requires AllChar(s, c)
    ensures FilterOut(s, {c}) == []
    decreases |s|
  {
    if s != [] {
      FilterOutAllChar(s[1..], c);
    }
  }

  /** Shortening a run of c into another run of c is invisible once every c
      is deleted: the observation behind `compact`'s final step. */
  lemma {:induction false} ReplaceRunThenDelete(s: string, c: char, pat: string, rep: string)
    requires pat != [] && AllChar(pat, c) && AllChar(rep, c)
    ensures FilterOut(ReplaceAll(s, pat, rep), {c}) == FilterOut(s, {c})
    decreases |s|
  {
    if |s| >= |pat| {
      if s[..|pat|] == pat {
        ReplaceRunThenDelete(s[|pat|..], c, pat, rep);
        FilterOutConcat(rep, ReplaceAll(s[|pat|..], pat, rep), {c});
        FilterOutAllChar(rep, c);
        assert s == pat + s[|pat|..];
        FilterOutConcat(pat, s[|pat|..], {c});
        FilterOutAllChar(pat, c);
      } else {
        ReplaceRunThenDelete(s[1..], c, pat, rep);
        FilterOutConcat([s[0]], ReplaceAll(s[1..], pat, rep), {c});
      }
    }
  }

  lemma MapSetCompose(s: string, k1: set<char>, k2: set<char>, c: char)
    ensures MapSet(MapSet(s, k1, c), k2, c) == MapSet(s, k1 + k2, c)
  {
  }

  /** Deleting c after mapping keys to c deletes keys and c. */
  lemma {:induction false} FilterOutAfterMap(s: string, keys: set<char>, c: char)
    ensures FilterOut(MapSet(s, keys, c), {c}) == FilterOut(s, keys + {c})
    decreases |s|
  {
    if s != [] {
      FilterOutAfterMap(s[1..], keys, c);
      assert MapSet(s, keys, c)[1..] == MapSet(s[1..], keys, c);
    }
  }

  lemma {:induction false} FilterOutMembers(s: string, keys: set<char>)
    ensures forall i :: 0 <= i < |FilterOut(s, keys)| ==> FilterOut(s, keys)[i] !in keys
    ensures forall i :: 0 <= i < |FilterOut(s, keys)| ==> FilterOut(s, keys)[i] in s
    decreases |s|
  {
    if s != [] {
      FilterOutMembers(s[1..], keys);
    }
  }

  lemma {:induction false} FilterOutIdempotent(s: string, keys: set<char>)
    ensures FilterOut(FilterOut(s, keys), keys) == FilterOut(s, keys)
    decreases |s|
  {
    if s != [] {
      FilterOutIdempotent(s[1..], keys);
      FilterOutConcat(if s[0] in keys then [] else [s[0]], FilterOut(s[1..], keys), keys);
    }
  }

  lemma {:induction false} FilterOutLowerCommute(s: string, keys: set<char>)
    requires forall c :: c in keys ==> LowerChar(c) == c
    requires forall i :: 0 <= i < |s| ==> LowerChar(s[i]) == s[i]
    ensures Lower(FilterOut(s, keys)) == FilterOut(s, keys)
  {
    FilterOutMembers(s, keys);
  }

  lemma LowerIdempotent(s: string)
    ensures Lower(Lower(s)) == Lower(s)
  {
  }
}
