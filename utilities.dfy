/** The name, path and list helpers shared by every generator version
    (`utilities.py`, `util.py`), and the `ColorSpace` record they define. */
module Utilities {
  import opened Py
  import opened PyStr
  import opened Sorting

  // ---------------------------------------------------------------------
  // The ColorSpace record
  // ---------------------------------------------------------------------

  datatype BitDepth = UInt8 | UInt10 | UInt12 | UInt14 | UInt16 | UInt32 | F16 | F32
  datatype Allocation = Uniform | Lg2

  /** A value in a transform description dictionary. */
  datatype Value = Str(s: string) | Real(x: real) | Reals(xs: seq<real>)

  /** A transform description: `{'type': 'lutFile', 'path': ..., ...}`. */
  type Desc = map<string, Value>

  /** The ColorSpace container of `utilities.py`. Fields a version does not
      have are left at their empty value by that version's constructor. */
  datatype ColorSpace = ColorSpace(
    name: string,
    aliases: seq<string>,
    description: Option<string>,
    bitDepth: BitDepth,
    equalityGroup: Option<string>,
    family: Option<string>,
    isData: bool,
    toReference: seq<Desc>,
    fromReference: seq<Desc>,
    allocation: Allocation,
    allocationVars: seq<real>,
    acesTransformId: Option<string>)

  /** `ColorSpace(...)` of the 1.0.1 to 1.2 generators: a `None` alias list or
      transform list becomes an empty list, `None` allocation variables become
      `[0, 1]`, and every other argument is stored as given. */
  function NewColorSpace(
    name: string, aliases: Option<seq<string>>, description: Option<string>,
    bitDepth: BitDepth, equalityGroup: Option<string>, family: Option<string>,
    isData: bool, toReference: Option<seq<Desc>>, fromReference: Option<seq<Desc>>,
    allocation: Allocation, allocationVars: Option<seq<real>>,
    acesTransformId: Option<string>): (cs: ColorSpace)
    ensures cs.name == name && cs.description == description && cs.bitDepth == bitDepth
    ensures cs.equalityGroup == equalityGroup && cs.family == family && cs.isData == isData
    ensures cs.allocation == allocation && cs.acesTransformId == acesTransformId
    ensures aliases.Some? ==> cs.aliases == aliases.value
    ensures aliases.None? ==> cs.aliases == []
    ensures toReference.Some? ==> cs.toReference == toReference.value
    ensures toReference.None? ==> cs.toReference == []
    ensures fromReference.Some? ==> cs.fromReference == fromReference.value
    ensures fromReference.None? ==> cs.fromReference == []
    ensures allocationVars.Some? ==> cs.allocationVars == allocationVars.value
    ensures allocationVars.None? ==> cs.allocationVars == [0.0, 1.0]
  {
    ColorSpace(name,
      if aliases.None? then [] else aliases.value,
      description, bitDepth, equalityGroup, family, isData,
      if toReference.None? then [] else toReference.value,
      if fromReference.None? then [] else fromReference.value,
      allocation,
      if allocationVars.None? then [0.0, 1.0] else allocationVars.value,
      acesTransformId)
  }

  /** `ColorSpace(...)` of the 1.0.0 `utilities.py`: the aliases argument is
      accepted and dropped, so every new colourspace starts with no aliases;
      there is no transform ID. */
  function NewColorSpaceV100(
    name: string, aliases: seq<string>, description: Option<string>,
    bitDepth: BitDepth, equalityGroup: Option<string>, family: Option<string>,
    isData: bool, toReference: seq<Desc>, fromReference: seq<Desc>,
    allocation: Allocation, allocationVars: seq<real>): (cs: ColorSpace)
    ensures cs.aliases == []
    ensures cs.acesTransformId == None
    ensures cs.name == name && cs.description == description && cs.bitDepth == bitDepth
    ensures cs.equalityGroup == equalityGroup && cs.family == family && cs.isData == isData
    ensures cs.toReference == toReference && cs.fromReference == fromReference
    ensures cs.allocation == allocation && cs.allocationVars == allocationVars
  {
    ColorSpace(name, [], description, bitDepth, equalityGroup, family, isData,
      toReference, fromReference, allocation, allocationVars, None)
  }

  /** `ColorSpace(name)` of the 1.0.1 to 1.2 generators with every keyword
      left at its default. */
  function DefaultColorSpace(name: string): (cs: ColorSpace)
    ensures cs.name == name && cs.aliases == [] && cs.description == None
    ensures cs.bitDepth == F32 && cs.equalityGroup == Some("") && cs.family == None
    ensures !cs.isData && cs.toReference == [] && cs.fromReference == []
    ensures cs.allocation == Uniform && cs.allocationVars == [0.0, 1.0]
    ensures cs.acesTransformId == None
  {
    NewColorSpace(name, None, None, F32, Some(""), None, false, None, None, Uniform, None, None)
  }

  /** `ColorSpace(name)` of the 1.0.0 `utilities.py` with every keyword left
      at its default; unlike the later versions the equality group is
      `None`. */
  function DefaultColorSpaceV100(name: string): (cs: ColorSpace)
    ensures cs.name == name && cs.aliases == [] && cs.description == None
    ensures cs.bitDepth == F32 && cs.equalityGroup == None && cs.family == None
    ensures !cs.isData && cs.toReference == [] && cs.fromReference == []
    ensures cs.allocation == Uniform && cs.allocationVars == [0.0, 1.0]
    ensures cs.acesTransformId == None
  {
    NewColorSpaceV100(name, [], None, F32, None, None, false, [], [], Uniform, [0.0, 1.0])
  }

  /** The two package generations differ in their default equality group
      only. */
  lemma DefaultsDifferInEqualityGroup(name: string)
    ensures DefaultColorSpace(name) != DefaultColorSpaceV100(name)
    ensures DefaultColorSpace(name).(equalityGroup := None) == DefaultColorSpaceV100(name)
  {
  }

  /** The camelCase ColorSpace container of the two `util.py` files. */
  datatype LegacyColorSpace = LegacyColorSpace(
    name: string,
    description: Option<string>,
    bitDepth: BitDepth,
    equalityGroup: Option<string>,
    family: Option<string>,
    isData: bool,
    toReferenceTransforms: seq<Desc>,
    fromReferenceTransforms: seq<Desc>,
    allocationType: Allocation,
    allocationVars: seq<real>)

  /** `ColorSpace(name)` of `util.py` with every keyword left at its default. */
  function DefaultLegacyColorSpace(name: string): (cs: LegacyColorSpace)
    ensures cs.name == name && cs.description == None && cs.family == None
    ensures cs.bitDepth == F32 && cs.equalityGroup == None
    ensures !cs.isData && cs.allocationType == Uniform && cs.allocationVars == [0.0, 1.0]
    ensures cs.toReferenceTransforms == [] && cs.fromReferenceTransforms == []
  {
    LegacyColorSpace(name, None, F32, None, None, false, [], [], Uniform, [0.0, 1.0])
  }

  // ---------------------------------------------------------------------
  // mat44_from_mat33
  // ---------------------------------------------------------------------

  /** `mat44_from_mat33(m)`: the 3x3 matrix (row-major, 9 entries) embedded as
      the upper-left block of a 4x4 matrix; fewer than 9 entries raise
      IndexError, entries past the ninth are ignored. */
  function Mat44FromMat33(m: seq<real>): (r: Result<seq<real>>)
    ensures r.Ok? <==> |m| >= 9
    ensures r.Ok? ==> |r.value| == 16
    ensures r.Ok? ==> r.value[0..4] == m[0..3] + [0.0]
    ensures r.Ok? ==> r.value[4..8] == m[3..6] + [0.0]
    ensures r.Ok? ==> r.value[8..12] == m[6..9] + [0.0]
    ensures r.Ok? ==> r.value[12..16] == [0.0, 0.0, 0.0, 1.0]
  {
    if |m| < 9 then Err(IndexError)
    else Ok([m[0], m[1], m[2], 0.0, m[3], m[4], m[5], 0.0,
             m[6], m[7], m[8], 0.0, 0.0, 0.0, 0.0, 1.0])
  }

  /** A row-major 3x3 matrix applied to the column (x, y, z). */
  function Apply33(m: seq<real>, x: real, y: real, z: real): seq<real>
    requires |m| >= 9
  {
    [m[0] * x + m[1] * y + m[2] * z,
     m[3] * x + m[4] * y + m[5] * z,
     m[6] * x + m[7] * y + m[8] * z]
  }

  /** A row-major 4x4 matrix applied to the column (x, y, z, w). */
  function Apply44(m: seq<real>, x: real, y: real, z: real, w: real): seq<real>
    requires |m| >= 16
  {
    [m[0] * x + m[1] * y + m[2] * z + m[3] * w,
     m[4] * x + m[5] * y + m[6] * z + m[7] * w,
     m[8] * x + m[9] * y + m[10] * z + m[11] * w,
     m[12] * x + m[13] * y + m[14] * z + m[15] * w]
  }

  /** The embedding is the one homogeneous coordinates need: the 4x4 matrix
      applied to (x, y, z, 1) is the 3x3 matrix applied to (x, y, z), with 1
      as the fourth coordinate. */
  lemma Mat44ActsAsMat33(m: seq<real>, x: real, y: real, z: real)
    requires |m| >= 9
    ensures Apply44(Mat44FromMat33(m).value, x, y, z, 1.0) == Apply33(m, x, y, z) + [1.0]
  {
    var r := Mat44FromMat33(m).value;
    assert r == [m[0], m[1], m[2], 0.0, m[3], m[4], m[5], 0.0,
                 m[6], m[7], m[8], 0.0, 0.0, 0.0, 0.0, 1.0];
    var lhs := Apply44(r, x, y, z, 1.0);
    var rhs := Apply33(m, x, y, z) + [1.0];
    assert lhs[0] == rhs[0] && lhs[1] == rhs[1] && lhs[2] == rhs[2] && lhs[3] == rhs[3];
  }

  // ---------------------------------------------------------------------
  // filter_words
  // ---------------------------------------------------------------------

  /** Some filter pattern matches the word (`re.search` is the abstract
      predicate `search`). */
  predicate AnyMatch(filters: seq<string>, word: string, search: (string, string) -> bool)
  {
    exists k :: 0 <= k < |filters| && search(filters[k], word)
  }

  /** The rule of `filter_words` for one word: with include filters, one
      must match; with exclude filters, none may match. */
  predicate Kept(word: string, filtersIn: seq<string>, filtersOut: seq<string>,
                 search: (string, string) -> bool)
  {
    (filtersIn == [] || AnyMatch(filtersIn, word, search))
    && (filtersOut == [] || !AnyMatch(filtersOut, word, search))
  }

  /** The words that pass the rule, in their original order. */
  function Filtered(words: seq<string>, filtersIn: seq<string>, filtersOut: seq<string>,
                    search: (string, string) -> bool): seq<string>
    decreases |words|
  {
    if words == [] then []
    else
      var last := words[|words| - 1];
      Filtered(words[..|words| - 1], filtersIn, filtersOut, search)
        + (if Kept(last, filtersIn, filtersOut, search) then [last] else [])
  }

  /** The inner `for filter in filters: if re.search(...): break` loop. */
  method SearchAny(filters: seq<string>, word: string, search: (string, string) -> bool)
    returns (matched: bool)
    ensures matched == AnyMatch(filters, word, search)
  {
    matched := false;
    var k := 0;
    while k < |filters|
      invariant 0 <= k <= |filters|
      invariant !(exists j :: 0 <= j < k && search(filters[j], word))
    {
      if search(filters[k], word) {
        matched := true;
        return;
      }
      k := k + 1;
    }
  }

  /** `filter_words(words, filters_in, filters_out)`; `None` filters are the
      empty list, which Python treats the same way. */
  method FilterWords(words: seq<string>, filtersIn: seq<string>, filtersOut: seq<string>,
                     search: (string, string) -> bool)
    returns (filteredWords: seq<string>)
    ensures filteredWords == Filtered(words, filtersIn, filtersOut, search)
  {
    filteredWords := [];
    for i := 0 to |words|
      invariant filteredWords == Filtered(words[..i], filtersIn, filtersOut, search)
    {
      var word := words[i];
      assert words[..i + 1][..i] == words[..i];
      if filtersIn != [] {
        var matched := SearchAny(filtersIn, word, search);
        if !matched {
          continue;
        }
      }
      if filtersOut != [] {
        var matched := SearchAny(filtersOut, word, search);
        if matched {
          continue;
        }
      }
      filteredWords := filteredWords + [word];
    }
    assert words[..|words|] == words;
  }

  /** a is b with some elements left out, the others kept in order. */
  predicate IsSubsequence(a: seq<string>, b: seq<string>)
    decreases |b|
  {
    a == [] ||
    (b != [] &&
     (IsSubsequence(a, b[..|b| - 1]) ||
      (a[|a| - 1] == b[|b| - 1] && IsSubsequence(a[..|a| - 1], b[..|b| - 1]))))
  }

  /** filter_words keeps an order-preserving subsequence of the words, and a
      word is in it exactly when it is one of the words and passes the rule. */
  lemma {:induction false} FilteredIsOrderedSelection(words: seq<string>, filtersIn: seq<string>,
                                                     filtersOut: seq<string>,
                                                     search: (string, string) -> bool)
    ensures IsSubsequence(Filtered(words, filtersIn, filtersOut, search), words)
    ensures forall w ::
      w in Filtered(words, filtersIn, filtersOut, search) <==> w in words && Kept(w, filtersIn, filtersOut, search)
    decreases |words|
  {
    if words != [] {
      var init := words[..|words| - 1];
      var last := words[|words| - 1];
      FilteredIsOrderedSelection(init, filtersIn, filtersOut, search);
      assert words == init + [last];
      var f := Filtered(init, filtersIn, filtersOut, search);
      assert words[..|words| - 1] == init;
      if Kept(last, filtersIn, filtersOut, search) {
        assert Filtered(words, filtersIn, filtersOut, search) == f + [last];
        assert (f + [last])[..|f|] == f;
      } else {
        assert Filtered(words, filtersIn, filtersOut, search) == f;
      }
    }
  }

  /** With no filters every word is kept, in its original order. */
  lemma {:induction false} FilteredWithoutFilters(words: seq<string>, search: (string, string) -> bool)
    ensures Filtered(words, [], [], search) == words
    decreases |words|
  {
    if words != [] {
      var init := words[..|words| - 1];
      var last := words[|words| - 1];
      FilteredWithoutFilters(init, search);
      assert Kept(last, [], [], search);
      assert Filtered(words, [], [], search) == init + [last];
      assert words == init + [last];
    }
  }

  // ---------------------------------------------------------------------
  // replace, sanitize, compact
  // ---------------------------------------------------------------------

  /** The pairs of the mapping, applied first to last, each to the string
      the previous one produced. */
  function ReplaceSeq(s: string, data: seq<(string, string)>): string
    decreases |data|
  {
    if data == [] then s else ReplaceSeq(ReplaceAll(s, data[0].0, data[0].1), data[1..])
  }

  /** `replace(string, data)`: `data` is given in its iteration order. */
  method Replace(s: string, data: seq<(string, string)>) returns (r: string)
    ensures r == ReplaceSeq(s, data)
  {
    r := s;
    var i := 0;
    while i < |data|
      invariant 0 <= i <= |data|
      invariant ReplaceSeq(r, data[i..]) == ReplaceSeq(s, data)
    {
      var (pat, rep) := data[i];
      assert data[i..][1..] == data[i + 1..];
      r := ReplaceAll(r, pat, rep);
      i := i + 1;
    }
  }

  /** Replacing with a + b is replacing with a, then with b. */
  lemma {:induction false} ReplaceSeqAppend(s: string, a: seq<(string, string)>, b: seq<(string, string)>)
    ensures ReplaceSeq(s, a + b) == ReplaceSeq(ReplaceSeq(s, a), b)
    decreases |a|
  {
    if a != [] {
      assert (a + b)[1..] == a[1..] + b;
      ReplaceSeqAppend(ReplaceAll(s, a[0].0, a[0].1), a[1..], b);
    } else {
      assert a + b == b;
    }
  }

  /** One pass of `replace` over a string with a single occurrence of the
      pattern, whose head lacks the pattern's first character and whose tail
      the pass leaves alone, swaps just that occurrence: the shape of each
      pass of the docstring example ('John' to 'Luke' in 'Users are: John
      Doe, ...'). */
  lemma ReplaceSingleOccurrence(head: string, pat: string, tail: string, rep: string)
    requires pat != [] && pat[0] !in head
    requires ReplaceAll(tail, pat, rep) == tail
    ensures ReplaceAll(head + pat + tail, pat, rep) == head + rep + tail
  {
    assert head + pat + tail == head + (pat + tail);
    ReplaceSkipsFree(head, pat + tail, pat, rep);
    ReplaceAtMatch(pat, tail, rep);
  }

  /** Every pair replaces one character by the character c. */
  predicate CharToChar(data: seq<(string, string)>, c: char)
  {
    forall i :: 0 <= i < |data| ==> |data[i].0| == 1 && data[i].1 == [c]
  }

  function Keys(data: seq<(string, string)>): set<char>
    requires forall i :: 0 <= i < |data| ==> |data[i].0| == 1
  {
    set i | 0 <= i < |data| :: data[i].0[0]
  }

  /** Replacing single characters by the same character c is one character
      map, whatever the order of the pairs. */
  lemma {:induction false} ReplaceSeqCharsIsMap(s: string, data: seq<(string, string)>, c: char)
    requires CharToChar(data, c)
    ensures ReplaceSeq(s, data) == MapSet(s, Keys(data), c)
    decreases |data|
  {
    if data == [] {
      assert MapSet(s, {}, c) == s;
    } else {
      var k := data[0].0[0];
      assert data[0].0 == [k];
      ReplaceCharIsMap(s, k, c);
      ReplaceSeqCharsIsMap(MapSet(s, {k}, c), data[1..], c);
      MapSetCompose(s, {k}, Keys(data[1..]), c);
      assert Keys(data) == {k} + Keys(data[1..]) by {
        forall x | x in Keys(data) ensures x in {k} + Keys(data[1..]) {
          var i :| 0 <= i < |data| && data[i].0[0] == x;
          if i > 0 { assert data[1..][i - 1] == data[i]; }
        }
        forall x | x in Keys(data[1..]) ensures x in Keys(data) {
          var i :| 0 <= i < |data[1..]| && data[1..][i].0[0] == x;
          assert data[i + 1] == data[1..][i];
        }
      }
    }
  }

  /** The dictionary `sanitize` passes to `replace`, in its written order. */
  const SanitizeData: seq<(string, string)> := [(" ", "_"), (")", "_"), ("(", "_")]

  const SanitizedChars: set<char> := {' ', ')', '('}

  /** `sanitize(path)`: every space and parenthesis becomes '_', every other
      character stays where it is. */
  function Sanitize(path: string): (r: string)
    ensures |r| == |path|
    ensures forall i {:trigger r[i]} :: 0 <= i < |path| ==> r[i] == if path[i] in SanitizedChars then '_' else path[i]
  {
    ReplaceSeqCharsIsMap(path, SanitizeData, '_');
    assert Keys(SanitizeData) == SanitizedChars by {
      assert SanitizeData[0].0[0] == ' ' && SanitizeData[1].0[0] == ')' && SanitizeData[2].0[0] == '(';
    }
    ReplaceSeq(path, SanitizeData)
  }

  /** Sanitizing twice is sanitizing once, and no space or parenthesis is left. */
  lemma SanitizeIdempotent(path: string)
    ensures Sanitize(Sanitize(path)) == Sanitize(path)
    ensures forall i :: 0 <= i < |Sanitize(path)| ==> Sanitize(path)[i] !in SanitizedChars
  {
  }

  /** A Python 2 dict has no fixed iteration order; any order of sanitize's
      three pairs gives the same result, because '_' is not a key. */
  lemma SanitizeOrderIrrelevant(path: string, data: seq<(string, string)>)
    requires multiset(data) == multiset(SanitizeData)
    ensures ReplaceSeq(path, data) == Sanitize(path)
  {
    PermutedSanitizeData(data);
    ReplaceSeqCharsIsMap(path, data, '_');
  }

  /** Any order of sanitize's pairs still maps exactly its three characters
      to '_'. */
  lemma PermutedSanitizeData(data: seq<(string, string)>)
    requires multiset(data) == multiset(SanitizeData)
    ensures CharToChar(data, '_')
    ensures Keys(data) == SanitizedChars
  {
    forall i | 0 <= i < |data| ensures |data[i].0| == 1 && data[i].1 == "_" {
      assert data[i] in multiset(SanitizeData);
    }
    forall x | x in Keys(data) ensures x in SanitizedChars {
      var i :| 0 <= i < |data| && data[i].0[0] == x;
      assert data[i] in multiset(SanitizeData);
    }
    forall x | x in SanitizedChars ensures x in Keys(data) {
      var p := if x == ' ' then (" ", "_") else if x == ')' then (")", "_") else ("(", "_");
      assert p in multiset(SanitizeData);
      var i :| 0 <= i < |data| && data[i] == p;
      assert data[i].0[0] == x;
    }
  }

  /** The OrderedDict `compact` passes to `replace`, in order. */
  const CompactData: seq<(string, string)> :=
    [(" ", "_"), ("(", "_"), (")", "_"), (".", "_"), ("-", "_"), ("___", "_"), ("__", "_"), ("_", "")]

  const CompactedChars: set<char> := {' ', '(', ')', '.', '-', '_'}

  /** `compact(string)`: the lower-cased string with every space, parenthesis,
      dot, dash and underscore deleted; the last step ('_' to '') erases all
      the underscores the earlier steps produced. */
  function Compact(s: string): (r: string)
    ensures r == FilterOut(Lower(s), CompactedChars)
  {
    CompactSteps(Lower(s));
    ReplaceSeq(Lower(s), CompactData)
  }

  /** The replacement table of `compact` deletes exactly its separators. */
  lemma CompactSteps(t: string)
    ensures ReplaceSeq(t, CompactData) == FilterOut(t, CompactedChars)
  {
    ReplaceSeqAppend(t, CompactData[..5], CompactData[5..]);
    assert CompactData[..5] + CompactData[5..] == CompactData;
    var u := ReplaceSeq(t, CompactData[..5]);
    var keys := {' ', '(', ')', '.', '-'};
    SeparatorsToUnderscore(t);
    UnderscoreRunsDeleted(u);
    FilterOutAfterMap(t, keys, '_');
    assert keys + {'_'} == CompactedChars;
  }

  /** The first five replacements turn every separator but '_' into '_'. */
  lemma SeparatorsToUnderscore(t: string)
    ensures ReplaceSeq(t, CompactData[..5]) == MapSet(t, {' ', '(', ')', '.', '-'}, '_')
  {
    ReplaceSeqCharsIsMap(t, CompactData[..5], '_');
    assert Keys(CompactData[..5]) == {' ', '(', ')', '.', '-'} by {
      assert CompactData[..5][0].0[0] == ' ' && CompactData[..5][1].0[0] == '(';
      assert CompactData[..5][2].0[0] == ')' && CompactData[..5][3].0[0] == '.';
      assert CompactData[..5][4].0[0] == '-';
    }
  }

  /** The last three replacements delete every '_'. */
  lemma UnderscoreRunsDeleted(u: string)
    ensures ReplaceSeq(u, CompactData[5..]) == FilterOut(u, {'_'})
  {
    var v := ReplaceAll(u, "___", "_");
    var w := ReplaceAll(v, "__", "_");
    var data := CompactData[5..];
    assert data == [("___", "_"), ("__", "_"), ("_", "")];
    assert ReplaceSeq(u, data) == ReplaceSeq(v, data[1..]);
    assert ReplaceSeq(v, data[1..]) == ReplaceSeq(w, data[2..]);
    assert ReplaceSeq(w, data[2..]) == ReplaceSeq(ReplaceAll(w, "_", ""), data[3..]);
    ReplaceCharIsDelete(w, '_');
    ReplaceRunThenDelete(v, '_', "__", "_");
    ReplaceRunThenDelete(u, '_', "___", "_");
  }

  /** A compacted string is lower case, has no separator left, and compacting
      it again changes nothing. */
  lemma CompactIdempotent(s: string)
    ensures forall i :: 0 <= i < |Compact(s)| ==> Compact(s)[i] !in CompactedChars
    ensures Lower(Compact(s)) == Compact(s)
    ensures Compact(Compact(s)) == Compact(s)
  {
    var t := Lower(s);
    FilterOutMembers(t, CompactedChars);
    FilterOutLowerCommute(t, CompactedChars);
    FilterOutIdempotent(t, CompactedChars);
  }

  // ---------------------------------------------------------------------
  // colorspace_prefixed_name, unpack_default, cmp, Fit
  // ---------------------------------------------------------------------

  /** `colorspace_prefixed_name(cs)`: the family's '/'-separated parts joined
      by ' - ', then ' - ' and the name; a `None` family has no `replace`. */
  function ColorspacePrefixedName(cs: ColorSpace): (r: Result<string>)
    ensures r.Err? <==> cs.family.None?
    ensures r.Err? ==> r.error == AttributeError("replace")
    ensures r.Ok? ==> r.value == Join(" - ", Split(cs.family.value, '/')) + " - " + cs.name
  {
    if cs.family.None? then Err(AttributeError("replace"))
    else
      ReplaceCharIsSplitJoin(cs.family.value, '/', " - ");
      Ok(ReplaceAll(cs.family.value, "/", " - ") + " - " + cs.name)
  }

  /** A two-level family such as 'Input/Sony' gives 'Input - Sony - <name>'. */
  lemma PrefixedNameTwoLevels(cs: ColorSpace, group: string, vendor: string)
    requires cs.family == Some(group + "/" + vendor)
    requires '/' !in group && '/' !in vendor
    ensures ColorspacePrefixedName(cs) == Ok(group + " - " + vendor + " - " + cs.name)
  {
    ReplaceSkipsFree(vendor, "", "/", " - ");
    ReplaceShortUnchanged("", "/", " - ");
    assert vendor + "" == vendor;
    ReplaceSingleOccurrence(group, "/", vendor, " - ");
  }

  /** `unpack_default(iterable, length, default)`: exactly `length` items,
      the iterable's first ones in order, then `default`; `islice` refuses a
      negative length with ValueError. */
  function UnpackDefault<T>(items: seq<T>, length: int, default: T): (r: Result<seq<T>>)
    ensures r.Err? <==> length < 0
    ensures r.Ok? ==> |r.value| == length
    ensures r.Ok? ==> forall i :: 0 <= i < length ==>
              r.value[i] == if i < |items| then items[i] else default
  {
    if length < 0 then Err(ValueError)
    else if length <= |items| then Ok(items[..length])
    else Ok(items + seq(length - |items|, _ => default))
  }

  /** `cmp(x, y)` on strings, Python 2's three-way comparison. */
  function Cmp(x: string, y: string): (r: int)
    ensures r == 1 <==> LexLess(y, x)
    ensures r == 0 <==> x == y
    ensures r == -1 <==> LexLess(x, y)
    ensures r in {-1, 0, 1}
  {
    LexTotal(x, y);
    LexIrreflexive(x);
    assert LexLess(x, y) ==> !LexLess(y, x) by {
      if LexLess(x, y) { LexAsymmetric(x, y); }
    }
    (if LexLess(y, x) then 1 else 0) - (if LexLess(x, y) then 1 else 0)
  }

  /** Swapping the arguments of cmp negates it. */
  lemma CmpAntisymmetric(x: string, y: string)
    ensures Cmp(x, y) == -Cmp(y, x)
  {
  }

  /** `Fit(value, fromMin, fromMax, toMin, toMax)` of the 1.0.0 generator
      script: the linear map sending fromMin to toMin and fromMax to toMax;
      an empty source range raises ValueError. */
  function Fit(value: real, fromMin: real, fromMax: real, toMin: real, toMax: real): (r: Result<real>)
    ensures r.Err? <==> fromMin == fromMax
    ensures r.Ok? && value == fromMin ==> r.value == toMin
    ensures r.Ok? && value == fromMax ==> r.value == toMax
  {
    if fromMin == fromMax then Err(ValueError)
    else
      assert (fromMax - fromMin) / (fromMax - fromMin) == 1.0;
      Ok((value - fromMin) / (fromMax - fromMin) * (toMax - toMin) + toMin)
  }

  /** Fitting back from the target range undoes a fit. */
  lemma FitRoundTrip(value: real, fromMin: real, fromMax: real, toMin: real, toMax: real)
    requires fromMin != fromMax && toMin != toMax
    ensures Fit(Fit(value, fromMin, fromMax, toMin, toMax).value, toMin, toMax, fromMin, fromMax)
            == Ok(value)
  {
    var d1, d2 := fromMax - fromMin, toMax - toMin;
    var t := (value - fromMin) / d1;
    var y := t * d2 + toMin;
    assert Fit(value, fromMin, fromMax, toMin, toMax).value == y;
    DivideMultiply(value - fromMin, d1);
    DivideMultiply(t, d2);
    assert y - toMin == t * d2;
    assert (y - toMin) / d2 == t;
    assert t * d1 + fromMin == value;
    assert Fit(y, toMin, toMax, fromMin, fromMax).value == value;
  }

  lemma DivideMultiply(x: real, d: real)
    requires d != 0.0
    ensures (x * d) / d == x && (x / d) * d == x
  {
  }
}
