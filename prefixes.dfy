/** Family-prefixed colour space names in the 1.0.2 `create_config`: every
    name is replaced by `colorspace_prefixed_name` while the configuration
    is built, the pairs (original, prefixed) are recorded, and after the
    sanity check the names are put back through the inverse dictionary. */
module PrefixedNames {
  import opened Py
  import opened Utilities
  import Dicts
  import opened Data

  /** A dictionary from one name to another, as (key, value) pairs. */
  type NameMap = seq<(string, string)>

  /** The values of a name map are pairwise distinct. */
  predicate DistinctValues(names: NameMap)
  {
    forall i, j :: 0 <= i < j < |names| ==> names[i].1 != names[j].1
  }

  /** `prefixed_names_inverse`: `inverse[prefixed] = original` for each pair
      in iteration order, so a prefixed name shared by several originals
      maps back to the last of them. */
  function InverseOf(names: NameMap): (inv: NameMap)
    ensures Dicts.UniqueKeys(inv)
    ensures forall p :: Dicts.Get(inv, p).Some? <==> exists i :: 0 <= i < |names| && names[i].1 == p
    decreases |names|
  {
    if names == [] then []
    else
      var n := |names| - 1;
      var inv0 := InverseOf(names[..n]);
      InverseOfStep(names, names[..n], inv0);
      Dicts.Set(inv0, names[n].1, names[n].0)
  }

  /** One more pair adds its prefixed name to the inverse's keys. */
  lemma InverseOfStep(names: NameMap, init: NameMap, inv0: NameMap)
    requires names != [] && init == names[..|names| - 1] && Dicts.UniqueKeys(inv0)
    requires forall p :: Dicts.Get(inv0, p).Some? <==> exists i :: 0 <= i < |init| && init[i].1 == p
    ensures var n := |names| - 1;
            var inv := Dicts.Set(inv0, names[n].1, names[n].0);
            Dicts.UniqueKeys(inv) &&
            forall p :: Dicts.Get(inv, p).Some? <==> exists i :: 0 <= i < |names| && names[i].1 == p
  {
    var n := |names| - 1;
    Dicts.SetSpec(inv0, names[n].1, names[n].0);
    var inv := Dicts.Set(inv0, names[n].1, names[n].0);
    forall p ensures Dicts.Get(inv, p).Some? <==> exists i :: 0 <= i < |names| && names[i].1 == p {
      if p != names[n].1 {
        if Dicts.Get(inv, p).Some? {
          var i :| 0 <= i < |names[..n]| && names[..n][i].1 == p;
          assert names[i].1 == p;
        }
        if exists i :: 0 <= i < |names| && names[i].1 == p {
          var i :| 0 <= i < |names| && names[i].1 == p;
          assert i < n && names[..n][i].1 == p;
        }
      }
    }
  }

  /** The dictionary-building loop of the reset. */
  method BuildInverse(names: NameMap) returns (inv: NameMap)
    ensures inv == InverseOf(names)
  {
    inv := [];
    for i := 0 to |names|
      invariant inv == InverseOf(names[..i])
    {
      assert names[..i + 1][..i] == names[..i];
      inv := Dicts.Set(inv, names[i].1, names[i].0);
    }
    assert names[..|names|] == names;
  }

  /** When the prefixed names are pairwise distinct, the inverse undoes the
      prefixing: each prefixed name maps back to its original. */
  lemma {:induction false} InverseRoundTrip(names: NameMap, i: nat)
    requires DistinctValues(names)
    requires i < |names|
    ensures Dicts.Get(InverseOf(names), names[i].1) == Some(names[i].0)
    decreases |names|
  {
    var n := |names| - 1;
    var inv0 := InverseOf(names[..n]);
    Dicts.SetSpec(inv0, names[n].1, names[n].0);
    if i < n {
      assert names[..n][i] == names[i];
      InverseRoundTrip(names[..n], i);
    }
  }

  /** One colour space with its name looked up in the inverse, if present. */
  function Restored(c: ColorSpace, inv: NameMap): (r: ColorSpace)
    ensures Dicts.Get(inv, c.name).Some? ==> r == c.(name := Dicts.Get(inv, c.name).value)
    ensures Dicts.Get(inv, c.name).None? ==> r == c
  {
    match Dicts.Get(inv, c.name)
    case Some(original) => c.(name := original)
    case None => c
  }

  /** The position of the first colour space whose name the inverse lacks,
      or the length when every name is present. */
  function FirstMissing(cs: seq<ColorSpace>, inv: NameMap): (k: nat)
    ensures k <= |cs|
    ensures forall j :: 0 <= j < k ==> Dicts.Get(inv, cs[j].name).Some?
    ensures k < |cs| ==> Dicts.Get(inv, cs[k].name).None?
    decreases |cs|
  {
    if cs == [] || Dicts.Get(inv, cs[0].name).None? then 0
    else 1 + FirstMissing(cs[1..], inv)
  }

  /** The first k colour spaces renamed back, the others untouched. */
  function RestoredUpTo(cs: seq<ColorSpace>, inv: NameMap, k: nat): (r: seq<ColorSpace>)
    requires k <= |cs|
    ensures |r| == |cs|
    ensures forall j :: 0 <= j < k ==> r[j] == Restored(cs[j], inv)
    ensures forall j :: k <= j < |cs| ==> r[j] == cs[j]
  {
    seq(|cs|, j requires 0 <= j < |cs| => if j < k then Restored(cs[j], inv) else cs[j])
  }

  /** Renaming colour space i back extends the restored prefix by one. */
  lemma RestoredStep(cs: seq<ColorSpace>, inv: NameMap, i: nat)
    requires i < |cs| && Dicts.Get(inv, cs[i].name).Some?
    ensures var r := RestoredUpTo(cs, inv, i);
            r[i := r[i].(name := Dicts.Get(inv, r[i].name).value)] == RestoredUpTo(cs, inv, i + 1)
  {
    var r := RestoredUpTo(cs, inv, i);
    var next := r[i := r[i].(name := Dicts.Get(inv, r[i].name).value)];
    assert next[i] == Restored(cs[i], inv);
    assert forall j :: 0 <= j < |cs| && j != i ==> next[j] == r[j];
  }

  /** The reset at the end of the 1.0.2 `create_config`. The reference's
      name is looked up first: when it is missing nothing changes and the
      KeyError names it. Otherwise the colour spaces are renamed one by one
      until a name is missing from the inverse; the ones before it keep
      their new names and the KeyError for that name is raised again (after
      both dictionaries are printed). On success the result is the
      reference's original name. */
  method ResetNames(data: ConfigData, names: NameMap, referenceName: string) returns (r: Result<string>)
    modifies data`colorSpaces
    ensures var inv := InverseOf(names);
            Dicts.Get(inv, referenceName).None? ==>
              r == Err(KeyError(referenceName)) && data.colorSpaces == old(data.colorSpaces)
    ensures var inv := InverseOf(names);
            var k := FirstMissing(old(data.colorSpaces), inv);
            Dicts.Get(inv, referenceName).Some? ==>
              data.colorSpaces == RestoredUpTo(old(data.colorSpaces), inv, k) &&
              (k < |old(data.colorSpaces)| ==> r == Err(KeyError(old(data.colorSpaces)[k].name))) &&
              (k == |old(data.colorSpaces)| ==> r == Ok(Dicts.Get(inv, referenceName).value))
  {
    var inv := BuildInverse(names);
    var reference := Dicts.Get(inv, referenceName);
    if reference.None? {
      return Err(KeyError(referenceName));
    }
    ghost var cs0 := data.colorSpaces;
    ghost var k := FirstMissing(cs0, inv);
    var i := 0;
    while i < |data.colorSpaces|
      invariant i <= k && |data.colorSpaces| == |cs0|
      invariant data.colorSpaces == RestoredUpTo(cs0, inv, i)
    {
      var original := Dicts.Get(inv, data.colorSpaces[i].name);
      if original.None? {
        assert i == k;
        return Err(KeyError(data.colorSpaces[i].name));
      }
      RestoredStep(cs0, inv, i);
      data.colorSpaces := data.colorSpaces[i := data.colorSpaces[i].(name := original.value)];
      i := i + 1;
    }
    r := Ok(reference.value);
  }

  /** Among the first n colour spaces, none after colour space i has its
      original name. */
  predicate LastOfName(originals: seq<ColorSpace>, n: int, i: int)
    requires n <= |originals|
  {
    0 <= i < n && forall j :: i < j < n ==> originals[j].name != originals[i].name
  }

  /** What the prefixing dictionary holds after the first n colour spaces of
      `originals` were renamed to `prefixed`: unique keys; for each original
      name, the prefixed name of the last of those colour spaces that has it;
      and nothing else. */
  ghost predicate Records(names: NameMap, originals: seq<ColorSpace>, prefixed: seq<string>, n: nat)
    requires |prefixed| == |originals| && n <= |originals|
  {
    Dicts.UniqueKeys(names) &&
    (forall i :: LastOfName(originals, n, i) ==> Dicts.Get(names, originals[i].name) == Some(prefixed[i])) &&
    (forall k :: Dicts.Get(names, k).Some? ==>
       exists i :: LastOfName(originals, n, i) && originals[i].name == k && Dicts.Get(names, k).value == prefixed[i])
  }

  /** `prefixed_names[colorspace.name] = prefixed_name` for the first n
      colour spaces in turn. */
  function PrefixPairsUpTo(originals: seq<ColorSpace>, prefixed: seq<string>, n: nat): (names: NameMap)
    requires |prefixed| == |originals| && n <= |originals|
    ensures Dicts.UniqueKeys(names)
  {
    if n == 0 then []
    else
      var d0 := PrefixPairsUpTo(originals, prefixed, n - 1);
      Dicts.SetSpec(d0, originals[n - 1].name, prefixed[n - 1]);
      Dicts.Set(d0, originals[n - 1].name, prefixed[n - 1])
  }

  /** The prefixing dictionary of the 1.0.2 `create_config`, one assignment
      per colour space; `PrefixPairsSpec` states what it holds. */
  function PrefixPairs(originals: seq<ColorSpace>, prefixed: seq<string>): (names: NameMap)
    requires |prefixed| == |originals|
    ensures Dicts.UniqueKeys(names)
  {
    PrefixPairsUpTo(originals, prefixed, |originals|)
  }

  lemma {:induction false} PrefixPairsRecords(originals: seq<ColorSpace>, prefixed: seq<string>, n: nat)
    requires |prefixed| == |originals| && n <= |originals|
    ensures Records(PrefixPairsUpTo(originals, prefixed, n), originals, prefixed, n)
  {
    if n > 0 {
      PrefixPairsRecords(originals, prefixed, n - 1);
      PrefixPairsStep(originals, prefixed, n);
    }
  }

  /** The keys of the prefixing dictionary are the original names, and a
      repeated original name keeps only the prefixed name of its last colour
      space: each last colour space's original name maps to its prefixed
      name, and every entry is of that kind. */
  lemma PrefixPairsSpec(originals: seq<ColorSpace>, prefixed: seq<string>)
    requires |prefixed| == |originals|
    ensures var names := PrefixPairs(originals, prefixed);
            forall i :: LastOfName(originals, |originals|, i) ==> Dicts.Get(names, originals[i].name) == Some(prefixed[i])
    ensures var names := PrefixPairs(originals, prefixed);
            forall k :: Dicts.Get(names, k).Some? ==>
              exists i :: LastOfName(originals, |originals|, i) && originals[i].name == k && Dicts.Get(names, k).value == prefixed[i]
  {
    PrefixPairsRecords(originals, prefixed, |originals|);
  }

  /** The n-th assignment keeps `Records`. */
  lemma PrefixPairsStep(originals: seq<ColorSpace>, prefixed: seq<string>, n: nat)
    requires |prefixed| == |originals| && 0 < n <= |originals|
    requires Records(PrefixPairsUpTo(originals, prefixed, n - 1), originals, prefixed, n - 1)
    ensures Records(PrefixPairsUpTo(originals, prefixed, n), originals, prefixed, n)
  {
    var d0 := PrefixPairsUpTo(originals, prefixed, n - 1);
    assert PrefixPairsUpTo(originals, prefixed, n) == Dicts.Set(d0, originals[n - 1].name, prefixed[n - 1]);
    Dicts.SetSpec(d0, originals[n - 1].name, prefixed[n - 1]);
    StepLast(originals, prefixed, d0, n);
    StepValues(originals, prefixed, d0, n);
  }

  lemma StepLast(originals: seq<ColorSpace>, prefixed: seq<string>, d0: NameMap, n: nat)
    requires |prefixed| == |originals| && 0 < n <= |originals| && Dicts.UniqueKeys(d0)
    requires forall i :: LastOfName(originals, n - 1, i) ==> Dicts.Get(d0, originals[i].name) == Some(prefixed[i])
    ensures var names := Dicts.Set(d0, originals[n - 1].name, prefixed[n - 1]);
            forall i :: LastOfName(originals, n, i) ==> Dicts.Get(names, originals[i].name) == Some(prefixed[i])
  {
    var key := originals[n - 1].name;
    var names := Dicts.Set(d0, key, prefixed[n - 1]);
    Dicts.SetSpec(d0, key, prefixed[n - 1]);
    forall i | LastOfName(originals, n, i) ensures Dicts.Get(names, originals[i].name) == Some(prefixed[i]) {
      if i < n - 1 {
        assert originals[i].name != key;
        assert LastOfName(originals, n - 1, i);
      }
    }
  }

  lemma StepValues(originals: seq<ColorSpace>, prefixed: seq<string>, d0: NameMap, n: nat)
    requires |prefixed| == |originals| && 0 < n <= |originals| && Dicts.UniqueKeys(d0)
    requires forall k :: Dicts.Get(d0, k).Some? ==>
               exists i :: LastOfName(originals, n - 1, i) && originals[i].name == k && Dicts.Get(d0, k).value == prefixed[i]
    ensures var names := Dicts.Set(d0, originals[n - 1].name, prefixed[n - 1]);
            forall k :: Dicts.Get(names, k).Some? ==>
              exists i :: LastOfName(originals, n, i) && originals[i].name == k && Dicts.Get(names, k).value == prefixed[i]
  {
    var key := originals[n - 1].name;
    var names := Dicts.Set(d0, key, prefixed[n - 1]);
    Dicts.SetSpec(d0, key, prefixed[n - 1]);
    forall k | Dicts.Get(names, k).Some?
      ensures exists i :: LastOfName(originals, n, i) && originals[i].name == k && Dicts.Get(names, k).value == prefixed[i]
    {
      if k == key {
        assert LastOfName(originals, n, n - 1);
      } else {
        var i :| LastOfName(originals, n - 1, i) && originals[i].name == k && Dicts.Get(d0, k).value == prefixed[i];
        assert LastOfName(originals, n, i);
      }
    }
  }

  /** With distinct original names every assignment adds a new key, so the
      dictionary holds one (original, prefixed) pair per colour space, in
      order. */
  lemma {:induction false} DistinctOriginalsAllPairs(originals: seq<ColorSpace>, prefixed: seq<string>, n: nat)
    requires |prefixed| == |originals| && n <= |originals|
    requires forall i, j :: 0 <= i < j < |originals| ==> originals[i].name != originals[j].name
    ensures var names := PrefixPairsUpTo(originals, prefixed, n);
            |names| == n && forall i :: 0 <= i < n ==> names[i] == (originals[i].name, prefixed[i])
  {
    if n > 0 {
      DistinctOriginalsAllPairs(originals, prefixed, n - 1);
      var d0 := PrefixPairsUpTo(originals, prefixed, n - 1);
      var key := originals[n - 1].name;
      assert !Dicts.HasKey(d0, key);
      Dicts.SetSpec(d0, key, prefixed[n - 1]);
    }
  }

  /** With distinct original and prefixed names, the inverse maps each
      colour space's prefixed name back to its original name. */
  lemma PrefixedMapsBack(originals: seq<ColorSpace>, prefixed: seq<string>, i: int)
    requires |prefixed| == |originals|
    requires forall a, b :: 0 <= a < b < |originals| ==> originals[a].name != originals[b].name
    requires forall a, b :: 0 <= a < b < |prefixed| ==> prefixed[a] != prefixed[b]
    requires 0 <= i < |originals|
    ensures Dicts.Get(InverseOf(PrefixPairs(originals, prefixed)), prefixed[i]) == Some(originals[i].name)
  {
    var names := PrefixPairs(originals, prefixed);
    DistinctOriginalsAllPairs(originals, prefixed, |originals|);
    assert DistinctValues(names);
    InverseRoundTrip(names, i);
  }

  /** Prefixing followed by the reset gives back the original names when the
      original names are distinct and so are the prefixed names: every
      renamed colour space is found in the inverse and receives its original
      name again. */
  lemma ResetUndoesPrefix(originals: seq<ColorSpace>, prefixed: seq<string>)
    requires |prefixed| == |originals|
    requires forall i, j :: 0 <= i < j < |originals| ==> originals[i].name != originals[j].name
    requires forall i, j :: 0 <= i < j < |prefixed| ==> prefixed[i] != prefixed[j]
    ensures var renamed := seq(|originals|, i requires 0 <= i < |originals| => originals[i].(name := prefixed[i]));
            var inv := InverseOf(PrefixPairs(originals, prefixed));
            FirstMissing(renamed, inv) == |renamed| &&
            RestoredUpTo(renamed, inv, |renamed|) == originals
  {
    var renamed := seq(|originals|, i requires 0 <= i < |originals| => originals[i].(name := prefixed[i]));
    var inv := InverseOf(PrefixPairs(originals, prefixed));
    forall i | 0 <= i < |originals|
      ensures Dicts.Get(inv, renamed[i].name) == Some(originals[i].name)
    {
      PrefixedMapsBack(originals, prefixed, i);
    }
    assert RestoredUpTo(renamed, inv, |renamed|) == originals;
  }

  /** Every key of the inverse is the prefixed name of a colour space that
      is the last with its original name. */
  lemma InverseKeysAreLast(originals: seq<ColorSpace>, prefixed: seq<string>, p: string)
    requires |prefixed| == |originals|
    ensures Dicts.Get(InverseOf(PrefixPairs(originals, prefixed)), p).Some? ==>
              exists i :: LastOfName(originals, |originals|, i) && prefixed[i] == p
  {
    var names := PrefixPairs(originals, prefixed);
    PrefixPairsSpec(originals, prefixed);
    if Dicts.Get(InverseOf(names), p).Some? {
      var m :| 0 <= m < |names| && names[m].1 == p;
      Dicts.GetAt(names, m);
      var i :| LastOfName(originals, |originals|, i) && originals[i].name == names[m].0 &&
               Dicts.Get(names, names[m].0).value == prefixed[i];
      assert prefixed[i] == p;
    }
  }

  /** Two colour spaces with the same original name: the dictionary keeps
      only the later one's prefixed name, so the earlier prefixed name is
      missing from the inverse and the reset stops with a KeyError at or
      before that colour space. */
  lemma DuplicateOriginalKeyError(originals: seq<ColorSpace>, prefixed: seq<string>, i: int, j: int)
    requires |prefixed| == |originals|
    requires forall a, b :: 0 <= a < b < |prefixed| ==> prefixed[a] != prefixed[b]
    requires 0 <= i < j < |originals| && originals[i].name == originals[j].name
    ensures var renamed := seq(|originals|, k requires 0 <= k < |originals| => originals[k].(name := prefixed[k]));
            var inv := InverseOf(PrefixPairs(originals, prefixed));
            Dicts.Get(inv, prefixed[i]).None? && FirstMissing(renamed, inv) <= i
  {
    var renamed := seq(|originals|, k requires 0 <= k < |originals| => originals[k].(name := prefixed[k]));
    var names := PrefixPairs(originals, prefixed);
    var inv := InverseOf(names);
    InverseKeysAreLast(originals, prefixed, prefixed[i]);
    if Dicts.Get(inv, prefixed[i]).Some? {
      assert false;
    }
    assert renamed[i].name == prefixed[i];
  }

  /** Colour spaces 'X' of family 'A' and 'X' of family 'B': the dictionary
      keeps only 'X' -> 'B - X', so the reset stops at the first colour
      space, whose name 'A - X' the inverse lacks. */
  lemma SameNameTwoFamilies(a: ColorSpace, b: ColorSpace)
    requires a.name == "X" && b.name == "X"
    ensures var inv := InverseOf(PrefixPairs([a, b], ["A - X", "B - X"]));
            var renamed := [a.(name := "A - X"), b.(name := "B - X")];
            FirstMissing(renamed, inv) == 0 && Dicts.Get(inv, "A - X").None?
  {
    var renamed := [a.(name := "A - X"), b.(name := "B - X")];
    DuplicateOriginalKeyError([a, b], ["A - X", "B - X"], 0, 1);
    assert seq(2, k requires 0 <= k < 2 => [a, b][k].(name := ["A - X", "B - X"][k])) == renamed;
  }

  /** Prefixing walks a copy of the colour spaces sorted by family, the
      reset walks the configuration's list in its own order: the k-th colour
      space of the list sits at `order[k]` in the sorted copy (`order` is a
      permutation in the source; any arrangement is allowed here). With
      distinct original and prefixed names the reset succeeds in the list's
      order and gives every colour space its original name back. */
  lemma ResetInListOrder(sorted: seq<ColorSpace>, prefixed: seq<string>, order: seq<nat>)
    requires |prefixed| == |sorted|
    requires forall k :: 0 <= k < |order| ==> order[k] < |sorted|
    requires forall a, b :: 0 <= a < b < |sorted| ==> sorted[a].name != sorted[b].name
    requires forall a, b :: 0 <= a < b < |prefixed| ==> prefixed[a] != prefixed[b]
    ensures var renamed := seq(|order|, k requires 0 <= k < |order| => sorted[order[k]].(name := prefixed[order[k]]));
            var inv := InverseOf(PrefixPairs(sorted, prefixed));
            FirstMissing(renamed, inv) == |renamed| &&
            RestoredUpTo(renamed, inv, |renamed|) == seq(|order|, k requires 0 <= k < |order| => sorted[order[k]])
  {
    var renamed := seq(|order|, k requires 0 <= k < |order| => sorted[order[k]].(name := prefixed[order[k]]));
    var inv := InverseOf(PrefixPairs(sorted, prefixed));
    forall k | 0 <= k < |order|
      ensures Dicts.Get(inv, renamed[k].name) == Some(sorted[order[k]].name)
    {
      PrefixedMapsBack(sorted, prefixed, order[k]);
    }
    assert RestoredUpTo(renamed, inv, |renamed|) == seq(|order|, k requires 0 <= k < |order| => sorted[order[k]]);
  }

  /** Two colour spaces sharing an original name: the one earlier in the
      sorted copy loses its entry, so the reset in the list's order stops
      with a KeyError at or before that colour space's place in the list. */
  lemma DuplicateKeyErrorInListOrder(sorted: seq<ColorSpace>, prefixed: seq<string>, order: seq<nat>,
                                     i: int, j: int, k: int)
    requires |prefixed| == |sorted|
    requires forall m :: 0 <= m < |order| ==> order[m] < |sorted|
    requires forall a, b :: 0 <= a < b < |prefixed| ==> prefixed[a] != prefixed[b]
    requires 0 <= i < j < |sorted| && sorted[i].name == sorted[j].name
    requires 0 <= k < |order| && order[k] == i
    ensures var renamed := seq(|order|, m requires 0 <= m < |order| => sorted[order[m]].(name := prefixed[order[m]]));
            FirstMissing(renamed, InverseOf(PrefixPairs(sorted, prefixed))) <= k
  {
    var renamed := seq(|order|, m requires 0 <= m < |order| => sorted[order[m]].(name := prefixed[order[m]]));
    DuplicateOriginalKeyError(sorted, prefixed, i, j);
    assert renamed[k].name == prefixed[i];
  }
}
