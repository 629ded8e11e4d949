/** Alias colour spaces: `add_colorspace_aliases` (1.2 `generate_config.py`,
    1.0.0 `aces_config.py`) and `add_colorspace_alias` (1.0.0
    `create_aces_config.py`). An alias is a new OCIO colour space that
    converts to and from the reference through the original. */
module Aliases {
  import opened Py
  import opened PyStr
  import opened Utilities
  import opened Ocio
  import opened Transforms

  /** `{'type': 'colorspace', 'src': src, 'dst': dst, 'direction': 'forward'}`. */
  function ColorSpaceDesc(src: string, dst: string): Desc
  {
    map["type" := Str("colorspace"), "src" := Str(src), "dst" := Str(dst), "direction" := Str("forward")]
  }

  /** Every variant that has aliases turns that description into a single
      forward colour-space transform from src to dst. */
  lemma ColorSpaceDescBuild(v: Variant, src: string, dst: string)
    requires v != Legacy
    ensures Build(v, [ColorSpaceDesc(src, dst)]) == Ok(ColorSpaceT(Some(Str(src)), Some(Str(dst)), Forward))
  {
    var d := ColorSpaceDesc(src, dst);
    var t := ColorSpaceT(Some(Str(src)), Some(Str(dst)), Forward);
    assert d["type"] == Str("colorspace") && d["direction"] == Str("forward");
    assert TypeName(d) == Ok("colorspace");
    assert "colorspace" in Recognised(v);
    assert OptDirection(d) == Ok(Forward);
    assert Convert(v, d) == Ok(Some(t));
    var none: seq<Desc> := [];
    assert [d][..0] == none;
    assert ConvertAll(v, none) == Ok([]);
    assert [t] == [] + [t];
    assert ConvertAll(v, [d]) == Ok([t]);
  }

  /** The alias description: the original's, followed by the ACES transform
      ID when the original has a non-empty one; appending to a missing
      description raises TypeError. */
  function AliasDescription(cs: ColorSpace): (r: Result<Option<string>>)
    ensures !Truthy(cs.acesTransformId) ==> r == Ok(cs.description)
    ensures Truthy(cs.acesTransformId) && cs.description.None? ==> r == Err(TypeError)
    ensures Truthy(cs.acesTransformId) && cs.description.Some? ==>
              r.Ok? && r.value.Some? && |r.value.value| > |cs.description.value| &&
              r.value.value[..|cs.description.value|] == cs.description.value
  {
    if !Truthy(cs.acesTransformId) then Ok(cs.description)
    else if cs.description.None? then Err(TypeError)
    else Ok(Some(cs.description.value + "\n\nACES Transform ID : " + cs.acesTransformId.value))
  }

  /** The alias colour space built for `aliasName` (before its transforms). */
  function AliasShell(cs: ColorSpace, aliasName: string, description: Option<string>, family: string): OcioColorSpace
  {
    OcioColorSpace(aliasName, cs.bitDepth, description, cs.equalityGroup, Some(family), cs.isData,
                   cs.allocation, cs.allocationVars, None, None)
  }

  /** The alias as the later versions build it: a to-reference transform
      through the original exactly when the original has to-reference
      transforms, and likewise from the reference. */
  function AliasSpace(reference: string, cs: ColorSpace, aliasName: string,
                      description: Option<string>, family: string): (a: OcioColorSpace)
    ensures a.name == aliasName && a.family == Some(family) && a.description == description
    ensures a.bitDepth == cs.bitDepth && a.isData == cs.isData && a.equalityGroup == cs.equalityGroup
    ensures a.allocation == cs.allocation && a.allocationVars == cs.allocationVars
    ensures a.toReference.Some? <==> cs.toReference != []
    ensures a.toReference.Some? ==> a.toReference.value == ColorSpaceT(Some(Str(cs.name)), Some(Str(reference)), Forward)
    ensures a.fromReference.Some? <==> cs.fromReference != []
    ensures a.fromReference.Some? ==> a.fromReference.value == ColorSpaceT(Some(Str(reference)), Some(Str(cs.name)), Forward)
  {
    AliasShell(cs, aliasName, description, family).(
      toReference := if cs.toReference != [] then Some(ColorSpaceT(Some(Str(cs.name)), Some(Str(reference)), Forward)) else None,
      fromReference := if cs.fromReference != [] then Some(ColorSpaceT(Some(Str(reference)), Some(Str(cs.name)), Forward)) else None)
  }

  /** The alias names that are not the colour space's own name up to case. */
  function KeptAliases(cs: ColorSpace, names: seq<string>): (r: seq<string>)
    ensures forall n :: n in r <==> n in names && Lower(n) != Lower(cs.name)
    decreases |names|
  {
    if names == [] then []
    else
      var init := KeptAliases(cs, names[..|names| - 1]);
      var n := names[|names| - 1];
      assert names == names[..|names| - 1] + [n];
      if Lower(n) == Lower(cs.name) then init else init + [n]
  }

  /** The body of the `add_colorspace_aliases` loop (generate_config.py
      lines 299-344 in 1.2) for one alias; `AliasSpace` is its
      specification, used by the lemmas. */
  method MakeAlias(v: Variant, reference: string, cs: ColorSpace, aliasName: string,
                   description: Option<string>, family: string) returns (a: OcioColorSpace)
    requires v != Legacy
    ensures a == AliasSpace(reference, cs, aliasName, description, family)
  {
    a := AliasShell(cs, aliasName, description, family);
    if cs.toReference != [] {
      var t := CreateOcioTransform(v, [ColorSpaceDesc(cs.name, reference)]);
      ColorSpaceDescBuild(v, cs.name, reference);
      a := a.(toReference := Some(t.value));
    }
    if cs.fromReference != [] {
      var t := CreateOcioTransform(v, [ColorSpaceDesc(reference, cs.name)]);
      ColorSpaceDescBuild(v, reference, cs.name);
      a := a.(fromReference := Some(t.value));
    }
  }

  /** `add_colorspace_aliases(config, reference, colorspace, names, family)`
      (1.2 with v = Current, 1.0.0 `aces_config.py` with v = Lenient): adds
      one alias per name that differs from the colour space's name up to
      case, in order; a missing description with a transform ID raises
      TypeError at the first alias, before anything is added. */
  method AddColorspaceAliases(config: Config, v: Variant, reference: string, cs: ColorSpace,
                              names: seq<string>, family: string) returns (r: Result<()>)
    requires v != Legacy
    modifies config`colorSpaces
    ensures r.Err? <==> KeptAliases(cs, names) != [] && AliasDescription(cs).Err?
    ensures r.Err? ==> r.error == TypeError && config.colorSpaces == old(config.colorSpaces)
    ensures r.Ok? && AliasDescription(cs).Ok? ==>
              config.colorSpaces == old(config.colorSpaces) +
                AliasSpaces(reference, cs, KeptAliases(cs, names), AliasDescription(cs).value, family)
    ensures r.Ok? && AliasDescription(cs).Err? ==> config.colorSpaces == old(config.colorSpaces)
  {
    for i := 0 to |names|
      invariant KeptAliases(cs, names[..i]) != [] ==> AliasDescription(cs).Ok?
      invariant AliasDescription(cs).Ok? ==>
                  config.colorSpaces == old(config.colorSpaces) +
                    AliasSpaces(reference, cs, KeptAliases(cs, names[..i]), AliasDescription(cs).value, family)
      invariant AliasDescription(cs).Err? ==> config.colorSpaces == old(config.colorSpaces)
    {
      assert names[..i + 1] == names[..i] + [names[i]];
      if Lower(names[i]) == Lower(cs.name) {
        continue;
      }
      var description := AliasDescription(cs);
      if description.Err? {
        assert KeptAliases(cs, names[..i]) == [];
        KeptAliasesPrefix(cs, names, i + 1);
        return Err(description.error);
      }
      var alias := MakeAlias(v, reference, cs, names[i], description.value, family);
      AliasSpacesSnoc(reference, cs, KeptAliases(cs, names[..i]), names[i], description.value, family);
      config.AddColorSpace(alias);
    }
    assert names[..|names|] == names;
    r := Ok(());
  }

  /** The aliases of the kept names, in order. */
  function AliasSpaces(reference: string, cs: ColorSpace, kept: seq<string>,
                       description: Option<string>, family: string): (r: seq<OcioColorSpace>)
    ensures |r| == |kept|
    ensures forall i :: 0 <= i < |kept| ==> r[i] == AliasSpace(reference, cs, kept[i], description, family)
  {
    seq(|kept|, i requires 0 <= i < |kept| => AliasSpace(reference, cs, kept[i], description, family))
  }

  lemma AliasSpacesSnoc(reference: string, cs: ColorSpace, kept: seq<string>, n: string,
                        description: Option<string>, family: string)
    ensures AliasSpaces(reference, cs, kept + [n], description, family) ==
            AliasSpaces(reference, cs, kept, description, family) + [AliasSpace(reference, cs, n, description, family)]
  {
    var all := kept + [n];
    assert all[|kept|] == n;
    assert forall i :: 0 <= i < |kept| ==> all[i] == kept[i];
  }

  /** Aliases kept from a prefix are kept from the whole list. */
  lemma {:induction false} KeptAliasesPrefix(cs: ColorSpace, names: seq<string>, i: nat)
    requires i <= |names|
    ensures KeptAliases(cs, names[..i]) != [] ==> KeptAliases(cs, names) != []
    decreases |names| - i
  {
    if i < |names| {
      assert names[..i + 1][..i] == names[..i];
      KeptAliasesPrefix(cs, names, i + 1);
    } else {
      assert names[..i] == names;
    }
  }

  /** Every alias added links to the original both ways the original links
      to the reference, and an alias equal to the name up to case is never
      added. */
  lemma AliasesFollowOriginal(reference: string, cs: ColorSpace, names: seq<string>,
                              description: Option<string>, family: string, n: string)
    requires n in names
    ensures n in KeptAliases(cs, names) <==> Lower(n) != Lower(cs.name)
    ensures var a := AliasSpace(reference, cs, n, description, family);
            (a.toReference.Some? <==> cs.toReference != []) &&
            (a.fromReference.Some? <==> cs.fromReference != [])
  {
  }

  // ---------------------------------------------------------------------
  // 1.0.0 `create_aces_config.py`
  // ---------------------------------------------------------------------

  /** The names processed before the loop's `return`: everything before the
      first name equal to the lower-cased colour space name. */
  function BeforeStop(names: seq<string>, stop: string): (r: seq<string>)
    ensures |r| <= |names| && r == names[..|r|]
    ensures stop !in r
    ensures |r| < |names| ==> names[|r|] == stop
    decreases |names|
  {
    if names == [] || names[0] == stop then []
    else [names[0]] + BeforeStop(names[1..], stop)
  }

  /** The alias as written in `add_colorspace_alias`: the transform through
      the original is attached when the original has NO transform in that
      direction. */
  function AliasSpaceAsWritten(reference: string, cs: ColorSpace, aliasName: string): (a: OcioColorSpace)
    ensures a.name == aliasName && a.family == Some("Aliases") && a.description == cs.description
    ensures a.toReference.Some? <==> cs.toReference == []
    ensures a.fromReference.Some? <==> cs.fromReference == []
  {
    AliasShell(cs, aliasName, cs.description, "Aliases").(
      toReference := if cs.toReference == [] then Some(ColorSpaceT(Some(Str(cs.name)), Some(Str(reference)), Forward)) else None,
      fromReference := if cs.fromReference == [] then Some(ColorSpaceT(Some(Str(reference)), Some(Str(cs.name)), Forward)) else None)
  }

  /** `add_colorspace_alias(config, reference, colorspace, names)`: stops
      at the first name equal to the lower-cased colour space name (the
      name itself is compared as given) and adds the as-written alias for
      every name before it. */
  method AddColorspaceAlias(config: Config, reference: string, cs: ColorSpace, names: seq<string>)
    modifies config`colorSpaces
    ensures var kept := BeforeStop(names, Lower(cs.name));
            config.colorSpaces == old(config.colorSpaces) +
              seq(|kept|, i requires 0 <= i < |kept| => AliasSpaceAsWritten(reference, cs, kept[i]))
  {
    ghost var kept := BeforeStop(names, Lower(cs.name));
    for i := 0 to |names|
      invariant i <= |kept|
      invariant config.colorSpaces == old(config.colorSpaces) +
                  seq(i, j requires 0 <= j < i => AliasSpaceAsWritten(reference, cs, names[j]))
    {
      if names[i] == Lower(cs.name) {
        assert i == |kept| by { BeforeStopFirst(names, Lower(cs.name), i); }
        return;
      }
      assert i < |kept| by { BeforeStopFirst(names, Lower(cs.name), i); }
      var alias := CreateAliasAsWritten(reference, cs, names[i]);
      config.AddColorSpace(alias);
    }
  }

  /** The body of the 1.0.0 `add_colorspace_alias` loop
      (create_aces_config.py lines 257-289) for one name;
      `AliasSpaceAsWritten` is its specification, used by the lemmas. */
  method CreateAliasAsWritten(reference: string, cs: ColorSpace, aliasName: string) returns (alias: OcioColorSpace)
    ensures alias == AliasSpaceAsWritten(reference, cs, aliasName)
  {
    alias := AliasShell(cs, aliasName, cs.description, "Aliases");
    if cs.toReference == [] {
      var t := CreateOcioTransform(Strict, [ColorSpaceDesc(cs.name, reference)]);
      ColorSpaceDescBuild(Strict, cs.name, reference);
      alias := alias.(toReference := Some(t.value));
    }
    if cs.fromReference == [] {
      var t := CreateOcioTransform(Strict, [ColorSpaceDesc(reference, cs.name)]);
      ColorSpaceDescBuild(Strict, reference, cs.name);
      alias := alias.(fromReference := Some(t.value));
    }
  }

  /** BeforeStop ends exactly at the first occurrence of `stop`. */
  lemma {:induction false} BeforeStopFirst(names: seq<string>, stop: string, i: nat)
    requires i < |names| && forall j :: 0 <= j < i ==> names[j] != stop
    ensures names[i] == stop ==> |BeforeStop(names, stop)| == i
    ensures names[i] != stop ==> i < |BeforeStop(names, stop)|
    ensures i < |BeforeStop(names, stop)| ==> BeforeStop(names, stop)[i] == names[i]
    decreases i
  {
    if i > 0 {
      BeforeStopFirst(names[1..], stop, i - 1);
    }
  }

  /** A name equal to the lower-cased colour space name ends the loop: no
      later name gets an alias, even one that differs; a name in upper case
      does not match and gets its alias. */
  lemma StopHidesLaterAliases(cs: ColorSpace, before: seq<string>, later: seq<string>)
    requires Lower(cs.name) !in before
    ensures BeforeStop(before + [Lower(cs.name)] + later, Lower(cs.name)) == before
  {
    var stop := Lower(cs.name);
    var names := before + [stop] + later;
    forall j | 0 <= j < |before| ensures names[j] != stop {
      assert names[j] == before[j];
    }
    BeforeStopFirst(names, stop, |before|);
    var r := BeforeStop(names, stop);
    assert r == names[..|r|];
    assert names[..|before|] == before;
  }

  /** As written, an alias of a colour space that does convert to the
      reference gets no to-reference transform at all (OCIO then treats it
      as the reference itself), while a colour space without one gets a
      to-reference transform through itself. */
  lemma InvertedConditionAsWritten(reference: string, cs: ColorSpace, aliasName: string, d: Desc)
    requires cs.toReference == [d]
    ensures AliasSpaceAsWritten(reference, cs, aliasName).toReference == None
    ensures AliasSpace(reference, cs, aliasName, cs.description, "Aliases").toReference ==
              Some(ColorSpaceT(Some(Str(cs.name)), Some(Str(reference)), Forward))
  {
  }

  /** The intended alias is interchangeable with the original: it reaches
      the reference exactly when the original does, and only through it. */
  lemma AliasConvertsLikeOriginal(reference: string, cs: ColorSpace, aliasName: string,
                                  description: Option<string>, family: string)
    ensures var a := AliasSpace(reference, cs, aliasName, description, family);
            (a.toReference.Some? <==> cs.toReference != []) &&
            (a.fromReference.Some? <==> cs.fromReference != []) &&
            (a.toReference.Some? ==> a.toReference.value.src == Some(Str(cs.name))) &&
            (a.fromReference.Some? ==> a.fromReference.value.dst == Some(Str(cs.name)))
  {
  }
}
