/** Turning a list of transform descriptions into one OCIO transform:
    `create_ocio_transform` (1.2 and 1.0.2 generators), `generate_OCIO_transform`
    (1.0.0 `aces_config.py` and `create_aces_config.py`) and
    `generateOCIOTransform` (the first 1.0.0 script). */
module Transforms {
  import opened Py
  import opened Utilities
  import opened Ocio

  /** The four behaviours found across the versions:
      - Current: 1.2 `create_ocio_transform`; every field optional, and an
        unknown type raises TypeError from its own message expression.
      - Lenient: 1.0.2 `create_ocio_transform` and 1.0.0 `aces_config.py`
        `generate_OCIO_transform`; as Current, but an unknown type is skipped.
      - Strict: 1.0.0 `create_aces_config.py` `generate_OCIO_transform`; file,
        exponent, log and colour-space fields are mandatory, interpolation goes
        through a table, colour-space transforms are always forward and there
        is no look type.
      - Legacy: `generateOCIOTransform`; as Strict without the colour-space
        type. */
  datatype Variant = Current | Lenient | Strict | Legacy

  /** `transform[key]` when present. */
  function Field(d: Desc, key: string): (r: Option<Value>)
    ensures r.Some? <==> key in d
    ensures r.Some? ==> r.value == d[key]
  {
    if key in d then Some(d[key]) else None
  }

  /** `transform[key]`, raising KeyError when absent. */
  function Require(d: Desc, key: string): (r: Result<Value>)
    ensures r.Ok? <==> key in d
    ensures r.Ok? ==> r.value == d[key]
    ensures r.Err? ==> r.error == KeyError(key)
  {
    if key in d then Ok(d[key]) else Err(KeyError(key))
  }

  /** Lookup in a table keyed by strings: a missing string key raises
      KeyError with that key, a list is unhashable (TypeError), and a number
      is never a key (KeyError, its key recorded as ""). */
  function TableKey(v: Value, table: set<string>): (r: Result<string>)
    ensures r.Ok? <==> (v.Str? && v.s in table)
    ensures r.Ok? ==> r.value == v.s
    ensures v.Str? && v.s !in table ==> r == Err(KeyError(v.s))
    ensures v.Reals? ==> r == Err(TypeError)
  {
    match v
    case Str(s) => if s in table then Ok(s) else Err(KeyError(s))
    case Real(_) => Err(KeyError(""))
    case Reals(_) => Err(TypeError)
  }

  /** `direction_options[v]`. */
  function DirectionOf(v: Value): (r: Result<Direction>)
    ensures r == Ok(Forward) <==> v == Str("forward")
    ensures r == Ok(Inverse) <==> v == Str("inverse")
    ensures r.Err? ==> r.error == TableKey(v, {"forward", "inverse"}).error
  {
    var s :- TableKey(v, {"forward", "inverse"});
    if s == "forward" then Ok(Forward) else Ok(Inverse)
  }

  /** The direction set by `if 'direction' in transform: ...`, OCIO's
      forward default otherwise. */
  function OptDirection(d: Desc): (r: Result<Direction>)
    ensures "direction" !in d ==> r == Ok(Forward)
    ensures "direction" in d ==> r == DirectionOf(d["direction"])
  {
    if "direction" in d then DirectionOf(d["direction"]) else Ok(Forward)
  }

  /** `interpolation_options[v]`: OCIO 1.x interpolation constants are the
      strings themselves. */
  function InterpolationOf(v: Value): (r: Result<Value>)
    ensures r.Ok? <==> (v.Str? && v.s in {"linear", "nearest", "tetrahedral"})
    ensures r.Ok? ==> r.value == v
  {
    var s :- TableKey(v, {"linear", "nearest", "tetrahedral"});
    Ok(Str(s))
  }

  const KnownTypes: set<string> := {"lutFile", "matrix", "exponent", "log", "colorspace", "look"}

  /** The types a variant recognises. */
  function Recognised(v: Variant): (r: set<string>)
    ensures r <= KnownTypes
    ensures "lutFile" in r && "matrix" in r && "exponent" in r && "log" in r
    ensures ("colorspace" in r) <==> v != Legacy
    ensures ("look" in r) <==> (v == Current || v == Lenient)
  {
    match v
    case Current => KnownTypes
    case Lenient => KnownTypes
    case Strict => KnownTypes - {"look"}
    case Legacy => KnownTypes - {"look", "colorspace"}
  }

  /** `transform['type']` compared with the names: a non-string never equals
      one, so it is reported as the empty type name. */
  function TypeName(d: Desc): (r: Result<string>)
    ensures r.Err? <==> "type" !in d
    ensures r.Err? ==> r.error == KeyError("type")
    ensures r.Ok? && d["type"].Str? ==> r.value == d["type"].s
    ensures r.Ok? && !d["type"].Str? ==> r.value !in KnownTypes
  {
    if "type" !in d then Err(KeyError("type"))
    else if d["type"].Str? then Ok(d["type"].s)
    else Ok("")
  }

  /** One pass of the loop body: the transform built for one description,
      `None` when it is skipped, or the exception raised. */
  function Convert(v: Variant, d: Desc): Result<Option<Transform>>
  {
    var t :- TypeName(d);
    var strict := v == Strict || v == Legacy;
    if t !in Recognised(v) then
      if v == Current then Err(TypeError) else Ok(None)
    else if t == "lutFile" then
      if strict then
        var src :- Require(d, "path");
        var i :- Require(d, "interpolation");
        var interpolation :- InterpolationOf(i);
        var dv :- Require(d, "direction");
        var dir :- DirectionOf(dv);
        Ok(Some(FileT(Some(src), None, interpolation, dir)))
      else
        var dir :- OptDirection(d);
        var interpolation := if "interpolation" in d then d["interpolation"] else Str("best");
        Ok(Some(FileT(Field(d, "path"), Field(d, "cccid"), interpolation, dir)))
    else if t == "matrix" then
      var m :- Require(d, "matrix");
      var dir :- OptDirection(d);
      Ok(Some(MatrixT(m, Field(d, "offset"), dir)))
    else if t == "exponent" then
      if strict then
        var x :- Require(d, "value");
        Ok(Some(ExponentT(Some(x))))
      else
        Ok(Some(ExponentT(Field(d, "value"))))
    else if t == "log" then
      if strict then
        var base :- Require(d, "base");
        var dv :- Require(d, "direction");
        var dir :- DirectionOf(dv);
        Ok(Some(LogT(Some(base), dir)))
      else
        var dir :- OptDirection(d);
        Ok(Some(LogT(Field(d, "base"), dir)))
    else if t == "colorspace" then
      if strict then
        var src :- Require(d, "src");
        var dst :- Require(d, "dst");
        Ok(Some(ColorSpaceT(Some(src), Some(dst), Forward)))
      else
        var dir :- OptDirection(d);
        Ok(Some(ColorSpaceT(Field(d, "src"), Field(d, "dst"), dir)))
    else
      var dir :- OptDirection(d);
      Ok(Some(LookT(Field(d, "look"), Field(d, "src"), Field(d, "dst"), dir)))
  }

  /** The `ocio_transforms` list after the loop has seen `ds`, or the first
      exception raised. */
  function ConvertAll(v: Variant, ds: seq<Desc>): Result<seq<Transform>>
    decreases |ds|
  {
    if ds == [] then Ok([])
    else
      match ConvertAll(v, ds[..|ds| - 1])
      case Err(e) => Err(e)
      case Ok(ts) =>
        match Convert(v, ds[|ds| - 1])
        case Err(e) => Err(e)
        case Ok(c) => if c.Some? then Ok(ts + [c.value]) else Ok(ts)
  }

  /** The tail of the function: a group of several transforms, the only
      transform, or IndexError from `ocio_transforms[0]` on an empty list. */
  function Combine(ts: seq<Transform>): Result<Transform>
  {
    if |ts| > 1 then Ok(GroupT(ts))
    else if |ts| == 1 then Ok(ts[0])
    else Err(IndexError)
  }

  function Build(v: Variant, ds: seq<Desc>): Result<Transform>
  {
    var ts :- ConvertAll(v, ds);
    Combine(ts)
  }

  lemma {:induction false} ConvertAllErrPrefix(v: Variant, ds: seq<Desc>, i: nat)
    requires i <= |ds| && ConvertAll(v, ds[..i]).Err?
    ensures ConvertAll(v, ds) == ConvertAll(v, ds[..i])
    decreases |ds| - i
  {
    if i < |ds| {
      assert ds[..i + 1][..i] == ds[..i];
      ConvertAllErrPrefix(v, ds, i + 1);
    } else {
      assert ds[..i] == ds;
    }
  }

  /** `create_ocio_transform(transforms)` and its per-version siblings. */
  method CreateOcioTransform(v: Variant, transforms: seq<Desc>) returns (r: Result<Transform>)
    ensures r == Build(v, transforms)
  {
    var ocioTransforms: seq<Transform> := [];
    for i := 0 to |transforms|
      invariant ConvertAll(v, transforms[..i]) == Ok(ocioTransforms)
    {
      assert transforms[..i + 1][..i] == transforms[..i];
      var c := Convert(v, transforms[i]);
      if c.Err? {
        ConvertAllErrPrefix(v, transforms, i + 1);
        return Err(c.error);
      }
      if c.value.Some? {
        ocioTransforms := ocioTransforms + [c.value.value];
      }
    }
    assert transforms[..|transforms|] == transforms;
    if |ocioTransforms| > 1 {
      r := Ok(GroupT(ocioTransforms));
    } else if |ocioTransforms| == 1 {
      r := Ok(ocioTransforms[0]);
    } else {
      r := Err(IndexError);
    }
  }

  // ---------------------------------------------------------------------
  // Reference definition: the recognised descriptions, front to back
  // ---------------------------------------------------------------------

  predicate AllConvert(v: Variant, ds: seq<Desc>)
  {
    forall i :: 0 <= i < |ds| ==> Convert(v, ds[i]).Ok?
  }

  /** The present values, in order. */
  function Somes<T>(os: seq<Option<T>>): seq<T>
    decreases |os|
  {
    if os == [] then []
    else (if os[0].Some? then [os[0].value] else []) + Somes(os[1..])
  }

  lemma {:induction false} SomesSnoc<T>(os: seq<Option<T>>, o: Option<T>)
    ensures Somes(os + [o]) == Somes(os) + (if o.Some? then [o.value] else [])
    decreases |os|
  {
    if os != [] {
      assert (os + [o])[1..] == os[1..] + [o];
      SomesSnoc(os[1..], o);
    }
  }

  /** What each description converts to. */
  function Converted(v: Variant, ds: seq<Desc>): (r: seq<Option<Transform>>)
    requires AllConvert(v, ds)
    ensures |r| == |ds| && forall i :: 0 <= i < |ds| ==> r[i] == Convert(v, ds[i]).value
  {
    seq(|ds|, i requires 0 <= i < |ds| => Convert(v, ds[i]).value)
  }

  /** The transforms of the descriptions that are not skipped, in input
      order. */
  function Kept(v: Variant, ds: seq<Desc>): seq<Transform>
    requires AllConvert(v, ds)
  {
    Somes(Converted(v, ds))
  }

  /** Every description of a converting list converts, the last one too. */
  lemma AllConvertSnoc(v: Variant, ds: seq<Desc>, d: Desc)
    requires AllConvert(v, ds + [d])
    ensures AllConvert(v, ds)
    ensures Convert(v, d).Ok?
  {
    var all := ds + [d];
    assert all[|ds|] == d;
    forall i | 0 <= i < |ds|
      ensures Convert(v, ds[i]).Ok?
    {
      assert all[i] == ds[i];
    }
  }

  lemma KeptSnoc(v: Variant, ds: seq<Desc>, d: Desc)
    requires AllConvert(v, ds + [d])
    ensures AllConvert(v, ds)
    ensures Convert(v, d).Ok?
    ensures var c := Convert(v, d).value;
            Kept(v, ds + [d]) == Kept(v, ds) + (if c.Some? then [c.value] else [])
  {
    AllConvertSnoc(v, ds, d);
    var all := ds + [d];
    var os := Converted(v, ds);
    forall i | 0 <= i < |ds|
      ensures Converted(v, all)[i] == os[i]
    {
      assert all[i] == ds[i];
    }
    assert all[|ds|] == d;
    assert Converted(v, all) == os + [Convert(v, d).value];
    SomesSnoc(os, Convert(v, d).value);
  }

  /** When no description raises, the loop collects exactly the transforms
      of the recognised descriptions, in input order. */
  lemma {:induction false} ConvertAllIsKept(v: Variant, ds: seq<Desc>)
    requires AllConvert(v, ds)
    ensures ConvertAll(v, ds) == Ok(Kept(v, ds))
    decreases |ds|
  {
    if ds != [] {
      var init := ds[..|ds| - 1];
      assert ds == init + [ds[|ds| - 1]];
      KeptSnoc(v, init, ds[|ds| - 1]);
      ConvertAllIsKept(v, init);
      var c := Convert(v, ds[|ds| - 1]);
      assert c.Ok?;
      assert ConvertAll(v, init) == Ok(Kept(v, init));
      var ts := ConvertAll(v, ds).value;
      if c.value.Some? {
        assert ts == Kept(v, init) + [c.value.value];
      } else {
        assert ts == Kept(v, init);
        assert Kept(v, init) + [] == Kept(v, init);
      }
    }
  }

  /** The first description that raises decides the outcome. */
  lemma {:induction false} ConvertAllFirstError(v: Variant, ds: seq<Desc>, i: nat)
    requires i < |ds| && AllConvert(v, ds[..i]) && Convert(v, ds[i]).Err?
    ensures ConvertAll(v, ds) == Err(Convert(v, ds[i]).error)
  {
    ConvertAllIsKept(v, ds[..i]);
    assert ds[..i + 1][..i] == ds[..i];
    ConvertAllErrPrefix(v, ds, i + 1);
  }

  /** More than one recognised description gives a group of them in input
      order, exactly one gives that transform unwrapped, none raises
      IndexError. */
  lemma BuildCases(v: Variant, ds: seq<Desc>)
    requires AllConvert(v, ds)
    ensures |Kept(v, ds)| > 1 ==> Build(v, ds) == Ok(GroupT(Kept(v, ds)))
    ensures |Kept(v, ds)| == 1 ==> Build(v, ds) == Ok(Kept(v, ds)[0])
    ensures Kept(v, ds) == [] ==> Build(v, ds) == Err(IndexError)
  {
    ConvertAllIsKept(v, ds);
  }

  // ---------------------------------------------------------------------
  // Differences between the variants
  // ---------------------------------------------------------------------

  /** A description without a type raises KeyError('type') everywhere. */
  lemma MissingType(v: Variant, d: Desc)
    requires "type" !in d
    ensures Convert(v, d) == Err(KeyError("type"))
  {
  }

  /** As written in 1.2: a description of an unknown type raises TypeError,
      and so does the whole call once the descriptions before it convert. */
  lemma UnknownTypeRaises(ds: seq<Desc>, i: nat)
    requires i < |ds| && AllConvert(Current, ds[..i])
    requires "type" in ds[i] && (ds[i]["type"].Str? ==> ds[i]["type"].s !in KnownTypes)
    ensures Convert(Current, ds[i]) == Err(TypeError)
    ensures Build(Current, ds) == Err(TypeError)
  {
    ConvertAllFirstError(Current, ds, i);
  }

  /** The intended behaviour, kept by the 1.0.x versions: an unknown type is
      skipped, so the result is the one without that description. */
  lemma {:induction false} UnknownTypeSkipped(a: seq<Desc>, d: Desc, b: seq<Desc>)
    requires "type" in d && (d["type"].Str? ==> d["type"].s !in KnownTypes)
    ensures Convert(Lenient, d) == Ok(None)
    ensures ConvertAll(Lenient, a + [d] + b) == ConvertAll(Lenient, a + b)
    ensures Build(Lenient, a + [d] + b) == Build(Lenient, a + b)
    decreases |b|
  {
    if b == [] {
      assert (a + [d] + b)[..|a + [d] + b| - 1] == a;
      assert a + b == a;
    } else {
      var b' := b[..|b| - 1];
      UnknownTypeSkipped(a, d, b');
      assert (a + [d] + b)[..|a + [d] + b| - 1] == a + [d] + b';
      assert (a + b)[..|a + b| - 1] == a + b';
    }
  }

  /** Apart from unknown types, the 1.2 loop body is the 1.0.2 one. */
  lemma CurrentAgreesOnKnownTypes(d: Desc)
    requires "type" in d && d["type"].Str? && d["type"].s in KnownTypes
    ensures Convert(Current, d) == Convert(Lenient, d)
  {
  }

  /** The strict variant builds colour-space transforms forward whatever the
      description says, where the lenient one honours 'direction'. */
  lemma StrictColorSpaceForward(d: Desc, src: Value, dst: Value)
    requires d == map["type" := Str("colorspace"), "src" := src, "dst" := dst,
                      "direction" := Str("inverse")]
    ensures Convert(Strict, d) == Ok(Some(ColorSpaceT(Some(src), Some(dst), Forward)))
    ensures Convert(Lenient, d) == Ok(Some(ColorSpaceT(Some(src), Some(dst), Inverse)))
  {
  }

  /** Every colour-space transform the strict variant builds is forward. */
  lemma StrictColorSpaceAlwaysForward(d: Desc)
    requires Convert(Strict, d).Ok? && Convert(Strict, d).value.Some?
    requires Convert(Strict, d).value.value.ColorSpaceT?
    ensures Convert(Strict, d).value.value.direction == Forward
  {
  }

  /** A strict lutFile description needs a tabled interpolation: a missing
      one raises KeyError('interpolation'), an unknown string raises KeyError
      on that string; the lenient variant falls back to 'best' or passes the
      value through. */
  lemma StrictInterpolation(d: Desc, path: Value)
    requires "type" in d && d["type"] == Str("lutFile") && "path" in d
    ensures "interpolation" !in d ==> Convert(Strict, d) == Err(KeyError("interpolation"))
    ensures "interpolation" in d && d["interpolation"].Str? &&
            d["interpolation"].s !in {"linear", "nearest", "tetrahedral"} ==>
              Convert(Strict, d) == Err(KeyError(d["interpolation"].s))
    ensures "interpolation" !in d && Convert(Lenient, d).Ok? ==>
              Convert(Lenient, d).value.value.interpolation == Str("best")
  {
  }

  /** A direction outside the table raises KeyError on it in every variant
      that reads one. */
  lemma BadDirection(v: Variant, d: Desc, s: string)
    requires "type" in d && d["type"] == Str("matrix") && "matrix" in d
    requires "direction" in d && d["direction"] == Str(s) && s != "forward" && s != "inverse"
    ensures Convert(v, d) == Err(KeyError(s))
  {
  }

  /** The first 1.0.0 script has no colour-space type and neither 1.0.0
      script has the look type: both are skipped there. */
  lemma OlderScriptsSkip(d: Desc)
    requires "type" in d
    ensures d["type"] == Str("colorspace") ==> Convert(Legacy, d) == Ok(None)
    ensures d["type"] == Str("look") ==> Convert(Legacy, d) == Ok(None) && Convert(Strict, d) == Ok(None)
    ensures d["type"] == Str("look") && "direction" !in d ==>
              Convert(Lenient, d) == Ok(Some(LookT(Field(d, "look"), Field(d, "src"), Field(d, "dst"), Forward)))
  {
  }
}
