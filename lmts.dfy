/** The Look Modification Transform colour spaces (`create_LMTs`): one
    'LMT Shaper' log curve baked at a raised 1D resolution, then one look
    colour space per LMT, each baked at a raised 3D resolution through that
    shaper, except that from 1.1 on the 'Blue Light Artifact Fix' look is a
    plain matrix. LMTs are given in the order the source sorts them. */
module Lmts {
  import opened Py
  import opened Utilities
  import opened CtlHeader
  import opened Discovery

  /** Which `create_ACES_LMT`: the 1.0.0 package's (inverse LUT named with
      an undefined variable), 1.0.2/1.0.3's, or 1.1/1.2's (with the blue
      light special case). */
  datatype LmtStyle = LmtsV100 | LmtsV10x | LmtsV11

  const LmtShaperName := "LMT Shaper"
  const BlueLightArtifactFix := "Blue Light Artifact Fix"

  /** The 3x3 matrix of the blue light artifact fix, row-major. */
  const BlueLightMatrix: seq<real> := [
    0.9404372683, -0.0183068787, 0.0778696104,
    0.0083786969, 0.8286599939, 0.1629613092,
    0.0005471261, -0.0008833746, 1.0003362486]

  /** How a look leaves the reference: a 3D LUT baked through the LMT
      shaper (and its inverse when the LMT has one), or the inverse of a
      3x3 matrix towards the reference, written to the configuration as
      the 4x4 matrix `Mat44FromMat33` makes of it. */
  datatype LookTransform =
    | LutLook(lut: string, inverseLut: Option<string>)
    | InverseMatrix(matrix33: seq<real>)

  datatype LookSpace = LookSpace(name: string, description: string, aliases: seq<string>, transform: LookTransform)

  /** The shaper's 1D resolution, the looks' 3D resolution and the looks. */
  datatype LmtSpaces = LmtSpaces(shaperResolution1d: int, lutResolution3d: int, looks: seq<LookSpace>)

  /** `max(a, b)`. */
  function Max(a: int, b: int): (r: int)
    ensures r >= a && r >= b && (r == a || r == b)
  {
    if a >= b then a else b
  }

  /** The look colour space of one LMT, named by its user name with the
      alias 'look_<compact name>'. The forward LUT is
      '<shaper>.<name>.spi3d' and, when the LMT has an inverse CTL, the
      inverse LUT is 'Inverse.<name>.<shaper>.spi3d', both sanitised; the
      1.0.0 package names the inverse with `odt_name`, which is not defined
      there. */
  function LookOf(style: LmtStyle, e: Entry): Result<LookSpace>
  {
    var name := e.names.userName;
    var aliases := ["look_" + Compact(name)];
    var description := "The ACES Look Transform: " + name;
    if style.LmtsV11? && name == BlueLightArtifactFix then
      Ok(LookSpace(name, description, aliases, InverseMatrix(BlueLightMatrix)))
    else
      var lut := Sanitize(LmtShaperName + "." + name + ".spi3d");
      if e.ctlInverse.None? then Ok(LookSpace(name, description, aliases, LutLook(lut, None)))
      else if style.LmtsV100? then Err(NameError("odt_name"))
      else Ok(LookSpace(name, description, aliases,
                        LutLook(lut, Some(Sanitize("Inverse." + name + "." + LmtShaperName + ".spi3d")))))
  }

  /** The body of the `create_LMTs` loop (aces.py lines 1425-1438 in 1.2):
      `create_ACES_LMT` / `create_LMT`, or from 1.1 on
      `create_blue_light_artifact_fix_LMT` for the blue light fix. The
      function `LookOf` is its specification, used by the lemmas. */
  method CreateLook(style: LmtStyle, values: Entry) returns (r: Result<LookSpace>)
    ensures r == LookOf(style, values)
    ensures r.Err? <==> style.LmtsV100? && values.ctlInverse.Some?
    ensures r.Err? ==> r.error == NameError("odt_name")
  {
    var name := values.names.userName;
    var aliases := ["look_" + Compact(name)];
    var description := "The ACES Look Transform: " + name;
    if style.LmtsV11? && name == BlueLightArtifactFix {
      return Ok(LookSpace(name, description, aliases, InverseMatrix(BlueLightMatrix)));
    }
    var lut := Sanitize(LmtShaperName + "." + name + ".spi3d");
    var inverse: Option<string> := None;
    if values.ctlInverse.Some? {
      if style.LmtsV100? {
        return Err(NameError("odt_name"));
      }
      inverse := Some(Sanitize("Inverse." + name + "." + LmtShaperName + ".spi3d"));
    }
    r := Ok(LookSpace(name, description, aliases, LutLook(lut, inverse)));
  }

  /** The outcome of each LMT's look, in order. */
  function LookResults(style: LmtStyle, lmts: seq<(string, Entry)>): (r: seq<Result<LookSpace>>)
    ensures |r| == |lmts| && forall i :: 0 <= i < |lmts| ==> r[i] == LookOf(style, lmts[i].1)
  {
    seq(|lmts|, i requires 0 <= i < |lmts| => LookOf(style, lmts[i].1))
  }

  /** The looks of the LMTs in order; the first failure ends the loop. */
  function LooksOf(style: LmtStyle, lmts: seq<(string, Entry)>): Result<seq<LookSpace>>
  {
    AllOk(LookResults(style, lmts))
  }

  /** One look fails exactly for a 1.0.0 LMT with an inverse CTL. */
  lemma LookFails(style: LmtStyle, e: Entry)
    ensures LookOf(style, e).Err? <==> style.LmtsV100? && e.ctlInverse.Some?
    ensures LookOf(style, e).Err? ==> LookOf(style, e).error == NameError("odt_name")
  {
  }

  /** The looks fail exactly when a 1.0.0 LMT has an inverse CTL, with
      NameError; otherwise there is one look per LMT, in order. */
  lemma LooksOfSpec(style: LmtStyle, lmts: seq<(string, Entry)>)
    ensures LooksOf(style, lmts).Err? <==> style.LmtsV100? && exists i :: 0 <= i < |lmts| && lmts[i].1.ctlInverse.Some?
    ensures LooksOf(style, lmts).Err? ==> LooksOf(style, lmts).error == NameError("odt_name")
    ensures LooksOf(style, lmts).Ok? ==>
              |LooksOf(style, lmts).value| == |lmts| &&
              forall i :: 0 <= i < |lmts| ==> LookOf(style, lmts[i].1) == Ok(LooksOf(style, lmts).value[i])
  {
    var results := LookResults(style, lmts);
    AllOkSpec(results);
    forall i | 0 <= i < |lmts|
      ensures results[i].Err? <==> style.LmtsV100? && lmts[i].1.ctlInverse.Some?
      ensures results[i].Err? ==> results[i].error == NameError("odt_name")
    {
      LookFails(style, lmts[i].1);
    }
  }

  /** `create_LMTs`: the resolutions raised to at least 4096 and 65, then
      the looks in order; the first failure ends the loop. */
  method CreateLmts(style: LmtStyle, resolution1d: int, resolution3d: int, lmts: seq<(string, Entry)>)
    returns (r: Result<LmtSpaces>)
    ensures r.Err? <==> LooksOf(style, lmts).Err?
    ensures r.Err? ==> r.error == LooksOf(style, lmts).error
    ensures r.Ok? ==> r.value == LmtSpaces(Max(4096, resolution1d), Max(65, resolution3d), LooksOf(style, lmts).value)
  {
    var shaperResolution := Max(4096, resolution1d);
    var lutResolution := Max(65, resolution3d);
    ghost var results := LookResults(style, lmts);
    var looks: seq<LookSpace> := [];
    for i := 0 to |lmts|
      invariant AllOk(results[..i]) == Ok(looks)
    {
      var look := CreateLook(style, lmts[i].1);
      assert look == results[i];
      if look.Err? {
        AllOkErrAt(results, i);
        return Err(look.error);
      }
      AllOkSnoc(results, i);
      looks := looks + [look.value];
    }
    assert results[..|lmts|] == results;
    r := Ok(LmtSpaces(shaperResolution, lutResolution, looks));
  }

  /** Each look: named by its LMT's user name with alias
      'look_<compact name>'; a matrix exactly for the blue light fix from
      1.1 on; otherwise a LUT with an inverse exactly when the LMT has an
      inverse CTL, the two LUT files always distinct. */
  lemma LookShape(style: LmtStyle, e: Entry)
    requires LookOf(style, e).Ok?
    ensures var look := LookOf(style, e).value;
            look.name == e.names.userName &&
            look.aliases == ["look_" + Compact(e.names.userName)] &&
            (look.transform.InverseMatrix? <==> style.LmtsV11? && e.names.userName == BlueLightArtifactFix) &&
            (look.transform.LutLook? ==>
               (look.transform.inverseLut.Some? <==> e.ctlInverse.Some?) &&
               (look.transform.inverseLut.Some? ==> look.transform.lut != look.transform.inverseLut.value))
  {
    var name := e.names.userName;
    var look := LookOf(style, e).value;
    if look.transform.LutLook? && look.transform.inverseLut.Some? {
      LutNamesDiffer(name);
    }
  }

  /** The forward LUT starts with 'L' and the inverse LUT with 'I'. */
  lemma LutNamesDiffer(name: string)
    ensures Sanitize(LmtShaperName + "." + name + ".spi3d") !=
            Sanitize("Inverse." + name + "." + LmtShaperName + ".spi3d")
  {
    var forward := LmtShaperName + "." + name + ".spi3d";
    var inverse := "Inverse." + name + "." + LmtShaperName + ".spi3d";
    assert forward[0] == LmtShaperName[0] == 'L';
    assert inverse[0] == 'I';
    assert Sanitize(forward)[0] == 'L' && Sanitize(inverse)[0] == 'I';
  }

  /** From 1.1 on the blue light fix leaves the reference through the
      inverse of its 3x3 matrix, which embeds as a 4x4 matrix acting on
      colours as the 3x3 one; before 1.1 it is a LUT look like any other. */
  lemma BlueLightIsMatrix(e: Entry)
    requires e.names.userName == BlueLightArtifactFix
    ensures LookOf(LmtsV11, e).Ok?
    ensures LookOf(LmtsV11, e).value.transform == InverseMatrix(BlueLightMatrix)
    ensures Mat44FromMat33(BlueLightMatrix).Ok?
    ensures LookOf(LmtsV10x, e).Ok? && LookOf(LmtsV10x, e).value.transform.LutLook?
  {
    assert |BlueLightMatrix| == 9;
    var look := LookOf(LmtsV10x, e);
    assert look.Ok? && look.value.transform.LutLook?;
  }

  /** As written in the 1.0.0 package, every LMT with an inverse CTL makes
      `create_LMTs` fail with NameError. */
  lemma V100InverseNameError(lmts: seq<(string, Entry)>, i: nat)
    requires i < |lmts| && lmts[i].1.ctlInverse.Some?
    ensures LookOf(LmtsV100, lmts[i].1) == Err(NameError("odt_name"))
    ensures LooksOf(LmtsV100, lmts) == Err(NameError("odt_name"))
  {
    LooksOfSpec(LmtsV100, lmts);
  }

  /** With the LMT's own name in its place, as 1.0.2 onwards write it, the
      inverse LUT is named after the look and never fails. */
  lemma InverseLutNamedByLook(style: LmtStyle, e: Entry)
    requires !style.LmtsV100? && e.ctlInverse.Some? && !(style.LmtsV11? && e.names.userName == BlueLightArtifactFix)
    ensures LookOf(style, e).Ok?
    ensures LookOf(style, e).value.transform ==
            LutLook(Sanitize(LmtShaperName + "." + e.names.userName + ".spi3d"),
                    Some(Sanitize("Inverse." + e.names.userName + "." + LmtShaperName + ".spi3d")))
  {
  }
}
