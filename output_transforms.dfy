/** The output-transform colour spaces and their displays: the shaper each
    output transform is baked through, the colour space created for it, and
    the display entry that shows it. Four generations are covered: the 1.1
    and 1.2 `create_output_transforms`, the 1.0.2 and 1.0.3 `create_ODTs`,
    the 1.0.0 package's `create_ODTs` with its Legal/Full pairs, and the
    root script's loop that pairs only three named ODTs. Transforms are
    given in the order the source sorts them. */
module OutputTransforms {
  import opened Py
  import opened PyStr
  import opened Utilities
  import Dicts
  import opened CtlHeader
  import opened Discovery

  // ---------------------------------------------------------------------
  // Shapers
  // ---------------------------------------------------------------------

  /** The last three pieces of a split, or all of them when fewer. */
  function LastThree(pieces: seq<string>): (r: seq<string>)
    ensures |pieces| >= 3 ==> r == pieces[|pieces| - 3..]
    ensures |pieces| < 3 ==> r == pieces
  {
    if |pieces| <= 3 then pieces else pieces[|pieces| - 3..]
  }

  /** `'Dolby PQ ' + ' '.join(shaper_name.split(' ')[-3:])`. */
  function PqShaperName(shaperName: string): string
  {
    "Dolby PQ " + Join(" ", LastThree(Split(shaperName, ' ')))
  }

  /** The PQ name keeps the last three words of the shaper's name and
      replaces whatever came before them by "Dolby PQ". */
  lemma PqShaperNameShape(head: string, a: string, b: string, c: string)
    requires ' ' !in a && ' ' !in b && ' ' !in c
    ensures PqShaperName(head + " " + a + " " + b + " " + c) == "Dolby PQ " + a + " " + b + " " + c
  {
    var s := head + " " + a + " " + b + " " + c;
    assert s == (head + " " + a + " " + b) + [' '] + c;
    SplitBeforeTail(head + " " + a + " " + b, ' ', c);
    assert head + " " + a + " " + b == (head + " " + a) + [' '] + b;
    SplitBeforeTail(head + " " + a, ' ', b);
    assert head + " " + a == head + [' '] + a;
    SplitBeforeTail(head, ' ', a);
    var pieces := Split(s, ' ');
    assert pieces == Split(head, ' ') + [a] + [b] + [c];
    assert LastThree(pieces) == [a, b, c];
    JoinCons(" ", b, [c]);
    JoinCons(" ", a, [b, c]);
    assert [a] + [b, c] == [a, b, c];
    assert [b] + [c] == [b, c];
  }

  /** `pq_shaper_name.replace('48 nits', '<nits> nits')`. */
  function PqVariant(shaperName: string, nits: string): string
  {
    ReplaceAll(PqShaperName(shaperName), "48 nits", nits + " nits")
  }

  /** The shapers one generation uses. */
  datatype Shapers = Shapers(s48: string, s108: string, s1000: string, s2000: string, s4000: string)

  /** The names one generation looks up in `shaper_data`, in the order it
      looks them up: the configured shaper, then the PQ variants (108 nits
      only from 1.1 on). */
  function RequiredShapers(with108: bool, shaperName: string): (names: seq<string>)
    ensures |names| >= 4 && names[0] == shaperName
  {
    [shaperName]
    + (if with108 then [PqVariant(shaperName, "108")] else [])
    + [PqVariant(shaperName, "1000"), PqVariant(shaperName, "2000"), PqVariant(shaperName, "4000")]
  }

  /** The lookups into `shaper_data` made before the loop; the first name
      missing from the available shapers raises KeyError. Without the
      108-nit variant its slot repeats the configured shaper. */
  function LookupShapers(with108: bool, shaperName: string, available: set<string>): (r: Result<Shapers>)
    ensures r.Ok? <==> forall n :: n in RequiredShapers(with108, shaperName) ==> n in available
    ensures r.Err? ==> exists n :: n in RequiredShapers(with108, shaperName) && n !in available && r.error == KeyError(n)
    ensures r.Ok? ==> r.value.s48 == shaperName && r.value.s1000 == PqVariant(shaperName, "1000") &&
                      r.value.s2000 == PqVariant(shaperName, "2000") && r.value.s4000 == PqVariant(shaperName, "4000") &&
                      r.value.s108 == if with108 then PqVariant(shaperName, "108") else shaperName
  {
    var n108 := PqVariant(shaperName, "108");
    var n1000 := PqVariant(shaperName, "1000");
    var n2000 := PqVariant(shaperName, "2000");
    var n4000 := PqVariant(shaperName, "4000");
    if shaperName !in available then Err(KeyError(shaperName))
    else if with108 && n108 !in available then Err(KeyError(n108))
    else if n1000 !in available then Err(KeyError(n1000))
    else if n2000 !in available then Err(KeyError(n2000))
    else if n4000 !in available then Err(KeyError(n4000))
    else Ok(Shapers(shaperName, if with108 then n108 else shaperName, n1000, n2000, n4000))
  }

  /** The KeyError names the first required shaper, in lookup order, that is
      not available: every shaper looked up before it is. */
  lemma LookupShapersFirstMissing(with108: bool, shaperName: string, available: set<string>)
    ensures var r := LookupShapers(with108, shaperName, available);
            var names := RequiredShapers(with108, shaperName);
            r.Err? ==> exists k :: 0 <= k < |names| && names[k] !in available && r.error == KeyError(names[k]) &&
                                   forall j :: 0 <= j < k ==> names[j] in available
  {
    var r := LookupShapers(with108, shaperName, available);
    var names := RequiredShapers(with108, shaperName);
    var n108, n1000 := PqVariant(shaperName, "108"), PqVariant(shaperName, "1000");
    var n2000, n4000 := PqVariant(shaperName, "2000"), PqVariant(shaperName, "4000");
    var k := if with108 then 2 else 1;
    assert names == [shaperName] + (if with108 then [n108] else []) + [n1000, n2000, n4000];
    if r.Err? {
      if shaperName !in available {
        assert names[0] == shaperName;
      } else if with108 && n108 !in available {
        assert names[1] == n108;
      } else if n1000 !in available {
        assert names[k] == n1000;
      } else if n2000 !in available {
        assert names[k + 1] == n2000;
      } else {
        assert names[k + 2] == n4000;
      }
    }
  }

  /** The substring tests on the user name, in order: '108 nits' (from 1.1
      on), '1000 nits', '2000 nits', '4000 nits', else the 48-nit shaper. */
  function ChooseShaper(with108: bool, shapers: Shapers, userName: string): string
  {
    if with108 && Contains(userName, "108 nits") then shapers.s108
    else if Contains(userName, "1000 nits") then shapers.s1000
    else if Contains(userName, "2000 nits") then shapers.s2000
    else if Contains(userName, "4000 nits") then shapers.s4000
    else shapers.s48
  }

  /** The shaper of an output transform is one of the looked-up ones; the
      48-nit shaper exactly when no nit marker matches (as far as the
      shaper names differ); an earlier marker wins over a later one. */
  lemma ShaperByNits(with108: bool, shapers: Shapers, userName: string)
    ensures var s := ChooseShaper(with108, shapers, userName);
            s in {shapers.s48, shapers.s1000, shapers.s2000, shapers.s4000} ||
            (with108 && s == shapers.s108)
    ensures with108 && Contains(userName, "108 nits") ==> ChooseShaper(with108, shapers, userName) == shapers.s108
    ensures !(with108 && Contains(userName, "108 nits")) && Contains(userName, "1000 nits") ==>
              ChooseShaper(with108, shapers, userName) == shapers.s1000
    ensures (!(with108 && Contains(userName, "108 nits")) && !Contains(userName, "1000 nits") &&
             Contains(userName, "2000 nits")) ==> ChooseShaper(with108, shapers, userName) == shapers.s2000
    ensures (!(with108 && Contains(userName, "108 nits")) && !Contains(userName, "1000 nits") &&
             !Contains(userName, "2000 nits") && Contains(userName, "4000 nits")) ==>
              ChooseShaper(with108, shapers, userName) == shapers.s4000
    ensures (!(with108 && Contains(userName, "108 nits")) && !Contains(userName, "1000 nits") &&
             !Contains(userName, "2000 nits") && !Contains(userName, "4000 nits")) ==>
              ChooseShaper(with108, shapers, userName) == shapers.s48
  {
  }

  /** Before 1.1 a '108 nits' transform falls through to the 48-nit shaper
      unless it also names a larger level. */
  lemma No108Before11(shapers: Shapers, userName: string)
    requires Contains(userName, "108 nits")
    requires !Contains(userName, "1000 nits") && !Contains(userName, "2000 nits") && !Contains(userName, "4000 nits")
    ensures ChooseShaper(false, shapers, userName) == shapers.s48
    ensures ChooseShaper(true, shapers, userName) == shapers.s108
  {
  }

  /** `generate_config`'s choice of the configured shaper. */
  function ConfigShaperName(shaperBaseName: string): (r: string)
    ensures r == "Dolby PQ 48 nits Shaper" <==> shaperBaseName == "DolbyPQ"
    ensures r != "Dolby PQ 48 nits Shaper" ==> r == "Log2 48 nits Shaper"
  {
    if shaperBaseName == "DolbyPQ" then "Dolby PQ 48 nits Shaper" else "Log2 48 nits Shaper"
  }

  /** `"Dolby PQ <nits> nits Shaper"`. */
  function PqNits(nits: string): string
  {
    "Dolby PQ " + nits + " nits Shaper"
  }

  /** Replacing a pattern that occurs once, between two stretches free of
      its first character, replaces just that occurrence. */
  lemma ReplaceOnce(a: string, pat: string, b: string, rep: string)
    requires pat != [] && pat[0] !in a && pat[0] !in b
    ensures ReplaceAll(a + pat + b, pat, rep) == a + rep + b
  {
    assert a + pat + b == a + (pat + b);
    ReplaceSkipsFree(a, pat + b, pat, rep);
    ReplaceAtMatch(pat, b, rep);
    assert b == b + [];
    ReplaceSkipsFree(b, [], pat, rep);
    ReplaceShortUnchanged([], pat, rep);
  }

  /** The PQ variant of a "<head> 48 nits <tail>" shaper is
      "Dolby PQ <n> nits <tail>". */
  lemma PqVariantShape(head: string, tail: string, nits: string)
    requires ' ' !in tail && '4' !in tail
    ensures PqVariant(head + " 48 nits " + tail, nits) == "Dolby PQ " + nits + " nits " + tail
  {
    var level, unit, prefix := "48", "nits", "Dolby PQ ";
    var pat, rep := level + " " + unit, nits + " " + unit;
    assert pat == "48 nits" && rep == nits + " nits";
    assert head + " 48 nits " + tail == head + " " + level + " " + unit + " " + tail;
    PqShaperNameShape(head, level, unit, tail);
    assert prefix + level + " " + unit + " " + tail == prefix + pat + (" " + tail);
    assert '4' !in prefix;
    ReplaceOnce(prefix, pat, " " + tail, rep);
  }

  /** With either configured shaper, the PQ variants the output transforms
      look up are "Dolby PQ <n> nits Shaper". */
  lemma ConfigShaperVariants(shaperBaseName: string, nits: string)
    ensures PqVariant(ConfigShaperName(shaperBaseName), nits) == PqNits(nits)
  {
    var tail := "Shaper";
    assert PqNits(nits) == "Dolby PQ " + nits + " nits " + tail;
    if shaperBaseName == "DolbyPQ" {
      assert ConfigShaperName(shaperBaseName) == "Dolby PQ" + " 48 nits " + tail;
      PqVariantShape("Dolby PQ", tail, nits);
    } else {
      assert ConfigShaperName(shaperBaseName) == "Log2" + " 48 nits " + tail;
      PqVariantShape("Log2", tail, nits);
    }
  }

  // ---------------------------------------------------------------------
  // Output colour spaces
  // ---------------------------------------------------------------------

  /** What an output-transform colour space records: its name, description
      and aliases, the shaper its LUTs are baked through, the `legalRange`
      parameter handed to the CTL render, and the forward and inverse 3D
      LUT file names. */
  datatype OutputSpace = OutputSpace(
    name: string,
    description: string,
    aliases: seq<string>,
    shaper: string,
    legalRange: int,
    lut: string,
    inverseLut: Option<string>)

  /** `create_output_transform` / `create_ACES_RRT_plus_ODT`: the render
      tag is "RRTODT" for an SSTS transform and the generation's RRT tag
      otherwise; the `legalRange` parameter is the entry's value, or 0 when
      the entry has none; the inverse LUT exists iff the entry has an
      inverse CTL; the root script does not sanitise file names. */
  function RrtOdtSpace(tag: string, sanitized: bool, shaper: string, name: string, e: Entry,
                       legalRange: Option<int>, ssts: bool, aliases: seq<string>): (cs: OutputSpace)
    ensures cs.name == name && cs.shaper == shaper && cs.aliases == aliases
    ensures cs.legalRange == if legalRange.Some? then legalRange.value else 0
    ensures cs.inverseLut.Some? <==> e.ctlInverse.Some?
  {
    var render := if ssts then "RRTODT" else tag;
    var forward := shaper + "." + render + "." + name + ".spi3d";
    var inverse := "Inv" + render + "." + name + "." + shaper + ".spi3d";
    OutputSpace(
      name,
      e.names.userNamePrefix + " - " + name + " Output Transform",
      aliases,
      shaper,
      if legalRange.Some? then legalRange.value else 0,
      if sanitized then Sanitize(forward) else forward,
      if e.ctlInverse.Some? then Some(if sanitized then Sanitize(inverse) else inverse) else None)
  }

  /** The views of one display: name -> colour space name. */
  type Views = seq<(string, string)>

  /** `{'<first>': linear, 'Log': log, 'Output Transform': cs}`; the first
      view is 'Raw' from 1.0.2 on and 'Linear' in 1.0.0. */
  function ViewsFor(first: string, linear: string, log: string, name: string): Views
  {
    [(first, linear), ("Log", log), ("Output Transform", name)]
  }

  /** The colour spaces created so far and the displays dictionary. */
  datatype Built = Built(spaces: seq<OutputSpace>, displays: seq<(string, Views)>)

  /** `colorspaces.append(cs); displays[cs.name] = {...}`. */
  function Add(b: Built, cs: OutputSpace, first: string, linear: string, log: string): Built
  {
    Built(b.spaces + [cs], Dicts.Set(b.displays, cs.name, ViewsFor(first, linear, log, cs.name)))
  }

  /** Every display has exactly the three views for its own name, and the
      displays are exactly the names of the colour spaces created. */
  ghost predicate WellDisplayed(b: Built, first: string, linear: string, log: string)
  {
    Dicts.UniqueKeys(b.displays) &&
    (forall i :: 0 <= i < |b.displays| ==> b.displays[i].1 == ViewsFor(first, linear, log, b.displays[i].0)) &&
    (forall n :: Dicts.HasKey(b.displays, n) <==> exists i :: 0 <= i < |b.spaces| && b.spaces[i].name == n)
  }

  /** Adding a colour space keeps the displays well formed. */
  lemma AddKeeps(b: Built, cs: OutputSpace, first: string, linear: string, log: string)
    requires WellDisplayed(b, first, linear, log)
    ensures WellDisplayed(Add(b, cs, first, linear, log), first, linear, log)
  {
    var v := ViewsFor(first, linear, log, cs.name);
    var b' := Add(b, cs, first, linear, log);
    Dicts.SetSpec(b.displays, cs.name, v);
    forall n ensures Dicts.HasKey(b'.displays, n) <==> exists i :: 0 <= i < |b'.spaces| && b'.spaces[i].name == n {
      if n != cs.name {
        assert Dicts.Get(b'.displays, n) == Dicts.Get(b.displays, n);
        if exists i :: 0 <= i < |b'.spaces| && b'.spaces[i].name == n {
          var i :| 0 <= i < |b'.spaces| && b'.spaces[i].name == n;
          assert i < |b.spaces| && b.spaces[i].name == n;
        }
        if exists i :: 0 <= i < |b.spaces| && b.spaces[i].name == n {
          var i :| 0 <= i < |b.spaces| && b.spaces[i].name == n;
          assert b'.spaces[i].name == n;
        }
      } else {
        assert Dicts.Get(b'.displays, n).Some?;
        assert b'.spaces[|b.spaces|].name == n;
      }
    }
  }

  /** The colour spaces and displays after each transform has contributed
      its colour spaces, in order; the first failure ends the loop. */
  function BuildAll(contributions: seq<Result<seq<OutputSpace>>>, first: string, linear: string, log: string): Result<Built>
    decreases |contributions|, 0
  {
    if contributions == [] then Ok(Built([], []))
    else
      var n := |contributions| - 1;
      var b :- BuildAll(contributions[..n], first, linear, log);
      var cs :- contributions[n];
      Ok(AddAll(b, cs, first, linear, log))
  }

  /** One transform's colour spaces added in order. */
  function AddAll(b: Built, cs: seq<OutputSpace>, first: string, linear: string, log: string): Built
    decreases |cs|
  {
    if cs == [] then b
    else Add(AddAll(b, cs[..|cs| - 1], first, linear, log), cs[|cs| - 1], first, linear, log)
  }

  lemma {:induction false} AddAllSpec(b: Built, cs: seq<OutputSpace>, first: string, linear: string, log: string)
    requires WellDisplayed(b, first, linear, log)
    ensures WellDisplayed(AddAll(b, cs, first, linear, log), first, linear, log)
    ensures AddAll(b, cs, first, linear, log).spaces == b.spaces + cs
    decreases |cs|
  {
    if cs != [] {
      var n := |cs| - 1;
      AddAllSpec(b, cs[..n], first, linear, log);
      AddKeeps(AddAll(b, cs[..n], first, linear, log), cs[n], first, linear, log);
      assert b.spaces + cs[..n] + [cs[n]] == b.spaces + cs;
    }
  }

  /** The loop succeeds iff every transform does; its displays are well
      formed and its colour spaces are the contributions in order. */
  lemma {:induction false} BuildAllSpec(contributions: seq<Result<seq<OutputSpace>>>, first: string, linear: string, log: string)
    ensures BuildAll(contributions, first, linear, log).Ok? <==> forall i :: 0 <= i < |contributions| ==> contributions[i].Ok?
    ensures BuildAll(contributions, first, linear, log).Ok? ==>
              var b := BuildAll(contributions, first, linear, log).value;
              WellDisplayed(b, first, linear, log) &&
              (forall i, s :: 0 <= i < |contributions| && s in contributions[i].value ==> s in b.spaces) &&
              (forall s :: s in b.spaces ==> exists i :: 0 <= i < |contributions| && s in contributions[i].value)
    decreases |contributions|
  {
    if contributions != [] {
      var n := |contributions| - 1;
      var prefix := contributions[..n];
      BuildAllSpec(prefix, first, linear, log);
      assert forall i :: 0 <= i < n ==> prefix[i] == contributions[i];
      if BuildAll(contributions, first, linear, log).Ok? {
        var b := BuildAll(prefix, first, linear, log).value;
        AddAllSpec(b, contributions[n].value, first, linear, log);
      }
    }
  }

  /** A failure stays a failure as more transforms are processed. */
  lemma {:induction false} BuildAllErrAt(contributions: seq<Result<seq<OutputSpace>>>, i: nat, j: nat,
                                         first: string, linear: string, log: string)
    requires i < j <= |contributions|
    requires BuildAll(contributions[..i], first, linear, log).Ok? && contributions[i].Err?
    ensures BuildAll(contributions[..j], first, linear, log) == Err(contributions[i].error)
    decreases j
  {
    var prefix := contributions[..j];
    assert prefix[..j - 1] == contributions[..j - 1];
    if j - 1 > i {
      BuildAllErrAt(contributions, i, j - 1, first, linear, log);
    } else {
      assert prefix[j - 1] == contributions[i];
    }
  }

  /** One more transform's colour spaces added after the earlier ones. */
  lemma BuildAllSnoc(contributions: seq<Result<seq<OutputSpace>>>, n: nat, first: string, linear: string, log: string)
    requires n < |contributions|
    requires BuildAll(contributions[..n], first, linear, log).Ok? && contributions[n].Ok?
    ensures BuildAll(contributions[..n + 1], first, linear, log) ==
            Ok(AddAll(BuildAll(contributions[..n], first, linear, log).value, contributions[n].value, first, linear, log))
  {
    assert contributions[..n + 1][..n] == contributions[..n];
  }

  lemma AddAllOne(b: Built, cs: OutputSpace, first: string, linear: string, log: string)
    ensures AddAll(b, [cs], first, linear, log) == Add(b, cs, first, linear, log)
  {
    assert [cs][..0] == [];
  }

  lemma AddAllTwo(b: Built, cs: OutputSpace, cs': OutputSpace, first: string, linear: string, log: string)
    ensures AddAll(b, [cs, cs'], first, linear, log) == Add(Add(b, cs, first, linear, log), cs', first, linear, log)
  {
    assert [cs, cs'][..1] == [cs];
    AddAllOne(b, cs, first, linear, log);
  }

  /** When every transform contributes one colour space, the colour spaces
      are the contributions in order. */
  lemma {:induction false} SinglesInOrder(contributions: seq<Result<seq<OutputSpace>>>, first: string, linear: string, log: string)
    requires forall i :: 0 <= i < |contributions| && contributions[i].Ok? ==> |contributions[i].value| == 1
    ensures var r := BuildAll(contributions, first, linear, log);
            r.Ok? ==> |r.value.spaces| == |contributions| &&
                      forall i :: 0 <= i < |contributions| ==>
                        contributions[i].Ok? && r.value.spaces[i] == contributions[i].value[0]
    decreases |contributions|
  {
    if contributions != [] {
      var n := |contributions| - 1;
      var prefix := contributions[..n];
      assert forall i :: 0 <= i < n ==> prefix[i] == contributions[i];
      SinglesInOrder(prefix, first, linear, log);
      var r := BuildAll(contributions, first, linear, log);
      if r.Ok? {
        var b := BuildAll(prefix, first, linear, log).value;
        BuildAllSpec(prefix, first, linear, log);
        AddAllSpec(b, contributions[n].value, first, linear, log);
      }
    }
  }

  // ---------------------------------------------------------------------
  // 1.1 and 1.2, and the 1.0.2 / 1.0.3 loop as evidently intended
  // ---------------------------------------------------------------------

  /** What distinguishes the single-colour-space generations: the 108-nit
      shaper, the SSTS flag, and the RRT tag in LUT names. */
  datatype OdtStyle = OdtStyle(with108: bool, readsSsts: bool, rrtTag: string)

  /** 1.1 and 1.2 `create_output_transforms`. */
  const OutputTransformsV11 := OdtStyle(true, true, "RRT")
  /** 1.0.3 `create_ODTs`. */
  const OdtsV103 := OdtStyle(false, false, "RRT")
  /** 1.0.2 `create_ODTs`. */
  const OdtsV102 := OdtStyle(false, false, "RRT.a1.0.1")

  /** The colour space of one transform: named by its user name, with the
      alias 'out_<compact name>', `legalRange` 0 on the copy when the
      transform has the full/legal switch, and the shaper its user name
      selects. KeyError for a missing switch or SSTS flag. */
  function OutputContribution(style: OdtStyle, shapers: Shapers, e: Entry): Result<seq<OutputSpace>>
  {
    if e.fullLegal.None? then Err(KeyError("transformHasFullLegalSwitch"))
    else if style.readsSsts && e.ssts.None? then Err(KeyError("transformIsSSTSBased"))
    else
      var name := e.names.userName;
      Ok([RrtOdtSpace(style.rrtTag, true, ChooseShaper(style.with108, shapers, name), name, e,
                      if e.fullLegal.value then Some(0) else None,
                      style.readsSsts && e.ssts.value, ["out_" + Compact(name)])])
  }

  function OutputContributions(style: OdtStyle, shapers: Shapers, transforms: seq<(string, Entry)>): (r: seq<Result<seq<OutputSpace>>>)
    ensures |r| == |transforms|
    ensures forall i :: 0 <= i < |transforms| ==> r[i] == OutputContribution(style, shapers, transforms[i].1)
  {
    seq(|transforms|, i requires 0 <= i < |transforms| => OutputContribution(style, shapers, transforms[i].1))
  }

  /** The whole loop, shaper lookups first. */
  function OutputTransformsOf(style: OdtStyle, shaperName: string, available: set<string>,
                              transforms: seq<(string, Entry)>, linear: string, log: string): Result<Built>
  {
    var shapers :- LookupShapers(style.with108, shaperName, available);
    BuildAll(OutputContributions(style, shapers, transforms), "Raw", linear, log)
  }

  /** `create_output_transforms` (1.1, 1.2), and the 1.0.2 / 1.0.3
      `create_ODTs` with the copy made before `legalRange` is set. */
  method CreateOutputTransforms(style: OdtStyle, shaperName: string, available: set<string>,
                                transforms: seq<(string, Entry)>, linear: string, log: string)
    returns (r: Result<Built>)
    ensures r == OutputTransformsOf(style, shaperName, available, transforms, linear, log)
  {
    var shapers :- LookupShapers(style.with108, shaperName, available);
    ghost var contributions := OutputContributions(style, shapers, transforms);
    var built := Built([], []);
    for i := 0 to |transforms|
      invariant BuildAll(contributions[..i], "Raw", linear, log) == Ok(built)
    {
      assert contributions[..i + 1][..i] == contributions[..i];
      var cs := CreateOutputSpace(style, shapers, transforms[i].1);
      assert contributions[i] == OutputContribution(style, shapers, transforms[i].1);
      if cs.Err? {
        BuildAllErrAt(contributions, i, |transforms|, "Raw", linear, log);
        assert contributions[..|transforms|] == contributions;
        return Err(cs.error);
      }
      BuildAllSnoc(contributions, i, "Raw", linear, log);
      AddAllOne(built, cs.value, "Raw", linear, log);
      built := Add(built, cs.value, "Raw", linear, log);
    }
    assert contributions[..|transforms|] == contributions;
    r := Ok(built);
  }

  /** The body of the `create_output_transforms` loop (aces.py lines
      1703-1733 in 1.2) for one output transform: the flags it reads, the
      shaper its name selects, and its colour space. `OutputContribution` is
      its specification, used by the lemmas. */
  method CreateOutputSpace(style: OdtStyle, shapers: Shapers, values: Entry) returns (r: Result<OutputSpace>)
    ensures r.Err? ==> OutputContribution(style, shapers, values) == Err(r.error)
    ensures r.Ok? ==> OutputContribution(style, shapers, values) == Ok([r.value])
  {
    var name := values.names.userName;
    var aliases := ["out_" + Compact(name)];
    if values.fullLegal.None? {
      return Err(KeyError("transformHasFullLegalSwitch"));
    }
    var legal: Option<int> := None;
    if values.fullLegal.value {
      legal := Some(0);
    }
    var ssts := false;
    if style.readsSsts {
      if values.ssts.None? {
        return Err(KeyError("transformIsSSTSBased"));
      }
      ssts := values.ssts.value;
    }
    var shaper;
    if style.with108 && Contains(name, "108 nits") {
      shaper := shapers.s108;
    } else if Contains(name, "1000 nits") {
      shaper := shapers.s1000;
    } else if Contains(name, "2000 nits") {
      shaper := shapers.s2000;
    } else if Contains(name, "4000 nits") {
      shaper := shapers.s4000;
    } else {
      shaper := shapers.s48;
    }
    r := Ok(RrtOdtSpace(style.rrtTag, true, shaper, name, values, legal, ssts, aliases));
  }

  /** Every output transform gets one colour space and a display whose
      views are exactly 'Raw', 'Log' and 'Output Transform' (showing that
      colour space); the loop fails only for a missing shaper or flag. */
  lemma OutputTransformsDisplayed(style: OdtStyle, shaperName: string, available: set<string>,
                                  transforms: seq<(string, Entry)>, linear: string, log: string)
    requires LookupShapers(style.with108, shaperName, available).Ok?
    ensures var r := OutputTransformsOf(style, shaperName, available, transforms, linear, log);
            (r.Ok? <==> forall i :: 0 <= i < |transforms| ==>
                          transforms[i].1.fullLegal.Some? && (style.readsSsts ==> transforms[i].1.ssts.Some?)) &&
            (r.Ok? ==> WellDisplayed(r.value, "Raw", linear, log) && |r.value.spaces| == |transforms| &&
                       forall n :: Dicts.HasKey(r.value.displays, n) <==>
                                   exists i :: 0 <= i < |transforms| && transforms[i].1.names.userName == n)
  {
    var shapers := LookupShapers(style.with108, shaperName, available).value;
    var contributions := OutputContributions(style, shapers, transforms);
    var names := seq(|transforms|, i requires 0 <= i < |transforms| => transforms[i].1.names.userName);
    forall i | 0 <= i < |transforms| {
      ContributionShape(style, shapers, transforms[i].1);
    }
    SinglesDisplayed(contributions, names, "Raw", linear, log);
    forall n ensures n in names <==> exists i :: 0 <= i < |transforms| && transforms[i].1.names.userName == n {
      if n in names {
        var i :| 0 <= i < |names| && names[i] == n;
      }
      if exists i :: 0 <= i < |transforms| && transforms[i].1.names.userName == n {
        var i :| 0 <= i < |transforms| && transforms[i].1.names.userName == n;
        assert names[i] == n;
      }
    }
  }

  /** Transforms contributing one colour space each, named by `names`: the
      loop succeeds iff all of them do, and then there is one display per
      name. */
  lemma SinglesDisplayed(contributions: seq<Result<seq<OutputSpace>>>, names: seq<string>,
                         first: string, linear: string, log: string)
    requires |contributions| == |names|
    requires forall i :: 0 <= i < |contributions| && contributions[i].Ok? ==>
                         |contributions[i].value| == 1 && contributions[i].value[0].name == names[i]
    ensures var r := BuildAll(contributions, first, linear, log);
            (r.Ok? <==> forall i :: 0 <= i < |contributions| ==> contributions[i].Ok?) &&
            (r.Ok? ==> WellDisplayed(r.value, first, linear, log) && |r.value.spaces| == |names| &&
                       forall n :: Dicts.HasKey(r.value.displays, n) <==> n in names)
  {
    BuildAllSpec(contributions, first, linear, log);
    SinglesInOrder(contributions, first, linear, log);
    var r := BuildAll(contributions, first, linear, log);
    if r.Ok? {
      var b := r.value;
      forall n ensures Dicts.HasKey(b.displays, n) <==> n in names {
        if n in names {
          var i :| 0 <= i < |names| && names[i] == n;
          assert b.spaces[i].name == n;
        }
      }
    }
  }

  /** Whether one output transform succeeds, and the name of its colour
      space. */
  lemma ContributionShape(style: OdtStyle, shapers: Shapers, e: Entry)
    ensures OutputContribution(style, shapers, e).Ok? <==>
              e.fullLegal.Some? && (style.readsSsts ==> e.ssts.Some?)
    ensures OutputContribution(style, shapers, e).Ok? ==>
              |OutputContribution(style, shapers, e).value| == 1 &&
              OutputContribution(style, shapers, e).value[0].name == e.names.userName
  {
    if OutputContribution(style, shapers, e).Ok? {
      LegalRangeParamZero(style, shapers, e);
    }
  }

  /** `legalRange` is 0 on the copy of a switched transform and absent
      otherwise; since the shaper parameters fall back to 0 when it is
      absent, every output transform is rendered with `legalRange` 0. */
  lemma LegalRangeParamZero(style: OdtStyle, shapers: Shapers, e: Entry)
    requires OutputContribution(style, shapers, e).Ok?
    ensures |OutputContribution(style, shapers, e).value| == 1
    ensures OutputContribution(style, shapers, e).value[0].legalRange == 0
    ensures OutputContribution(style, shapers, e).value[0].name == e.names.userName
    ensures OutputContribution(style, shapers, e).value[0].aliases == ["out_" + Compact(e.names.userName)]
    ensures OutputContribution(style, shapers, e).value[0].shaper == ChooseShaper(style.with108, shapers, e.names.userName)
  {
  }

  // ---------------------------------------------------------------------
  // 1.0.2 and 1.0.3 as written
  // ---------------------------------------------------------------------

  /** The 1.0.2 / 1.0.3 loop body as written: `odt_legal['legalRange'] = 0`
      runs before `odt_legal` is bound for the current transform, so a
      switched first transform raises UnboundLocalError, and a switched
      later one changes only the previous transform's copy, which is no
      longer used. The colour space itself never carries `legalRange`. */
  function AsWrittenContribution(style: OdtStyle, shapers: Shapers, e: Entry, first: bool): Result<seq<OutputSpace>>
  {
    if e.fullLegal.None? then Err(KeyError("transformHasFullLegalSwitch"))
    else if e.fullLegal.value && first then Err(UnboundLocalError("odt_legal"))
    else
      var name := e.names.userName;
      Ok([RrtOdtSpace(style.rrtTag, true, ChooseShaper(style.with108, shapers, name), name, e,
                      None, false, ["out_" + Compact(name)])])
  }

  function AsWrittenContributions(style: OdtStyle, shapers: Shapers, transforms: seq<(string, Entry)>): (r: seq<Result<seq<OutputSpace>>>)
    ensures |r| == |transforms|
    ensures forall i :: 0 <= i < |transforms| ==> r[i] == AsWrittenContribution(style, shapers, transforms[i].1, i == 0)
  {
    seq(|transforms|, i requires 0 <= i < |transforms| => AsWrittenContribution(style, shapers, transforms[i].1, i == 0))
  }

  function OdtsAsWrittenOf(style: OdtStyle, shaperName: string, available: set<string>,
                           transforms: seq<(string, Entry)>, linear: string, log: string): Result<Built>
  {
    var shapers :- LookupShapers(style.with108, shaperName, available);
    BuildAll(AsWrittenContributions(style, shapers, transforms), "Raw", linear, log)
  }

  /** The 1.0.2 / 1.0.3 `create_ODTs` loop as written, with `odt_legal`
      unbound until the first iteration assigns it. */
  method CreateOdtsAsWritten(style: OdtStyle, shaperName: string, available: set<string>,
                             transforms: seq<(string, Entry)>, linear: string, log: string)
    returns (r: Result<Built>)
    ensures r == OdtsAsWrittenOf(style, shaperName, available, transforms, linear, log)
  {
    var shapers :- LookupShapers(style.with108, shaperName, available);
    ghost var contributions := AsWrittenContributions(style, shapers, transforms);
    var built := Built([], []);
    var legalBound := false;
    for i := 0 to |transforms|
      invariant legalBound <==> i > 0
      invariant BuildAll(contributions[..i], "Raw", linear, log) == Ok(built)
    {
      assert contributions[..i + 1][..i] == contributions[..i];
      var cs := CreateOdtAsWritten(style, shapers, transforms[i].1, legalBound);
      assert contributions[i] == AsWrittenContribution(style, shapers, transforms[i].1, i == 0);
      if cs.Err? {
        BuildAllErrAt(contributions, i, |transforms|, "Raw", linear, log);
        assert contributions[..|transforms|] == contributions;
        return Err(cs.error);
      }
      legalBound := true;
      BuildAllSnoc(contributions, i, "Raw", linear, log);
      AddAllOne(built, cs.value, "Raw", linear, log);
      built := Add(built, cs.value, "Raw", linear, log);
    }
    assert contributions[..|transforms|] == contributions;
    r := Ok(built);
  }

  /** The body of the 1.0.3 / 1.0.2 ODT loop (aces.py lines 1749-1776 in
      1.0.3) for one output transform; `legalBound` says whether
      `odt_legal` has been bound by an earlier pass. `AsWrittenContribution`
      is its specification, used by the lemmas. */
  method CreateOdtAsWritten(style: OdtStyle, shapers: Shapers, values: Entry, legalBound: bool)
    returns (r: Result<OutputSpace>)
    ensures r.Err? ==> AsWrittenContribution(style, shapers, values, !legalBound) == Err(r.error)
    ensures r.Ok? ==> AsWrittenContribution(style, shapers, values, !legalBound) == Ok([r.value])
  {
    if values.fullLegal.None? {
      return Err(KeyError("transformHasFullLegalSwitch"));
    }
    if values.fullLegal.value && !legalBound {
      return Err(UnboundLocalError("odt_legal"));
    }
    var name := values.names.userName;
    var aliases := ["out_" + Compact(name)];
    var shaper := ChooseShaper(style.with108, shapers, name);
    r := Ok(RrtOdtSpace(style.rrtTag, true, shaper, name, values, None, false, aliases));
  }

  /** As written, a first transform with the full/legal switch makes the
      whole loop fail with UnboundLocalError. */
  lemma FirstSwitchedUnbound(style: OdtStyle, shaperName: string, available: set<string>,
                             transforms: seq<(string, Entry)>, linear: string, log: string)
    requires LookupShapers(style.with108, shaperName, available).Ok?
    requires |transforms| > 0 && transforms[0].1.fullLegal == Some(true)
    ensures OdtsAsWrittenOf(style, shaperName, available, transforms, linear, log) == Err(UnboundLocalError("odt_legal"))
  {
    var shapers := LookupShapers(style.with108, shaperName, available).value;
    var contributions := AsWrittenContributions(style, shapers, transforms);
    assert contributions[..0] == [];
    BuildAllErrAt(contributions, 0, |transforms|, "Raw", linear, log);
    assert contributions[..|transforms|] == contributions;
  }

  /** With the copy made first, the same transforms never raise
      UnboundLocalError: the loop fails only for a missing flag. */
  lemma CopyFirstNeverUnbound(style: OdtStyle, shaperName: string, available: set<string>,
                              transforms: seq<(string, Entry)>, linear: string, log: string)
    requires !style.readsSsts
    requires LookupShapers(style.with108, shaperName, available).Ok?
    requires forall i :: 0 <= i < |transforms| ==> transforms[i].1.fullLegal.Some?
    ensures OutputTransformsOf(style, shaperName, available, transforms, linear, log).Ok?
    ensures var shapers := LookupShapers(style.with108, shaperName, available).value;
            forall i :: 0 <= i < |transforms| ==>
              OutputContribution(style, shapers, transforms[i].1).value[0].legalRange == 0
  {
    OutputTransformsDisplayed(style, shaperName, available, transforms, linear, log);
  }

  /** Past the first transform the as-written loop builds the same colour
      spaces as the corrected one: the lost `legalRange` on the copy is
      the parameter's default anyway. */
  lemma AsWrittenLaterAgree(style: OdtStyle, shapers: Shapers, e: Entry)
    requires !style.readsSsts && e.fullLegal.Some?
    ensures AsWrittenContribution(style, shapers, e, false) == OutputContribution(style, shapers, e)
  {
  }

  // ---------------------------------------------------------------------
  // 1.0.0: Legal and Full pairs
  // ---------------------------------------------------------------------

  /** Which transforms get a Legal/Full pair: the 1.0.0 package asks the
      full/legal switch, the root script a fixed list of ODT names (and
      neither sanitises nor aliases the same way). */
  datatype Pairing = BySwitch | ByName

  const PairedOdts: seq<string> := [
    "Academy.Rec2020_100nits_dim.a1.0.0",
    "Academy.Rec709_100nits_dim.a1.0.0",
    "Academy.Rec709_D60sim_100nits_dim.a1.0.0"]

  /** Whether a transform gets a pair; KeyError for a missing switch. */
  function Paired(pairing: Pairing, key: string, e: Entry): (r: Result<bool>)
    ensures pairing.ByName? ==> r == Ok(key in PairedOdts)
    ensures pairing.BySwitch? ==> (r.Err? <==> e.fullLegal.None?)
    ensures pairing.BySwitch? && r.Ok? ==> r.value == e.fullLegal.value
  {
    match pairing
    case ByName => Ok(key in PairedOdts)
    case BySwitch =>
      if e.fullLegal.None? then Err(KeyError("transformHasFullLegalSwitch")) else Ok(e.fullLegal.value)
  }

  /** One colour space of the pair (or the single one) with its
      `legalRange`, baked through the given shaper. */
  function Variant(pairing: Pairing, shaper: string, name: string, e: Entry, legalRange: int): OutputSpace
  {
    RrtOdtSpace("RRT.a1.0.0", pairing.BySwitch?, shaper, name, e, Some(legalRange), false,
                if pairing.BySwitch? then ["out_" + Compact(name)] else [])
  }

  /** '<user> - Legal' with `legalRange` 1 then '<user> - Full' with
      `legalRange` 0 for a paired transform; '<user>' with 1 otherwise. */
  function PairedContribution(pairing: Pairing, shaper: string, key: string, e: Entry): Result<seq<OutputSpace>>
  {
    var paired :- Paired(pairing, key, e);
    var user := e.names.userName;
    if paired then Ok([Variant(pairing, shaper, user + " - Legal", e, 1), Variant(pairing, shaper, user + " - Full", e, 0)])
    else Ok([Variant(pairing, shaper, user, e, 1)])
  }

  function PairedContributions(pairing: Pairing, shaper: string, transforms: seq<(string, Entry)>): (r: seq<Result<seq<OutputSpace>>>)
    ensures |r| == |transforms|
    ensures forall i :: 0 <= i < |transforms| ==> r[i] == PairedContribution(pairing, shaper, transforms[i].0, transforms[i].1)
  {
    seq(|transforms|, i requires 0 <= i < |transforms| => PairedContribution(pairing, shaper, transforms[i].0, transforms[i].1))
  }

  /** The 1.0.0 package's `create_ODTs` and the root script's ODT loop:
      the first colour space (Legal or plain) and its display, then the Full
      one and its display when the transform is paired. */
  method CreatePairedOdts(pairing: Pairing, shaper: string, transforms: seq<(string, Entry)>, linear: string, log: string)
    returns (r: Result<Built>)
    ensures r == BuildAll(PairedContributions(pairing, shaper, transforms), "Linear", linear, log)
  {
    ghost var contributions := PairedContributions(pairing, shaper, transforms);
    var built := Built([], []);
    for i := 0 to |transforms|
      invariant BuildAll(contributions[..i], "Linear", linear, log) == Ok(built)
    {
      var (key, values) := transforms[i];
      var paired := Paired(pairing, key, values);
      if paired.Err? {
        BuildAllErrAt(contributions, i, |transforms|, "Linear", linear, log);
        assert contributions[..|transforms|] == contributions;
        return Err(paired.error);
      }
      var user := values.names.userName;
      var nameLegal := if paired.value then user + " - Legal" else user;
      var cs := Variant(pairing, shaper, nameLegal, values, 1);
      ghost var before := built;
      built := Add(built, cs, "Linear", linear, log);
      if paired.value {
        var csFull := Variant(pairing, shaper, user + " - Full", values, 0);
        built := Add(built, csFull, "Linear", linear, log);
        assert contributions[i] == Ok([cs, csFull]);
        BuildAllSnoc(contributions, i, "Linear", linear, log);
        AddAllTwo(before, cs, csFull, "Linear", linear, log);
      } else {
        assert contributions[i] == Ok([cs]);
        BuildAllSnoc(contributions, i, "Linear", linear, log);
        AddAllOne(before, cs, "Linear", linear, log);
      }
    }
    assert contributions[..|transforms|] == contributions;
    r := Ok(built);
  }

  /** A paired transform yields '<user> - Legal' with `legalRange` 1 and
      '<user> - Full' with `legalRange` 0, whose LUT files never coincide;
      an unpaired one yields '<user>' with `legalRange` 1. */
  lemma PairedVariants(pairing: Pairing, shaper: string, key: string, e: Entry)
    requires PairedContribution(pairing, shaper, key, e).Ok?
    ensures var cs := PairedContribution(pairing, shaper, key, e).value;
            var user := e.names.userName;
            if Paired(pairing, key, e).value then
              |cs| == 2 && cs[0].name == user + " - Legal" && cs[0].legalRange == 1 &&
              cs[1].name == user + " - Full" && cs[1].legalRange == 0 &&
              cs[0].lut != cs[1].lut &&
              (e.ctlInverse.Some? ==> cs[0].inverseLut.value != cs[1].inverseLut.value)
            else
              |cs| == 1 && cs[0].name == user && cs[0].legalRange == 1
  {
    var user := e.names.userName;
    if Paired(pairing, key, e).value {
      var legal := Variant(pairing, shaper, user + " - Legal", e, 1);
      var full := Variant(pairing, shaper, user + " - Full", e, 0);
      assert |legal.lut| == |full.lut| + 1;
      if e.ctlInverse.Some? {
        assert |legal.inverseLut.value| == |full.inverseLut.value| + 1;
      }
    }
  }

  /** Every colour space gets a display with the views 'Linear', 'Log' and
      'Output Transform'; the root script pairs exactly the three listed
      ODTs and never fails. */
  lemma PairedDisplayed(pairing: Pairing, shaper: string, transforms: seq<(string, Entry)>, linear: string, log: string)
    ensures var r := BuildAll(PairedContributions(pairing, shaper, transforms), "Linear", linear, log);
            (pairing.ByName? ==> r.Ok?) &&
            (r.Ok? <==> pairing.ByName? || forall i :: 0 <= i < |transforms| ==> transforms[i].1.fullLegal.Some?) &&
            (r.Ok? ==> WellDisplayed(r.value, "Linear", linear, log))
  {
    BuildAllSpec(PairedContributions(pairing, shaper, transforms), "Linear", linear, log);
  }
}
