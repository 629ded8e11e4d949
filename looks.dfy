/** Integrating looks into the displays and views: `add_looks_to_views`
    (1.2 and 1.0.2 `generate_config.py`) and `integrate_looks_into_views`
    (1.0.0 `aces_config.py`), which behave alike. */
module Looks {
  import opened Py
  import opened PyStr
  import opened Utilities
  import Dicts
  import opened Data

  const OutputTransform: string := "Output Transform"

  /** `{'type': 'look', 'look': look, 'src': reference, 'dst': reference,
      'direction': direction}`. */
  function LookDesc(look: string, reference: string, direction: string): Desc
  {
    map["type" := Str("look"), "look" := Str(look), "src" := Str(reference),
        "dst" := Str(reference), "direction" := Str(direction)]
  }

  /** The looks in the given order, applied forwards. */
  function ForwardLooks(names: seq<string>, reference: string): seq<Desc>
  {
    seq(|names|, i requires 0 <= i < |names| => LookDesc(names[i], reference, "forward"))
  }

  /** The looks in reverse order, inverted. */
  function InverseLooks(names: seq<string>, reference: string): seq<Desc>
  {
    seq(|names|, i requires 0 <= i < |names| => LookDesc(names[|names| - 1 - i], reference, "inverse"))
  }

  /** The to-reference chain undoes the from-reference chain: its i-th step
      is the inverse of the forward chain's step counted from the end. */
  lemma InverseUndoesForward(names: seq<string>, reference: string, i: nat)
    requires i < |names|
    ensures InverseLooks(names, reference)[i] ==
              ForwardLooks(names, reference)[|names| - 1 - i]["direction" := Str("inverse")]
  {
  }

  /** `list.insert(i, x)` for i >= 0: past the end it appends. */
  function ListInsert<T>(l: seq<T>, i: nat, x: T): (r: seq<T>)
    ensures |r| == |l| + 1
    ensures i <= |l| ==> r[i] == x && r[..i] == l[..i] && r[i + 1..] == l[i..]
    ensures i > |l| ==> r == l + [x]
  {
    if i <= |l| then l[..i] + [x] + l[i..] else l + [x]
  }

  /** `'{0} with {1}'.format(name, ', '.join(names))`. */
  function LookedName(name: string, names: seq<string>): string
  {
    name + " with " + Join(", ", names)
  }

  /** The copy of an output colour space that incorporates the looks: the
      looks run forwards ahead of a non-empty from-reference chain, their
      inverses run in reverse order after a non-empty to-reference chain,
      the name lists the looks and the only alias is its compacted form;
      nothing else differs from the original. */
  function LookedCopy(cs: ColorSpace, names: seq<string>, reference: string): (c: ColorSpace)
    ensures c.name == LookedName(cs.name, names)
    ensures c.aliases == ["out_" + Compact(c.name)]
    ensures cs.fromReference != [] ==> c.fromReference == ForwardLooks(names, reference) + cs.fromReference
    ensures cs.toReference != [] ==> c.toReference == cs.toReference + InverseLooks(names, reference)
    ensures cs.fromReference == [] ==> c.fromReference == []
    ensures cs.toReference == [] ==> c.toReference == []
    ensures c.(name := cs.name, aliases := cs.aliases, fromReference := cs.fromReference,
               toReference := cs.toReference) == cs
  {
    var name := LookedName(cs.name, names);
    cs.(name := name, aliases := ["out_" + Compact(name)],
        fromReference := if cs.fromReference != [] then ForwardLooks(names, reference) + cs.fromReference else [],
        toReference := if cs.toReference != [] then cs.toReference + InverseLooks(names, reference) else [])
  }

  predicate Distinct(s: seq<string>)
  {
    forall i, j :: 0 <= i < j < |s| ==> s[i] != s[j]
  }

  /** `if name not in looks: looks.append(name)` for each name in turn. */
  function AddNew(looks: seq<string>, names: seq<string>): (r: seq<string>)
    ensures |looks| <= |r| && r[..|looks|] == looks
    ensures forall x :: x in r <==> x in looks || x in names
    ensures Distinct(looks) ==> Distinct(r)
    decreases |names|
  {
    if names == [] then looks
    else
      var init := AddNew(looks, names[..|names| - 1]);
      var x := names[|names| - 1];
      assert names == names[..|names| - 1] + [x];
      if x in init then init else init + [x]
  }

  /** Names already present are not added again. */
  lemma {:induction false} AddNewPresent(looks: seq<string>, names: seq<string>)
    requires forall x :: x in names ==> x in looks
    ensures AddNew(looks, names) == looks
    decreases |names|
  {
    if names != [] {
      AddNewPresent(looks, names[..|names| - 1]);
    }
  }

  /** Adding the same looks for a second display changes nothing. */
  lemma AddNewIdempotent(looks: seq<string>, names: seq<string>)
    ensures AddNew(AddNew(looks, names), names) == AddNew(looks, names)
  {
    AddNewPresent(AddNew(looks, names), names);
  }

  /** The view list of one display after the looks are integrated: when it
      has an 'Output Transform' view, a view 'Output Transform with <names>'
      shows the looked copy of that view's colour space. */
  function UpdatedViews(views: ViewList, names: seq<string>, reference: string): ViewList
  {
    match Dicts.Get(views, OutputTransform)
    case None => views
    case Some(cs) => Dicts.Set(views, "Output Transform with " + Join(", ", names), LookedCopy(cs, names, reference))
  }

  /** The new view is added (or redirected), the original 'Output
      Transform' view and every other view keep their colour space, and view
      names stay distinct. */
  lemma UpdatedViewsSpec(views: ViewList, names: seq<string>, reference: string)
    requires Dicts.UniqueKeys(views)
    ensures Dicts.UniqueKeys(UpdatedViews(views, names, reference))
    ensures Dicts.HasKey(views, OutputTransform) ==>
              Dicts.Get(UpdatedViews(views, names, reference), "Output Transform with " + Join(", ", names)) ==
                Some(LookedCopy(Dicts.Get(views, OutputTransform).value, names, reference))
    ensures forall v :: v != "Output Transform with " + Join(", ", names) ==>
              Dicts.Get(UpdatedViews(views, names, reference), v) == Dicts.Get(views, v)
  {
    var key := "Output Transform with " + Join(", ", names);
    match Dicts.Get(views, OutputTransform)
    case None =>
    case Some(cs) =>
      Dicts.SetSpec(views, key, LookedCopy(cs, names, reference));
  }

  /** The looked copies, one per display with an 'Output Transform' view,
      in display order. */
  function Copies(displays: Displays, names: seq<string>, reference: string): seq<ColorSpace>
    decreases |displays|
  {
    if displays == [] then []
    else
      var init := Copies(displays[..|displays| - 1], names, reference);
      match Dicts.Get(displays[|displays| - 1].1, OutputTransform)
      case None => init
      case Some(cs) => init + [LookedCopy(cs, names, reference)]
  }

  predicate HasOutput(displays: Displays)
  {
    exists d :: 0 <= d < |displays| && Dicts.HasKey(displays[d].1, OutputTransform)
  }

  /** `[look[0] for look in looks]`, IndexError on an empty look entry. */
  function LookNames(looks: seq<seq<string>>): (r: Result<seq<string>>)
    ensures r.Ok? <==> forall i :: 0 <= i < |looks| ==> looks[i] != []
    ensures r.Ok? ==> |r.value| == |looks| && forall i :: 0 <= i < |looks| ==> r.value[i] == looks[i][0]
    ensures r.Err? ==> r.error == IndexError
    decreases |looks|
  {
    if looks == [] then Ok([])
    else if looks[0] == [] then Err(IndexError)
    else
      var rest :- LookNames(looks[1..]);
      assert forall i :: 1 <= i < |looks| ==> looks[i] == looks[1..][i - 1];
      Ok([looks[0][0]] + rest)
  }

  /** The from-reference chain after i looks: those looks, forwards, ahead
      of the original chain when it is non-empty. */
  function FromAfter(orig: seq<Desc>, names: seq<string>, reference: string): seq<Desc>
  {
    if orig != [] then ForwardLooks(names, reference) + orig else []
  }

  /** The to-reference chain after i looks. */
  function ToAfter(orig: seq<Desc>, names: seq<string>, i: nat, reference: string): seq<Desc>
    requires i <= |names|
  {
    if orig != [] then orig + InverseLooks(names, reference)[..i] else []
  }

  lemma FromStep(orig: seq<Desc>, names: seq<string>, i: nat, reference: string)
    requires i < |names| && orig != []
    ensures ListInsert(FromAfter(orig, names[..i], reference), i, LookDesc(names[i], reference, "forward")) ==
              FromAfter(orig, names[..i + 1], reference)
  {
    var look := LookDesc(names[i], reference, "forward");
    var l := FromAfter(orig, names[..i], reference);
    assert ForwardLooks(names[..i + 1], reference) == ForwardLooks(names[..i], reference) + [look];
    assert l[..i] == ForwardLooks(names[..i], reference);
    assert l[i..] == orig;
  }

  lemma ToStep(orig: seq<Desc>, names: seq<string>, i: nat, reference: string)
    requires i < |names| && orig != []
    ensures ToAfter(orig, names, i, reference) + [LookDesc(names[|names| - 1 - i], reference, "inverse")] ==
              ToAfter(orig, names, i + 1, reference)
  {
    assert InverseLooks(names, reference)[..i + 1] ==
             InverseLooks(names, reference)[..i] + [LookDesc(names[|names| - 1 - i], reference, "inverse")];
  }

  /** The loop over the looks for one 'Output Transform' colour space:
      builds the copy's chains step by step and records each look name
      once. */
  method IntegrateLooks(data: ConfigData, cs: ColorSpace, names: seq<string>, reference: string)
    returns (c: ColorSpace)
    modifies data`looks
    ensures c == LookedCopy(cs, names, reference)
    ensures data.looks == AddNew(old(data.looks), names)
  {
    var from, to := cs.fromReference, cs.toReference;
    for i := 0 to |names|
      invariant from == FromAfter(cs.fromReference, names[..i], reference)
      invariant to == ToAfter(cs.toReference, names, i, reference)
      invariant data.looks == AddNew(old(data.looks), names[..i])
    {
      if from != [] {
        FromStep(cs.fromReference, names, i, reference);
        from := ListInsert(from, i, LookDesc(names[i], reference, "forward"));
      }
      if to != [] {
        ToStep(cs.toReference, names, i, reference);
        to := to + [LookDesc(names[|names| - 1 - i], reference, "inverse")];
      }
      assert names[..i + 1] == names[..i] + [names[i]];
      if names[i] !in data.looks {
        data.looks := data.looks + [names[i]];
      }
    }
    assert names[..|names|] == names;
    assert InverseLooks(names, reference)[..|names|] == InverseLooks(names, reference);
    var name := LookedName(cs.name, names);
    c := cs.(name := name, aliases := ["out_" + Compact(name)], fromReference := from, toReference := to);
  }

  /** The state after the first d displays have been processed. */
  predicate Stage(displays: Displays, colorSpaces: seq<ColorSpace>, looks: seq<string>,
                  before: Displays, d: nat, names: seq<string>, reference: string,
                  colorSpaces0: seq<ColorSpace>, looks0: seq<string>)
  {
    d <= |before| && |displays| == |before| &&
    (forall e :: 0 <= e < d ==> displays[e] == (before[e].0, UpdatedViews(before[e].1, names, reference))) &&
    (forall e :: d <= e < |before| ==> displays[e] == before[e]) &&
    colorSpaces == colorSpaces0 + Copies(before[..d], names, reference) &&
    looks == (if HasOutput(before[..d]) then AddNew(looks0, names) else looks0) &&
    Dicts.Keys(displays) == Dicts.Keys(before) &&
    ValidDisplays(displays)
  }

  /** The copies and looks after one more display. */
  function NextColorSpaces(colorSpaces: seq<ColorSpace>, views: ViewList, names: seq<string>, reference: string): seq<ColorSpace>
  {
    match Dicts.Get(views, OutputTransform)
    case None => colorSpaces
    case Some(cs) => colorSpaces + [LookedCopy(cs, names, reference)]
  }

  function NextLooks(looks: seq<string>, views: ViewList, names: seq<string>): seq<string>
  {
    if Dicts.HasKey(views, OutputTransform) then AddNew(looks, names) else looks
  }

  lemma StageStepDisplays(displays: Displays, before: Displays, d: nat, names: seq<string>, reference: string)
    requires d < |before| && |displays| == |before|
    requires forall e :: 0 <= e < d ==> displays[e] == (before[e].0, UpdatedViews(before[e].1, names, reference))
    requires forall e :: d <= e < |before| ==> displays[e] == before[e]
    requires Dicts.Keys(displays) == Dicts.Keys(before) && ValidDisplays(displays)
    ensures var next := displays[d := (displays[d].0, UpdatedViews(displays[d].1, names, reference))];
            (forall e :: 0 <= e < d + 1 ==> next[e] == (before[e].0, UpdatedViews(before[e].1, names, reference))) &&
            (forall e :: d + 1 <= e < |before| ==> next[e] == before[e]) &&
            Dicts.Keys(next) == Dicts.Keys(before) && ValidDisplays(next)
  {
    var next := displays[d := (displays[d].0, UpdatedViews(displays[d].1, names, reference))];
    UpdatedViewsSpec(displays[d].1, names, reference);
    assert Dicts.Keys(next) == Dicts.Keys(displays);
  }

  lemma StageStep(displays: Displays, colorSpaces: seq<ColorSpace>, looks: seq<string>,
                  before: Displays, d: nat, names: seq<string>, reference: string,
                  colorSpaces0: seq<ColorSpace>, looks0: seq<string>)
    requires d < |before|
    requires Stage(displays, colorSpaces, looks, before, d, names, reference, colorSpaces0, looks0)
    ensures Stage(displays[d := (displays[d].0, UpdatedViews(displays[d].1, names, reference))],
                  NextColorSpaces(colorSpaces, displays[d].1, names, reference),
                  NextLooks(looks, displays[d].1, names),
                  before, d + 1, names, reference, colorSpaces0, looks0)
  {
    assert displays[d] == before[d];
    StageStepDisplays(displays, before, d, names, reference);
    CopiesStep(before, d, names, reference);
    var copies := Copies(before[..d], names, reference);
    assert NextColorSpaces(colorSpaces0 + copies, before[d].1, names, reference) ==
           colorSpaces0 + NextColorSpaces(copies, before[d].1, names, reference);
    LooksStep(before, d, names, looks0);
  }

  lemma CopiesStep(before: Displays, d: nat, names: seq<string>, reference: string)
    requires d < |before|
    ensures Copies(before[..d + 1], names, reference) ==
              NextColorSpaces(Copies(before[..d], names, reference), before[d].1, names, reference)
  {
    assert before[..d + 1][..d] == before[..d];
  }

  lemma LooksStep(before: Displays, d: nat, names: seq<string>, looks0: seq<string>)
    requires d < |before|
    ensures NextLooks(if HasOutput(before[..d]) then AddNew(looks0, names) else looks0, before[d].1, names) ==
              (if HasOutput(before[..d + 1]) then AddNew(looks0, names) else looks0)
  {
    HasOutputSnoc(before, d);
    if HasOutput(before[..d]) {
      AddNewIdempotent(looks0, names);
    }
  }

  /** One pass of the outer loop: the display at index d gains the view of
      its looked copy, the copy joins the colour spaces and the look names
      are recorded, when it has an 'Output Transform' view. */
  method IntegrateDisplay(data: ConfigData, d: nat, names: seq<string>, reference: string)
    requires d < |data.displays|
    modifies data
    ensures data.displays == old(data.displays)[d := (old(data.displays)[d].0, UpdatedViews(old(data.displays)[d].1, names, reference))]
    ensures data.colorSpaces == NextColorSpaces(old(data.colorSpaces), old(data.displays)[d].1, names, reference)
    ensures data.looks == NextLooks(old(data.looks), old(data.displays)[d].1, names)
  {
    var display := data.displays[d].0;
    var views := data.displays[d].1;
    ghost var views0 := views;
    var output := Dicts.Get(views, OutputTransform);
    if output.Some? {
      assert Dicts.HasKey(views0, OutputTransform);
      var copy := IntegrateLooks(data, output.value, names, reference);
      assert NextColorSpaces(old(data.colorSpaces), views0, names, reference) == old(data.colorSpaces) + [copy];
      data.colorSpaces := data.colorSpaces + [copy];
      views := Dicts.Set(views, "Output Transform with " + Join(", ", names), copy);
      assert views == UpdatedViews(views0, names, reference);
      data.displays := data.displays[d := (display, views)];
    } else {
      assert !Dicts.HasKey(views0, OutputTransform);
      assert UpdatedViews(views0, names, reference) == views0;
      assert data.displays[d := (display, views0)] == data.displays;
    }
  }

  /** `config_data['looks'].append(name)` for each name. */
  method AppendLooks(data: ConfigData, names: seq<string>)
    modifies data`looks
    ensures data.looks == old(data.looks) + names
  {
    for i := 0 to |names|
      invariant data.looks == old(data.looks) + names[..i]
    {
      assert names[..i + 1] == names[..i] + [names[i]];
      data.looks := data.looks + [names[i]];
    }
    assert names[..|names|] == names;
  }

  /** `add_looks_to_views(looks, reference_name, config_data,
      multiple_displays)`. With several displays the look names are simply
      appended to the looks list. Otherwise every display with an 'Output
      Transform' view gains a view showing the looked copy of its colour
      space, the copies are appended to the colour spaces in display order,
      and each look name is recorded once. */
  method AddLooksToViews(data: ConfigData, looks: seq<seq<string>>, reference: string, multipleDisplays: bool)
    returns (r: Result<()>)
    requires data.Valid()
    modifies data
    ensures data.Valid()
    ensures r.Err? <==> exists i :: 0 <= i < |looks| && looks[i] == []
    ensures r.Err? ==> r.error == IndexError && data.looks == old(data.looks) &&
                       data.displays == old(data.displays) && data.colorSpaces == old(data.colorSpaces)
    ensures r.Ok? && multipleDisplays ==>
              data.looks == old(data.looks) + LookNames(looks).value &&
              data.displays == old(data.displays) && data.colorSpaces == old(data.colorSpaces)
    ensures r.Ok? && !multipleDisplays ==>
              var names := LookNames(looks).value;
              |data.displays| == |old(data.displays)| &&
              (forall d :: 0 <= d < |data.displays| ==>
                 data.displays[d] == (old(data.displays)[d].0, UpdatedViews(old(data.displays)[d].1, names, reference))) &&
              data.colorSpaces == old(data.colorSpaces) + Copies(old(data.displays), names, reference) &&
              data.looks == (if HasOutput(old(data.displays)) then AddNew(old(data.looks), names) else old(data.looks))
  {
    var lookNames := LookNames(looks);
    if lookNames.Err? {
      return Err(lookNames.error);
    }
    var names := lookNames.value;
    if multipleDisplays {
      AppendLooks(data, names);
      return Ok(());
    }
    ghost var before := data.displays;
    assert before[..0] == [];
    var count := |data.displays|;
    for d := 0 to count
      invariant Stage(data.displays, data.colorSpaces, data.looks, before, d, names, reference,
                      old(data.colorSpaces), old(data.looks))
    {
      StageStep(data.displays, data.colorSpaces, data.looks, before, d, names, reference,
                old(data.colorSpaces), old(data.looks));
      IntegrateDisplay(data, d, names, reference);
    }
    assert before[..|before|] == before;
    return Ok(());
  }

  lemma HasOutputSnoc(displays: Displays, d: nat)
    requires d < |displays|
    ensures HasOutput(displays[..d + 1]) <==>
              HasOutput(displays[..d]) || Dicts.HasKey(displays[d].1, OutputTransform)
  {
    var p := displays[..d + 1];
    if HasOutput(p) && !Dicts.HasKey(displays[d].1, OutputTransform) {
      var e :| 0 <= e < |p| && Dicts.HasKey(p[e].1, OutputTransform);
      assert displays[..d][e] == p[e];
    }
    if HasOutput(displays[..d]) {
      var e :| 0 <= e < d && Dicts.HasKey(displays[..d][e].1, OutputTransform);
      assert p[e] == displays[..d][e];
    }
    if Dicts.HasKey(displays[d].1, OutputTransform) {
      assert p[d] == displays[d];
    }
  }
}
