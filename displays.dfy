/** Declaring displays and views in `create_config`: the generic setup of
    the 1.0.0 scripts, the multiple-display setup with looks of 1.2, 1.0.2
    and 1.0.0 `aces_config.py`, their single-display ('ACES') setup for
    graphical applications, and the two Nuke setups. */
module DisplayViews {
  import opened Py
  import opened PyStr
  import opened Sorting
  import opened Utilities
  import Dicts
  import opened Ocio
  import opened Data
  import opened Looks
  import Roles

  type Key = (string, string)
  type Entry = (Key, ViewTarget)

  // ---------------------------------------------------------------------
  // Successive `config.addDisplay` calls
  // ---------------------------------------------------------------------

  /** The config's views after `addDisplay` for each entry in turn. */
  function SetAll(views: seq<Entry>, entries: seq<Entry>): seq<Entry>
    decreases |entries|
  {
    if entries == [] then views
    else
      var last := entries[|entries| - 1];
      Dicts.Set(SetAll(views, entries[..|entries| - 1]), last.0, last.1)
  }

  /** The target of the last entry with key k, or `dflt` when there is none. */
  function LastValue(entries: seq<Entry>, k: Key, dflt: Option<ViewTarget>): (r: Option<ViewTarget>)
    ensures r != dflt ==> r.Some? && exists i :: 0 <= i < |entries| && entries[i] == (k, r.value)
    decreases |entries|
  {
    if entries == [] then dflt
    else if entries[|entries| - 1].0 == k then Some(entries[|entries| - 1].1)
    else LastValue(entries[..|entries| - 1], k, dflt)
  }

  /** Each view ends up on the target of its last `addDisplay`, and views
      nobody named keep their target. */
  lemma {:induction false} SetAllSpec(views: seq<Entry>, entries: seq<Entry>)
    requires Dicts.UniqueKeys(views)
    ensures Dicts.UniqueKeys(SetAll(views, entries))
    ensures forall k :: Dicts.Get(SetAll(views, entries), k) == LastValue(entries, k, Dicts.Get(views, k))
    decreases |entries|
  {
    if entries != [] {
      var init := entries[..|entries| - 1];
      var last := entries[|entries| - 1];
      SetAllSpec(views, init);
      Dicts.SetSpec(SetAll(views, init), last.0, last.1);
    }
  }

  lemma SetAllSnoc(views: seq<Entry>, entries: seq<Entry>, e: Entry)
    ensures SetAll(views, entries + [e]) == Dicts.Set(SetAll(views, entries), e.0, e.1)
  {
    assert (entries + [e])[..|entries|] == entries;
  }

  lemma {:induction false} SetAllAppend(views: seq<Entry>, a: seq<Entry>, b: seq<Entry>)
    ensures SetAll(views, a + b) == SetAll(SetAll(views, a), b)
    decreases |b|
  {
    if b == [] {
      assert a + b == a;
    } else {
      var init := b[..|b| - 1];
      assert a + b == (a + init) + [b[|b| - 1]];
      SetAllSnoc(views, a + init, b[|b| - 1]);
      SetAllAppend(views, a, init);
      SetAllSnoc(SetAll(views, a), init, b[|b| - 1]);
      assert b == init + [b[|b| - 1]];
    }
  }

  lemma {:induction false} LastValueAppend(a: seq<Entry>, b: seq<Entry>, k: Key, dflt: Option<ViewTarget>)
    ensures LastValue(a + b, k, dflt) == LastValue(b, k, LastValue(a, k, dflt))
    decreases |b|
  {
    if b == [] {
      assert a + b == a;
    } else {
      var init := b[..|b| - 1];
      assert (a + b)[..|a + b| - 1] == a + init;
      LastValueAppend(a, init, k, dflt);
    }
  }

  /** Entries that never name k leave it alone. */
  lemma {:induction false} LastValueOther(entries: seq<Entry>, k: Key, dflt: Option<ViewTarget>)
    requires forall i :: 0 <= i < |entries| ==> entries[i].0 != k
    ensures LastValue(entries, k, dflt) == dflt
    decreases |entries|
  {
    if entries != [] {
      LastValueOther(entries[..|entries| - 1], k, dflt);
    }
  }

  lemma {:induction false} AddNewAppend(looks: seq<string>, a: seq<string>, b: seq<string>)
    ensures AddNew(looks, a + b) == AddNew(AddNew(looks, a), b)
    decreases |b|
  {
    if b == [] {
      assert a + b == a;
    } else {
      var init := b[..|b| - 1];
      assert (a + b)[..|a + b| - 1] == a + init;
      assert (a + b)[|a + b| - 1] == b[|b| - 1];
      AddNewAppend(looks, a, init);
    }
  }

  // ---------------------------------------------------------------------
  // The setups
  // ---------------------------------------------------------------------

  /** How one (display, view, colour space) of `config_data['displays']`
      becomes `addDisplay` calls and an entry of the active views:
      - Generic: the same display and view (1.0.0 scripts);
      - WithLooks: the same display and view, plus a view with the looks for
        'Output Transform' views (1.2, 1.0.2, 1.0.0 `aces_config.py`);
      - NukeView: only 'Output Transform', renamed 'View' (first 1.0.0 script);
      - SingleNuke: only 'Output Transform', as the view named after its
        display on the display 'ACES' (1.0.0 `create_aces_config.py`);
      - Gui: every view naming 'Output Transform', as a view named after
        its display without parentheses on the display 'ACES'. */
  datatype Mode = Generic | WithLooks(looks: string) | NukeView | SingleNuke | Gui(lookNames: string)

  const SingleDisplay: string := "ACES"

  /** `replace(display, {')': '', '(': ''})`. */
  function Unparenthesised(display: string): (r: string)
    ensures r == FilterOut(display, {'(', ')'})
    ensures forall i :: 0 <= i < |r| ==> r[i] != '(' && r[i] != ')'
  {
    var pairs := [(")", ""), ("(", "")];
    var a := ReplaceAll(display, [')'], []);
    var b := ReplaceAll(a, ['('], []);
    assert ReplaceSeq(display, pairs) == b by {
      assert pairs[1..][1..] == [];
      assert ReplaceSeq(display, pairs) == ReplaceSeq(a, pairs[1..]);
      assert ReplaceSeq(a, pairs[1..]) == ReplaceSeq(b, []);
    }
    ReplaceCharIsDelete(display, ')');
    ReplaceCharIsDelete(a, '(');
    FilterOutTwice(display, ')', '(');
    assert {')', '('} == {'(', ')'};
    FilterOutMembers(display, {'(', ')'});
    ReplaceSeq(display, pairs)
  }

  lemma {:induction false} FilterOutTwice(s: string, a: char, b: char)
    ensures FilterOut(FilterOut(s, {a}), {b}) == FilterOut(s, {a, b})
    decreases |s|
  {
    if s != [] {
      FilterOutTwice(s[1..], a, b);
      FilterOutConcat(if s[0] in {a} then [] else [s[0]], FilterOut(s[1..], {a}), {b});
    }
  }

  /** The single-display view name of a display's 'Output Transform' view. */
  function GuiViewName(display: string, view: string, lookNames: string): string
  {
    if Contains(view, "with") then Unparenthesised(display) + " with " + lookNames
    else Unparenthesised(display)
  }

  /** The `addDisplay` calls made for one view. */
  function ViewEntries(mode: Mode, display: string, view: string, csName: string): seq<Entry>
  {
    match mode
    case Generic => [((display, view), ViewTarget(csName, ""))]
    case WithLooks(looks) =>
      [((display, view), ViewTarget(csName, looks))] +
      if Contains(view, OutputTransform) && looks != "" then
        [((display, view), ViewTarget(csName, "")), ((display, view + " with " + looks), ViewTarget(csName, looks))]
      else
        [((display, view), ViewTarget(csName, ""))]
    case NukeView =>
      if view == OutputTransform then [((display, "View"), ViewTarget(csName, ""))] else []
    case SingleNuke =>
      if view == OutputTransform then [((SingleDisplay, display), ViewTarget(csName, ""))] else []
    case Gui(lookNames) =>
      if Contains(view, OutputTransform) then [((SingleDisplay, GuiViewName(display, view, lookNames)), ViewTarget(csName, ""))]
      else []
  }

  /** The name offered to the active views for one view, if any. */
  function Listed(mode: Mode, display: string, view: string): seq<string>
  {
    match mode
    case Generic => [view]
    case WithLooks(_) => [view]
    case NukeView => if view == OutputTransform then ["View"] else []
    case SingleNuke => if view == OutputTransform then [display] else []
    case Gui(lookNames) => if Contains(view, OutputTransform) then [GuiViewName(display, view, lookNames)] else []
  }

  function DisplayEntries(mode: Mode, display: string, views: ViewList): seq<Entry>
    decreases |views|
  {
    if views == [] then []
    else
      var last := views[|views| - 1];
      DisplayEntries(mode, display, views[..|views| - 1]) + ViewEntries(mode, display, last.0, last.1.name)
  }

  function DisplayListed(mode: Mode, display: string, views: ViewList): seq<string>
    decreases |views|
  {
    if views == [] then []
    else DisplayListed(mode, display, views[..|views| - 1]) + Listed(mode, display, views[|views| - 1].0)
  }

  function AllEntries(mode: Mode, displays: Displays): seq<Entry>
    decreases |displays|
  {
    if displays == [] then []
    else
      var last := displays[|displays| - 1];
      AllEntries(mode, displays[..|displays| - 1]) + DisplayEntries(mode, last.0, last.1)
  }

  function AllListed(mode: Mode, displays: Displays): seq<string>
    decreases |displays|
  {
    if displays == [] then []
    else
      var last := displays[|displays| - 1];
      AllListed(mode, displays[..|displays| - 1]) + DisplayListed(mode, last.0, last.1)
  }

  // ---------------------------------------------------------------------
  // The loops
  // ---------------------------------------------------------------------

  /** One view: its `addDisplay` calls and `if not name in views:
      views.append(name)`. */
  method AddView(config: Config, mode: Mode, display: string, view: string, csName: string, views: seq<string>)
    returns (views': seq<string>)
    requires config.Valid()
    modifies config`views
    ensures config.Valid()
    ensures config.views == SetAll(old(config.views), ViewEntries(mode, display, view, csName))
    ensures views' == AddNew(views, Listed(mode, display, view))
  {
    ghost var v0 := config.views;
    var entries := ViewEntries(mode, display, view, csName);
    for i := 0 to |entries|
      invariant config.Valid()
      invariant config.views == SetAll(v0, entries[..i])
    {
      SetAllSnoc(v0, entries[..i], entries[i]);
      assert entries[..i + 1] == entries[..i] + [entries[i]];
      config.AddDisplay(entries[i].0.0, entries[i].0.1, entries[i].1.colorSpace, entries[i].1.looks);
    }
    assert entries[..|entries|] == entries;
    views' := NoteView(mode, display, view, views);
  }

  /** `if not name in views: views.append(name)` for a view that is listed. */
  method NoteView(mode: Mode, display: string, view: string, views: seq<string>) returns (views': seq<string>)
    ensures views' == AddNew(views, Listed(mode, display, view))
  {
    var names := Listed(mode, display, view);
    views' := views;
    if names != [] && names[0] !in views {
      views' := views + [names[0]];
    }
    assert names == [] || names == [names[0]];
    assert names != [] ==> names[..0] == [];
  }

  /** The views of one display. */
  method AddDisplayViews(config: Config, mode: Mode, display: string, viewList: ViewList, views: seq<string>)
    returns (views': seq<string>)
    requires config.Valid()
    modifies config`views
    ensures config.Valid()
    ensures config.views == SetAll(old(config.views), DisplayEntries(mode, display, viewList))
    ensures views' == AddNew(views, DisplayListed(mode, display, viewList))
  {
    ghost var v0 := config.views;
    views' := views;
    for i := 0 to |viewList|
      invariant config.Valid()
      invariant config.views == SetAll(v0, DisplayEntries(mode, display, viewList[..i]))
      invariant views' == AddNew(views, DisplayListed(mode, display, viewList[..i]))
    {
      ghost var before := config.views;
      ghost var prefix := viewList[..i];
      assert viewList[..i + 1][..i] == prefix;
      views' := AddView(config, mode, display, viewList[i].0, viewList[i].1.name, views');
      SetAllAppend(v0, DisplayEntries(mode, display, prefix), ViewEntries(mode, display, viewList[i].0, viewList[i].1.name));
      AddNewAppend(views, DisplayListed(mode, display, prefix), Listed(mode, display, viewList[i].0));
    }
    assert viewList[..|viewList|] == viewList;
  }

  /** The loop over the displays: every view of every display in the given
      order, and the display names in that order. */
  method AddAllViews(config: Config, mode: Mode, displays: Displays)
    returns (views: seq<string>, names: seq<string>)
    requires config.Valid()
    modifies config`views
    ensures config.Valid()
    ensures config.views == SetAll(old(config.views), AllEntries(mode, displays))
    ensures views == AddNew([], AllListed(mode, displays))
    ensures names == Dicts.Keys(displays)
  {
    ghost var v0 := config.views;
    views, names := [], [];
    for k := 0 to |displays|
      invariant config.Valid()
      invariant config.views == SetAll(v0, AllEntries(mode, displays[..k]))
      invariant views == AddNew([], AllListed(mode, displays[..k]))
      invariant names == Dicts.Keys(displays[..k])
    {
      AllStep(v0, mode, displays, k);
      views := AddDisplayViews(config, mode, displays[k].0, displays[k].1, views);
      names := names + [displays[k].0];
    }
    assert displays[..|displays|] == displays;
  }

  /** One more display adds its entries, its listed views and its name. */
  lemma AllStep(v0: seq<Entry>, mode: Mode, displays: Displays, k: nat)
    requires k < |displays|
    ensures SetAll(v0, AllEntries(mode, displays[..k + 1])) ==
              SetAll(SetAll(v0, AllEntries(mode, displays[..k])), DisplayEntries(mode, displays[k].0, displays[k].1))
    ensures AddNew([], AllListed(mode, displays[..k + 1])) ==
              AddNew(AddNew([], AllListed(mode, displays[..k])), DisplayListed(mode, displays[k].0, displays[k].1))
    ensures Dicts.Keys(displays[..k + 1]) == Dicts.Keys(displays[..k]) + [displays[k].0]
  {
    var prefix := displays[..k];
    assert displays[..k + 1][..k] == prefix;
    SetAllAppend(v0, AllEntries(mode, prefix), DisplayEntries(mode, displays[k].0, displays[k].1));
    AddNewAppend([], AllListed(mode, prefix), DisplayListed(mode, displays[k].0, displays[k].1));
  }

  // ---------------------------------------------------------------------
  // The entry points
  // ---------------------------------------------------------------------

  /** The generic setup (1.0.0 scripts without `nuke`) and the
      multiple-display setup (1.2, 1.0.2, 1.0.0 `aces_config.py` with
      `multiple_displays`, where looks is `', '.join(config_data['looks'])`):
      every display keeps its views, the active displays are all displays
      sorted and the active views are the view names without repeats. */
  method MultipleDisplays(config: Config, displays: Displays, mode: Mode)
    requires mode.Generic? || mode.WithLooks?
    requires config.Valid()
    modifies config`views, config`activeDisplays, config`activeViews
    ensures config.Valid()
    ensures config.views == SetAll(old(config.views), AllEntries(mode, displays))
    ensures config.activeDisplays == Join(",", Sort(Dicts.Keys(displays)))
    ensures config.activeViews == Join(",", AddNew([], AllListed(mode, displays)))
  {
    var views, names := AddAllViews(config, mode, displays);
    config.SetActiveDisplays(Join(",", Sort(names)));
    config.SetActiveViews(Join(",", views));
  }

  /** The Nuke setup of the first 1.0.0 script: each display keeps only
      its 'Output Transform' view, renamed 'View', and the displays 'linear'
      and 'log' show ACES2065-1 and ACEScc. */
  method NukeDisplaysLegacy(config: Config, displays: Displays)
    requires config.Valid()
    modifies config`views, config`activeDisplays, config`activeViews
    ensures config.Valid()
    ensures config.views == SetAll(old(config.views), AllEntries(NukeView, displays) +
              [(("linear", "View"), ViewTarget("ACES2065-1", "")), (("log", "View"), ViewTarget("ACEScc", ""))])
    ensures config.activeDisplays == Join(",", Sort(Dicts.Keys(displays) + ["linear", "log"]))
    ensures config.activeViews == Join(",", AddNew([], AllListed(NukeView, displays)))
  {
    ghost var v0 := config.views;
    var views, names := AddAllViews(config, NukeView, displays);
    AddTwoViews(config, (("linear", "View"), ViewTarget("ACES2065-1", "")), (("log", "View"), ViewTarget("ACEScc", "")));
    SetAllAppend(v0, AllEntries(NukeView, displays),
                 [(("linear", "View"), ViewTarget("ACES2065-1", "")), (("log", "View"), ViewTarget("ACEScc", ""))]);
    config.SetActiveDisplays(Join(",", Sort(names + ["linear", "log"])));
    config.SetActiveViews(Join(",", views));
  }

  /** Two fixed views added after the loop. */
  method AddTwoViews(config: Config, e1: Entry, e2: Entry)
    requires config.Valid()
    modifies config`views
    ensures config.Valid()
    ensures config.views == SetAll(old(config.views), [e1, e2])
  {
    ghost var v0 := config.views;
    config.AddDisplay(e1.0.0, e1.0.1, e1.1.colorSpace, e1.1.looks);
    SetAllSnoc(v0, [], e1);
    config.AddDisplay(e2.0.0, e2.0.1, e2.1.colorSpace, e2.1.looks);
    SetAllSnoc(v0, [e1], e2);
    assert [e1] + [e2] == [e1, e2];
  }

  /** `[(name, displays[name]) for name in order]`. */
  function Select(displays: Displays, order: seq<string>): (r: Displays)
    requires forall x :: x in order ==> Dicts.HasKey(displays, x)
    ensures Dicts.Keys(r) == order
    ensures forall i :: 0 <= i < |order| ==> Dicts.Get(displays, order[i]) == Some(r[i].1)
  {
    seq(|order|, i requires 0 <= i < |order| => (order[i], Dicts.Get(displays, order[i]).value))
  }

  lemma KeysHaveKey(displays: Displays, order: seq<string>)
    requires multiset(order) == multiset(Dicts.Keys(displays))
    ensures forall x :: x in order ==> Dicts.HasKey(displays, x)
  {
    forall x | x in order ensures Dicts.HasKey(displays, x) {
      assert x in multiset(Dicts.Keys(displays));
      var i :| 0 <= i < |Dicts.Keys(displays)| && Dicts.Keys(displays)[i] == x;
      assert displays[i].0 == x;
    }
  }

  /** The displays in sorted order of their names. */
  function SortedDisplays(displays: Displays): (r: Displays)
    ensures Dicts.Keys(r) == Sort(Dicts.Keys(displays))
  {
    var ordered := Sort(Dicts.Keys(displays));
    KeysHaveKey(displays, ordered);
    Select(displays, ordered)
  }

  /** The Nuke setup of 1.0.0 `create_aces_config.py`: one display 'ACES'
      whose views are the names of the displays with an 'Output Transform'
      view, in sorted order, then 'Linear' and 'Log'. */
  method NukeDisplays(config: Config, displays: Displays, linearName: string, logName: string)
    requires config.Valid()
    modifies config`views, config`activeDisplays, config`activeViews
    ensures config.Valid()
    ensures config.views == SetAll(old(config.views), AllEntries(SingleNuke, SortedDisplays(displays)) +
              [((SingleDisplay, "Linear"), ViewTarget(linearName, "")), ((SingleDisplay, "Log"), ViewTarget(logName, ""))])
    ensures config.activeViews == Join(",", AddNew([], AllListed(SingleNuke, SortedDisplays(displays))) + ["Linear", "Log"])
    ensures config.activeDisplays == SingleDisplay
  {
    ghost var v0 := config.views;
    var ordered := Sort(Dicts.Keys(displays));
    KeysHaveKey(displays, ordered);
    var views, _ := AddAllViews(config, SingleNuke, Select(displays, ordered));
    AddTwoViews(config, ((SingleDisplay, "Linear"), ViewTarget(linearName, "")), ((SingleDisplay, "Log"), ViewTarget(logName, "")));
    SetAllAppend(v0, AllEntries(SingleNuke, Select(displays, ordered)),
                 [((SingleDisplay, "Linear"), ViewTarget(linearName, "")), ((SingleDisplay, "Log"), ViewTarget(logName, ""))]);
    config.SetActiveDisplays(Join(",", Sort([SingleDisplay])));
    assert Sort([SingleDisplay]) == [SingleDisplay];
    config.SetActiveViews(Join(",", views + ["Linear", "Log"]));
  }

  /** `names.insert(0, names.pop(names.index(default)))`: ValueError when
      the default is absent. */
  function DefaultFirst(names: seq<string>, default: string): (r: Result<seq<string>>)
    ensures r.Err? <==> default !in names
    ensures r.Err? ==> r.error == ValueError
    ensures r.Ok? ==> |r.value| == |names| && r.value[0] == default &&
                      multiset(r.value) == multiset(names)
  {
    if default !in names then Err(ValueError)
    else
      var i := FirstIndex(names, default);
      assert names == names[..i] + [names[i]] + names[i + 1..];
      Ok([default] + names[..i] + names[i + 1..])
  }

  function FirstIndex(names: seq<string>, x: string): (i: nat)
    requires x in names
    ensures i < |names| && names[i] == x && x !in names[..i]
  {
    if names[0] == x then 0
    else
      var j := FirstIndex(names[1..], x);
      assert names[1..][..j] == names[1..j + 1];
      j + 1
  }

  /** The display order of the single-display setup: the displays sorted,
      the default one moved to the front, the others still sorted. */
  lemma DefaultFirstOrder(names: seq<string>, default: string)
    requires Sorted(names) && default in names
    ensures var r := DefaultFirst(names, default).value;
            r[0] == default && Sorted(r[1..]) && multiset(r) == multiset(names)
  {
    var i := FirstIndex(names, default);
    var rest := names[..i] + names[i + 1..];
    assert DefaultFirst(names, default).value[1..] == rest;
    forall a, b | 0 <= a < b < |rest| ensures LexLe(rest[a], rest[b]) {
      var a' := if a < i then a else a + 1;
      var b' := if b < i then b else b + 1;
      assert rest[a] == names[a'] && rest[b] == names[b'];
    }
  }

  /** The display order of the single-display setup. */
  function GuiOrder(displays: Displays, default: string): Result<seq<string>>
  {
    DefaultFirst(Sort(Dicts.Keys(displays)), default)
  }

  /** The entries of the single-display setup for that order. */
  function GuiEntries(displays: Displays, order: seq<string>, lookNames: string, raw: string, log: string): seq<Entry>
    requires multiset(order) == multiset(Dicts.Keys(displays))
  {
    KeysHaveKey(displays, order);
    AllEntries(Gui(lookNames), Select(displays, order)) +
      [((SingleDisplay, "Raw"), ViewTarget(raw, "")), ((SingleDisplay, "Log"), ViewTarget(log, ""))]
  }

  function GuiViews(displays: Displays, order: seq<string>, lookNames: string): seq<string>
    requires multiset(order) == multiset(Dicts.Keys(displays))
  {
    KeysHaveKey(displays, order);
    AddNew([], AllListed(Gui(lookNames), Select(displays, order))) + ["Raw", "Log"]
  }

  /** The single-display setup for graphical applications (1.2, 1.0.2,
      1.0.0 `aces_config.py` without `multiple_displays`): one display
      'ACES' whose views are the displays with an 'Output Transform' view,
      default display first, then 'Raw' and 'Log' (the raw and log colour
      spaces); ValueError when the default display is not a display. */
  method GuiDisplays(config: Config, displays: Displays, default: string, looks: seq<string>,
                     raw: string, log: string) returns (r: Result<()>)
    requires config.Valid()
    modifies config`views, config`activeDisplays, config`activeViews
    ensures config.Valid()
    ensures r.Err? <==> default !in Dicts.Keys(displays)
    ensures r.Err? ==> r.error == ValueError && config.views == old(config.views) &&
                       config.activeDisplays == old(config.activeDisplays) && config.activeViews == old(config.activeViews)
    ensures r.Ok? ==> GuiOrder(displays, default).Ok? && var order := GuiOrder(displays, default).value;
                      order[0] == default &&
                      config.views == SetAll(old(config.views), GuiEntries(displays, order, Join(", ", looks), raw, log)) &&
                      config.activeViews == Join(",", GuiViews(displays, order, Join(", ", looks))) &&
                      config.activeDisplays == SingleDisplay
  {
    ghost var v0 := config.views;
    var sorted := Sort(Dicts.Keys(displays));
    assert default in Dicts.Keys(displays) <==> default in multiset(sorted);
    var orderResult := DefaultFirst(sorted, default);
    if orderResult.Err? {
      return Err(orderResult.error);
    }
    var order := orderResult.value;
    AddGuiViews(config, displays, order, Join(", ", looks), raw, log);
    r := Ok(());
  }

  /** The single-display setup once the display order is known. */
  method AddGuiViews(config: Config, displays: Displays, order: seq<string>, lookNames: string, raw: string, log: string)
    requires multiset(order) == multiset(Dicts.Keys(displays))
    requires config.Valid()
    modifies config`views, config`activeDisplays, config`activeViews
    ensures config.Valid()
    ensures config.views == SetAll(old(config.views), GuiEntries(displays, order, lookNames, raw, log))
    ensures config.activeViews == Join(",", GuiViews(displays, order, lookNames))
    ensures config.activeDisplays == SingleDisplay
  {
    ghost var v0 := config.views;
    KeysHaveKey(displays, order);
    var views, _ := AddAllViews(config, Gui(lookNames), Select(displays, order));
    AddTwoViews(config, ((SingleDisplay, "Raw"), ViewTarget(raw, "")), ((SingleDisplay, "Log"), ViewTarget(log, "")));
    ghost var listed := views;
    views := views + ["Raw"];
    views := views + ["Log"];
    assert views == listed + ["Raw", "Log"];
    SetAllAppend(v0, AllEntries(Gui(lookNames), Select(displays, order)),
                 [((SingleDisplay, "Raw"), ViewTarget(raw, "")), ((SingleDisplay, "Log"), ViewTarget(log, ""))]);
    config.SetActiveDisplays(Join(",", Sort([SingleDisplay])));
    assert Sort([SingleDisplay]) == [SingleDisplay];
    config.SetActiveViews(Join(",", views));
  }

  /** `config_data['displays'][default]['Output Transform']` (1.0.2 and
      1.0.0 `aces_config.py`): KeyError when the default display is missing
      or has no 'Output Transform' view. */
  function DefaultOutput(displays: Displays, default: string): (r: Result<ColorSpace>)
    ensures r.Ok? <==> Dicts.HasKey(displays, default) &&
                       Dicts.HasKey(Dicts.Get(displays, default).value, OutputTransform)
    ensures !Dicts.HasKey(displays, default) ==> r == Err(KeyError(default))
    ensures Dicts.HasKey(displays, default) && r.Err? ==> r == Err(KeyError(OutputTransform))
    ensures r.Ok? ==> Some(r.value) == Dicts.Get(Dicts.Get(displays, default).value, OutputTransform)
  {
    match Dicts.Get(displays, default)
    case None => Err(KeyError(default))
    case Some(views) =>
      match Dicts.Get(views, OutputTransform)
      case None => Err(KeyError(OutputTransform))
      case Some(cs) => Ok(cs)
  }

  /** The display part of `create_config` in 1.2 (`requireOutput` false),
      1.0.2 and 1.0.0 `aces_config.py` (`requireOutput` true): the latter
      two look up the default display's 'Output Transform' first, so a
      default display without one raises KeyError in both setups. */
  method CreateConfigDisplays(config: Config, displays: Displays, default: string, looks: seq<string>,
                              raw: string, log: string, multipleDisplays: bool, requireOutput: bool)
    returns (r: Result<()>)
    requires config.Valid()
    modifies config`views, config`activeDisplays, config`activeViews
    ensures config.Valid()
    ensures requireOutput && DefaultOutput(displays, default).Err? ==>
              r == Err(DefaultOutput(displays, default).error) && config.views == old(config.views)
    ensures !requireOutput && !multipleDisplays ==> (r.Err? <==> default !in Dicts.Keys(displays))
    ensures multipleDisplays && r.Ok? ==>
              config.views == SetAll(old(config.views), AllEntries(WithLooks(Join(", ", looks)), displays))
    ensures !multipleDisplays && r.Ok? ==>
              GuiOrder(displays, default).Ok? && var order := GuiOrder(displays, default).value;
              order[0] == default &&
              config.views == SetAll(old(config.views), GuiEntries(displays, order, Join(", ", looks), raw, log))
    ensures (r.Ok? <==> (!requireOutput || DefaultOutput(displays, default).Ok?) &&
                        (multipleDisplays || default in Dicts.Keys(displays)))
  {
    if requireOutput {
      var output := DefaultOutput(displays, default);
      if output.Err? {
        return Err(output.error);
      }
    }
    if multipleDisplays {
      MultipleDisplays(config, displays, WithLooks(Join(", ", looks)));
      r := Ok(());
    } else {
      r := GuiDisplays(config, displays, default, looks, raw, log);
    }
  }

  // ---------------------------------------------------------------------
  // What the setups guarantee
  // ---------------------------------------------------------------------

  /** With looks, the plain view of an 'Output Transform' ends up without
      looks (the call with looks is overridden) and the view '<view> with
      <looks>' carries them; other views end up without looks. */
  lemma WithLooksViews(display: string, view: string, csName: string, looks: string, dflt: Option<ViewTarget>)
    ensures LastValue(ViewEntries(WithLooks(looks), display, view, csName), (display, view), dflt) ==
              Some(ViewTarget(csName, ""))
    ensures Contains(view, OutputTransform) && looks != "" ==>
              LastValue(ViewEntries(WithLooks(looks), display, view, csName), (display, view + " with " + looks), dflt) ==
                Some(ViewTarget(csName, looks))
  {
    var es := ViewEntries(WithLooks(looks), display, view, csName);
    if Contains(view, OutputTransform) && looks != "" {
      assert |view + " with " + looks| > |view|;
      assert es[..2][..1] == es[..1];
    } else {
      assert es[..1] == [es[0]];
    }
  }

  /** Generic entries of one display name only that display. */
  lemma {:induction false} DisplayEntriesKeys(mode: Mode, display: string, views: ViewList)
    requires mode.Generic?
    ensures forall i :: 0 <= i < |DisplayEntries(mode, display, views)| ==>
              DisplayEntries(mode, display, views)[i].0.0 == display
    decreases |views|
  {
    if views != [] {
      DisplayEntriesKeys(mode, display, views[..|views| - 1]);
    }
  }

  /** In the generic setup each view of a display is declared with its
      colour space, when view names within the display are distinct. */
  lemma {:induction false} GenericDisplayView(display: string, views: ViewList, i: nat, dflt: Option<ViewTarget>)
    requires Dicts.UniqueKeys(views) && i < |views|
    ensures LastValue(DisplayEntries(Generic, display, views), (display, views[i].0), dflt) ==
              Some(ViewTarget(views[i].1.name, ""))
    decreases |views|
  {
    var init := views[..|views| - 1];
    var last := views[|views| - 1];
    LastValueAppend(DisplayEntries(Generic, display, init), ViewEntries(Generic, display, last.0, last.1.name),
                    (display, views[i].0), dflt);
    if i < |views| - 1 {
      assert init[i] == views[i];
      GenericDisplayView(display, init, i, dflt);
    }
  }

  /** The generic setup declares every (display, view) pair of
      `config_data['displays']` with its colour space. */
  lemma {:induction false} GenericAddsEveryPair(displays: Displays, e: nat, i: nat, dflt: Option<ViewTarget>)
    requires ValidDisplays(displays) && e < |displays| && i < |displays[e].1|
    ensures LastValue(AllEntries(Generic, displays), (displays[e].0, displays[e].1[i].0), dflt) ==
              Some(ViewTarget(displays[e].1[i].1.name, ""))
    decreases |displays|
  {
    var init := displays[..|displays| - 1];
    var last := displays[|displays| - 1];
    var k := (displays[e].0, displays[e].1[i].0);
    LastValueAppend(AllEntries(Generic, init), DisplayEntries(Generic, last.0, last.1), k, dflt);
    if e < |displays| - 1 {
      assert init[e] == displays[e];
      assert ValidDisplays(init);
      GenericAddsEveryPair(init, e, i, dflt);
      DisplayEntriesKeys(Generic, last.0, last.1);
      LastValueOther(DisplayEntries(Generic, last.0, last.1), k, LastValue(AllEntries(Generic, init), k, dflt));
    } else {
      GenericDisplayView(last.0, last.1, i, LastValue(AllEntries(Generic, init), k, dflt));
    }
  }

  /** The single-display view names: the display name without parentheses,
      followed by ' with ' and the looks for views mentioning 'with'. */
  lemma GuiViewNameShape(display: string, view: string, lookNames: string)
    ensures var n := GuiViewName(display, view, lookNames);
            var clean := FilterOut(display, {'(', ')'});
            |clean| <= |n| && n[..|clean|] == clean &&
            (forall j :: 0 <= j < |clean| ==> n[j] != '(' && n[j] != ')') &&
            (Contains(view, "with") <==> n != clean)
  {
  }

  /** The active views of every setup are listed once each. */
  lemma ActiveViewsDistinct(mode: Mode, displays: Displays)
    ensures Distinct(AddNew([], AllListed(mode, displays)))
    ensures forall v :: v in AddNew([], AllListed(mode, displays)) <==> v in AllListed(mode, displays)
  {
  }

  // ---------------------------------------------------------------------
  // 1.0.0 `aces_config.py`: colour picking follows the default display
  // ---------------------------------------------------------------------

  /** `set_config_default_roles(config, color_picking=...)` with the
      default display's 'Output Transform' colour space: KeyError when it
      is missing; otherwise the 'color_picking' role names that colour space
      (unless its name is empty) and no other role changes. */
  method OverrideColorPicking(config: Config, displays: Displays, default: string) returns (r: Result<()>)
    modifies config`roles
    ensures r.Err? <==> DefaultOutput(displays, default).Err?
    ensures r.Err? ==> r.error == DefaultOutput(displays, default).error && config.roles == old(config.roles)
    ensures r.Ok? ==> var name := DefaultOutput(displays, default).value.name;
                      config.roles == if name != "" then old(config.roles)[ColorPicking := name] else old(config.roles)
  {
    var output := DefaultOutput(displays, default);
    if output.Err? {
      return Err(output.error);
    }
    var name := output.value.name;
    var args := Roles.RoleArgs(Some(name), None, None, None, None, None, None, None, None, None, None);
    ghost var before := config.roles;
    Roles.SetConfigRoles(config, args, Roles.IsTruthy, true);
    var expected := if name != "" then before[ColorPicking := name] else before;
    assert Roles.RolesAfter(before, expected, args, Roles.IsTruthy, true) by {
      forall role
        ensures (role in expected <==> role in before || Roles.Assigned(args, Roles.IsTruthy, true, role).Some?) &&
                (role in expected ==> expected[role] == if Roles.Assigned(args, Roles.IsTruthy, true, role).Some?
                                                       then Roles.Assigned(args, Roles.IsTruthy, true, role).value
                                                       else before[role])
      {
      }
    }
    Roles.RolesAfterUnique(before, config.roles, expected, args, Roles.IsTruthy, true);
    r := Ok(());
  }
}
