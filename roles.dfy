/** Setting the configuration's roles: `set_config_roles` (1.2, 1.0.2),
    `set_config_default_roles` (1.0.0 `aces_config.py` and
    `create_aces_config.py`) and `setConfigDefaultRoles` (the first 1.0.0
    script); the role tables returned by each version's `create_colorspaces`;
    and the overrides applied to `config_data['roles']`. */
module Roles {
  import opened Py
  import opened Ocio

  /** The keyword arguments of the role setters; `None` is an omitted one. */
  datatype RoleArgs = RoleArgs(
    colorPicking: Option<string>,
    colorTiming: Option<string>,
    compositingLog: Option<string>,
    data: Option<string>,
    default: Option<string>,
    mattePaint: Option<string>,
    reference: Option<string>,
    sceneLinear: Option<string>,
    texturePaint: Option<string>,
    rendering: Option<string>,
    compositingLinear: Option<string>)

  /** How a setter decides that an argument was given: `is not None` (1.2,
      1.0.2) or plain truthiness, which also treats '' as absent (1.0.0). */
  datatype Test = IsNotNone | IsTruthy

  predicate Given(test: Test, a: Option<string>)
  {
    match test
    case IsNotNone => a.Some?
    case IsTruthy => Truthy(a)
  }

  const AllRoles: set<Role> :=
    {ColorPicking, ColorTiming, CompositingLog, Data, Default, MattePaint,
     Reference, SceneLinear, TexturePaint, Rendering, CompositingLinear}

  /** The nine roles named by OCIO constants. */
  const StandardRoles: set<Role> :=
    {ColorPicking, ColorTiming, CompositingLog, Data, Default, MattePaint,
     Reference, SceneLinear, TexturePaint}

  predicate IsStandard(role: Role)
  {
    !role.Rendering? && !role.CompositingLinear?
  }

  /** The argument that names a role. */
  function ArgFor(args: RoleArgs, role: Role): Option<string>
  {
    match role
    case ColorPicking => args.colorPicking
    case ColorTiming => args.colorTiming
    case CompositingLog => args.compositingLog
    case Data => args.data
    case Default => args.default
    case MattePaint => args.mattePaint
    case Reference => args.reference
    case SceneLinear => args.sceneLinear
    case TexturePaint => args.texturePaint
    case Rendering => args.rendering
    case CompositingLinear => args.compositingLinear
  }

  /** The colour space a role ends up with after one call, or `None` when the
      call leaves the role alone. With `defaulting`, 'rendering' and
      'compositing_linear' take their own argument when given and otherwise
      follow a given 'scene_linear'; without it they are never set. */
  function Assigned(args: RoleArgs, test: Test, defaulting: bool, role: Role): (r: Option<string>)
    ensures r.Some? ==> IsStandard(role) || defaulting
    ensures IsStandard(role) ==> r == (if Given(test, ArgFor(args, role)) then ArgFor(args, role) else None)
  {
    if IsStandard(role) then
      if Given(test, ArgFor(args, role)) then ArgFor(args, role) else None
    else if !defaulting then None
    else if Given(test, ArgFor(args, role)) then ArgFor(args, role)
    else if Given(test, args.sceneLinear) then args.sceneLinear
    else None
  }

  /** The role table after one call: assigned roles take their new colour
      space, every other role keeps its old one (or stays unset). */
  predicate RolesAfter(before: map<Role, string>, after: map<Role, string>,
                       args: RoleArgs, test: Test, defaulting: bool)
  {
    forall role ::
      (role in after <==> role in before || Assigned(args, test, defaulting, role).Some?) &&
      (role in after ==> after[role] == if Assigned(args, test, defaulting, role).Some?
                                        then Assigned(args, test, defaulting, role).value
                                        else before[role])
  }

  /** The position of a role's statement in the setters. */
  function Order(role: Role): nat
  {
    match role
    case ColorPicking => 0
    case ColorTiming => 1
    case CompositingLog => 2
    case Data => 3
    case Default => 4
    case MattePaint => 5
    case Reference => 6
    case TexturePaint => 7
    case Rendering => 8
    case CompositingLinear => 9
    case SceneLinear => 10
  }

  /** The roles before position `stage` have been through their
      `if given: setRole` statement, the others still hold their value from
      `before`. */
  ghost predicate Partial(before: map<Role, string>, cur: map<Role, string>,
                          args: RoleArgs, test: Test, stage: nat)
  {
    forall role ::
      (role in cur <==> role in before || (Order(role) < stage && Given(test, ArgFor(args, role)))) &&
      (role in cur ==> cur[role] == if Order(role) < stage && Given(test, ArgFor(args, role))
                                    then ArgFor(args, role).value else before[role])
  }

  /** `if <arg> is not None: config.setRole(role, <arg>)` (or `if <arg>:`). */
  method SetIfGiven(config: Config, args: RoleArgs, test: Test, role: Role,
                    ghost before: map<Role, string>)
    requires Partial(before, config.roles, args, test, Order(role))
    modifies config`roles
    ensures Partial(before, config.roles, args, test, Order(role) + 1)
  {
    var a := ArgFor(args, role);
    if Given(test, a) {
      config.SetRole(role, a.value);
    }
  }

  /** The eight statements for the roles other than the scene-linear group. */
  method SetStandardRoles(config: Config, args: RoleArgs, test: Test)
    modifies config`roles
    ensures Partial(old(config.roles), config.roles, args, test, 8)
  {
    ghost var m := config.roles;
    SetFirstRoles(config, args, test);
    SetIfGiven(config, args, test, Default, m);
    SetIfGiven(config, args, test, MattePaint, m);
    SetIfGiven(config, args, test, Reference, m);
    SetIfGiven(config, args, test, TexturePaint, m);
  }

  method SetFirstRoles(config: Config, args: RoleArgs, test: Test)
    modifies config`roles
    ensures Partial(old(config.roles), config.roles, args, test, 4)
  {
    ghost var m := config.roles;
    SetIfGiven(config, args, test, ColorPicking, m);
    SetIfGiven(config, args, test, ColorTiming, m);
    SetIfGiven(config, args, test, CompositingLog, m);
    SetIfGiven(config, args, test, Data, m);
  }

  /** The role setters of every version: `test` is the version's notion of a
      given argument, and `defaulting` says whether 'rendering' and
      'compositing_linear' exist and fall back to 'scene_linear' (absent from
      1.0.0 `create_aces_config.py` and the first 1.0.0 script). */
  method SetConfigRoles(config: Config, args: RoleArgs, test: Test, defaulting: bool)
    modifies config`roles
    ensures RolesAfter(old(config.roles), config.roles, args, test, defaulting)
  {
    ghost var m := config.roles;
    SetStandardRoles(config, args, test);
    if defaulting {
      SetIfGiven(config, args, test, Rendering, m);
      SetIfGiven(config, args, test, CompositingLinear, m);
    }
    ghost var mid := config.roles;
    if Given(test, args.sceneLinear) {
      config.SetRole(SceneLinear, args.sceneLinear.value);
      ghost var m1 := config.roles;
      if defaulting {
        if !Given(test, args.rendering) {
          config.SetRole(Rendering, args.sceneLinear.value);
        }
        ghost var m2 := config.roles;
        assert m2 == if !Given(test, args.rendering) then m1[Rendering := args.sceneLinear.value] else m1;
        if !Given(test, args.compositingLinear) {
          config.SetRole(CompositingLinear, args.sceneLinear.value);
        }
      }
    }
    SceneLinearStep(m, mid, config.roles, args, test, defaulting);
  }

  /** The closing `if scene_linear ...` block completes the table. */
  lemma SceneLinearStep(before: map<Role, string>, mid: map<Role, string>, after: map<Role, string>,
                        args: RoleArgs, test: Test, defaulting: bool)
    requires Partial(before, mid, args, test, if defaulting then 10 else 8)
    requires !Given(test, args.sceneLinear) ==> after == mid
    requires Given(test, args.sceneLinear) ==>
               var sl := args.sceneLinear.value;
               var m1 := mid[SceneLinear := sl];
               var m2 := if defaulting && !Given(test, args.rendering) then m1[Rendering := sl] else m1;
               after == if defaulting && !Given(test, args.compositingLinear) then m2[CompositingLinear := sl] else m2
    ensures RolesAfter(before, after, args, test, defaulting)
  {
    forall role
      ensures (role in after <==> role in before || Assigned(args, test, defaulting, role).Some?) &&
              (role in after ==> after[role] == if Assigned(args, test, defaulting, role).Some?
                                                then Assigned(args, test, defaulting, role).value
                                                else before[role])
    {
      var stage := if defaulting then 10 else 8;
      assert role in mid <==> role in before || (Order(role) < stage && Given(test, ArgFor(args, role)));
    }
  }

  /** The relation is a function: one call leaves one possible table. */
  lemma RolesAfterUnique(before: map<Role, string>, a1: map<Role, string>, a2: map<Role, string>,
                         args: RoleArgs, test: Test, defaulting: bool)
    requires RolesAfter(before, a1, args, test, defaulting)
    requires RolesAfter(before, a2, args, test, defaulting)
    ensures a1 == a2
  {
    forall role | role in a1 ensures role in a2 && a1[role] == a2[role] {
      assert role in a1 <==> role in before || Assigned(args, test, defaulting, role).Some?;
    }
    forall role | role in a2 ensures role in a1 {
      assert role in a2 <==> role in before || Assigned(args, test, defaulting, role).Some?;
    }
  }

  /** A standard role is set exactly when its argument is given, to that
      argument; otherwise it keeps its previous colour space (or stays
      unset). */
  lemma StandardRoleSet(before: map<Role, string>, after: map<Role, string>,
                        args: RoleArgs, test: Test, defaulting: bool, role: Role)
    requires RolesAfter(before, after, args, test, defaulting)
    requires IsStandard(role)
    ensures Given(test, ArgFor(args, role)) ==> role in after && after[role] == ArgFor(args, role).value
    ensures !Given(test, ArgFor(args, role)) ==> (role in after <==> role in before) &&
                                                 (role in before ==> after[role] == before[role])
  {
    assert role in after <==> role in before || Assigned(args, test, defaulting, role).Some?;
  }

  /** 'rendering' and 'compositing_linear' take 'scene_linear' only when
      they are not given themselves and 'scene_linear' is; an explicitly
      given value is never overwritten. */
  lemma RenderingDefaults(before: map<Role, string>, after: map<Role, string>, args: RoleArgs, test: Test)
    requires RolesAfter(before, after, args, test, true)
    ensures Given(test, args.rendering) ==> Rendering in after && after[Rendering] == args.rendering.value
    ensures !Given(test, args.rendering) && Given(test, args.sceneLinear) ==>
              Rendering in after && after[Rendering] == args.sceneLinear.value
    ensures Given(test, args.compositingLinear) ==>
              CompositingLinear in after && after[CompositingLinear] == args.compositingLinear.value
    ensures !Given(test, args.compositingLinear) && Given(test, args.sceneLinear) ==>
              CompositingLinear in after && after[CompositingLinear] == args.sceneLinear.value
    ensures !Given(test, args.rendering) && !Given(test, args.sceneLinear) ==>
              (Rendering in after <==> Rendering in before) &&
              (Rendering in before ==> after[Rendering] == before[Rendering])
  {
    assert Rendering in after <==> Rendering in before || Assigned(args, test, true, Rendering).Some?;
    assert CompositingLinear in after <==> CompositingLinear in before || Assigned(args, test, true, CompositingLinear).Some?;
  }

  /** Without defaulting (the nine-role setters) 'rendering' and
      'compositing_linear' are never touched. */
  lemma NineRoleSetterLeavesRendering(before: map<Role, string>, after: map<Role, string>,
                                      args: RoleArgs, test: Test, role: Role)
    requires RolesAfter(before, after, args, test, false)
    requires !IsStandard(role)
    ensures (role in after <==> role in before) && (role in before ==> after[role] == before[role])
  {
    assert role in after <==> role in before || Assigned(args, test, false, role).Some?;
  }

  /** The two tests differ exactly on the empty string: `is not None` sets a
      role to '' where truthiness leaves it alone. */
  lemma EmptyStringRole(before: map<Role, string>, a1: map<Role, string>, a2: map<Role, string>,
                        args: RoleArgs, defaulting: bool)
    requires args.data == Some("") && Data !in before
    requires RolesAfter(before, a1, args, IsNotNone, defaulting)
    requires RolesAfter(before, a2, args, IsTruthy, defaulting)
    ensures Data in a1 && a1[Data] == ""
    ensures Data !in a2
  {
    assert Data in a1 <==> Data in before || Assigned(args, IsNotNone, defaulting, Data).Some?;
    assert Data in a2 <==> Data in before || Assigned(args, IsTruthy, defaulting, Data).Some?;
  }

  // ---------------------------------------------------------------------
  // Role tables returned by `create_colorspaces`
  // ---------------------------------------------------------------------

  /** Names of the ACES colour spaces the tables refer to. */
  datatype AcesNames = AcesNames(aces: string, acesCC: string, acesCG: string, adx10: string)

  /** 1.1 `create_colorspaces`. */
  function RolesV11(n: AcesNames): (r: map<Role, string>)
    ensures r.Keys == AllRoles
    ensures r[SceneLinear] == r[Rendering] == r[CompositingLinear] == n.acesCG
    ensures r[ColorPicking] == "Rec.709" && r[CompositingLog] == n.adx10
    ensures r[Data] == "" && r[Reference] == ""
  {
    map[ColorPicking := "Rec.709", ColorTiming := n.acesCC, CompositingLog := n.adx10,
        Data := "", Default := n.aces, MattePaint := n.acesCC, Reference := "",
        SceneLinear := n.acesCG, TexturePaint := n.acesCC,
        CompositingLinear := n.acesCG, Rendering := n.acesCG]
  }

  const DefaultDisplayV11: string := "sRGB"

  /** 1.0.2 `create_colorspaces`. */
  function RolesV102(n: AcesNames): (r: map<Role, string>)
    ensures r.Keys == AllRoles
    ensures r[CompositingLog] == n.acesCC
    ensures r[TexturePaint] == "" && r[Data] == "" && r[Reference] == ""
    ensures r[SceneLinear] == r[Rendering] == n.acesCG
  {
    map[ColorPicking := "Rec.709", ColorTiming := n.acesCC, CompositingLog := n.acesCC,
        Data := "", Default := n.aces, MattePaint := n.acesCC, Reference := "",
        SceneLinear := n.acesCG, TexturePaint := "",
        CompositingLinear := n.acesCG, Rendering := n.acesCG]
  }

  const DefaultDisplayV102: string := "sRGB (D60 sim.)"

  /** 1.0.0 `create_aces_colorspaces.py`: nine roles, scene-linear is
      ACES2065-1 itself and colour picking is ACEScg. */
  function RolesV100(n: AcesNames): (r: map<Role, string>)
    ensures r.Keys == StandardRoles
    ensures r[SceneLinear] == r[Default] == n.aces
    ensures r[ColorPicking] == n.acesCG
  {
    map[ColorPicking := n.acesCG, ColorTiming := n.acesCC, CompositingLog := n.acesCC,
        Data := "", Default := n.aces, MattePaint := n.acesCC, Reference := "",
        SceneLinear := n.aces, TexturePaint := ""]
  }

  // ---------------------------------------------------------------------
  // Overrides of config_data['roles']
  // ---------------------------------------------------------------------

  /** `roles[k] = v` for each pair in turn. */
  function Overlay(roles: map<Role, string>, pairs: seq<(Role, string)>): map<Role, string>
    decreases |pairs|
  {
    if pairs == [] then roles
    else
      var last := pairs[|pairs| - 1];
      Overlay(roles, pairs[..|pairs| - 1])[last.0 := last.1]
  }

  /** With distinct keys (a dict's items), each overridden role takes its
      pair's value whatever the order, and every other role is kept. */
  lemma {:induction false} OverlaySpec(roles: map<Role, string>, pairs: seq<(Role, string)>)
    requires forall i, j :: 0 <= i < j < |pairs| ==> pairs[i].0 != pairs[j].0
    ensures forall i :: 0 <= i < |pairs| ==> pairs[i].0 in Overlay(roles, pairs) && Overlay(roles, pairs)[pairs[i].0] == pairs[i].1
    ensures forall k :: (forall i :: 0 <= i < |pairs| ==> pairs[i].0 != k) ==>
                          (k in Overlay(roles, pairs) <==> k in roles) &&
                          (k in roles ==> Overlay(roles, pairs)[k] == roles[k])
    decreases |pairs|
  {
    if pairs != [] {
      var init := pairs[..|pairs| - 1];
      OverlaySpec(roles, init);
      forall i | 0 <= i < |pairs| ensures pairs[i].0 in Overlay(roles, pairs) && Overlay(roles, pairs)[pairs[i].0] == pairs[i].1 {
        if i < |pairs| - 1 {
          assert init[i] == pairs[i];
        }
      }
      forall k | (forall i :: 0 <= i < |pairs| ==> pairs[i].0 != k)
        ensures (k in Overlay(roles, pairs) <==> k in roles) && (k in roles ==> Overlay(roles, pairs)[k] == roles[k])
      {
        assert forall i :: 0 <= i < |init| ==> init[i] == pairs[i];
        assert pairs[|pairs| - 1].0 != k;
      }
    }
  }

  /** The `config_data` dictionary's 'roles' entry. */
  class RoleTable {
    var roles: map<Role, string>

    constructor(initial: map<Role, string>)
      ensures roles == initial
    {
      roles := initial;
    }

    /** 1.2 `create_config_data`: 'data' and 'reference' become the Raw
        colour space, then each pair of the general role overrides is
        applied in turn. */
    method OverrideRolesV12(rawName: string, overrides: seq<(Role, string)>)
      modifies this
      ensures roles == Overlay(old(roles)[Data := rawName][Reference := rawName], overrides)
    {
      roles := roles[Data := rawName];
      roles := roles[Reference := rawName];
      for i := 0 to |overrides|
        invariant roles == Overlay(old(roles)[Data := rawName][Reference := rawName], overrides[..i])
      {
        assert overrides[..i + 1][..i] == overrides[..i];
        roles := roles[overrides[i].0 := overrides[i].1];
      }
      assert overrides[..|overrides|] == overrides;
    }

    /** 1.0.2 `create_config_data` and the 1.0.0 `generate_LUTs`: 'data',
        'reference' and 'texture_paint' become the Raw colour space. */
    method OverrideRolesWithRaw(rawName: string)
      modifies this
      ensures roles.Keys == old(roles).Keys + {Data, Reference, TexturePaint}
      ensures roles[Data] == roles[Reference] == roles[TexturePaint] == rawName
      ensures forall k :: k in old(roles) && k !in {Data, Reference, TexturePaint} ==> roles[k] == old(roles)[k]
    {
      roles := roles[Data := rawName];
      roles := roles[Reference := rawName];
      roles := roles[TexturePaint := rawName];
    }
  }

  /** In 1.2 every general override wins, over Raw too; 'data' stays Raw
      unless an override names it. */
  lemma OverridesWinOverRaw(roles: map<Role, string>, rawName: string, overrides: seq<(Role, string)>)
    requires forall i, j :: 0 <= i < j < |overrides| ==> overrides[i].0 != overrides[j].0
    ensures var r := Overlay(roles[Data := rawName][Reference := rawName], overrides);
            (forall i :: 0 <= i < |overrides| ==> overrides[i].0 in r && r[overrides[i].0] == overrides[i].1) &&
            ((forall i :: 0 <= i < |overrides| ==> overrides[i].0 != Data) ==> Data in r && r[Data] == rawName)
  {
    OverlaySpec(roles[Data := rawName][Reference := rawName], overrides);
  }

  /** The 1.0.2 pipeline end to end: the table's empty 'data', 'reference'
      and 'texture_paint' entries are replaced by Raw before the `is not
      None` setter runs, so the configuration never gets an empty name for
      them, and 'rendering' follows 'scene_linear' to ACEScg. */
  lemma V102DataRolesAreRaw(n: AcesNames, rawName: string, before: map<Role, string>,
                            after: map<Role, string>, args: RoleArgs)
    requires var t := RolesV102(n)[Data := rawName][Reference := rawName][TexturePaint := rawName];
             args == RoleArgs(Some(t[ColorPicking]), Some(t[ColorTiming]), Some(t[CompositingLog]),
                              Some(t[Data]), Some(t[Default]), Some(t[MattePaint]),
                              Some(t[Reference]), Some(t[SceneLinear]), Some(t[TexturePaint]),
                              Some(t[SceneLinear]), Some(t[SceneLinear]))
    requires RolesAfter(before, after, args, IsNotNone, true)
    ensures Data in after && after[Data] == rawName
    ensures Reference in after && after[Reference] == rawName
    ensures TexturePaint in after && after[TexturePaint] == rawName
    ensures Rendering in after && after[Rendering] == n.acesCG
  {
    var t := RolesV102(n)[Data := rawName][Reference := rawName][TexturePaint := rawName];
    assert t[Data] == t[Reference] == t[TexturePaint] == rawName;
    assert t[SceneLinear] == n.acesCG;
    assert args.data == args.reference == args.texturePaint == Some(rawName);
    assert args.rendering == Some(n.acesCG);
    assert Assigned(args, IsNotNone, true, Data) == Some(rawName);
    assert Assigned(args, IsNotNone, true, Reference) == Some(rawName);
    assert Assigned(args, IsNotNone, true, TexturePaint) == Some(rawName);
    assert Assigned(args, IsNotNone, true, Rendering) == Some(n.acesCG);
  }
}
