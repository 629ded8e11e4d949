/** The part of the OpenColorIO 1.x `Config` API the generators drive: a role
    table, a list of colour spaces, and (display, view) entries naming a
    colour space and its looks, plus the transform objects attached to
    colour spaces. */
module Ocio {
  import opened Py
  import opened Utilities
  import Dicts

  datatype Direction = Forward | Inverse

  /** OCIO transform objects. A field left unset by the generator is `None`;
      the OCIO default direction is forward. */
  datatype Transform =
    | FileT(src: Option<Value>, cccid: Option<Value>, interpolation: Value, direction: Direction)
    | MatrixT(matrix: Value, offset: Option<Value>, direction: Direction)
    | ExponentT(value: Option<Value>)
    | LogT(base: Option<Value>, direction: Direction)
    | ColorSpaceT(src: Option<Value>, dst: Option<Value>, direction: Direction)
    | LookT(looks: Option<Value>, src: Option<Value>, dst: Option<Value>, direction: Direction)
    | GroupT(children: seq<Transform>)

  /** `ocio.ColorSpace` as built by the generators. */
  datatype OcioColorSpace = OcioColorSpace(
    name: string,
    bitDepth: BitDepth,
    description: Option<string>,
    equalityGroup: Option<string>,
    family: Option<string>,
    isData: bool,
    allocation: Allocation,
    allocationVars: seq<real>,
    toReference: Option<Transform>,
    fromReference: Option<Transform>)

  /** The roles the generators set: the nine named by OCIO constants, and
      'rendering' and 'compositing_linear', which the later versions set by
      name. */
  datatype Role =
    | ColorPicking | ColorTiming | CompositingLog | Data | Default | MattePaint
    | Reference | SceneLinear | TexturePaint | Rendering | CompositingLinear
  {
    /** The role's name in the written configuration. */
    function Name(): string
    {
      match this
      case ColorPicking => "color_picking"
      case ColorTiming => "color_timing"
      case CompositingLog => "compositing_log"
      case Data => "data"
      case Default => "default"
      case MattePaint => "matte_paint"
      case Reference => "reference"
      case SceneLinear => "scene_linear"
      case TexturePaint => "texture_paint"
      case Rendering => "rendering"
      case CompositingLinear => "compositing_linear"
    }
  }

  /** A view of a display: the colour space it shows and its looks. */
  datatype ViewTarget = ViewTarget(colorSpace: string, looks: string)

  /** The distinct displays of the (display, view) entries, in first-seen
      order. */
  function DisplaysOf(views: seq<((string, string), ViewTarget)>): (r: seq<string>)
    ensures forall d :: d in r <==> exists i :: 0 <= i < |views| && views[i].0.0 == d
    decreases |views|
  {
    if views == [] then []
    else
      var init := DisplaysOf(views[..|views| - 1]);
      var d := views[|views| - 1].0.0;
      assert forall i :: 0 <= i < |views| - 1 ==> views[..|views| - 1][i] == views[i];
      if d in init then init else init + [d]
  }

  /** The view names of one display, in the order they were added. */
  function ViewsOf(views: seq<((string, string), ViewTarget)>, display: string): (r: seq<string>)
    ensures forall v :: v in r <==> ((display, v) in Dicts.Keys(views))
    decreases |views|
  {
    if views == [] then []
    else
      var init := ViewsOf(views[..|views| - 1], display);
      var last := views[|views| - 1].0;
      assert Dicts.Keys(views) == Dicts.Keys(views[..|views| - 1]) + [last];
      if last.0 == display then init + [last.1] else init
  }

  class Config {
    var roles: map<Role, string>
    var colorSpaces: seq<OcioColorSpace>
    /** (display, view) -> target, in the order the views were first added. */
    var views: seq<((string, string), ViewTarget)>
    var activeDisplays: string
    var activeViews: string

    ghost predicate Valid()
      reads this
    {
      Dicts.UniqueKeys(views)
    }

    constructor()
      ensures Valid()
      ensures roles == map[] && colorSpaces == [] && views == []
      ensures activeDisplays == "" && activeViews == ""
    {
      roles := map[];
      colorSpaces := [];
      views := [];
      activeDisplays := "";
      activeViews := "";
    }

    /** `config.setRole(role, name)`: the role now names the colour space and
        every other role is kept. */
    method SetRole(role: Role, colorSpaceName: string)
      modifies this`roles
      ensures roles == old(roles)[role := colorSpaceName]
    {
      roles := roles[role := colorSpaceName];
    }

    /** `config.addColorSpace(cs)`. */
    method AddColorSpace(cs: OcioColorSpace)
      modifies this`colorSpaces
      ensures colorSpaces == old(colorSpaces) + [cs]
    {
      colorSpaces := colorSpaces + [cs];
    }

    /** `config.addDisplay(display, view, colorSpace, looks)`: a view already
        present on the display is redirected in place, a new one is added
        after the others; every other view keeps its target. */
    method AddDisplay(display: string, view: string, colorSpace: string, looks: string)
      requires Valid()
      modifies this`views
      ensures Valid()
      ensures views == Dicts.Set(old(views), (display, view), ViewTarget(colorSpace, looks))
      ensures Dicts.Get(views, (display, view)) == Some(ViewTarget(colorSpace, looks))
      ensures forall k :: k != (display, view) ==> Dicts.Get(views, k) == Dicts.Get(old(views), k)
      ensures Dicts.HasKey(old(views), (display, view)) ==> Dicts.Keys(views) == Dicts.Keys(old(views))
      ensures !Dicts.HasKey(old(views), (display, view)) ==>
                views == old(views) + [((display, view), ViewTarget(colorSpace, looks))]
    {
      Dicts.SetSpec(views, (display, view), ViewTarget(colorSpace, looks));
      views := Dicts.Set(views, (display, view), ViewTarget(colorSpace, looks));
    }

    method SetActiveDisplays(displays: string)
      modifies this`activeDisplays
      ensures activeDisplays == displays
    {
      activeDisplays := displays;
    }

    method SetActiveViews(viewNames: string)
      modifies this`activeViews
      ensures activeViews == viewNames
    {
      activeViews := viewNames;
    }
  }
}
