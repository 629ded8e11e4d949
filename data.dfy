/** `config_data`, the dictionary the generators fill before writing a
    configuration: the colour spaces, the displays with their views, and the
    looks. */
module Data {
  import opened Utilities
  import Dicts

  /** The views of one display: view name -> colour space, in insertion order. */
  type ViewList = seq<(string, ColorSpace)>

  /** Display name -> its views, in insertion order. */
  type Displays = seq<(string, ViewList)>

  /** Both levels are dictionaries: display names and the view names of
      each display are distinct. */
  predicate ValidDisplays(displays: Displays)
  {
    Dicts.UniqueKeys(displays) &&
    forall d :: 0 <= d < |displays| ==> Dicts.UniqueKeys(displays[d].1)
  }

  class ConfigData {
    var colorSpaces: seq<ColorSpace>
    var displays: Displays
    var looks: seq<string>

    ghost predicate Valid()
      reads this
    {
      ValidDisplays(displays)
    }

    constructor(colorSpaces: seq<ColorSpace>, displays: Displays, looks: seq<string>)
      ensures this.colorSpaces == colorSpaces && this.displays == displays && this.looks == looks
    {
      this.colorSpaces := colorSpaces;
      this.displays := displays;
      this.looks := looks;
    }
  }
}
