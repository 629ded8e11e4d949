# ACES OpenColorIO configuration generator, modelled in Dafny

This project models the configuration-assembly core of the ACES
OpenColorIO (OCIO) configuration generator, across the releases kept in
the repository: 1.2, 1.1, 1.0.3, 1.0.2, 1.0.1, the 1.0.0 `aces_ocio`
package (`aces_config.py`, `create_aces_config.py`,
`create_aces_colorspaces.py`), and the first 1.0.0 script
(`aces_1.0.0/python/create_aces_config.py`, called "the root script"
below). The model covers:

- the name and path helpers of `utilities.py` / `util.py`: the
  `ColorSpace` record, `mat44_from_mat33`, `filter_words`, `replace`,
  `sanitize`, `compact`, `colorspace_prefixed_name`, `unpack_default`,
  `cmp`, and the root script's `Fit`;
- the reading of ACES CTL transforms: the header parse of
  `get_transform_info` (transform ID, user-name prefix, user name, the
  full/legal switch flag and the SSTS flag), and the discovery of ODTs and
  LMTs in a release tree (`get_transforms_info`, `get_ODTs_info`,
  `get_LMTs_info`, `getODTInfo`, `getLMTInfo`);
- the colour spaces built from those transforms: output transforms and
  their shaper choice (`create_output_transforms`, `create_ODTs`), Legal
  and Full pairs, the baked-LUT expansion, and the LMT looks
  (`create_LMTs`);
- the configuration assembly: role setting (`set_config_roles` and its
  siblings), the role tables and role overrides, the conversion of
  transform descriptions into OCIO transforms (`create_ocio_transform` and
  its siblings), alias colour spaces, looks integrated into views, the
  display/view setups of `create_config`, and the restoration of prefixed
  colour-space names.

Python behaviour the code relies on is written out: `str.replace`,
`split`, `join`, `strip`, `lower`, `list.insert`, dictionaries as ordered
lists of pairs, and the exceptions (`KeyError`, `IndexError`, `TypeError`,
`ValueError`, `NameError`, `UnboundLocalError`, `AttributeError`) as the
error side of a `Result`. Behaviour shared by several releases is modelled
once, with a parameter naming the release's variant (`Transforms.Variant`,
`Roles.Test`, `CtlHeader.Reader`, `Discovery.Reader`,
`OutputTransforms.OdtStyle`, `OutputTransforms.Pairing`, `Lmts.LmtStyle`).
The OCIO library itself is reduced to `Ocio.Config`: a role table, the
list of colour spaces added to it, a list of ((display, view), colour
space) entries where a repeated `addDisplay` replaces the earlier target,
and the active display and view strings.

Files: `py.dfy` (Python results and errors), `pystr.dfy` (Python string
methods), `sorting.dfy` (`sorted` on strings), `dicts.dfy` (dictionaries
as pair lists), `utilities.dfy`, `data.dfy` (the `config_data`
dictionary), `ocio.dfy`, `roles.dfy`, `transforms.dfy`, `aliases.dfy`,
`looks.dfy`, `displays.dfy`, `prefixes.dfy`, `ctl_header.dfy`,
`discovery.dfy`, `output_transforms.dfy`, `lmts.dfy`, `baked_luts.dfy`.

## Model

| member | source | states |
|---|---|---|
| Utilities.NewColorSpace | aces_1.2/python/aces_ocio/utilities.py:30-82 | every argument is stored in its field unchanged; a `None` aliases, to-reference or from-reference list becomes `[]`, a `None` allocation_vars becomes `[0, 1]` (also 1.0.1 utilities.py:40-90) |
| Utilities.NewColorSpaceV100 | aces_1.0.0/python/aces_ocio/utilities.py:37-64 | the aliases argument is ignored: the aliases field is always `[]`; every other argument is stored unchanged |
| Utilities.DefaultColorSpace | aces_1.2/python/aces_ocio/utilities.py:35-82 | with only a name given: no aliases, description or family, 32-bit float, equality group `''`, not data, empty transform lists, uniform allocation with `[0.0, 1.0]`, no ACES transform id (same defaults in 1.0.1 utilities.py:40-90) |
| Utilities.DefaultColorSpaceV100 | aces_1.0.0/python/aces_ocio/utilities.py:37-64 | with only a name given: the same defaults except that the equality group defaults to `None` |
| Utilities.DefaultsDifferInEqualityGroup | aces_1.0.0/python/aces_ocio/utilities.py:37-64 | the 1.0.0 package and the 1.2 defaults differ, and only in the equality group |
| Utilities.DefaultLegacyColorSpace | aces_1.0.0/python/util.py:9-30 | with only a name given: no description or family, 32-bit float, not data, uniform allocation with `[0.0, 1.0]`, empty transform lists |
| Utilities.Mat44FromMat33 | aces_1.2/python/aces_ocio/utilities.py:84-102 | defined iff the input has at least 9 entries (IndexError otherwise); 16 entries, row r < 3 is `m[3r..3r+3]` followed by 0, the last row is 0,0,0,1 (same in 1.0.1, 1.0.0 and both `util.py`) |
| Utilities.Mat44ActsAsMat33 | aces_1.2/python/aces_ocio/utilities.py:84-102 | the 4x4 matrix applied to (x, y, z, 1) gives the 3x3 product followed by 1 |
| Utilities.SearchAny | aces_1.2/python/aces_ocio/utilities.py:126-146 | the inner loop over the filters finds a match iff some pattern matches the word |
| Utilities.FilterWords | aces_1.2/python/aces_ocio/utilities.py:105-146 | the append loops return exactly the reference selection `Filtered`: a word is kept iff (no include filters or one matches) and (no exclude filters or none matches) (also 1.0.1:114-155, 1.0.0:97-132, util.py:92-127) |
| Utilities.FilteredIsOrderedSelection | aces_1.2/python/aces_ocio/utilities.py:105-146 | the result is an order-preserving subsequence of the words, and a word occurs in it iff it occurs in the input and passes both filters |
| Utilities.FilteredWithoutFilters | aces_1.2/python/aces_ocio/utilities.py:105-146 | with no filters the words come back unchanged and in order |
| Utilities.Replace | aces_1.2/python/aces_ocio/utilities.py:182-211 | the loop applies each (old, new) pair in turn, each to the string the previous pairs produced |
| Utilities.ReplaceSeqAppend | aces_1.2/python/aces_ocio/utilities.py:182-211 | replacing with a + b is replacing with a, then with b |
| Utilities.ReplaceSingleOccurrence | aces_1.0.0/python/aces_ocio/utilities.py:178-186 | a pattern that occurs once, with nothing of it overlapping the rest, is replaced in place and the rest kept: the step the docstring example is made of |
| Utilities.ReplaceSeqCharsIsMap | aces_1.2/python/aces_ocio/utilities.py:182-211 | single-character keys all mapped to one character that is not a key act as a per-character map, whatever the order of the pairs |
| Utilities.Sanitize | aces_1.2/python/aces_ocio/utilities.py:214-229 | the length is kept; each ' ', '(' and ')' becomes '_' and every other character stays |
| Utilities.SanitizeIdempotent | aces_1.2/python/aces_ocio/utilities.py:214-229 | the result has no ' ', '(' or ')' and sanitising twice equals sanitising once |
| Utilities.SanitizeOrderIrrelevant | aces_1.0.1/python/aces_ocio/utilities.py:218-238 | any iteration order of the replacement dictionary gives the same result |
| Utilities.Compact | aces_1.2/python/aces_ocio/utilities.py:232-250 | the result is the lower-cased string with every ' ', '(', ')', '.', '-' and '_' deleted (also 1.0.1:241-264, 1.0.0:212-235) |
| Utilities.CompactIdempotent | aces_1.2/python/aces_ocio/utilities.py:232-250 | the result is lower case, has none of those characters, and compacting twice equals compacting once |
| Utilities.ColorspacePrefixedName | aces_1.2/python/aces_ocio/utilities.py:253-269 | AttributeError iff the family is `None`; otherwise the family's '/'-pieces joined with ' - ', then ' - ', then the name |
| Utilities.PrefixedNameTwoLevels | aces_1.2/python/aces_ocio/utilities.py:253-269 | a family 'group/vendor' (e.g. 'Input/Sony') gives 'group - vendor - name' |
| Utilities.UnpackDefault | aces_1.2/python/aces_ocio/utilities.py:272-292 | ValueError iff the length is negative; otherwise exactly `length` items, item i from the input when it has one and the default otherwise (also 1.0.1:286-306) |
| Utilities.Cmp | aces_1.2/python/aces_ocio/utilities.py:295-312 | 1, 0 or -1 exactly when x > y, x == y, x < y |
| Utilities.CmpAntisymmetric | aces_1.2/python/aces_ocio/utilities.py:295-312 | cmp(x, y) == -cmp(y, x) |
| Utilities.Fit | aces_1.0.0/python/create_aces_config.py:802-805 | over exact reals: ValueError (division by zero) iff fromMin == fromMax; fromMin maps to toMin and fromMax to toMax |
| Utilities.FitRoundTrip | aces_1.0.0/python/create_aces_config.py:802-805 | over exact reals: fitting back from the target range recovers the value when both ranges are proper |
| Roles.Assigned | aces_1.2/python/aces_ocio/generate_config.py:95-125 | a standard role gets its argument iff the argument is given; only 'rendering' and 'compositing_linear' can get anything else, and only with defaulting |
| Roles.SetIfGiven | aces_1.2/python/aces_ocio/generate_config.py:95-110 | one `if <arg> is not None: setRole` statement advances the table by exactly that role |
| Roles.SetFirstRoles | aces_1.2/python/aces_ocio/generate_config.py:95-102 | the color_picking, color_timing, compositing_log and data statements |
| Roles.SetStandardRoles | aces_1.2/python/aces_ocio/generate_config.py:95-110 | the eight statements before the scene-linear group |
| Roles.SetConfigRoles | aces_1.2/python/aces_ocio/generate_config.py:49-125 | the whole setter leaves the table `RolesAfter`: assigned roles take their values, all others keep theirs (also 1.0.2 generate_config.py:105-135, 1.0.0 aces_config.py:101-131, create_aces_config.py:92-111, root script 56-76) |
| Roles.SceneLinearStep | aces_1.2/python/aces_ocio/generate_config.py:118-123 | the closing scene-linear block completes the table |
| Roles.RolesAfterUnique | aces_1.2/python/aces_ocio/generate_config.py:49-125 | one call leaves exactly one possible role table |
| Roles.StandardRoleSet | aces_1.2/python/aces_ocio/generate_config.py:95-110 | a standard role is set to its argument iff given; otherwise it keeps its previous value or stays absent |
| Roles.RenderingDefaults | aces_1.2/python/aces_ocio/generate_config.py:112-123 | 'rendering' and 'compositing_linear' take scene_linear only when they are not given and scene_linear is; a given value is never overwritten |
| Roles.NineRoleSetterLeavesRendering | aces_1.0.0/python/aces_ocio/create_aces_config.py:92-111 | the nine-role setters never touch 'rendering' or 'compositing_linear' |
| Roles.EmptyStringRole | aces_1.0.0/python/aces_ocio/aces_config.py:101-116 | the truthiness test treats '' as unset while `is not None` sets the role to '' |
| Roles.RolesV11 | aces_1.1/python/aces_ocio/colorspaces/aces.py:1988-2003 | eleven roles: scene_linear, rendering and compositing_linear are ACEScg, color_picking 'Rec.709', compositing_log ADX10, data and reference '' |
| Roles.RolesV102 | aces_1.0.2/python/aces_ocio/colorspaces/aces.py:1975-1988 | compositing_log ACEScc; texture_paint, data and reference ''; scene_linear and rendering ACEScg |
| Roles.RolesV100 | aces_1.0.0/python/aces_ocio/create_aces_colorspaces.py:1503-1514 | the nine standard roles; scene_linear and default are ACES, color_picking ACEScg |
| Roles.OverlaySpec | aces_1.2/python/aces_ocio/generate_config.py:1192-1193 | after `roles[k] = v` for each pair of a dictionary, each overridden role has its value and every other role is unchanged |
| Roles.RoleTable.OverrideRolesV12 | aces_1.2/python/aces_ocio/generate_config.py:1188-1193 | 'data' and 'reference' become the Raw name, then the general overrides apply |
| Roles.RoleTable.OverrideRolesWithRaw | aces_1.0.2/python/aces_ocio/generate_config.py:1091-1094 | 'data', 'reference' and 'texture_paint' become the Raw name; every other role is unchanged (also 1.0.0 aces_config.py:1089-1092, create_aces_config.py:554-557) |
| Roles.OverridesWinOverRaw | aces_1.2/python/aces_ocio/generate_config.py:1188-1193 | an override of 'data' or 'reference' wins over Raw; without one they stay Raw |
| Roles.V102DataRolesAreRaw | aces_1.0.2/python/aces_ocio/generate_config.py:1091-1094 | the 1.0.2 table's empty data, reference and texture_paint roles all end up Raw while rendering stays ACEScg |
| Transforms.DirectionOf | aces_1.2/python/aces_ocio/generate_config.py:144-147 | 'forward' and 'inverse' map to the two directions; anything else raises KeyError on it |
| Transforms.OptDirection | aces_1.2/python/aces_ocio/generate_config.py:168-170 | without a 'direction' the transform keeps OCIO's default forward direction; with one it is looked up |
| Transforms.InterpolationOf | aces_1.0.0/python/create_aces_config.py:346-350 | only 'linear', 'nearest' and 'tetrahedral' are in the table |
| Transforms.CreateOcioTransform | aces_1.2/python/aces_ocio/generate_config.py:128-259 | the loop and the tail compute `Build`: the kept transforms grouped, the single one, or IndexError (also 1.0.2:138-269, 1.0.0 aces_config.py:161-297, create_aces_config.py:141-228, root script 343-399) |
| Transforms.KeptSnoc | aces_1.2/python/aces_ocio/generate_config.py:151-249 | one more description that converts adds its transform, if any, at the end |
| Transforms.ConvertAllIsKept | aces_1.2/python/aces_ocio/generate_config.py:149-249 | when no description raises, the list is exactly the recognised descriptions' transforms in input order |
| Transforms.ConvertAllFirstError | aces_1.2/python/aces_ocio/generate_config.py:149-249 | the first description that raises decides the error |
| Transforms.BuildCases | aces_1.2/python/aces_ocio/generate_config.py:251-257 | more than one kept transform gives a group of them in order, one gives it alone, none gives IndexError |
| Transforms.MissingType | aces_1.2/python/aces_ocio/generate_config.py:154 | a description without 'type' raises KeyError('type') in every variant |
| Transforms.UnknownTypeRaises | aces_1.2/python/aces_ocio/generate_config.py:246-249 | as written in 1.2, a description of unknown type raises TypeError and so does the whole call |
| Transforms.UnknownTypeSkipped | aces_1.0.2/python/aces_ocio/generate_config.py:255-265 | an unknown type is skipped: removing it changes nothing |
| Transforms.CurrentAgreesOnKnownTypes | aces_1.2/python/aces_ocio/generate_config.py:151-244 | on known types the 1.2 loop body is the 1.0.2 one |
| Transforms.StrictColorSpaceForward | aces_1.0.0/python/aces_ocio/create_aces_config.py:209-215 | the 1.0.0 package builds a colour-space transform forward even for a description saying 'inverse', where 1.0.2 honours it |
| Transforms.StrictColorSpaceAlwaysForward | aces_1.0.0/python/aces_ocio/create_aces_config.py:209-215 | every colour-space transform the 1.0.0 package builds is forward |
| Transforms.StrictInterpolation | aces_1.0.0/python/aces_ocio/create_aces_config.py:170-176 | a lutFile description without a tabled interpolation raises KeyError where 1.0.2 uses the best interpolation |
| Transforms.BadDirection | aces_1.2/python/aces_ocio/generate_config.py:168-170 | a direction outside the table raises KeyError on it in every variant |
| Transforms.OlderScriptsSkip | aces_1.0.0/python/create_aces_config.py:358-399 | the root script has no colour-space type and neither 1.0.0 generator has a look type: such descriptions are skipped |
| Aliases.ColorSpaceDescBuild | aces_1.2/python/aces_ocio/generate_config.py:318-327 | the alias's one-element description list becomes a single forward colour-space transform |
| Aliases.AliasDescription | aces_1.2/python/aces_ocio/generate_config.py:301-304 | the original description, with the ACES transform ID appended when it is truthy; TypeError when the description is `None` and the ID is truthy |
| Aliases.AliasSpace | aces_1.2/python/aces_ocio/generate_config.py:306-344 | the alias copies the original's attributes; it has a to-reference (from-reference) transform iff the original has to-reference (from-reference) transforms, and that transform goes to (comes from) the original |
| Aliases.KeptAliases | aces_1.2/python/aces_ocio/generate_config.py:289-294 | an alias is kept iff it differs from the colour-space name ignoring case |
| Aliases.MakeAlias | aces_1.2/python/aces_ocio/generate_config.py:299-344 | the loop body builds exactly `AliasSpace` |
| Aliases.AddColorspaceAliases | aces_1.2/python/aces_ocio/generate_config.py:262-346 | TypeError iff some alias is kept and the description fails; otherwise one alias colour space is added per kept name, in order (also 1.0.0 aces_config.py:298-367) |
| Aliases.KeptAliasesPrefix | aces_1.2/python/aces_ocio/generate_config.py:289-294 | an alias kept from a prefix of the names is kept from all of them |
| Aliases.AliasesFollowOriginal | aces_1.2/python/aces_ocio/generate_config.py:289-344 | every added alias links to the original in exactly the directions the original has transforms |
| Aliases.BeforeStop | aces_1.0.0/python/aces_ocio/create_aces_config.py:249-251 | the names handled before the early `return`: a prefix of the names that ends right before the first name equal to the lower-cased colour-space name |
| Aliases.AliasSpaceAsWritten | aces_1.0.0/python/aces_ocio/create_aces_config.py:256-288 | family 'Aliases'; a to-reference (from-reference) transform exactly when the original has none |
| Aliases.AddColorspaceAlias | aces_1.0.0/python/aces_ocio/create_aces_config.py:231-290 | adds one as-written alias per name before the stop name, in order |
| Aliases.CreateAliasAsWritten | aces_1.0.0/python/aces_ocio/create_aces_config.py:257-289 | the alias keeps the original's description and attributes, has family 'Aliases', and goes through the original in each direction where the original has no transform |
| Aliases.BeforeStopFirst | aces_1.0.0/python/aces_ocio/create_aces_config.py:249-251 | the loop stops exactly at the first stop name |
| Aliases.StopHidesLaterAliases | aces_1.0.0/python/aces_ocio/create_aces_config.py:249-251 | names after the lower-cased colour-space name are never added |
| Aliases.InvertedConditionAsWritten | aces_1.0.0/python/aces_ocio/create_aces_config.py:268-288 | for an original with to-reference transforms the as-written alias has no to-reference transform, the intended one has it |
| Aliases.AliasConvertsLikeOriginal | aces_1.2/python/aces_ocio/generate_config.py:316-344 | the intended alias reaches the reference through the original and back |
| Looks.InverseUndoesForward | aces_1.2/python/aces_ocio/generate_config.py:476-508 | the i-th inverse look undoes the look applied i-th from the end of the forward chain |
| Looks.ListInsert | aces_1.2/python/aces_ocio/generate_config.py:481-489 | `list.insert(i, x)`: x lands at index i with the rest shifted, or at the end past the length |
| Looks.LookedCopy | aces_1.2/python/aces_ocio/generate_config.py:474-518 | the copy is named '<orig> with <l1, l2, …>' with alias 'out_'+compact(name); a non-empty from-reference list gets the looks forwards in front, a non-empty to-reference list the looks reversed and inverted at the end; empty lists stay empty and nothing else changes |
| Looks.AddNew | aces_1.2/python/aces_ocio/generate_config.py:510-511 | the look list keeps its prefix, gains exactly the missing names, and stays free of repeats |
| Looks.AddNewPresent | aces_1.2/python/aces_ocio/generate_config.py:510-511 | names already present are not added again |
| Looks.AddNewIdempotent | aces_1.2/python/aces_ocio/generate_config.py:510-511 | adding the same looks for a second display changes nothing |
| Looks.UpdatedViewsSpec | aces_1.2/python/aces_ocio/generate_config.py:525-532 | a display with an 'Output Transform' view gains the view 'Output Transform with <names>' on the copy; its other views are unchanged |
| Looks.LookNames | aces_1.2/python/aces_ocio/generate_config.py:451 | each look's first element, IndexError iff some look entry is empty |
| Looks.FromStep | aces_1.2/python/aces_ocio/generate_config.py:481-489 | inserting look i at index i extends the forward prefix by that look |
| Looks.ToStep | aces_1.2/python/aces_ocio/generate_config.py:493-508 | appending look n-1-i inverted extends the inverse suffix by that look |
| Looks.IntegrateLooks | aces_1.2/python/aces_ocio/generate_config.py:474-523 | the loop over the looks produces `LookedCopy` and adds the new look names once each (also 1.0.2 generate_config.py:480-528, 1.0.0 aces_config.py:497-528) |
| Looks.StageStepDisplays | aces_1.2/python/aces_ocio/generate_config.py:466-532 | one more display leaves the displays processed so far in their updated form |
| Looks.StageStep | aces_1.2/python/aces_ocio/generate_config.py:466-532 | one more display extends the copies and looks by that display's contribution |
| Looks.IntegrateDisplay | aces_1.2/python/aces_ocio/generate_config.py:466-532 | one pass of the outer loop: a display with an 'Output Transform' view gains the view of its looked copy, the copy is appended to the colour spaces and the look names are recorded; any other display changes nothing |
| Looks.AppendLooks | aces_1.2/python/aces_ocio/generate_config.py:456-458 | with multiple displays the names are simply appended |
| Looks.AddLooksToViews | aces_1.2/python/aces_ocio/generate_config.py:428-532 | IndexError iff an empty look entry exists; otherwise the appended names, or every display updated, one looked copy per display with an 'Output Transform' view and each look added once |
| Looks.HasOutputSnoc | aces_1.2/python/aces_ocio/generate_config.py:466-525 | a display list has an 'Output Transform' view iff its prefix or its last display has |
| DisplayViews.LastValue | aces_1.2/python/aces_ocio/generate_config.py:939-952 | a view's final target comes from one of the `addDisplay` calls for it |
| DisplayViews.SetAllSpec | aces_1.2/python/aces_ocio/generate_config.py:939-952 | after successive `addDisplay` calls, each view is on the target of its last call and the view keys are unique |
| DisplayViews.SetAllSnoc | aces_1.2/python/aces_ocio/generate_config.py:939-952 | one more call sets that one view |
| DisplayViews.SetAllAppend | aces_1.2/python/aces_ocio/generate_config.py:939-952 | calls split into two batches give the same views |
| DisplayViews.LastValueAppend | aces_1.2/python/aces_ocio/generate_config.py:939-952 | the last call of two batches is the second batch's if it has one |
| DisplayViews.LastValueOther | aces_1.2/python/aces_ocio/generate_config.py:939-952 | calls that never name a view leave it alone |
| DisplayViews.AddNewAppend | aces_1.2/python/aces_ocio/generate_config.py:953-954 | `if not name in views: views.append(name)` over two batches equals the batches in turn |
| DisplayViews.Unparenthesised | aces_1.2/python/aces_ocio/generate_config.py:985 | the display name with every '(' and ')' deleted and nothing else changed |
| DisplayViews.FilterOutTwice | aces_1.2/python/aces_ocio/generate_config.py:985 | deleting ')' and then '(' equals deleting both at once |
| DisplayViews.AddView | aces_1.2/python/aces_ocio/generate_config.py:940-954 | one view makes its mode's `addDisplay` calls and offers its name to the active views once |
| DisplayViews.AddDisplayViews | aces_1.2/python/aces_ocio/generate_config.py:940-954 | one display makes the calls of its views in order |
| DisplayViews.AddAllViews | aces_1.2/python/aces_ocio/generate_config.py:939-955 | every view of every display in order; the display names are collected in order |
| DisplayViews.AllStep | aces_1.2/python/aces_ocio/generate_config.py:939-955 | one more display adds its calls, its views and its name |
| DisplayViews.MultipleDisplays | aces_1.2/python/aces_ocio/generate_config.py:931-955 | the multiple-display setup makes every display's calls; active displays are the display names sorted, active views the view names without repeats (also 1.0.0 create_aces_config.py:386-392 with no looks) |
| DisplayViews.NukeDisplaysLegacy | aces_1.0.0/python/create_aces_config.py:483-500 | only 'Output Transform' views, renamed 'View', then the displays 'linear' (ACES2065-1) and 'log' (ACEScc); active displays sorted |
| DisplayViews.AddTwoViews | aces_1.0.0/python/aces_ocio/create_aces_config.py:415-418 | the two fixed views are set after the loop |
| DisplayViews.Select | aces_1.0.0/python/aces_ocio/create_aces_config.py:399-401 | looking the displays up in a given order gives that order's views |
| DisplayViews.KeysHaveKey | aces_1.0.0/python/aces_ocio/create_aces_config.py:399-401 | every sorted display name is a key of the displays |
| DisplayViews.SortedDisplays | aces_1.0.0/python/aces_ocio/create_aces_config.py:399 | the displays in sorted order of their names |
| DisplayViews.NukeDisplays | aces_1.0.0/python/aces_ocio/create_aces_config.py:395-418 | one display 'ACES' whose views are the sorted display names with an 'Output Transform' view, then 'Linear' and 'Log' |
| DisplayViews.DefaultFirst | aces_1.2/python/aces_ocio/generate_config.py:963-965 | ValueError iff the default display is absent; otherwise the default first, then the other names in their order |
| DisplayViews.FirstIndex | aces_1.2/python/aces_ocio/generate_config.py:965 | `list.index`: the first position of the name |
| DisplayViews.DefaultFirstOrder | aces_1.2/python/aces_ocio/generate_config.py:963-965 | the order is a permutation of the sorted names with only the default moved to the front |
| DisplayViews.GuiDisplays | aces_1.2/python/aces_ocio/generate_config.py:958-1043 | ValueError iff the default display is missing, with nothing changed; otherwise the single display 'ACES' in the default-first order, 'Raw' and 'Log' last (also 1.0.0 aces_config.py:847-850, 931-934) |
| DisplayViews.AddGuiViews | aces_1.2/python/aces_ocio/generate_config.py:972-1043 | the single-display views in that order and the active display 'ACES' |
| DisplayViews.DefaultOutput | aces_1.0.2/python/aces_ocio/generate_config.py:809-811 | KeyError when the default display or its 'Output Transform' view is missing; otherwise that colour space |
| DisplayViews.CreateConfigDisplays | aces_1.2/python/aces_ocio/generate_config.py:921-1043 | fails iff the required default output is missing (1.0.2, 1.0.0) or the single-display order fails; otherwise the chosen setup's views (also 1.0.2 generate_config.py:809-929) |
| DisplayViews.WithLooksViews | aces_1.2/python/aces_ocio/generate_config.py:941-952 | the plain 'Output Transform' view ends up without looks and '<view> with <looks>' carries them |
| DisplayViews.DisplayEntriesKeys | aces_1.0.0/python/aces_ocio/create_aces_config.py:388-389 | the generic calls of one display name only that display |
| DisplayViews.GenericDisplayView | aces_1.0.0/python/aces_ocio/create_aces_config.py:388-389 | each view of a display is declared with its own colour space |
| DisplayViews.GenericAddsEveryPair | aces_1.0.0/python/aces_ocio/create_aces_config.py:386-392 | the generic setup declares every (display, view) pair |
| DisplayViews.GuiViewNameShape | aces_1.2/python/aces_ocio/generate_config.py:985-990 | a single-display view name has no parentheses and carries ' with <looks>' exactly for views with looks |
| DisplayViews.ActiveViewsDistinct | aces_1.2/python/aces_ocio/generate_config.py:953-954 | the active views are listed once each and are exactly the offered names |
| DisplayViews.OverrideColorPicking | aces_1.0.0/python/aces_ocio/aces_config.py:800-807 | KeyError when the default display's 'Output Transform' is missing; otherwise color_picking becomes that colour space's name |
| PrefixedNames.InverseOf | aces_1.0.2/python/aces_ocio/generate_config.py:938-940 | the inverse has unique keys, one for each prefixed name |
| PrefixedNames.BuildInverse | aces_1.0.2/python/aces_ocio/generate_config.py:938-940 | the loop builds `InverseOf` |
| PrefixedNames.InverseRoundTrip | aces_1.0.2/python/aces_ocio/generate_config.py:938-940 | with distinct prefixed names the inverse maps each back to its original |
| PrefixedNames.Restored | aces_1.0.2/python/aces_ocio/generate_config.py:946 | a colour space renamed through the inverse when its name is there |
| PrefixedNames.FirstMissing | aces_1.0.2/python/aces_ocio/generate_config.py:945-947 | the first colour space whose name the inverse lacks |
| PrefixedNames.RestoredUpTo | aces_1.0.2/python/aces_ocio/generate_config.py:945-947 | the first k colour spaces renamed, the others untouched |
| PrefixedNames.ResetNames | aces_1.0.2/python/aces_ocio/generate_config.py:936-957 | KeyError on the first missing name with the earlier colour spaces already renamed; otherwise every colour space renamed back |
| PrefixedNames.PrefixPairs | aces_1.0.2/python/aces_ocio/generate_config.py:644-646 | `prefixed_names[colorspace.name] = prefixed_name` once per colour space, as dictionary assignment: the keys stay unique |
| PrefixedNames.PrefixPairsSpec | aces_1.0.2/python/aces_ocio/generate_config.py:644-646 | the dictionary maps each original name to the prefixed name of the last colour space with that name, and holds nothing else |
| PrefixedNames.DistinctOriginalsAllPairs | aces_1.0.2/python/aces_ocio/generate_config.py:644-646 | with distinct original names the dictionary holds one (original, prefixed) pair per colour space, in order |
| PrefixedNames.InverseKeysAreLast | aces_1.0.2/python/aces_ocio/generate_config.py:938-940 | every key of the inverse is the prefixed name of a colour space that is the last with its original name |
| PrefixedNames.PrefixedMapsBack | aces_1.0.2/python/aces_ocio/generate_config.py:938-940 | with distinct original and prefixed names, each prefixed name maps back to its own original |
| PrefixedNames.ResetUndoesPrefix | aces_1.0.2/python/aces_ocio/generate_config.py:640-647 | prefixing followed by the reset (945-947) gives back the original names when the original names are distinct and so are the prefixed names |
| PrefixedNames.DuplicateOriginalKeyError | aces_1.0.2/python/aces_ocio/generate_config.py:944-947 | when two colour spaces share an original name, the earlier one's prefixed name is missing from the inverse and the reset stops with KeyError at or before it |
| PrefixedNames.SameNameTwoFamilies | aces_1.0.2/python/aces_ocio/generate_config.py:944-947 | 'X' in family 'A' and 'X' in family 'B': only 'X' -> 'B - X' is kept and the reset fails on 'A - X' |
| PrefixedNames.ResetInListOrder | aces_1.0.2/python/aces_ocio/generate_config.py:640-647 | prefixing in the family-sorted copy and resetting in the list's own order (945-947) gives every colour space its original name back, for any arrangement of the list, when original and prefixed names are distinct |
| PrefixedNames.DuplicateKeyErrorInListOrder | aces_1.0.2/python/aces_ocio/generate_config.py:640-647 | with a shared original name, the colour space earlier in the sorted copy makes the reset in the list's order (945-947) stop at or before its place in the list |
| CtlHeader.HeaderField | aces_1.2/python/aces_ocio/colorspaces/aces.py:1766 | IndexError iff the line from its fourth character lacks the '<' or '>' delimiters; the field has neither |
| CtlHeader.HeaderFieldShape | aces_1.2/python/aces_ocio/colorspaces/aces.py:1766 | on a line `// <Tag>value<...` the field is the value |
| CtlHeader.ParseNames | aces_1.2/python/aces_ocio/colorspaces/aces.py:1766-1770 | IndexError iff there are fewer than three lines or line 2 or 3 is malformed; the ID is line 2's field stripped (also 1.1:1761-1765, 1.0.3:1807-1811, 1.0.2:1693-1697, root script 1992-1995) |
| CtlHeader.UserNameSplit | aces_1.2/python/aces_ocio/colorspaces/aces.py:1767-1770 | the prefix is the text before the first '-', and dashes after it survive in the user name |
| CtlHeader.UserNameWithoutDash | aces_1.2/python/aces_ocio/colorspaces/aces.py:1767-1770 | without a '-' the field is the prefix and the user name is empty |
| CtlHeader.ScanFlags | aces_1.2/python/aces_ocio/colorspaces/aces.py:1775-1782 | the switch flag iff some stripped line contains the legalRange declaration; the SSTS flag iff some other line calls an output transform (also 1.1:1770-1777) |
| CtlHeader.ScanLegalExact | aces_1.0.3/python/aces_ocio/colorspaces/aces.py:1815-1820 | the switch flag iff some stripped line equals 'input varying int legalRange = 0' (also 1.0.2:1701-1706) |
| CtlHeader.GetTransformInfo | aces_1.2/python/aces_ocio/colorspaces/aces.py:1745-1785 | IndexError iff the names cannot be parsed; otherwise the parsed names and each version's flags (also 1.0.0 create_aces_colorspaces.py:1243-1258, root script 1985-1999) |
| CtlHeader.ReadersDisagree | aces_1.0.3/python/aces_ocio/colorspaces/aces.py:1817 | a 1.0.x switch line is not a 1.1/1.2 switch line |
| Discovery.Candidates | aces_1.2/python/aces_ocio/colorspaces/aces.py:1819-1823 | a path is kept iff it has no 'Inv<type>' (nor 'README' where the version tests it) and its basename does not start with '.'; IndexError for an empty basename |
| Discovery.TransformNameShape | aces_1.2/python/aces_ocio/colorspaces/aces.py:1841 | 'ODT.<name>.ctl' is named '<name>', dots inside the name included |
| Discovery.Start | aces_1.2/python/aces_ocio/colorspaces/aces.py:1831 | the climb starts at the file's directory's parent |
| Discovery.Climb | aces_1.2/python/aces_ocio/colorspaces/aces.py:1833-1837 | the deepest parent whose path ends in the target; `Diverges` when none does |
| Discovery.ClimbToRoot | aces_1.2/python/aces_ocio/colorspaces/aces.py:1831-1837 | the level of that parent, and the relative directory made of the path components below it (also 1.0.3:1861-1865, 1952-1956) |
| Discovery.Walk | aces_1.2/python/aces_ocio/colorspaces/aces.py:1813-1817 | the walked files are exactly the files of the disk below the transform directory |
| Discovery.ReadLines | aces_1.2/python/aces_ocio/colorspaces/aces.py:1762 | the lines of the first file at the path, present iff a file exists there; otherwise IOError naming the path |
| Discovery.DescribeFile | aces_1.2/python/aces_ocio/colorspaces/aces.py:1840-1873 | the entry is keyed by the transform's name; the header is read from the rebuilt path `<release>/<sub-directory>/<relative>/<file>` (`<release>/<relative>/<file>` without sub-directories), IOError when no file is there, and the names are that file's; the inverse is recorded iff 'Inv<type>.<name>.ctl' exists beside the walked file (also 1.0.3:1867-1885, 1958-1975, root script 2030-2045, 2099-2115) |
| Discovery.WalkedHeaderRead | aces_1.2/python/aces_ocio/colorspaces/aces.py:1833-1850 | when the climb stops at the release's transform directory and no two files share a path, the header read at the rebuilt path is the walked file's own |
| Discovery.NestedTargetMissesHeader | aces_1.2/python/aces_ocio/colorspaces/aces.py:1833-1850 | an ODT walked at 'root/odt/aodt/b' stops the climb at 'aodt', so its header is looked for at 'root/odt/b' and the reader fails with IOError when nothing is there |
| Discovery.Described | aces_1.2/python/aces_ocio/colorspaces/aces.py:1827-1873 | the outcome of each kept file in order |
| Discovery.GetTransformsInfo | aces_1.2/python/aces_ocio/colorspaces/aces.py:1788-1895 | IndexError from the filter, or the dictionary folded from the entries of the kept files below '<release>/<sub-directory>' (also 1.1:1783-1892, 1.0.3:1828-2002, 1.0.2:1714-1888, root script 2002-2137) |
| Discovery.FoldErrExtends | aces_1.2/python/aces_ocio/colorspaces/aces.py:1827-1873 | a failure stays a failure as more files are read |
| Discovery.FoldOk | aces_1.2/python/aces_ocio/colorspaces/aces.py:1827-1873 | the dictionary is built iff every file succeeds |
| Discovery.FoldKeys | aces_1.2/python/aces_ocio/colorspaces/aces.py:1859 | one unique key per name among the outcomes |
| Discovery.FoldValues | aces_1.2/python/aces_ocio/colorspaces/aces.py:1859-1873 | each entry comes from an outcome with its name |
| Discovery.NamedSnoc | aces_1.2/python/aces_ocio/colorspaces/aces.py:1859 | a name is present after one more file iff it was, or that file has it |
| Discovery.TransformsByName | aces_1.2/python/aces_ocio/colorspaces/aces.py:1819-1873 | the release's dictionary exists iff every kept file is described, and has one entry per distinct transform name |
| Discovery.DescribeName | aces_1.2/python/aces_ocio/colorspaces/aces.py:1841-1859 | a described file is keyed by its transform name |
| Discovery.ReadmeOnlyDroppedFrom12 | aces_1.0.3/python/aces_ocio/colorspaces/aces.py:1853 | a README path the 1.0.x ODT readers keep is dropped by the 1.2 reader |
| Discovery.RootLmtInverseNameError | aces_1.0.0/python/create_aces_config.py:2114-2115 | as written, one LMT with an inverse file makes the whole reader fail with NameError('odtName') |
| Discovery.LmtInverseRecorded | aces_1.0.0/python/create_aces_config.py:2105-2115 | indexed by the LMT's own name, the LMT is described with its inverse recorded |
| OutputTransforms.LastThree | aces_1.2/python/aces_ocio/colorspaces/aces.py:1689-1690 | `[-3:]`: the last three pieces, or all when fewer |
| OutputTransforms.PqShaperNameShape | aces_1.2/python/aces_ocio/colorspaces/aces.py:1689-1690 | the PQ name is 'Dolby PQ ' and the last three words of the shaper's name |
| OutputTransforms.RequiredShapers | aces_1.2/python/aces_ocio/colorspaces/aces.py:1686-1697 | the looked-up names start with the named shaper |
| OutputTransforms.LookupShapers | aces_1.2/python/aces_ocio/colorspaces/aces.py:1686-1697 | KeyError iff a required shaper is missing, naming one of them; otherwise the named shaper and its PQ 108/1000/2000/4000-nit variants |
| OutputTransforms.LookupShapersFirstMissing | aces_1.2/python/aces_ocio/colorspaces/aces.py:1686-1697 | the KeyError names the first required shaper, in lookup order, that is missing; every shaper looked up before it is available |
| OutputTransforms.ShaperByNits | aces_1.2/python/aces_ocio/colorspaces/aces.py:1718-1727 | '108 nits', '1000 nits', '2000 nits', '4000 nits' are tested in that order, else the 48-nit shaper (also 1.1:1713-1722, 1.0.3:1736-1765, 1.0.2:1626-1651) |
| OutputTransforms.No108Before11 | aces_1.0.3/python/aces_ocio/colorspaces/aces.py:1736-1765 | before 1.1 a '108 nits' transform gets the 48-nit shaper |
| OutputTransforms.ConfigShaperName | aces_1.0.2/python/aces_ocio/generate_config.py:1429-1432 | 'Dolby PQ 48 nits Shaper' iff the base name is 'DolbyPQ', otherwise 'Log2 48 nits Shaper' (also 1.2 generate_config.py:1555-1558) |
| OutputTransforms.ReplaceOnce | aces_1.2/python/aces_ocio/colorspaces/aces.py:1691-1697 | a pattern that occurs once is replaced in place |
| OutputTransforms.PqVariantShape | aces_1.2/python/aces_ocio/colorspaces/aces.py:1689-1697 | the PQ variant of '<head> 48 nits <tail>' is 'Dolby PQ <nits> nits <tail>' |
| OutputTransforms.ConfigShaperVariants | aces_1.2/python/aces_ocio/generate_config.py:1555-1558 | with either configured shaper the variants are 'Dolby PQ <nits> nits Shaper' |
| OutputTransforms.RrtOdtSpace | aces_1.2/python/aces_ocio/colorspaces/aces.py:1489-1612 | named by the transform with the given shaper and aliases; `legalRange` is the entry's or 0; an inverse LUT iff the entry has an inverse CTL |
| OutputTransforms.AddKeeps | aces_1.2/python/aces_ocio/colorspaces/aces.py:1734-1740 | adding a colour space and its display keeps every display with exactly its three views |
| OutputTransforms.AddAllSpec | aces_1.2/python/aces_ocio/colorspaces/aces.py:1734-1740 | a transform's colour spaces are appended in order and the displays stay well formed |
| OutputTransforms.BuildAllSpec | aces_1.2/python/aces_ocio/colorspaces/aces.py:1702-1742 | the loop succeeds iff every transform does, with well-formed displays |
| OutputTransforms.BuildAllErrAt | aces_1.2/python/aces_ocio/colorspaces/aces.py:1702-1742 | the first failing transform decides the error |
| OutputTransforms.BuildAllSnoc | aces_1.2/python/aces_ocio/colorspaces/aces.py:1702-1742 | one more transform adds its colour spaces after the earlier ones |
| OutputTransforms.AddAllOne | aces_1.2/python/aces_ocio/colorspaces/aces.py:1734-1740 | one colour space is one addition |
| OutputTransforms.AddAllTwo | aces_1.0.0/python/aces_ocio/create_aces_colorspaces.py:1185-1219 | a pair is two additions in order |
| OutputTransforms.SinglesInOrder | aces_1.2/python/aces_ocio/colorspaces/aces.py:1702-1742 | one colour space per transform gives the colour spaces in transform order |
| OutputTransforms.OutputContributions | aces_1.2/python/aces_ocio/colorspaces/aces.py:1702-1740 | one outcome per transform, in order |
| OutputTransforms.CreateOutputTransforms | aces_1.2/python/aces_ocio/colorspaces/aces.py:1635-1742 | the loop computes `OutputTransformsOf`: shaper lookups, then one colour space and display per transform (also 1.1:1630-1737) |
| OutputTransforms.CreateOutputSpace | aces_1.2/python/aces_ocio/colorspaces/aces.py:1703-1733 | the loop body for one transform gives exactly `OutputContribution`: KeyError on a missing switch flag (or SSTS flag from 1.1), otherwise the one colour space with the shaper its name selects |
| OutputTransforms.OutputTransformsDisplayed | aces_1.2/python/aces_ocio/colorspaces/aces.py:1736-1740 | every output transform gets a display with exactly 'Raw', 'Log' and 'Output Transform' |
| OutputTransforms.LegalRangeParamZero | aces_1.2/python/aces_ocio/colorspaces/aces.py:1705-1727 | one colour space named by the user name with alias 'out_'+compact(name), the shaper its name selects, and `legalRange` 0 |
| OutputTransforms.AsWrittenContributions | aces_1.0.3/python/aces_ocio/colorspaces/aces.py:1751-1755 | the as-written body for each transform, the first one marked |
| OutputTransforms.CreateOdtsAsWritten | aces_1.0.3/python/aces_ocio/colorspaces/aces.py:1675-1785 | the 1.0.3 / 1.0.2 loop as written computes `OdtsAsWrittenOf` (also 1.0.2:1565-1671) |
| OutputTransforms.CreateOdtAsWritten | aces_1.0.3/python/aces_ocio/colorspaces/aces.py:1749-1776 | one pass as written: KeyError without the switch flag, UnboundLocalError('odt_legal') when the first transform has the switch on, otherwise the colour space its name and shaper give |
| OutputTransforms.FirstSwitchedUnbound | aces_1.0.3/python/aces_ocio/colorspaces/aces.py:1751-1755 | a switched first transform raises UnboundLocalError('odt_legal') (also 1.0.2:1637-1641) |
| OutputTransforms.CopyFirstNeverUnbound | aces_1.0.3/python/aces_ocio/colorspaces/aces.py:1751-1755 | with the copy made first the same transforms succeed, the first with `legalRange` 0 |
| OutputTransforms.AsWrittenLaterAgree | aces_1.0.3/python/aces_ocio/colorspaces/aces.py:1751-1755 | past the first transform the as-written body builds the same colour space |
| OutputTransforms.Paired | aces_1.0.0/python/aces_ocio/create_aces_colorspaces.py:1165 | the root script pairs exactly the three named Academy ODTs; the package pairs by the switch flag, KeyError when missing |
| OutputTransforms.PairedContributions | aces_1.0.0/python/aces_ocio/create_aces_colorspaces.py:1160-1219 | one outcome per transform, in order |
| OutputTransforms.CreatePairedOdts | aces_1.0.0/python/aces_ocio/create_aces_colorspaces.py:1160-1221 | the loop builds the pairs and singles in order (also root script 1841-1893) |
| OutputTransforms.PairedVariants | aces_1.0.0/python/create_aces_config.py:1845-1893 | a paired transform gives '<user> - Legal' with `legalRange` 1 and '<user> - Full' with 0; others '<user>' with 1 |
| OutputTransforms.PairedDisplayed | aces_1.0.0/python/aces_ocio/create_aces_colorspaces.py:1187-1219 | every colour space gets a display with 'Linear', 'Log' and 'Output Transform' |
| Lmts.Max | aces_1.2/python/aces_ocio/colorspaces/aces.py:1392-1393 | `max`: at least both arguments and one of them |
| Lmts.CreateLook | aces_1.2/python/aces_ocio/colorspaces/aces.py:1420-1438 | one pass computes the LMT's look; it fails, with NameError('odt_name'), exactly for a 1.0.0 LMT with an inverse CTL |
| Lmts.CreateLmts | aces_1.2/python/aces_ocio/colorspaces/aces.py:1360-1446 | resolutions raised to at least 4096 (1D) and 65 (3D); the looks are those of `LooksOf`, and the call fails exactly when `LooksOf` does, with its error (also 1.0.3:1011-1104, 1.0.0 create_aces_colorspaces.py:738-821) |
| Lmts.LooksOfSpec | aces_1.2/python/aces_ocio/colorspaces/aces.py:1423-1443 | the loop fails exactly when the generation is 1.0.0 and some LMT has an inverse CTL, and then with NameError('odt_name'); otherwise it yields one look per LMT, in order, each that LMT's own look |
| Lmts.LookShape | aces_1.2/python/aces_ocio/colorspaces/aces.py:1274-1334 | named by the user name with alias 'look_'+compact(name); a matrix exactly for the blue light fix from 1.1; otherwise an inverse LUT iff an inverse CTL, distinct from the forward LUT |
| Lmts.BlueLightIsMatrix | aces_1.2/python/aces_ocio/colorspaces/aces.py:1429-1438 | from 1.1 the 'Blue Light Artifact Fix' look is its 3x3 matrix embedded as 4x4; before 1.1 a LUT look |
| Lmts.V100InverseNameError | aces_1.0.0/python/aces_ocio/create_aces_colorspaces.py:701-705 | as written, an LMT with an inverse CTL raises NameError('odt_name'), and so does the whole `create_LMTs` loop (whose outcome `CreateLmts` ties to `LooksOf`) |
| Lmts.InverseLutNamedByLook | aces_1.2/python/aces_ocio/colorspaces/aces.py:1334 | named by the LMT itself, the inverse LUT is 'Inverse.<name>.LMT Shaper.spi3d' |
| BakedLuts.WithSuffix | aces_1.0.0/python/aces_ocio/create_aces_config.py:585-598 | the copied entry's user name gets the suffix and nothing else changes |
| BakedLuts.SuffixInjective | aces_1.0.0/python/aces_ocio/create_aces_config.py:585-598 | one suffix on two keys gives two keys |
| BakedLuts.LegalIsNotFull | aces_1.0.0/python/aces_ocio/create_aces_config.py:585-598 | a ' - Legal' key is never a ' - Full' key |
| BakedLuts.ExpandSwitchedOdts | aces_1.0.0/python/aces_ocio/create_aces_config.py:585-598 | KeyError iff some ODT lacks the switch flag; otherwise each switched ODT is replaced by '<key> - Legal' and '<key> - Full' with suffixed user names, others kept, nothing else added |
| BakedLuts.StepKeeps | aces_1.0.0/python/aces_ocio/create_aces_config.py:587-598 | one more key keeps the copy in its expected shape |
| BakedLuts.StepKeepsOriginals | aces_1.0.0/python/aces_ocio/create_aces_config.py:587-598 | keys not yet replaced keep their entries |
| BakedLuts.StepReplaces | aces_1.0.0/python/aces_ocio/create_aces_config.py:587-598 | a processed switched key is gone and its two suffixed entries are present |
| BakedLuts.StepAddsNothingElse | aces_1.0.0/python/aces_ocio/create_aces_config.py:587-598 | nothing else enters the copy |
| BakedLuts.ExpansionOrderFree | aces_1.0.0/python/aces_ocio/create_aces_config.py:585-598 | the result does not depend on the dictionary's iteration order |

## Left out

- Floating-point colour science: the transfer curves of the camera and general colour-space modules, the S-Log2 kernel in `aces_0.1.1/luts/sony/slog2.py`, the ADX interpolation and every LUT's numeric content. They use `pow`, `log10` and numpy on floats, which cannot be stated exactly here.
- LUT generation and file writing (`generate_lut.py`, `generateLUT.py`, `write_SPI_1D`, `correct_LUT_image`), `process.py`, `write_config`, `generate_config_directory`, `main` and the option callbacks: these are subprocesses, file I/O and command lines.
- The OCIO library: only roles, the added colour spaces, display/view entries and the active display and view strings are modelled. `sanityCheck`, `serialize`, OCIO's own ordering of displays and its case-insensitive view matching are not.
- The file system: it is an input, a list of files each with its directory, name and lines. `os.walk`'s order is the list's order, and the model has no symbolic links and no relative path components.
- Regular expressions in `filter_words`: matching is a parameter `search`.
- Python 2/3 differences, the 1.0.0 `ColorSpace` classes' shared mutable default arguments, and non-ASCII `lower()`: strings are taken as ASCII.
- PrefixedNames.ResetUndoesPrefix, PrefixedNames.DuplicateOriginalKeyError, PrefixedNames.SameNameTwoFamilies: these take the reset to walk the colour spaces in the order they were prefixed. The source prefixes a copy sorted by family (aces_1.0.2 generate_config.py:640-641) and resets the unsorted list (945-946). For that case, `PrefixedNames.ResetInListOrder` and `PrefixedNames.DuplicateKeyErrorInListOrder` state the reset over the list's own order. The sort itself is not computed; its result is given as a position map.
- Dictionary iteration order: a dictionary is a list of pairs in the order Python yields them. The sorts of LMTs and output transforms are taken as the given order of their input lists: the 1.2 sort by `tuple(x[1].items())`, and the Python 2 dictionary comparisons `key=lambda x: x[1]` in 1.0.3 aces.py:1083 and 1746, 1.0.2 aces.py:985 and 1632, and 1.0.0 create_aces_colorspaces.py:800 and 1158. So a "first ODT in sorted order" in the findings below is the first entry of the given list.
- Ocio.Config.AddColorSpace: the colour-space list is append-only. OCIO replaces a colour space already added under the same name; the model keeps both entries, so `Aliases.AddColorspaceAliases` and `Aliases.AddColorspaceAlias` add one entry per alias even when an alias name repeats.
- OutputTransforms.CreateOutputTransforms: the shaper colour spaces that `create_shapers` returns, which the source puts at the head of the returned list (1.2 aces.py:1679-1682, 1.1 aces.py:1674-1677), are not part of the result; only the transforms' own colour spaces and the displays are.
- OutputTransforms.CreateOdtsAsWritten: likewise without the shaper colour spaces of 1.0.3 aces.py:1724-1729 and 1.0.2 aces.py:1614-1619.
- OutputTransforms.CreatePairedOdts: likewise without the six shaper colour spaces the 1.0.0 `create_ODTs` appends before its loop.
- The colour spaces `create_config_data` gathers from the camera modules, and the description and allocation settings `create_config` copies into each OCIO colour space.
- Utilities.ReplaceSingleOccurrence: the docstring example of `replace` (1.0.0 utilities.py:178-186) is not evaluated on its literal strings; the lemma proves the general step it relies on.
- Utilities.Fit: computed over exact reals, not IEEE doubles; that fromMax lands exactly on toMax holds only in real arithmetic (with doubles, value = fromMax = 1, fromMin = 0, toMin = 1e20, toMax = 1 gives 0).
- Utilities.FitRoundTrip: the round trip is exact only over reals; with doubles each fit rounds, so the value is recovered only approximately.
- Utilities.Cmp: modelled on strings under lexicographic order; the source compares any two Python values.
- Discovery.ClimbToRoot: when no parent directory ends in the target, the source loops forever; the model returns `Diverges`.
- BakedLuts.ExpandSwitchedOdts: the contents are stated only when no ODT key already ends in ' - Legal' or ' - Full'.
- OutputTransforms.RrtOdtSpace: only names are modelled (colour space, aliases, LUT files and shaper). The shaper transforms, the CTL render parameters other than `legalRange`, and the 1.2 branch for pre-baked inverse LUTs (`transformLUTInverse`) are not.
- Transforms.CreateOcioTransform: the OCIO interpolation constants are their names, and 'cccid', 'offset', 'value' and 'base' are carried through unchecked.

## Findings

| source | as written | input that shows it | evidently intended | confidence | as-written member | corrected member |
|---|---|---|---|---|---|---|
| aces_1.2/python/aces_ocio/generate_config.py:246-249 | the message for an unknown transform type is indexed with `['type']` after formatting, so a TypeError is raised | any description whose 'type' is not recognised, e.g. `{'type': 'foo'}` | the unknown type is reported and skipped, as in 1.0.2 | not executed | Transforms.UnknownTypeRaises | Transforms.UnknownTypeSkipped |
| aces_1.0.3/python/aces_ocio/colorspaces/aces.py:1751-1755 | `odt_legal['legalRange'] = 0` runs before `odt_legal` is bound for the current ODT (same in 1.0.2 aces.py:1637-1641) | a first ODT in sorted order with the full/legal switch | the copy is made first and `legalRange` set on it, as 1.1 does | not executed | OutputTransforms.FirstSwitchedUnbound | OutputTransforms.CopyFirstNeverUnbound |
| aces_1.0.0/python/create_aces_config.py:2114-2115 | the inverse is stored under `lmts[odtName]`, a name `getLMTInfo` never defines | any LMT whose 'InvLMT.<name>.ctl' exists beside it | stored under `lmts[lmtName]` | not executed | Discovery.RootLmtInverseNameError | Discovery.LmtInverseRecorded |
| aces_1.0.0/python/aces_ocio/create_aces_colorspaces.py:701-705 | the inverse LUT name uses `odt_name`, undefined in `create_ACES_LMT` | any LMT with 'transformCTLInverse' | the LMT's own name, as 1.0.2 onwards write it | not executed | Lmts.V100InverseNameError | Lmts.InverseLutNamedByLook |
| aces_1.0.0/python/aces_ocio/create_aces_config.py:268-288 | an alias gets a to-reference (from-reference) transform only when the original has none | an original colour space with to-reference transforms | a link exactly in the directions the original has, as 1.2 does | not executed | Aliases.InvertedConditionAsWritten | Aliases.AliasConvertsLikeOriginal |
