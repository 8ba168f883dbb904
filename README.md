# Lumina Studio 3MF colour and name fixing, modelled in Dafny

This project models the two passes that Lumina Studio runs over the model
document of a 3MF archive before writing it back.

1. **Colour pass** (`add_colors_to_xml_string` and its helpers in
   `utils/add_3mf_colors.py`). It runs on the parsed XML element tree.
   - It lists the objects under `resources` and picks one of two fixed
     four-colour palettes (RYBW or CMYW) by a majority vote over the object
     names.
   - It splices one `colorgroup` per palette colour in front of the first
     `object`. The `colorgroup` and `color` elements are those of the Color
     Groups chapter of the 3MF Materials and Properties Extension.
   - On every object named after a palette colour, it sets `pid` and
     `p1="0"` on each triangle (3MF Core Specification, chapter 4).
   - It sets the non-standard `materialid` on each build item whose
     `partnumber` names a palette colour.
2. **Name fix** (`safe_fix_3mf_names` in `utils/helpers.py`). It is string
   surgery on the model text.
   - It finds the `<object …>` start tags that carry a numeric id.
   - It renames them from a list of slot names by forward position,
     splicing from the last tag to the first.
   - Optionally it adds an assembly object, whose id is the largest id plus
     one, and points the build at it.
   - Then, when colours are on, it runs the colour pass on the edited text.
   - Only the model entry of the archive changes.

How the model is built:
- The element tree is a value: `XmlTree.Element(tag, attrs, children)`.
- Every lookup matches on local name, as the source does:
  `name in tag.split('}')`.
- Loops of the source are methods with loop invariants. Each method is
  proved equal to a specification function, and the properties are proved
  about those functions.
- Where the source changes elements in place through shared references
  (the object catalogue, the build items), the methods return the updated
  elements. `Tagging.ReplaceObjects` puts them back where the references
  point.
- The archive is the name-to-text dictionary that `safe_fix_3mf_names`
  reads it into: `Package.Archive`.
- XML parsing and serialisation are function parameters, `parse` and
  `serialize`; `parse` returns `None` where the parser raises.
- The regex scan for object tags is a function parameter `scan`. Its
  matches must satisfy `TagScan.ValidScan`: each span lies inside the text
  and runs from a `<` to a `>`, the spans come in order without
  overlapping, and an id, when one is found, is all digits.

With no `object` child in `resources`, the code appends the colorgroups
while walking the palette in reverse (add_3mf_colors.py:361-367), so they
land in reverse palette order. The comment at add_3mf_colors.py:361 says
the reversal is only there to put the first colorgroup at the front. The
model follows the code: see `Injection.SplicePlacementAppended` and
`Injection.SplicedReversedWithoutObject`.

## Model

| member | source | states |
|---|---|---|
| Palette.PaletteFor | utils/add_3mf_colors.py:323-326 | the mode string "cmyw" selects the CMYW palette; every other string, including unknown ones, selects RYBW |
| Palette.ColorgroupId | utils/add_3mf_colors.py:61-95 | the id of a palette colour is its 1-based position in the selected palette; a name outside the palette gets "1"; every id is one of "1".."4" |
| Palette.ColorgroupIdTables | utils/add_3mf_colors.py:72-95 | the two tables entry by entry: cmyw maps Cyan, Magenta, Yellow, White to 1-4; every other mode maps Red, Yellow, Blue, White to 1-4; a colour of the other palette gets "1" |
| Palette.ColorgroupIdsDistinct | utils/add_3mf_colors.py:73-86 | different palette colours get different ids |
| Palette.DetectColorMode | utils/add_3mf_colors.py:98-119 | the result is "cmyw" or "rybw", and it is "cmyw" exactly when strictly more names are CMYW colours than RYBW colours (ties and 0-0 give "rybw") |
| Palette.MatchCountAppend | utils/add_3mf_colors.py:109-110 | the match count of a concatenation is the sum of the counts |
| Palette.MatchCountPermutation | utils/add_3mf_colors.py:109-110 | reordering the names, repeats kept, does not change how many of them a palette matches |
| Palette.DetectOrderInsensitive | utils/add_3mf_colors.py:109-119 | two name lists holding the same names with the same repeats, in any order, get the same vote, since both counters only count occurrences |
| Palette.DetectNeutralName | utils/add_3mf_colors.py:109-119 | adding a name that is in both palettes or in neither does not change the vote |
| Palette.CmywNeedsCyanOrMagenta | utils/add_3mf_colors.py:109-119 | without "Cyan" or "Magenta" among the names the vote is always "rybw" |
| Palette.DetectScenarios | utils/add_3mf_colors.py:113-119 | the vote on sample lists, including the empty list and a 1-1 tie |
| XmlTree.QualifiedTagMatch | utils/add_3mf_colors.py:237 | for a tag `{ns}local` the local-name test holds exactly for `local` |
| XmlTree.PlainTagMatch | utils/add_3mf_colors.py:237 | for a tag without `}` the local-name test holds exactly for the tag itself |
| XmlTree.FindChild | utils/add_3mf_colors.py:583-586 | the index of the first child with the local name, or None exactly when no child has it |
| XmlTree.TrianglesPath | utils/add_3mf_colors.py:274-292 | the first `mesh` child and its first `triangles` child, or None exactly when one of them is missing |
| Catalog.IsAssembly | utils/add_3mf_colors.py:122-143 | true exactly when some direct child has local name `components` |
| Catalog.Info | utils/add_3mf_colors.py:238-248 | the record of an object: its element, its `id` or None, `name` defaulting to "", `type` defaulting to "model", and the assembly flag |
| Catalog.CatalogueAppend | utils/add_3mf_colors.py:236-248 | the catalogue of a concatenation is the concatenation of the catalogues |
| Catalog.CatalogueExact | utils/add_3mf_colors.py:236-248 | every catalogue entry is the record of an `object` child, and every `object` child has its record in the catalogue |
| Catalog.CatalogueChildren | utils/add_3mf_colors.py:236-248 | the loop over the children of `resources` builds the catalogue |
| Catalog.GetObjectsInfo | utils/add_3mf_colors.py:197-255 | an error with the message "<resources> element missing in XML" exactly when no child of the root is `resources`; otherwise the catalogue of its children |
| Catalog.TrianglesInfoKeys | utils/add_3mf_colors.py:270-300 | a name is a key exactly when some non-assembly object with a mesh and triangles carries it |
| Catalog.TrianglesInfoLastWins | utils/add_3mf_colors.py:295-300 | the count under a name is the number of `triangle` children of the last such object carrying that name |
| Catalog.GetTrianglesInfo | utils/add_3mf_colors.py:258-306 | the loop computes the triangle census |
| Injection.BuildColorgroups | utils/add_3mf_colors.py:337-349 | the loop yields the four colorgroups in palette order and the name-to-id map |
| Injection.ColorgroupContent | utils/add_3mf_colors.py:340-346 | the i-th colorgroup has the single attribute id i + 1 and exactly one empty `color` child whose single attribute is the i-th palette hex value |
| Injection.ColorgroupMapProperties | utils/add_3mf_colors.py:333-349 | the map's keys are exactly the palette names, the i-th colour maps to i + 1, and different keys have different ids |
| Injection.InsertColorgroups | utils/add_3mf_colors.py:311-371 | the insertion loop gives `resources` the spliced children and returns the name-to-id map |
| Injection.SpliceKeepsChildren | utils/add_3mf_colors.py:353-367 | `resources` gains exactly as many children as were inserted, and removing the inserted block gives back the old children in their old order |
| Injection.SplicePlacementBefore | utils/add_3mf_colors.py:362-364 | with an `object` child, the new block sits immediately before the first object, in the given order, and that object remains the first |
| Injection.SplicePlacementAppended | utils/add_3mf_colors.py:365-367 | with no `object` child, the block is appended at the end in reverse order and there is still no object |
| Injection.SplicedReversedWithoutObject | utils/add_3mf_colors.py:362-367 | with no `object` child, position i after the old children holds the colorgroup of palette entry 3 - i |
| Injection.SpliceCatalogue | utils/add_3mf_colors.py:353-367 | the splice does not change the object catalogue |
| Injection.ColorgroupsHaveNoObjects | utils/add_3mf_colors.py:341 | none of the new elements is an `object` |
| Tagging.TagTriangles | utils/add_3mf_colors.py:432-437 | the loop tags the `triangle` children and counts them |
| Tagging.TaggedTriangleMeaning | utils/add_3mf_colors.py:433-436 | a `triangle` child gains `pid` = the id and `p1` = "0" and keeps its other attributes, tag and children; any other child is unchanged |
| Tagging.TaggedTrianglesCount | utils/add_3mf_colors.py:433-437 | tagging keeps every child's tag, hence the `triangle` count |
| Tagging.TaggedTrianglesLastWins | utils/add_3mf_colors.py:435-436 | tagging twice is tagging once with the second id |
| Tagging.TagObjectKeepsShape | utils/add_3mf_colors.py:409-437 | tagging an object keeps its tag, attributes, child tags, mesh/triangles path, assembly flag, triangle count and catalogue record |
| Tagging.TagObjectTriangles | utils/add_3mf_colors.py:409-437 | inside the tagged object every `triangle` under the path has the id and "0"; every other child there, every other mesh child and every other object child is unchanged |
| Tagging.TriangleStatsIsCensus | utils/add_3mf_colors.py:393-439 | the statistics are the census of `get_triangles_info` restricted to the names the map holds |
| Tagging.AddTriangleColors | utils/add_3mf_colors.py:376-444 | the loop yields each object element recoloured exactly when it is a non-assembly, its name is in the map and it has mesh and triangles, plus the statistics |
| Tagging.WriteBackRecoloured | utils/add_3mf_colors.py:393-437 | writing the recoloured catalogue back through the references is the same as recolouring every `object` child in place |
| Tagging.RecolouredKeepsRun | utils/add_3mf_colors.py:393-437 | children that are not objects are untouched |
| Tagging.AddBuildMaterials | utils/add_3mf_colors.py:449-496 | with no `build` child, the root is unchanged and the statistics are empty; otherwise only the build's items are tagged, with the statistics |
| Tagging.TagBuildItems | utils/add_3mf_colors.py:478-491 | the item loop yields the tagged children and the objectid-to-materialid statistics |
| Tagging.TagItemMeaning | utils/add_3mf_colors.py:479-488 | an `item` whose `partnumber` (default "") is a key gains `materialid` = its id and keeps everything else; any other child is unchanged |
| Tagging.TaggedItemsIdempotent | utils/add_3mf_colors.py:478-488 | tagging the build items twice is tagging them once |
| Tagging.BuildStatsKeys | utils/add_3mf_colors.py:478-488 | a key of the statistics is exactly the objectid (possibly absent) of some tagged item, and every value is an id of the map |
| Colorize.CandidateNamesAppend | utils/add_3mf_colors.py:569 | the names voted on form a filter of the catalogue: those of a concatenation are those of each part in order, repeats kept |
| Colorize.CandidateNamesSingle | utils/add_3mf_colors.py:569 | one object contributes its name exactly when it is not an assembly |
| Colorize.CandidateNamesExact | utils/add_3mf_colors.py:569 | the names voted on are exactly those of the non-assembly objects |
| Colorize.FinalMode | utils/add_3mf_colors.py:569-578 | a mode other than "auto" is used as given; "auto" gives "cmyw" or "rybw", and "cmyw" exactly when more of the non-assembly object names (with repeats) are CMYW colours than RYBW colours |
| Colorize.SplicedObjectCount | utils/add_3mf_colors.py:591-594 | inserting the colorgroups leaves the object catalogue taken before it valid |
| Colorize.AddColorsToTree | utils/add_3mf_colors.py:562-598 | an error exactly when the root has no `resources` child; otherwise the coloured tree |
| Colorize.ColorizedChildren | utils/add_3mf_colors.py:583-597 | the coloured root keeps its tag, attributes and number of children; `resources` is spliced and recoloured, `build` has its items tagged, every other child is unchanged |
| Colorize.ColorizedColorgroupCount | utils/add_3mf_colors.py:591 | `resources` ends up with exactly four more `colorgroup` children |
| Colorize.ColorizedColorgroupsBefore | utils/add_3mf_colors.py:362-364 | in the coloured `resources` the four colorgroups sit in palette order where the first object was |
| Colorize.ColorizedColorgroupsAppended | utils/add_3mf_colors.py:365-367 | with no object, the coloured `resources` ends with the four colorgroups in reverse order |
| Colorize.ColorizedTriangles | utils/add_3mf_colors.py:594 | in an eligible object of the coloured tree every triangle has `pid` = the id of the object's name and `p1` = "0" |
| Colorize.ColorizedBuildItem | utils/add_3mf_colors.py:597 | a build item whose `partnumber` is a palette colour gets `materialid` = that colour's id |
| Colorize.ColorizeText | utils/add_3mf_colors.py:535-613 | success exactly when the text parses and has `resources`; the result is then the serialised coloured tree |
| Colorize.AddColorsToXmlString | utils/add_3mf_colors.py:535-613 | fails exactly when parsing fails or `resources` is missing; otherwise it returns the serialised coloured tree |
| Text.SplitJoin | utils/helpers.py:86 | splitting a join of separator-free parts on the separator gives the parts back |
| Text.Find | utils/helpers.py:96 | the first occurrence of a pattern at or after a position, or None exactly when there is none |
| Text.ValueShow | utils/helpers.py:82-83 | reading back a decimal rendering gives the number |
| TagScan.ObjectTagSource | utils/helpers.py:54-59 | each collected tag comes from a match that has an id, taken in order |
| TagScan.ObjectTagsComplete | utils/helpers.py:54-59 | every match with an id is collected |
| TagScan.ObjectTagsValid | utils/helpers.py:54-59 | the collected tags are in bounds, digit ids, and do not overlap |
| TagScan.ObjectTagsOrder | utils/helpers.py:54-59 | the collected tags are in document order |
| TagScan.CollectObjectTags | utils/helpers.py:54-59 | the loop collects exactly the matches that have an id, in order |
| NameAttr.StripFromIdentity | utils/helpers.py:74 | a text with no whitespace-then-`name="…"` is left unchanged by the strip |
| NameAttr.StripKeepsFinalChar | utils/helpers.py:74 | the strip keeps the closing `>` of a tag |
| NameAttr.RenameTagShape | utils/helpers.py:74-75 | the new tag is the stripped tag with its final `>` replaced by ` name="…">` |
| TagSplice.ReplacedLayout | utils/helpers.py:65-77 | after the splices the text is the original text with each tag span replaced by its piece |
| NameFix.RenamedWithoutSlots | utils/helpers.py:68-69 | with no slot names the text is unchanged |
| NameFix.RenameObjects | utils/helpers.py:65-77 | the reverse splice loop produces the text renamed by forward position |
| NameFix.RenamedLayout | utils/helpers.py:65-77 | in the renamed text the tag at forward position k is renamed to slot k when there is one and kept otherwise, and all text outside the tag spans is the original |
| NameFix.EditModelText | utils/helpers.py:65-107 | the text after the rename loop and, when asked for with more than one id, the assembly insertion and the build replacement |
| Assembly.MaxValueIsMax | utils/helpers.py:82 | the maximum bounds every id and is the value of one of them |
| Assembly.AssemblyIdFresh | utils/helpers.py:82-83 | the assembly id is larger than every object id, differs from each as text, and is one more than one of them |
| Assembly.ComponentsRoundTrip | utils/helpers.py:86 | splitting the component lines on newlines gives one `component objectid` line per id, in discovery order |
| Assembly.InsertAssembly | utils/helpers.py:96-98 | without `</resources>` the text is unchanged; otherwise the assembly sits immediately before the first `</resources>` and the text around it is unchanged |
| Assembly.BuildSpan | utils/helpers.py:103-104 | the span from the first `<build>` to the first `</build>` after it, or None exactly when there is no such pair |
| Assembly.ReplaceBuild | utils/helpers.py:103-107 | without a build span the text is unchanged; otherwise the span is replaced by the one-item build and the rest is unchanged |
| Package.FindModelEntry | utils/helpers.py:39-43 | the first archive name ending in `.model` and containing `3D/`, or None exactly when there is none |
| Package.ColourMode | utils/helpers.py:116-123 | the caller's mode when given, otherwise the vote over the slot names |
| Package.Fixed | utils/helpers.py:39-136 | with the corrected colour fallback: the archive keeps its names, order and keys, and every entry other than the model entry keeps its text |
| Package.SafeFix3mfNames | utils/helpers.py:39-136 | the method updates the entry dictionary in place to the fixed archive: the model entry gets the coloured text, or the edited text when colours are off or the colour pass fails |
| Package.FixedColoured | utils/helpers.py:125-131 | when the colour pass succeeds, the model entry holds the serialised coloured tree of the edited text, as written and corrected alike |
| Package.ColourFailureKeepsOriginal | utils/helpers.py:132-133 | as written: when the colour pass fails, the model entry keeps its original text |
| Package.ColourFailureKeepsEdits | utils/helpers.py:132-133 | corrected: when the colour pass fails, the model entry keeps the renamed and assembled text |
| Package.ColourFailureDropsRename | utils/helpers.py:132-133 | on one object tag, the slot "Red" and a failing parse, the code as written loses the rename that the corrected version keeps |

## Left out

- Reading and writing the ZIP archive is not modelled: `read_3mf`, `write_3mf`, and the `ZipFile` code in helpers.py:33-36 and 139-141. The archive is the name-to-text dictionary in between.
- UTF-8 decoding and encoding of the model entry are not modelled: text and bytes are the same value here.
- `register_namespaces`, `ET.fromstring` and `ET.tostring` are foreign library calls. They appear as the `parse` and `serialize` parameters. The namespace registration only affects the prefixes `serialize` writes.
- All `print` logging is left out.
- The blanket `except` at helpers.py:145-146 only turns an I/O or decoding failure into a printed warning, so it is left out.
- `XmlTree.Element` has no text or tail and keeps the attributes in a map, so the text between elements and the order of attributes are not modelled; both live inside the `parse` and `serialize` parameters.
- Catalog.GetObjectsInfo: the namespace fallback chain (`root.find('resources')`, then the root's own namespace, then the local-name scan) is collapsed to the local-name scan. They differ only for a root holding two `resources` children of which a later one has a plain or root-namespace tag.
- Colorize.AddColorsToTree: because of that collapse, the catalogue and the insertion use the same `resources` element.
- TagScan.ValidScan: the regular expressions of helpers.py:49 and 56 (case-insensitive `<object\s+…>`, `\bid="(\d+)"`) are not modelled. The scan is a parameter whose matches are only required to be in-bounds spans from `<` to `>`, in order and not overlapping, with digit-only ids; that a span starts with `<object` is not checked. Digits are ASCII only: Python's `\d` on a str also accepts the other Unicode decimal digits (and `int()` at helpers.py:82 reads them), so a scan reporting an id such as `١` is outside this model.
- Assembly.BuildSpan: it searches for the literal `<build>` and `</build>` as the pattern of helpers.py:103 does; only the regex engine is not modelled.
- NameAttr.RenameTag: the whitespace-then-`name="…"` removal of helpers.py:74 is written out character by character. The model does not prove that no `name` attribute is left after it, only the shape of the result and that a tag without one is unchanged.
- Tagging.AddTriangleColors: ElementTree changes the catalogued object elements in place through shared references. The model returns the updated elements, and `Tagging.ReplaceObjects` puts them back into `resources`; aliasing itself is not modelled.
- Tagging.AddBuildMaterials: the in-place `item.set` calls are modelled by returning the root with the updated build.
- Package.WellFormed: the archive is assumed to list each name once, as the dictionary of helpers.py:34-36 does.
- Package.SafeFix3mfNames: it stores the edited text when the colour pass fails, the corrected behaviour of "## Findings"; the code as written is `Package.FixedModel`, with `Package.ColourFailureKeepsOriginal`.
- Package.SafeFix3mfNames: a failure of the colour pass other than a parse error or a missing `resources` (for example a failing `serialize`) is not modelled.

## Findings

| source | as written | input that shows it | evidently intended | confidence | as-written member | corrected member |
|---|---|---|---|---|---|---|
| utils/helpers.py:132-133 | when the colour pass raises, the `except` branch writes nothing, so the model entry keeps the original bytes and the renames and assembly are lost | a model text that is one `<object id="1">` tag, slot names ["Red"], colours on, and a text the parser rejects | keep the renamed and assembled text, discarding only the colour changes: the docstring (helpers.py:18-20) gives the function's job as fixing names and optionally adding an assembly, and colours are optional (`enable_colors`), so a colour failure should not undo the renames | medium, not executed | Package.ColourFailureDropsRename | Package.ColourFailureKeepsEdits |
