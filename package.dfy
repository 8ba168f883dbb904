/** `safe_fix_3mf_names` at the level of the archive (helpers.py:16-146):
    pick the model entry, edit its text, optionally run the colour pass on
    the edited text, and leave every other entry as it was. The archive is
    the name-to-contents dictionary the function reads it into; reading and
    writing the ZIP file are not part of this model. */
module Package {
  import opened Results
  import opened Text
  import opened XmlTree
  import opened Palette
  import opened Colorize
  import opened TagScan
  import opened NameAttr
  import opened TagSplice
  import opened NameFix

  /** `files_data`: entry names in the order the archive lists them, and
      the text of each entry. */
  datatype Archive = Archive(names: seq<string>, data: map<string, string>)

  /** A dictionary: each name once, and a text for exactly the listed names. */
  ghost predicate WellFormed(a: Archive)
  {
    && (forall i, j :: 0 <= i < j < |a.names| ==> a.names[i] != a.names[j])
    && (forall n :: n in a.data <==> n in a.names)
  }

  /** `s.endswith(suffix)`. */
  predicate EndsWith(s: string, suffix: string)
  {
    |suffix| <= |s| && s[|s| - |suffix|..] == suffix
  }

  /** `name.endswith('.model') and '3D/' in name` (helpers.py:41). */
  predicate IsModelEntry(name: string)
  {
    EndsWith(name, ".model") && Find(name, "3D/", 0).Some?
  }

  /** Position of the first model entry at or after `from`. */
  function ModelEntryFrom(names: seq<string>, from: nat): (r: Option<nat>)
    decreases |names| - from
    ensures r.Some? ==> from <= r.value < |names| && IsModelEntry(names[r.value])
    ensures r.Some? ==> forall k :: from <= k < r.value ==> !IsModelEntry(names[k])
    ensures r.None? ==> forall k :: from <= k < |names| ==> !IsModelEntry(names[k])
  {
    if from >= |names| then None
    else if IsModelEntry(names[from]) then Some(from)
    else ModelEntryFrom(names, from + 1)
  }

  function ModelEntry(names: seq<string>): Option<nat>
  {
    ModelEntryFrom(names, 0)
  }

  /** The search of helpers.py:39-43: the first name, in archive order,
      that is a model entry. */
  method FindModelEntry(names: seq<string>) returns (modelFile: Option<nat>)
    ensures modelFile == ModelEntry(names)
    ensures modelFile.Some? ==> modelFile.value < |names| && IsModelEntry(names[modelFile.value])
    ensures modelFile.None? <==> forall k :: 0 <= k < |names| ==> !IsModelEntry(names[k])
  {
    modelFile := None;
    var i := 0;
    while i < |names|
      invariant 0 <= i <= |names|
      invariant forall k :: 0 <= k < i ==> !IsModelEntry(names[k])
    {
      if IsModelEntry(names[i]) {
        modelFile := Some(i);
        return;
      }
      i := i + 1;
    }
  }

  /** The colour mode handed to the colour pass (helpers.py:116-123): the
      caller's, or else the one detected from the slot names. */
  function ColourMode(slots: seq<string>, colorMode: Option<string>): (mode: string)
    ensures colorMode.Some? ==> mode == colorMode.value
    ensures colorMode.None? ==> (mode == "cmyw" || mode == "rybw")
    ensures colorMode.None? ==> (mode == "cmyw" <==> MatchCount(slots, CMYW) > MatchCount(slots, RYBW))
  {
    match colorMode
    case None => DetectColorMode(slots)
    case Some(m) => m
  }

  /** The model text after the renames and the assembly edits, for the
      matches the object-tag scan reports in it. */
  function EditedModel(original: string, ms: seq<TagMatch>, slots: seq<string>, createAssembly: bool): string
    requires ValidScan(original, ms)
  {
    ObjectTagsValid(original, ms);
    Edited(original, ObjectTags(ms), slots, createAssembly)
  }

  /** What the model entry holds afterwards, as written
      (helpers.py:110-136): the edited text when colours are off; the
      coloured text when the colour pass succeeds; and when it fails, the
      ORIGINAL text, the edits being dropped with the coloured text. */
  function FixedModel(original: string, ms: seq<TagMatch>, slots: seq<string>, createAssembly: bool,
                      enableColors: bool, colorMode: Option<string>,
                      parse: string -> Option<Element>, serialize: Element -> string): string
    requires ValidScan(original, ms)
  {
    var edited := EditedModel(original, ms, slots, createAssembly);
    if !enableColors then edited
    else
      match ColorizeText(edited, ColourMode(slots, colorMode), parse, serialize)
      case Ok(coloured) => coloured
      case Err(_) => original
  }

  /** The model entry with the colour fallback corrected: a failing colour
      pass discards only its own changes and keeps the edited text. The
      function's docstring (helpers.py:18-20) gives its job as fixing the
      names and optionally adding an assembly, colours being optional, so a
      colour failure should not undo the renames. */
  function FixedModelIntended(original: string, ms: seq<TagMatch>, slots: seq<string>, createAssembly: bool,
                              enableColors: bool, colorMode: Option<string>,
                              parse: string -> Option<Element>, serialize: Element -> string): string
    requires ValidScan(original, ms)
  {
    var edited := EditedModel(original, ms, slots, createAssembly);
    if !enableColors then edited
    else
      match ColorizeText(edited, ColourMode(slots, colorMode), parse, serialize)
      case Ok(coloured) => coloured
      case Err(_) => edited
  }

  /** The archive afterwards, with the corrected colour fallback: only the
      model entry can change, and the names and their order stay as they
      were. */
  function Fixed(a: Archive, slots: seq<string>, createAssembly: bool, enableColors: bool,
                 colorMode: Option<string>, scan: string -> seq<TagMatch>,
                 parse: string -> Option<Element>, serialize: Element -> string): (r: Archive)
    requires WellFormed(a) && forall text :: ValidScan(text, scan(text))
    ensures WellFormed(r) && r.names == a.names && r.data.Keys == a.data.Keys
    ensures forall n :: n in a.data && (ModelEntry(a.names).None? || n != a.names[ModelEntry(a.names).value])
                        ==> r.data[n] == a.data[n]
  {
    match ModelEntry(a.names)
    case None => a
    case Some(i) =>
      var name := a.names[i];
      var original := a.data[name];
      a.(data := a.data[name := FixedModelIntended(original, scan(original), slots, createAssembly,
                                                   enableColors, colorMode, parse, serialize)])
  }

  /** `safe_fix_3mf_names` between reading and writing the archive
      (helpers.py:39-136), updating the dictionary of entries in place.
      When the colour pass fails, the edited text is stored, the renames
      and the assembly being the function's job (helpers.py:18-20); the
      code as written stores nothing there (helpers.py:132-133), which
      `FixedModel` records. */
  method SafeFix3mfNames(a: Archive, slots: seq<string>, createAssembly: bool, enableColors: bool,
                         colorMode: Option<string>, scan: string -> seq<TagMatch>,
                         parse: string -> Option<Element>, serialize: Element -> string)
    returns (result: Archive)
    requires WellFormed(a) && forall text :: ValidScan(text, scan(text))
    ensures result == Fixed(a, slots, createAssembly, enableColors, colorMode, scan, parse, serialize)
  {
    var filesData := a.data;
    var modelFile := FindModelEntry(a.names);
    if modelFile.Some? {
      var name := a.names[modelFile.value];
      var content := filesData[name];
      var matches := scan(content);
      assert ValidScan(content, matches);
      ghost var entry := FixedModelIntended(content, matches, slots, createAssembly, enableColors, colorMode, parse, serialize);
      var objInfo := CollectObjectTags(matches);
      ObjectTagsValid(content, matches);
      var text := EditModelText(content, objInfo, slots, createAssembly);
      if enableColors {
        var actualColorMode := if colorMode.None? then DetectColorMode(slots) else colorMode.value;
        var modified := AddColorsToXmlString(text, actualColorMode, parse, serialize);
        if modified.Ok? {
          filesData := filesData[name := modified.value];
        } else {
          filesData := filesData[name := text];
        }
      } else {
        filesData := filesData[name := text];
      }
      assert filesData == a.data[name := entry];
    }
    result := Archive(a.names, filesData);
  }

  /** With colours on and a text the colour pass accepts, the entry holds
      the serialised coloured tree of the edited text, as written and
      corrected alike. */
  lemma FixedColoured(original: string, ms: seq<TagMatch>, slots: seq<string>, createAssembly: bool,
                      colorMode: Option<string>, parse: string -> Option<Element>, serialize: Element -> string)
    requires ValidScan(original, ms)
    requires var edited := EditedModel(original, ms, slots, createAssembly);
      parse(edited).Some? && FirstMatch(parse(edited).value.children, "resources").Some?
    ensures var edited := EditedModel(original, ms, slots, createAssembly);
      FixedModel(original, ms, slots, createAssembly, true, colorMode, parse, serialize)
      == serialize(Colorized(parse(edited).value, ColourMode(slots, colorMode)).value)
    ensures FixedModelIntended(original, ms, slots, createAssembly, true, colorMode, parse, serialize)
            == FixedModel(original, ms, slots, createAssembly, true, colorMode, parse, serialize)
  {
  }

  /** As written: when the edited text does not parse or has no
      `resources`, the entry is left with its original text. */
  lemma ColourFailureKeepsOriginal(original: string, ms: seq<TagMatch>, slots: seq<string>, createAssembly: bool,
                                   colorMode: Option<string>, parse: string -> Option<Element>, serialize: Element -> string)
    requires ValidScan(original, ms)
    requires var edited := EditedModel(original, ms, slots, createAssembly);
      parse(edited).None? || FirstMatch(parse(edited).value.children, "resources").None?
    ensures FixedModel(original, ms, slots, createAssembly, true, colorMode, parse, serialize) == original
  {
  }

  /** Corrected: when the colour pass fails, the entry keeps the renames
      and the assembly edits. */
  lemma ColourFailureKeepsEdits(original: string, ms: seq<TagMatch>, slots: seq<string>, createAssembly: bool,
                                colorMode: Option<string>, parse: string -> Option<Element>, serialize: Element -> string)
    requires ValidScan(original, ms)
    requires var edited := EditedModel(original, ms, slots, createAssembly);
      parse(edited).None? || FirstMatch(parse(edited).value.children, "resources").None?
    ensures FixedModelIntended(original, ms, slots, createAssembly, true, colorMode, parse, serialize)
            == EditedModel(original, ms, slots, createAssembly)
  {
  }

  /** A text that is one whole object tag becomes that tag's piece. */
  lemma RenamedOfWholeTag(content: string, tags: seq<ObjectTag>, slots: seq<string>)
    requires ValidTags(content, tags) && |tags| == 1 && tags[0].start == 0 && tags[0].end == |content|
    ensures Renamed(content, tags, slots) == Piece(content, tags, slots, 0)
  {
    var pieces, gaps := Pieces(content, tags, slots), Gaps(content, tags);
    EntryBeforeNext(content, tags, 0);
    assert gaps[0] == "";
    assert Tail(pieces, gaps, 1) == "";
    assert Tail(pieces, gaps, 0) == pieces[0] + "" + "";
    assert content[..Start(content, tags, 0)] == "";
  }

  /** The discrepancy on a concrete input: a single object tag with id 1,
      the slot name "Red" and a colour pass that fails. The rename changes
      the text, yet as written the entry keeps the original text, while the
      corrected version keeps the rename. */
  lemma ColourFailureDropsRename()
    ensures var original := "<object id=\"1\">";
      var ms := [TagMatch(0, 15, Some("1"))];
      var parse: string -> Option<Element> := _ => None;
      var serialize: Element -> string := _ => "";
      && ValidScan(original, ms)
      && EditedModel(original, ms, ["Red"], false) != original
      && FixedModel(original, ms, ["Red"], false, true, None, parse, serialize) == original
      && FixedModelIntended(original, ms, ["Red"], false, true, None, parse, serialize)
         == EditedModel(original, ms, ["Red"], false)
  {
    var original := "<object id=\"1\">";
    var ms := [TagMatch(0, 15, Some("1"))];
    assert IsDigit('1');
    assert ValidScan(original, ms);
    ObjectTagsValid(original, ms);
    var tags := ObjectTags(ms);
    assert tags == [ObjectTag(0, 15, "1")];
    var renamed := EditedModel(original, ms, ["Red"], false);
    var tag := RenameTag(original[0..15], "Red");
    RenameTagShape(original[0..15], "Red");
    assert original[0..15] == original;
    RenamedOfWholeTag(original, tags, ["Red"]);
    assert renamed == tag;
    assert tag[|tag| - 3] == 'd';
    assert original[|original| - 3] == '1';
  }
}
