/** The textual edits of `safe_fix_3mf_names` (helpers.py:45-107): find
    the object start tags with a numeric id, rename them from a list of
    slot names by forward position while splicing from the last tag to the
    first, and optionally add an assembly object and point the build at it. */
module NameFix {
  import opened Results
  import opened Text
  import opened TagScan
  import opened NameAttr
  import opened TagSplice
  import opened Assembly

  /** What ends up in place of entry `j`: the renamed tag for a forward
      position the slot list covers, the old tag otherwise (helpers.py:67-75). */
  function Piece(content: string, tags: seq<ObjectTag>, slots: seq<string>, j: nat): string
    requires ValidTags(content, tags) && j < |tags|
  {
    var oldTag := content[tags[j].start..tags[j].end];
    if j < |slots| then RenameTag(oldTag, slots[j]) else oldTag
  }

  /** The piece of every entry, in forward order. */
  function Pieces(content: string, tags: seq<ObjectTag>, slots: seq<string>): (pieces: seq<string>)
    requires ValidTags(content, tags)
    ensures |pieces| == |tags|
  {
    seq(|tags|, j requires 0 <= j < |tags| => Piece(content, tags, slots, j))
  }

  /** The text after renaming, read front to back: the original text
      between tags, and in place of the tag at forward position `i` its
      rename by `slots[i]`. */
  function Renamed(content: string, tags: seq<ObjectTag>, slots: seq<string>): string
    requires ValidTags(content, tags)
  {
    Replaced(content, tags, Pieces(content, tags, slots))
  }

  /** Without slot names nothing is renamed: the text is unchanged. */
  lemma RenamedWithoutSlots(content: string, tags: seq<ObjectTag>)
    requires ValidTags(content, tags)
    ensures Renamed(content, tags, []) == content
  {
    var pieces := Pieces(content, tags, []);
    assert forall i :: 0 <= i < |tags| ==> pieces[i] == Piece(content, tags, [], i);
    TailOfOldTags(content, tags, pieces, 0);
    assert content[..Start(content, tags, 0)] + content[Start(content, tags, 0)..] == content;
  }

  /** The text while the rename loop runs: entries from `j` on renamed,
      the text before entry `j` still the original. */
  function RenamedFrom(content: string, tags: seq<ObjectTag>, slots: seq<string>, j: nat): string
    requires ValidTags(content, tags) && j <= |tags|
  {
    Partial(content, tags, Pieces(content, tags, slots), Gaps(content, tags), j)
  }

  /** Before the loop the text is the original; after it, the renamed text. */
  lemma RenamedFromEnds(content: string, tags: seq<ObjectTag>, slots: seq<string>)
    requires ValidTags(content, tags)
    ensures RenamedFrom(content, tags, slots, |tags|) == content
    ensures RenamedFrom(content, tags, slots, 0) == Renamed(content, tags, slots)
  {
    assert content[..|content|] == content;
  }

  /** One turn of the rename loop, for entry `j`. */
  lemma RenameTurn(content: string, tags: seq<ObjectTag>, slots: seq<string>, j: nat, text: string)
    requires ValidTags(content, tags) && j < |tags| && text == RenamedFrom(content, tags, slots, j + 1)
    ensures tags[j].start <= tags[j].end <= |text|
    ensures j < |slots| ==>
      text[..tags[j].start] + RenameTag(content[tags[j].start..tags[j].end], slots[j]) + text[tags[j].end..]
      == RenamedFrom(content, tags, slots, j)
    ensures j >= |slots| ==> text == RenamedFrom(content, tags, slots, j)
  {
    var pieces, gaps := Pieces(content, tags, slots), Gaps(content, tags);
    assert pieces[j] == Piece(content, tags, slots, j);
    if j < |slots| {
      SpliceStep(content, tags, pieces, gaps, j, text);
    } else {
      KeepStep(content, tags, pieces, gaps, j, text);
    }
  }

  /** The rename loop of helpers.py:65-77, walking the entries from last to
      first so that the spans still to be handled keep their offsets. */
  method RenameObjects(content: string, tags: seq<ObjectTag>, slots: seq<string>) returns (text: string)
    requires ValidTags(content, tags)
    ensures text == Renamed(content, tags, slots)
  {
    RenamedFromEnds(content, tags, slots);
    text := content;
    var idx := 0;
    while idx < |tags|
      invariant 0 <= idx <= |tags|
      invariant text == RenamedFrom(content, tags, slots, |tags| - idx)
    {
      var realIdx := |tags| - 1 - idx;
      var start, end := tags[realIdx].start, tags[realIdx].end;
      RenameTurn(content, tags, slots, realIdx, text);
      if realIdx < |slots| {
        var newTag := RenameTag(content[start..end], slots[realIdx]);
        text := text[..start] + newTag + text[end..];
      }
      idx := idx + 1;
    }
  }

  /** Where each entry lands in the renamed text: at the offset where the
      text from that entry on begins stands its piece (the renamed tag when
      a slot name exists for its forward position, the old tag otherwise),
      followed by the original text up to the next entry; the text before
      the first entry is the original text. */
  lemma RenamedLayout(content: string, tags: seq<ObjectTag>, slots: seq<string>, k: nat)
    requires ValidTags(content, tags) && k < |tags|
    ensures Renamed(content, tags, slots)
            == content[..Start(content, tags, 0)] + Head(Pieces(content, tags, slots), Gaps(content, tags), k)
               + Piece(content, tags, slots, k) + content[tags[k].end..Start(content, tags, k + 1)]
               + Tail(Pieces(content, tags, slots), Gaps(content, tags), k + 1)
    ensures k < |slots| ==> Piece(content, tags, slots, k) == RenameTag(content[tags[k].start..tags[k].end], slots[k])
    ensures k >= |slots| ==> Piece(content, tags, slots, k) == content[tags[k].start..tags[k].end]
  {
    var pieces := Pieces(content, tags, slots);
    ReplacedLayout(content, tags, pieces, k);
    assert pieces[k] == Piece(content, tags, slots, k);
  }

  /** The text once the renames and, when asked for and more than one id
      was found, the assembly and the build edit are made (helpers.py:65-107). */
  function Edited(content: string, tags: seq<ObjectTag>, slots: seq<string>, createAssembly: bool): string
    requires ValidTags(content, tags)
  {
    var renamed := Renamed(content, tags, slots);
    var ids := Ids(tags);
    if createAssembly && |ids| > 1 then
      var assemblyId := AssemblyId(ids);
      ReplaceBuild(InsertAssembly(renamed, AssemblyXml(assemblyId, ids)), assemblyId)
    else renamed
  }

  /** Lines 65-107 of `safe_fix_3mf_names`: rename, then the assembly and
      the build edit. */
  method EditModelText(content: string, tags: seq<ObjectTag>, slots: seq<string>, createAssembly: bool)
    returns (text: string)
    requires ValidTags(content, tags)
    ensures text == Edited(content, tags, slots, createAssembly)
  {
    text := RenameObjects(content, tags, slots);
    var objectIds := Ids(tags);
    if createAssembly && |objectIds| > 1 {
      var assemblyId := MaxValue(objectIds) + 1;
      var componentsXml := ComponentsXml(objectIds);
      var assemblyXml := AssemblyXml(assemblyId, objectIds);
      var resourcesEnd := Find(text, "</resources>", 0);
      if resourcesEnd.Some? {
        text := text[..resourcesEnd.value] + assemblyXml + text[resourcesEnd.value..];
      }
      var buildMatch := BuildSpan(text);
      if buildMatch.Some? {
        var newBuild := NewBuild(assemblyId);
        text := text[..buildMatch.value.0] + newBuild + text[buildMatch.value.1..];
      }
    }
  }
}

