/** The assembly object and the build section that `safe_fix_3mf_names`
    writes when asked to group the objects (helpers.py:80-107). */
module Assembly {
  import opened Results
  import opened Text

  /** `max(int(oid) for oid in object_ids)` (helpers.py:82). */
  function MaxValue(ids: seq<string>): nat
    requires |ids| > 0 && forall k :: 0 <= k < |ids| ==> IsDigits(ids[k])
  {
    var last := Value(ids[|ids| - 1]);
    if |ids| == 1 then last
    else
      var m := MaxValue(ids[..|ids| - 1]);
      if m < last then last else m
  }

  /** The maximum is attained and bounds every id. */
  lemma {:induction false} MaxValueIsMax(ids: seq<string>)
    requires |ids| > 0 && forall k :: 0 <= k < |ids| ==> IsDigits(ids[k])
    ensures forall k :: 0 <= k < |ids| ==> Value(ids[k]) <= MaxValue(ids)
    ensures exists k :: 0 <= k < |ids| && Value(ids[k]) == MaxValue(ids)
  {
    if |ids| > 1 {
      var init := ids[..|ids| - 1];
      MaxValueIsMax(init);
      assert forall k :: 0 <= k < |init| ==> init[k] == ids[k];
      var k :| 0 <= k < |init| && Value(init[k]) == MaxValue(init);
      assert Value(ids[k]) == MaxValue(init);
    }
  }

  /** `assembly_id = max_id + 1` (helpers.py:82-83). */
  function AssemblyId(ids: seq<string>): nat
    requires |ids| > 0 && forall k :: 0 <= k < |ids| ==> IsDigits(ids[k])
  {
    MaxValue(ids) + 1
  }

  /** The assembly id is new: numerically above every id, so its decimal
      text is none of the ids' texts. */
  lemma AssemblyIdFresh(ids: seq<string>)
    requires |ids| > 0 && forall k :: 0 <= k < |ids| ==> IsDigits(ids[k])
    ensures forall k :: 0 <= k < |ids| ==> Value(ids[k]) < AssemblyId(ids)
    ensures forall k :: 0 <= k < |ids| ==> Show(AssemblyId(ids)) != ids[k]
    ensures exists k :: 0 <= k < |ids| && Value(ids[k]) + 1 == AssemblyId(ids)
  {
    MaxValueIsMax(ids);
    ValueShow(AssemblyId(ids));
  }

  const COMPONENT_PREFIX := "      <component objectid=\""
  const COMPONENT_SUFFIX := "\" />"

  /** One line of `components_xml` (helpers.py:86). */
  function ComponentLine(id: string): string
  {
    COMPONENT_PREFIX + id + COMPONENT_SUFFIX
  }

  function ComponentLines(ids: seq<string>): seq<string>
  {
    seq(|ids|, k requires 0 <= k < |ids| => ComponentLine(ids[k]))
  }

  /** `'\n'.join(...)` of the component lines (helpers.py:86). */
  function ComponentsXml(ids: seq<string>): string
  {
    Join(ComponentLines(ids), '\n')
  }

  lemma ComponentLineHasNoNewline(id: string)
    requires IsDigits(id)
    ensures '\n' !in ComponentLine(id)
  {
    var a, b := "      <component ", "objectid=\"";
    assert '\n' !in a && '\n' !in b;
    NotInConcat(a, b, '\n');
    NotInConcat(COMPONENT_PREFIX, id, '\n');
    NotInConcat(COMPONENT_PREFIX + id, COMPONENT_SUFFIX, '\n');
  }

  /** Round trip: splitting the components text at newlines gives back one
      component line per id, in discovery order. */
  lemma ComponentsRoundTrip(ids: seq<string>)
    requires |ids| > 0 && forall k :: 0 <= k < |ids| ==> IsDigits(ids[k])
    ensures Split(ComponentsXml(ids), '\n') == ComponentLines(ids)
    ensures forall k :: 0 <= k < |ids| ==> Split(ComponentsXml(ids), '\n')[k] == COMPONENT_PREFIX + ids[k] + COMPONENT_SUFFIX
  {
    var lines := ComponentLines(ids);
    forall k | 0 <= k < |lines| ensures '\n' !in lines[k] {
      ComponentLineHasNoNewline(ids[k]);
    }
    SplitJoin(lines, '\n');
  }

  /** `assembly_xml` (helpers.py:87-93). */
  function AssemblyXml(assemblyId: nat, ids: seq<string>): string
  {
    "\n  <object id=\"" + Show(assemblyId) + "\" type=\"model\" name=\"Lumina_Model\">\n    <components>\n"
      + ComponentsXml(ids) + "\n    </components>\n  </object>\n"
  }

  /** Insertion before the first `</resources>` (helpers.py:96-98): the
      text up to it is kept, the assembly follows, then the closing tag and
      the rest; without a closing tag the text is unchanged. */
  function InsertAssembly(content: string, assembly: string): (r: string)
    ensures Find(content, "</resources>", 0).None? ==> r == content
    ensures Find(content, "</resources>", 0).Some? ==>
      var k := Find(content, "</resources>", 0).value;
      && |r| == |content| + |assembly|
      && r[..k] == content[..k]
      && r[k..k + |assembly|] == assembly
      && r[k + |assembly|..] == content[k..]
      && OccursAt(r, "</resources>", k + |assembly|)
  {
    match Find(content, "</resources>", 0)
    case None => content
    case Some(k) =>
      var r := content[..k] + assembly + content[k..];
      assert r[k + |assembly|..] == content[k..];
      assert r[k + |assembly|..][..12] == r[k + |assembly|..k + |assembly| + 12];
      r
  }

  /** The span of `<build>.*?</build>` with DOTALL (helpers.py:103-104): the
      leftmost match starts at the first `<build>` and ends after the first
      `</build>` that follows it; with no `</build>` after the first
      `<build>` there is none after any later one either. */
  function BuildSpan(content: string): (r: Option<(nat, nat)>)
    ensures r.Some? ==>
      var (b, e) := r.value;
      && OccursAt(content, "<build>", b) && b + 15 <= e <= |content|
      && OccursAt(content, "</build>", e - 8)
      && (forall k: nat :: k < b ==> !OccursAt(content, "<build>", k))
      && (forall k :: b + 7 <= k < e - 8 ==> !OccursAt(content, "</build>", k))
    ensures r.None? ==>
      forall b, q :: OccursAt(content, "<build>", b) && b + 7 <= q ==> !OccursAt(content, "</build>", q)
  {
    match Find(content, "<build>", 0)
    case None => None
    case Some(b) =>
      match Find(content, "</build>", b + 7)
      case None => None
      case Some(q) => Some((b, q + 8))
  }

  /** `new_build` (helpers.py:106). */
  function NewBuild(assemblyId: nat): string
  {
    "<build>\n    <item objectid=\"" + Show(assemblyId) + "\" />\n  </build>"
  }

  /** The build replacement (helpers.py:103-107): the matched section gives
      way to a build with the single assembly item; everything around it
      is kept, and without a match the text is unchanged. */
  function ReplaceBuild(content: string, assemblyId: nat): (r: string)
    ensures BuildSpan(content).None? ==> r == content
    ensures BuildSpan(content).Some? ==>
      var (b, e) := BuildSpan(content).value;
      && |r| == b + |NewBuild(assemblyId)| + (|content| - e)
      && r[..b] == content[..b]
      && r[b..b + |NewBuild(assemblyId)|] == NewBuild(assemblyId)
      && r[b + |NewBuild(assemblyId)|..] == content[e..]
  {
    match BuildSpan(content)
    case None => content
    case Some((b, e)) =>
      var r := content[..b] + NewBuild(assemblyId) + content[e..];
      assert r[b + |NewBuild(assemblyId)|..] == content[e..];
      r
  }

}
