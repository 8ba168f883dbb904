/** The attribute edits of the colorizer: `pid`/`p1` on the triangles of
    every object whose name is a palette colour (add_3mf_colors.py:376-444),
    and `materialid` on the build items whose part number is one
    (add_3mf_colors.py:449-496). Triangle `pid`/`p1` are the property
    references of chapter 4 (Object Resources) of the 3MF Core
    Specification; `materialid` on a build item is not part of it. */
module Tagging {
  import opened Results
  import opened Text
  import opened XmlTree
  import opened Catalog

  /** `triangle.set('pid', pid); triangle.set('p1', '0')`. */
  function TagTriangle(t: Element, pid: string): Element
  {
    t.(attrs := t.attrs["pid" := pid]["p1" := "0"])
  }

  /** The children of a `triangles` element once every `triangle` child
      carries `pid`. */
  function TaggedTriangles(cs: seq<Element>, pid: string): seq<Element>
  {
    seq(|cs|, i requires 0 <= i < |cs| => if HasLocalName(cs[i], "triangle") then TagTriangle(cs[i], pid) else cs[i])
  }

  /** What the tagging does to one child: a triangle gets exactly the two
      property attributes and keeps every other attribute, its tag and its
      children; any other child is left as it was. */
  lemma TaggedTriangleMeaning(cs: seq<Element>, pid: string, i: nat)
    requires i < |cs|
    ensures |TaggedTriangles(cs, pid)| == |cs|
    ensures TaggedTriangles(cs, pid)[i].tag == cs[i].tag
    ensures TaggedTriangles(cs, pid)[i].children == cs[i].children
    ensures HasLocalName(cs[i], "triangle") ==>
      && TaggedTriangles(cs, pid)[i].attrs.Keys == cs[i].attrs.Keys + {"pid", "p1"}
      && TaggedTriangles(cs, pid)[i].attrs["pid"] == pid
      && TaggedTriangles(cs, pid)[i].attrs["p1"] == "0"
      && forall k :: k in cs[i].attrs && k != "pid" && k != "p1" ==>
           TaggedTriangles(cs, pid)[i].attrs[k] == cs[i].attrs[k]
    ensures !HasLocalName(cs[i], "triangle") ==> TaggedTriangles(cs, pid)[i] == cs[i]
  {
  }

  /** Tagging changes no tag, so the triangle count is unchanged. */
  lemma TaggedTrianglesCount(cs: seq<Element>, pid: string)
    ensures SameTags(TaggedTriangles(cs, pid), cs)
    ensures CountNamed(TaggedTriangles(cs, pid), "triangle") == CountNamed(cs, "triangle")
  {
    CountNamedSameTags(TaggedTriangles(cs, pid), cs, "triangle");
  }

  /** Tagging again overwrites: the last colour set is the one that stays,
      and tagging twice with the same colour is tagging once. */
  lemma TaggedTrianglesLastWins(cs: seq<Element>, a: string, b: string)
    ensures TaggedTriangles(TaggedTriangles(cs, a), b) == TaggedTriangles(cs, b)
  {
    var once := TaggedTriangles(cs, a);
    forall i | 0 <= i < |cs|
      ensures TaggedTriangles(once, b)[i] == TaggedTriangles(cs, b)[i]
    {
      if HasLocalName(cs[i], "triangle") {
        assert cs[i].attrs["pid" := a]["p1" := "0"]["pid" := b]["p1" := "0"] == cs[i].attrs["pid" := b]["p1" := "0"];
      }
    }
  }

  /** The loop of add_3mf_colors.py:432-437 over the children of one
      `triangles` element, returning the element and the number of
      triangles it tagged. */
  method TagTriangles(triangles: Element, pid: string) returns (updated: Element, count: nat)
    ensures updated == triangles.(children := TaggedTriangles(triangles.children, pid))
    ensures count == CountNamed(triangles.children, "triangle")
  {
    var cs := triangles.children;
    var out := cs;
    count := 0;
    var i := 0;
    while i < |cs|
      invariant 0 <= i <= |cs| && |out| == |cs|
      invariant forall j :: 0 <= j < i ==> out[j] == TaggedTriangles(cs, pid)[j]
      invariant forall j :: i <= j < |cs| ==> out[j] == cs[j]
      invariant count == CountNamed(cs[..i], "triangle")
    {
      assert cs[..i + 1][..i] == cs[..i];
      if HasLocalName(cs[i], "triangle") {
        out := out[i := TagTriangle(cs[i], pid)];
        count := count + 1;
      }
      i := i + 1;
    }
    assert cs[..i] == cs;
    assert out == TaggedTriangles(cs, pid);
    updated := triangles.(children := out);
  }

  /** An object whose first `mesh` holds a first `triangles` element, with
      every triangle there tagged; any other object unchanged. */
  function TagObject(obj: Element, pid: string): Element
  {
    match TrianglesPath(obj)
    case None => obj
    case Some((m, t)) =>
      var mesh := obj.children[m];
      var tris := mesh.children[t];
      obj.(children := obj.children[m := mesh.(children := mesh.children[t := tris.(children := TaggedTriangles(tris.children, pid))])])
  }

  /** Tagging an object keeps its tag, its attributes and the tags of its
      children, hence its mesh/triangles path and its assembly flag. */
  lemma TagObjectKeepsPath(obj: Element, pid: string)
    ensures TagObject(obj, pid).tag == obj.tag && TagObject(obj, pid).attrs == obj.attrs
    ensures SameTags(TagObject(obj, pid).children, obj.children)
    ensures TrianglesPath(TagObject(obj, pid)) == TrianglesPath(obj)
    ensures IsAssembly(TagObject(obj, pid)) == IsAssembly(obj)
  {
    var r := TagObject(obj, pid);
    match TrianglesPath(obj)
    case None =>
    case Some((m, t)) =>
      var mesh := obj.children[m];
      assert SameTags(r.children, obj.children);
      FirstMatchFromSameTags(r.children, obj.children, "mesh", 0);
      assert SameTags(r.children[m].children, mesh.children);
      FirstMatchFromSameTags(r.children[m].children, mesh.children, "triangles", 0);
      assert HasLocalName(r.children[m], "mesh");
      assert IsAssembly(r) == IsAssembly(obj) by {
        forall k | 0 <= k < |obj.children|
          ensures HasLocalName(r.children[k], "components") == HasLocalName(obj.children[k], "components")
        {
          assert r.children[k].tag == obj.children[k].tag;
        }
      }
  }

  /** Tagging an object keeps what the catalogue reads from it: its tag,
      attributes and the tags of its children, hence its mesh/triangles
      path, its assembly flag and its triangle count. */
  lemma TagObjectKeepsShape(obj: Element, pid: string)
    ensures TagObject(obj, pid).tag == obj.tag && TagObject(obj, pid).attrs == obj.attrs
    ensures SameTags(TagObject(obj, pid).children, obj.children)
    ensures TrianglesPath(TagObject(obj, pid)) == TrianglesPath(obj)
    ensures IsAssembly(TagObject(obj, pid)) == IsAssembly(obj)
    ensures TriangleCount(TagObject(obj, pid)) == TriangleCount(obj)
    ensures Info(TagObject(obj, pid)) == Info(obj).(element := TagObject(obj, pid))
  {
    TagObjectKeepsPath(obj, pid);
    match TrianglesPath(obj)
    case None =>
    case Some((m, t)) =>
      TaggedTrianglesCount(obj.children[m].children[t].children, pid);
  }

  /** Tagging an object with mesh and triangles: every triangle of its
      first triangles element carries `pid` and `p1 = "0"`, every other
      child there is unchanged, and so is everything outside that element. */
  lemma TagObjectTriangles(obj: Element, pid: string, m: nat, t: nat)
    requires TrianglesPath(obj) == Some((m, t))
    ensures var tris := obj.children[m].children[t];
      var tris' := TagObject(obj, pid).children[m].children[t];
      && tris'.tag == tris.tag && tris'.attrs == tris.attrs
      && |tris'.children| == |tris.children|
      && (forall i :: 0 <= i < |tris.children| && HasLocalName(tris.children[i], "triangle") ==>
            tris'.children[i].attrs["pid"] == pid && tris'.children[i].attrs["p1"] == "0")
      && (forall i :: 0 <= i < |tris.children| && !HasLocalName(tris.children[i], "triangle") ==>
            tris'.children[i] == tris.children[i])
    ensures forall k :: 0 <= k < |obj.children| && k != m ==> TagObject(obj, pid).children[k] == obj.children[k]
    ensures forall k :: 0 <= k < |obj.children[m].children| && k != t ==>
      TagObject(obj, pid).children[m].children[k] == obj.children[m].children[k]
  {
  }

  /** The objects `add_triangle_colors` tags: not assemblies, named after
      a palette colour, with mesh and triangles (add_3mf_colors.py:398-429). */
  predicate Eligible(o: ObjectInfo, cmap: map<string, string>)
  {
    !o.isAssembly && o.name in cmap && TrianglesPath(o.element).Some?
  }

  /** The object element once `add_triangle_colors` has seen it. */
  function Recoloured(o: ObjectInfo, cmap: map<string, string>): Element
  {
    if Eligible(o, cmap) then TagObject(o.element, cmap[o.name]) else o.element
  }

  function RecolouredAll(objects: seq<ObjectInfo>, cmap: map<string, string>): seq<Element>
  {
    seq(|objects|, i requires 0 <= i < |objects| => Recoloured(objects[i], cmap))
  }

  /** The statistics `add_triangle_colors` returns: the tagged count under
      the object's name, a later object overwriting an earlier one. */
  function TriangleStats(objects: seq<ObjectInfo>, cmap: map<string, string>): map<string, nat>
  {
    if |objects| == 0 then map[]
    else
      var o := objects[|objects| - 1];
      var m := TriangleStats(objects[..|objects| - 1], cmap);
      if Eligible(o, cmap) then m[o.name := TriangleCount(o.element).value] else m
  }

  /** The statistics are the triangle census of `get_triangles_info`
      restricted to the names the map holds. */
  lemma {:induction false} TriangleStatsIsCensus(objects: seq<ObjectInfo>, cmap: map<string, string>)
    ensures forall name :: name in TriangleStats(objects, cmap) <==> name in TrianglesInfo(objects) && name in cmap
    ensures forall name :: name in TriangleStats(objects, cmap) ==>
      TriangleStats(objects, cmap)[name] == TrianglesInfo(objects)[name]
  {
    if |objects| > 0 {
      TriangleStatsIsCensus(objects[..|objects| - 1], cmap);
    }
  }

  /** `add_triangle_colors` (add_3mf_colors.py:376-444). The source sets
      the attributes through the element references of the catalogue; here
      the method returns the updated object elements, in catalogue order. */
  method AddTriangleColors(objects: seq<ObjectInfo>, cmap: map<string, string>)
    returns (elements: seq<Element>, stats: map<string, nat>)
    ensures elements == RecolouredAll(objects, cmap)
    ensures stats == TriangleStats(objects, cmap)
  {
    elements := [];
    stats := map[];
    var i := 0;
    while i < |objects|
      invariant 0 <= i <= |objects|
      invariant elements == RecolouredAll(objects[..i], cmap)
      invariant stats == TriangleStats(objects[..i], cmap)
    {
      var obj := objects[i];
      assert objects[..i + 1][..i] == objects[..i];
      var element := obj.element;
      if !obj.isAssembly && obj.name in cmap {
        var mesh := FindChild(element, "mesh");
        if mesh.Some? {
          var triangles := FindChild(element.children[mesh.value], "triangles");
          if triangles.Some? {
            var m, t := mesh.value, triangles.value;
            var tris, count := TagTriangles(element.children[m].children[t], cmap[obj.name]);
            element := element.(children := element.children[m := element.children[m].(children := element.children[m].children[t := tris])]);
            stats := stats[obj.name := count];
          }
        }
      }
      assert element == Recoloured(obj, cmap);
      elements := elements + [element];
      i := i + 1;
    }
    assert objects[..i] == objects;
  }

  /** Puts `es[k]` in place of the k-th `object` child of `cs`: the effect
      on the document of changing the catalogued object elements through
      their references. */
  function ReplaceObjects(cs: seq<Element>, es: seq<Element>): (r: seq<Element>)
    requires |es| == CountNamed(cs, "object")
    ensures |r| == |cs|
  {
    if |cs| == 0 then []
    else
      var n := |cs| - 1;
      if HasLocalName(cs[n], "object") then ReplaceObjects(cs[..n], es[..|es| - 1]) + [es[|es| - 1]]
      else ReplaceObjects(cs[..n], es) + [cs[n]]
  }

  /** The children of `resources` with every object recoloured in place. */
  function RecolouredChildren(cs: seq<Element>, cmap: map<string, string>): seq<Element>
  {
    seq(|cs|, i requires 0 <= i < |cs| => if HasLocalName(cs[i], "object") then Recoloured(Info(cs[i]), cmap) else cs[i])
  }

  /** A run of children without objects is left as it is. */
  lemma RecolouredKeepsRun(cs: seq<Element>, cmap: map<string, string>, lo: nat, hi: nat)
    requires lo <= hi <= |cs|
    requires forall i :: lo <= i < hi ==> !HasLocalName(cs[i], "object")
    ensures RecolouredChildren(cs, cmap)[lo..hi] == cs[lo..hi]
  {
  }

  /** Writing the recoloured catalogue back object by object recolours
      each object child where it stands and leaves every other child alone. */
  lemma {:induction false} WriteBackRecoloured(cs: seq<Element>, cmap: map<string, string>)
    ensures |RecolouredAll(Catalogue(cs), cmap)| == CountNamed(cs, "object")
    ensures ReplaceObjects(cs, RecolouredAll(Catalogue(cs), cmap)) == RecolouredChildren(cs, cmap)
  {
    if |cs| > 0 {
      var n := |cs| - 1;
      WriteBackRecoloured(cs[..n], cmap);
      RecolouredChildrenSnoc(cs, cmap);
      if HasLocalName(cs[n], "object") {
        WriteBackObject(cs, cmap);
      } else {
        WriteBackOther(cs, cmap);
      }
    }
  }

  /** Recolouring the children is recolouring all but the last, then the last. */
  lemma RecolouredChildrenSnoc(cs: seq<Element>, cmap: map<string, string>)
    requires |cs| > 0
    ensures RecolouredChildren(cs, cmap)
            == RecolouredChildren(cs[..|cs| - 1], cmap) + [RecolouredChildren(cs, cmap)[|cs| - 1]]
  {
    var n := |cs| - 1;
    var whole := RecolouredChildren(cs, cmap);
    assert whole[..n] == RecolouredChildren(cs[..n], cmap);
    assert whole == whole[..n] + [whole[n]];
  }

  /** The write-back step for a last child that is an object. */
  lemma WriteBackObject(cs: seq<Element>, cmap: map<string, string>)
    requires |cs| > 0 && HasLocalName(cs[|cs| - 1], "object")
    requires var init := cs[..|cs| - 1];
      && |RecolouredAll(Catalogue(init), cmap)| == CountNamed(init, "object")
      && ReplaceObjects(init, RecolouredAll(Catalogue(init), cmap)) == RecolouredChildren(init, cmap)
    requires RecolouredChildren(cs, cmap)
             == RecolouredChildren(cs[..|cs| - 1], cmap) + [RecolouredChildren(cs, cmap)[|cs| - 1]]
    ensures |RecolouredAll(Catalogue(cs), cmap)| == CountNamed(cs, "object")
    ensures ReplaceObjects(cs, RecolouredAll(Catalogue(cs), cmap)) == RecolouredChildren(cs, cmap)
  {
    var n := |cs| - 1;
    var init := cs[..n];
    var cat := Catalogue(init);
    assert Catalogue(cs) == cat + [Info(cs[n])];
    RecolouredAllSnoc(cat, Info(cs[n]), cmap);
    SplitLast(cs);
    ReplaceLastObject(init, cs[n], RecolouredAll(cat, cmap), Recoloured(Info(cs[n]), cmap));
  }

  /** Recolouring one more catalogue entry appends its element. */
  lemma RecolouredAllSnoc(objects: seq<ObjectInfo>, o: ObjectInfo, cmap: map<string, string>)
    ensures RecolouredAll(objects + [o], cmap) == RecolouredAll(objects, cmap) + [Recoloured(o, cmap)]
  {
  }

  /** A last object child takes the last element. */
  lemma ReplaceLastObject(init: seq<Element>, x: Element, es: seq<Element>, e: Element)
    requires HasLocalName(x, "object") && |es| == CountNamed(init, "object")
    ensures |es + [e]| == CountNamed(init + [x], "object")
    ensures ReplaceObjects(init + [x], es + [e]) == ReplaceObjects(init, es) + [e]
  {
    assert (init + [x])[..|init|] == init;
    assert (es + [e])[..|es|] == es;
  }

  /** The write-back step for a last child that is not an object. */
  lemma WriteBackOther(cs: seq<Element>, cmap: map<string, string>)
    requires |cs| > 0 && !HasLocalName(cs[|cs| - 1], "object")
    requires var init := cs[..|cs| - 1];
      && |RecolouredAll(Catalogue(init), cmap)| == CountNamed(init, "object")
      && ReplaceObjects(init, RecolouredAll(Catalogue(init), cmap)) == RecolouredChildren(init, cmap)
    requires RecolouredChildren(cs, cmap)
             == RecolouredChildren(cs[..|cs| - 1], cmap) + [RecolouredChildren(cs, cmap)[|cs| - 1]]
    ensures |RecolouredAll(Catalogue(cs), cmap)| == CountNamed(cs, "object")
    ensures ReplaceObjects(cs, RecolouredAll(Catalogue(cs), cmap)) == RecolouredChildren(cs, cmap)
  {
    var n := |cs| - 1;
    var init := cs[..n];
    var es := RecolouredAll(Catalogue(cs), cmap);
    assert Catalogue(cs) == Catalogue(init);
    assert ReplaceObjects(cs, es) == ReplaceObjects(init, es) + [cs[n]];
  }

  /** `item.set('materialid', map[partnumber])` for an `item` whose
      `partnumber` (default "") is a key of the map (add_3mf_colors.py:479-489). */
  function TagItem(item: Element, cmap: map<string, string>): Element
  {
    var partnumber := Attr(item, "partnumber", "");
    if HasLocalName(item, "item") && partnumber in cmap
    then item.(attrs := item.attrs["materialid" := cmap[partnumber]])
    else item
  }

  function TaggedItems(cs: seq<Element>, cmap: map<string, string>): seq<Element>
  {
    seq(|cs|, i requires 0 <= i < |cs| => TagItem(cs[i], cmap))
  }

  /** The statistics of `add_build_materials`: object id (None when the
      item has none) to material id, a later item overwriting an earlier one. */
  function BuildStats(cs: seq<Element>, cmap: map<string, string>): map<Option<string>, string>
  {
    if |cs| == 0 then map[]
    else
      var item := cs[|cs| - 1];
      var m := BuildStats(cs[..|cs| - 1], cmap);
      var partnumber := Attr(item, "partnumber", "");
      if HasLocalName(item, "item") && partnumber in cmap then m[AttrOpt(item, "objectid") := cmap[partnumber]] else m
  }

  /** The root after `add_build_materials`: the items of the first `build`
      child tagged, or the root as it was when there is no build. */
  function TaggedBuild(root: Element, cmap: map<string, string>): Element
  {
    match FirstMatch(root.children, "build")
    case None => root
    case Some(b) =>
      root.(children := root.children[b := root.children[b].(children := TaggedItems(root.children[b].children, cmap))])
  }

  /** `add_build_materials` (add_3mf_colors.py:449-496). */
  method AddBuildMaterials(root: Element, cmap: map<string, string>)
    returns (updated: Element, stats: map<Option<string>, string>)
    ensures FirstMatch(root.children, "build").None? ==> updated == root && stats == map[]
    ensures FirstMatch(root.children, "build").Some? ==>
      var b := FirstMatch(root.children, "build").value;
      && updated == TaggedBuild(root, cmap)
      && stats == BuildStats(root.children[b].children, cmap)
  {
    var found := FindChild(root, "build");
    if found.None? {
      return root, map[];
    }
    var build := root.children[found.value];
    var out;
    out, stats := TagBuildItems(build.children, cmap);
    updated := root.(children := root.children[found.value := build.(children := out)]);
  }

  /** The loop over the children of `build` (add_3mf_colors.py:478-491):
      every item whose part number has a colorgroup gets `materialid`, and
      the statistics record it under the item's object id. */
  method TagBuildItems(cs: seq<Element>, cmap: map<string, string>)
    returns (out: seq<Element>, stats: map<Option<string>, string>)
    ensures out == TaggedItems(cs, cmap)
    ensures stats == BuildStats(cs, cmap)
  {
    out := cs;
    stats := map[];
    var i := 0;
    while i < |cs|
      invariant 0 <= i <= |cs|
      invariant out == TaggedItems(cs[..i], cmap) + cs[i..]
      invariant stats == BuildStats(cs[..i], cmap)
    {
      var item := cs[i];
      ghost var before := stats;
      var tagged := item;
      if HasLocalName(item, "item") {
        var objectid := AttrOpt(item, "objectid");
        var partnumber := Attr(item, "partnumber", "");
        if partnumber in cmap {
          var materialid := cmap[partnumber];
          tagged := item.(attrs := item.attrs["materialid" := materialid]);
          stats := stats[objectid := materialid];
        }
      }
      BuildTurn(cs, cmap, i, out, before, tagged, stats);
      out := out[i := tagged];
      i := i + 1;
    }
    TaggedItemsStep(cs, cmap, i);
    assert cs[..i] == cs;
  }

  /** One turn of the loop of `TagBuildItems`: the item at `i` is tagged
      and recorded exactly when `TagItem` tags it. */
  lemma BuildTurn(cs: seq<Element>, cmap: map<string, string>, i: nat, out: seq<Element>,
                  stats: map<Option<string>, string>, tagged: Element, stats': map<Option<string>, string>)
    requires i < |cs| && out == TaggedItems(cs[..i], cmap) + cs[i..] && stats == BuildStats(cs[..i], cmap)
    requires var partnumber := Attr(cs[i], "partnumber", "");
      if HasLocalName(cs[i], "item") && partnumber in cmap
      then tagged == cs[i].(attrs := cs[i].attrs["materialid" := cmap[partnumber]])
           && stats' == stats[AttrOpt(cs[i], "objectid") := cmap[partnumber]]
      else tagged == cs[i] && stats' == stats
    ensures out[i := tagged] == TaggedItems(cs[..i + 1], cmap) + cs[i + 1..]
    ensures stats' == BuildStats(cs[..i + 1], cmap)
  {
    BuildStatsStep(cs, cmap, i);
    assert tagged == TagItem(cs[i], cmap);
    TaggedItemsStep(cs, cmap, i);
  }

  /** The build children while the loop runs: those before `i` tagged,
      the rest as they were; at the end, all of them tagged. */
  lemma TaggedItemsStep(cs: seq<Element>, cmap: map<string, string>, i: nat)
    requires i <= |cs|
    ensures |TaggedItems(cs[..i], cmap) + cs[i..]| == |cs|
    ensures i < |cs| ==> (TaggedItems(cs[..i], cmap) + cs[i..])[i := TagItem(cs[i], cmap)]
                         == TaggedItems(cs[..i + 1], cmap) + cs[i + 1..]
    ensures i == |cs| ==> TaggedItems(cs[..i], cmap) + cs[i..] == TaggedItems(cs, cmap)
  {
    if i == |cs| {
      assert cs[..i] == cs;
    }
  }

  /** The statistics of one more item. */
  lemma BuildStatsStep(cs: seq<Element>, cmap: map<string, string>, i: nat)
    requires i < |cs|
    ensures var partnumber := Attr(cs[i], "partnumber", "");
      BuildStats(cs[..i + 1], cmap)
      == if HasLocalName(cs[i], "item") && partnumber in cmap
         then BuildStats(cs[..i], cmap)[AttrOpt(cs[i], "objectid") := cmap[partnumber]]
         else BuildStats(cs[..i], cmap)
  {
    assert cs[..i + 1][..i] == cs[..i];
  }

  /** What happens to one build child: an item whose part number is a key
      gets `materialid`, keeping everything else; every other child,
      including an item without a part number when "" is not a key, is
      unchanged. */
  lemma TagItemMeaning(item: Element, cmap: map<string, string>)
    ensures var partnumber := Attr(item, "partnumber", "");
      HasLocalName(item, "item") && partnumber in cmap ==>
        && TagItem(item, cmap).tag == item.tag && TagItem(item, cmap).children == item.children
        && TagItem(item, cmap).attrs.Keys == item.attrs.Keys + {"materialid"}
        && TagItem(item, cmap).attrs["materialid"] == cmap[partnumber]
        && forall k :: k in item.attrs && k != "materialid" ==> TagItem(item, cmap).attrs[k] == item.attrs[k]
    ensures !HasLocalName(item, "item") ==> TagItem(item, cmap) == item
    ensures "partnumber" !in item.attrs && "" !in cmap ==> TagItem(item, cmap) == item
  {
  }

  /** Tagging the build twice is tagging it once. */
  lemma TaggedItemsIdempotent(cs: seq<Element>, cmap: map<string, string>)
    ensures TaggedItems(TaggedItems(cs, cmap), cmap) == TaggedItems(cs, cmap)
  {
    forall i | 0 <= i < |cs|
      ensures TagItem(TagItem(cs[i], cmap), cmap) == TagItem(cs[i], cmap)
    {
      var item := cs[i];
      var partnumber := Attr(item, "partnumber", "");
      if HasLocalName(item, "item") && partnumber in cmap {
        var once := TagItem(item, cmap);
        assert Attr(once, "partnumber", "") == partnumber;
        assert item.attrs["materialid" := cmap[partnumber]]["materialid" := cmap[partnumber]]
          == item.attrs["materialid" := cmap[partnumber]];
      }
    }
  }

  /** The statistics hold an object id exactly when some item with that
      object id was tagged, and every value is one of the map's ids. */
  lemma {:induction false} BuildStatsKeys(cs: seq<Element>, cmap: map<string, string>, key: Option<string>)
    ensures key in BuildStats(cs, cmap) <==>
      exists i :: 0 <= i < |cs| && HasLocalName(cs[i], "item")
        && Attr(cs[i], "partnumber", "") in cmap && AttrOpt(cs[i], "objectid") == key
    ensures key in BuildStats(cs, cmap) ==> BuildStats(cs, cmap)[key] in cmap.Values
  {
    if |cs| > 0 {
      var n := |cs| - 1;
      BuildStatsKeys(cs[..n], cmap, key);
      assert forall i :: 0 <= i < n ==> cs[i] == cs[..n][i];
    }
  }
}
