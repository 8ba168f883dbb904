/** The tree-level pipeline of `add_colors_to_xml_string`
    (add_3mf_colors.py:535-613): catalogue the objects, settle the colour
    mode, insert the colorgroups, tag the triangles, tag the build. Parsing
    and serialising the text around it are parameters of the text-level
    entry point. */
module Colorize {
  import opened Results
  import opened Text
  import opened XmlTree
  import opened Palette
  import opened Catalog
  import opened Injection
  import opened Tagging

  /** `[obj['name'] for obj in objects if not obj['is_assembly']]`
      (add_3mf_colors.py:569). */
  function CandidateNames(objects: seq<ObjectInfo>): (names: seq<string>)
    ensures |names| <= |objects|
  {
    if |objects| == 0 then []
    else
      var o := objects[|objects| - 1];
      CandidateNames(objects[..|objects| - 1]) + (if o.isAssembly then [] else [o.name])
  }

  /** The candidates are a filter: the names of the non-assembly objects,
      in catalogue order and with repeats kept, since the vote counts each
      occurrence. */
  lemma {:induction false} CandidateNamesAppend(a: seq<ObjectInfo>, b: seq<ObjectInfo>)
    ensures CandidateNames(a + b) == CandidateNames(a) + CandidateNames(b)
    decreases |b|
  {
    if |b| > 0 {
      var n := |b| - 1;
      assert (a + b)[..|a + b| - 1] == a + b[..n];
      CandidateNamesAppend(a, b[..n]);
    } else {
      assert a + b == a;
    }
  }

  /** One object contributes its name exactly when it is not an assembly. */
  lemma CandidateNamesSingle(o: ObjectInfo)
    ensures CandidateNames([o]) == (if o.isAssembly then [] else [o.name])
  {
  }

  /** The candidates are exactly the names of the non-assembly objects. */
  lemma {:induction false} CandidateNamesExact(objects: seq<ObjectInfo>, name: string)
    ensures name in CandidateNames(objects) <==>
      exists i :: 0 <= i < |objects| && !objects[i].isAssembly && objects[i].name == name
  {
    if |objects| > 0 {
      var n := |objects| - 1;
      CandidateNamesExact(objects[..n], name);
      assert forall i :: 0 <= i < n ==> objects[..n][i] == objects[i];
    }
  }

  /** The mode the pass uses: detected from the candidates for "auto",
      the given mode otherwise (add_3mf_colors.py:570-578). */
  function FinalMode(objects: seq<ObjectInfo>, colorMode: string): (mode: string)
    ensures colorMode != "auto" ==> mode == colorMode
    ensures colorMode == "auto" ==> mode in {"cmyw", "rybw"}
    ensures colorMode == "auto" ==>
      (mode == "cmyw" <==> MatchCount(CandidateNames(objects), CMYW) > MatchCount(CandidateNames(objects), RYBW))
  {
    if colorMode == "auto" then DetectColorMode(CandidateNames(objects)) else colorMode
  }

  /** The `resources` element after the pass: the colorgroups spliced in
      and every object recoloured where it stands. */
  function ColorizedResources(resources: Element, mode: string): Element
  {
    resources.(children := RecolouredChildren(Spliced(resources.children, mode), ColorgroupMap(mode)))
  }

  /** The tree the pass produces, or its error when the root has no
      `resources` child. */
  function Colorized(root: Element, colorMode: string): Result<Element>
  {
    match FirstMatch(root.children, "resources")
    case None => Err("<resources> element missing in XML")
    case Some(ri) =>
      var mode := FinalMode(Catalogue(root.children[ri].children), colorMode);
      Ok(TaggedBuild(root.(children := root.children[ri := ColorizedResources(root.children[ri], mode)]), ColorgroupMap(mode)))
  }

  /** The catalogue taken before the insertion sizes and orders the
      write-back after it: the inserted block holds no object. */
  lemma SplicedObjectCount(cs: seq<Element>, mode: string)
    ensures Catalogue(Spliced(cs, mode)) == Catalogue(cs)
    ensures CountNamed(Spliced(cs, mode), "object") == |Catalogue(cs)|
  {
    ColorgroupsHaveNoObjects(mode);
    SpliceCatalogue(cs, Colorgroups(mode));
  }

  /** `add_colors_to_xml_string` between parsing and serialising
      (add_3mf_colors.py:562-598). The object elements `add_triangle_colors`
      updates are written back in place of the objects they came from. */
  method AddColorsToTree(root: Element, colorMode: string) returns (r: Result<Element>)
    ensures r.Err? <==> FirstMatch(root.children, "resources").None?
    ensures r == Colorized(root, colorMode)
  {
    var info := GetObjectsInfo(root);
    if info.Err? {
      return Err(info.message);
    }
    var objects := info.value;
    var names := CandidateNames(objects);
    var detectedMode := DetectColorMode(names);
    var finalMode := if colorMode == "auto" then detectedMode else colorMode;
    var found := FindChild(root, "resources");
    if found.None? {
      // get_objects_info has already raised for a root without resources
      assert false;
    }
    var ri := found.value;
    var resources, cmap := InsertColorgroups(root.children[ri], finalMode);
    var elements, triangleStats := AddTriangleColors(objects, cmap);
    SplicedObjectCount(root.children[ri].children, finalMode);
    WriteBackRecoloured(resources.children, cmap);
    resources := resources.(children := ReplaceObjects(resources.children, elements));
    var updated, buildStats := AddBuildMaterials(root.(children := root.children[ri := resources]), cmap);
    return Ok(updated);
  }

  /** The root-level effect: when the first `build` is not the `resources`
      element itself, the result has the root's children except that
      `resources` is colorized and `build` has its items tagged. */
  lemma ColorizedChildren(root: Element, colorMode: string, ri: nat, mode: string)
    requires FirstMatch(root.children, "resources") == Some(ri)
    requires FirstMatch(root.children, "build") != Some(ri)
    requires mode == FinalMode(Catalogue(root.children[ri].children), colorMode)
    ensures Colorized(root, colorMode).Ok?
    ensures var out := Colorized(root, colorMode).value;
      && out.tag == root.tag && out.attrs == root.attrs && |out.children| == |root.children|
      && out.children[ri] == ColorizedResources(root.children[ri], mode)
      && (FirstMatch(root.children, "build").Some? ==>
            var b := FirstMatch(root.children, "build").value;
            out.children[b] == root.children[b].(children := TaggedItems(root.children[b].children, ColorgroupMap(mode))))
      && forall k :: 0 <= k < |root.children| && k != ri && Some(k) != FirstMatch(root.children, "build") ==>
            out.children[k] == root.children[k]
  {
    var root1 := root.(children := root.children[ri := ColorizedResources(root.children[ri], mode)]);
    assert SameTags(root1.children, root.children);
    FirstMatchFromSameTags(root1.children, root.children, "build", 0);
  }

  lemma {:induction false} AllColorgroups(gs: seq<Element>)
    requires forall i :: 0 <= i < |gs| ==> HasLocalName(gs[i], "colorgroup")
    ensures CountNamed(gs, "colorgroup") == |gs|
  {
    if |gs| > 0 {
      AllColorgroups(gs[..|gs| - 1]);
    }
  }

  /** Recolouring changes no tag of the children of `resources`. */
  lemma RecolouredSameTags(cs: seq<Element>, cmap: map<string, string>)
    ensures SameTags(RecolouredChildren(cs, cmap), cs)
  {
    var out := RecolouredChildren(cs, cmap);
    forall i | 0 <= i < |cs| ensures out[i].tag == cs[i].tag {
      if HasLocalName(cs[i], "object") {
        TagObjectKeepsShape(cs[i], if Info(cs[i]).name in cmap then cmap[Info(cs[i]).name] else "");
      }
    }
  }

  /** One colorgroup per palette entry: `resources` gains exactly four
      `colorgroup` children. */
  lemma ColorizedColorgroupCount(resources: Element, mode: string)
    ensures CountNamed(ColorizedResources(resources, mode).children, "colorgroup")
      == CountNamed(resources.children, "colorgroup") + 4
  {
    var cs := resources.children;
    var gs := Colorgroups(mode);
    var sp := Spliced(cs, mode);
    RecolouredSameTags(sp, ColorgroupMap(mode));
    CountNamedSameTags(RecolouredChildren(sp, ColorgroupMap(mode)), sp, "colorgroup");
    forall i | 0 <= i < 4 ensures HasLocalName(gs[i], "colorgroup") {
      ColorgroupIsNotObject(PaletteFor(mode)[i], mode);
    }
    match FirstMatch(cs, "object")
    case Some(p) =>
      SpliceColorgroupCount(cs, gs, p);
    case None =>
      var rg := Reverse(gs);
      forall i | 0 <= i < 4 ensures HasLocalName(rg[i], "colorgroup") {
        ReverseAt(gs, i);
      }
      CountNamedAppend(cs, rg, "colorgroup");
      AllColorgroups(rg);
  }

  /** The colorgroups sit in palette order in front of the first object,
      and the recolouring leaves them alone. */
  lemma ColorizedColorgroupsBefore(resources: Element, mode: string, p: nat)
    requires FirstMatch(resources.children, "object") == Some(p)
    ensures p + 4 <= |ColorizedResources(resources, mode).children|
    ensures ColorizedResources(resources, mode).children[p..p + 4] == Colorgroups(mode)
  {
    ColorgroupsHaveNoObjects(mode);
    RecolouredSpliceBefore(resources.children, Colorgroups(mode), ColorgroupMap(mode), p);
  }

  /** Without an object the colorgroups end the children, in reverse
      palette order. */
  lemma ColorizedColorgroupsAppended(resources: Element, mode: string)
    requires FirstMatch(resources.children, "object").None?
    ensures ColorizedResources(resources, mode).children[|resources.children|..] == Reverse(Colorgroups(mode))
  {
    ColorgroupsHaveNoObjects(mode);
    RecolouredSpliceAppended(resources.children, Colorgroups(mode), ColorgroupMap(mode));
  }

  /** Recolouring leaves an inserted block without objects where the
      insertion put it, in front of the first object. */
  lemma RecolouredSpliceBefore(cs: seq<Element>, gs: seq<Element>, cmap: map<string, string>, p: nat)
    requires NoObjects(gs) && FirstMatch(cs, "object") == Some(p)
    ensures p + |gs| <= |RecolouredChildren(Splice(cs, gs), cmap)|
    ensures RecolouredChildren(Splice(cs, gs), cmap)[p..p + |gs|] == gs
  {
    var sp := Splice(cs, gs);
    SplicePlacementBefore(cs, gs, p);
    assert FirstMatchFrom(sp, "object", 0) == Some(p + |gs|);
    RecolouredKeepsRun(sp, cmap, p, p + |gs|);
  }

  /** Recolouring leaves an appended block without objects at the end. */
  lemma RecolouredSpliceAppended(cs: seq<Element>, gs: seq<Element>, cmap: map<string, string>)
    requires NoObjects(gs) && FirstMatch(cs, "object").None?
    ensures RecolouredChildren(Splice(cs, gs), cmap)[|cs|..] == Reverse(gs)
  {
    var sp := Splice(cs, gs);
    SplicePlacementAppended(cs, gs);
    assert FirstMatchFrom(sp, "object", 0).None?;
    RecolouredKeepsRun(sp, cmap, |cs|, |sp|);
  }

  lemma SpliceColorgroupCount(cs: seq<Element>, gs: seq<Element>, p: nat)
    requires FirstMatch(cs, "object") == Some(p)
    requires forall i :: 0 <= i < |gs| ==> HasLocalName(gs[i], "colorgroup")
    ensures CountNamed(Splice(cs, gs), "colorgroup") == CountNamed(cs, "colorgroup") + |gs|
  {
    assert Splice(cs, gs) == (cs[..p] + gs) + cs[p..];
    CountNamedAppend(cs[..p] + gs, cs[p..], "colorgroup");
    CountNamedAppend(cs[..p], gs, "colorgroup");
    CountNamedAppend(cs[..p], cs[p..], "colorgroup");
    AllColorgroups(gs);
    assert cs[..p] + cs[p..] == cs;
  }

  /** Every eligible object ends up with all its triangles referencing the
      colorgroup of its name, with index "0"; its mesh/triangles path and
      its number of triangle children are unchanged. */
  lemma ColorizedTriangles(resources: Element, mode: string, i: nat)
    requires i < |Spliced(resources.children, mode)|
    requires var obj := Spliced(resources.children, mode)[i];
      HasLocalName(obj, "object") && Eligible(Info(obj), ColorgroupMap(mode))
    ensures var obj := Spliced(resources.children, mode)[i];
      var obj' := ColorizedResources(resources, mode).children[i];
      var (m, t) := TrianglesPath(obj).value;
      && TrianglesPath(obj') == TrianglesPath(obj)
      && |obj'.children[m].children[t].children| == |obj.children[m].children[t].children|
      && forall j :: 0 <= j < |obj.children[m].children[t].children|
                     && HasLocalName(obj.children[m].children[t].children[j], "triangle") ==>
           && obj'.children[m].children[t].children[j].attrs["pid"] == ColorgroupId(Info(obj).name, mode)
           && obj'.children[m].children[t].children[j].attrs["p1"] == "0"
  {
    var obj := Spliced(resources.children, mode)[i];
    var pid := ColorgroupMap(mode)[Info(obj).name];
    ColorgroupMapProperties(mode);
    var (m, t) := TrianglesPath(obj).value;
    TagObjectKeepsShape(obj, pid);
    TagObjectTriangles(obj, pid, m, t);
  }

  /** Every build item whose part number is a palette name gets the
      colorgroup id of that name as `materialid`. */
  lemma ColorizedBuildItem(root: Element, colorMode: string, ri: nat, mode: string, b: nat, j: nat)
    requires FirstMatch(root.children, "resources") == Some(ri)
    requires FirstMatch(root.children, "build") == Some(b) && b != ri
    requires mode == FinalMode(Catalogue(root.children[ri].children), colorMode)
    requires j < |root.children[b].children| && HasLocalName(root.children[b].children[j], "item")
    requires Attr(root.children[b].children[j], "partnumber", "") in Names(PaletteFor(mode))
    ensures var r := Colorized(root, colorMode);
      && r.Ok? && b < |r.value.children| && j < |r.value.children[b].children|
      && "materialid" in r.value.children[b].children[j].attrs
      && r.value.children[b].children[j].attrs["materialid"]
         == ColorgroupId(Attr(root.children[b].children[j], "partnumber", ""), mode)
  {
    ColorizedChildren(root, colorMode, ri, mode);
    ColorgroupMapProperties(mode);
  }

  /** The text-level entry point: parse, run the pass, serialise. A
      parse failure or a missing `resources` is an error. */
  function ColorizeText(text: string, colorMode: string,
                        parse: string -> Option<Element>, serialize: Element -> string): (r: Result<string>)
    ensures r.Ok? <==> parse(text).Some? && Colorized(parse(text).value, colorMode).Ok?
    ensures r.Ok? ==> r.value == serialize(Colorized(parse(text).value, colorMode).value)
  {
    match parse(text)
    case None => Err("invalid XML")
    case Some(root) =>
      match Colorized(root, colorMode)
      case Err(e) => Err(e)
      case Ok(out) => Ok(serialize(out))
  }

  /** `add_colors_to_xml_string` (add_3mf_colors.py:535-613): parse the
      text, run the tree-level pass, serialise the result. It fails
      exactly when the text does not parse or has no `resources`. */
  method AddColorsToXmlString(xmlString: string, colorMode: string,
                              parse: string -> Option<Element>, serialize: Element -> string)
    returns (r: Result<string>)
    ensures r == ColorizeText(xmlString, colorMode, parse, serialize)
    ensures r.Err? <==> parse(xmlString).None? || FirstMatch(parse(xmlString).value.children, "resources").None?
  {
    var root := parse(xmlString);
    if root.None? {
      return Err("invalid XML");
    }
    var tree := AddColorsToTree(root.value, colorMode);
    if tree.Err? {
      return Err(tree.message);
    }
    return Ok(serialize(tree.value));
  }
}
