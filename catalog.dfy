/** The object catalogue: the `object` children of `resources` with their
    id, name, type and assembly flag, and the triangle count of each mesh
    object (add_3mf_colors.py:122-143, 197-306). */
module Catalog {
  import opened Results
  import opened Text
  import opened XmlTree

  /** One catalogue entry. `element` is the object element itself; in the
      source it is a reference into the document. */
  datatype ObjectInfo = ObjectInfo(
    element: Element, id: Option<string>, name: string, objectType: string, isAssembly: bool)

  /** `is_assembly`: first an exact-tag `find('components')`, then the
      namespace-tolerant scan of the children (add_3mf_colors.py:122-143).
      The exact-tag test adds nothing to the scan: the object is an assembly
      exactly when some direct child is a `components` element. */
  function IsAssembly(obj: Element): (r: bool)
    ensures r <==> exists k :: 0 <= k < |obj.children| && HasLocalName(obj.children[k], "components")
  {
    var exact := exists k :: 0 <= k < |obj.children| && obj.children[k].tag == "components";
    if exact then
      var k :| 0 <= k < |obj.children| && obj.children[k].tag == "components";
      PlainTagMatch(obj.children[k], "components");
      true
    else FirstMatch(obj.children, "components").Some?
  }

  /** The entry built for one object element: `name` defaults to "" and
      `type` to "model" (add_3mf_colors.py:238-248). */
  function Info(obj: Element): (o: ObjectInfo)
    ensures o.element == obj && o.isAssembly == IsAssembly(obj)
    ensures o.id == (if "id" in obj.attrs then Some(obj.attrs["id"]) else None)
    ensures o.name == (if "name" in obj.attrs then obj.attrs["name"] else "")
    ensures o.objectType == (if "type" in obj.attrs then obj.attrs["type"] else "model")
  {
    ObjectInfo(obj, AttrOpt(obj, "id"), Attr(obj, "name", ""), Attr(obj, "type", "model"), IsAssembly(obj))
  }

  /** The catalogue of a `resources` element's children: one entry per
      `object` child, in document order (add_3mf_colors.py:236-248). */
  function Catalogue(cs: seq<Element>): (r: seq<ObjectInfo>)
    ensures |r| == CountNamed(cs, "object")
  {
    if |cs| == 0 then []
    else
      var last := cs[|cs| - 1];
      Catalogue(cs[..|cs| - 1]) + (if HasLocalName(last, "object") then [Info(last)] else [])
  }

  /** Document order: the catalogue of two consecutive runs of children is
      the catalogue of the first followed by that of the second. */
  lemma {:induction false} CatalogueAppend(a: seq<Element>, b: seq<Element>)
    ensures Catalogue(a + b) == Catalogue(a) + Catalogue(b)
  {
    if |b| > 0 {
      var ab := a + b;
      assert ab[..|ab| - 1] == a + b[..|b| - 1];
      assert ab[|ab| - 1] == b[|b| - 1];
      CatalogueAppend(a, b[..|b| - 1]);
    } else {
      assert a + b == a;
    }
  }

  /** Exactly the object children: every entry is an `object` child, and
      every `object` child has its entry. */
  lemma {:induction false} CatalogueExact(cs: seq<Element>)
    ensures forall i :: 0 <= i < |Catalogue(cs)| ==>
      Catalogue(cs)[i].element in cs && HasLocalName(Catalogue(cs)[i].element, "object")
      && Catalogue(cs)[i] == Info(Catalogue(cs)[i].element)
    ensures forall k :: 0 <= k < |cs| && HasLocalName(cs[k], "object") ==> Info(cs[k]) in Catalogue(cs)
  {
    if |cs| > 0 {
      var init := cs[..|cs| - 1];
      CatalogueExact(init);
      assert cs == init + [cs[|cs| - 1]];
      forall k | 0 <= k < |cs| && HasLocalName(cs[k], "object")
        ensures Info(cs[k]) in Catalogue(cs)
      {
        if k < |cs| - 1 {
          assert cs[k] == init[k];
        }
      }
    }
  }

  /** The loop of lines 236-248: one entry per `object` child of `resources`. */
  method CatalogueChildren(resources: Element) returns (objects: seq<ObjectInfo>)
    ensures objects == Catalogue(resources.children)
  {
    var cs := resources.children;
    objects := [];
    var i := 0;
    while i < |cs|
      invariant 0 <= i <= |cs|
      invariant objects == Catalogue(cs[..i])
    {
      assert cs[..i + 1][..i] == cs[..i];
      if HasLocalName(cs[i], "object") {
        objects := objects + [Info(cs[i])];
      }
      i := i + 1;
    }
    assert cs[..i] == cs;
  }

  /** `get_objects_info` (add_3mf_colors.py:197-255): raises when no child of
      the root is a `resources` element, otherwise catalogues its children. */
  method GetObjectsInfo(root: Element) returns (r: Result<seq<ObjectInfo>>)
    ensures r.Err? <==> FirstMatch(root.children, "resources").None?
    ensures r.Err? ==> r.message == "<resources> element missing in XML"
    ensures r.Ok? ==> r.value == Catalogue(root.children[FirstMatch(root.children, "resources").value].children)
  {
    var found := FindChild(root, "resources");
    if found.None? {
      return Err("<resources> element missing in XML");
    }
    var objects := CatalogueChildren(root.children[found.value]);
    return Ok(objects);
  }

  /** The number of `triangle` children of an object's `mesh`/`triangles`
      element, or None when the object has no mesh or no triangles. */
  function TriangleCount(obj: Element): (r: Option<nat>)
    ensures r.Some? <==> TrianglesPath(obj).Some?
  {
    match TrianglesPath(obj)
    case None => None
    case Some((m, t)) => Some(CountNamed(obj.children[m].children[t].children, "triangle"))
  }

  /** The objects `get_triangles_info` counts: not assemblies, and with a
      mesh holding a triangles element (add_3mf_colors.py:271-292). */
  predicate Counted(o: ObjectInfo)
  {
    !o.isAssembly && TriangleCount(o.element).Some?
  }

  /** What `get_triangles_info` returns for a list of objects: for each
      counted object, its triangle count under its name; a later object
      overwrites an earlier one of the same name (add_3mf_colors.py:268-300). */
  function TrianglesInfo(objects: seq<ObjectInfo>): map<string, nat>
  {
    if |objects| == 0 then map[]
    else
      var o := objects[|objects| - 1];
      var m := TrianglesInfo(objects[..|objects| - 1]);
      if Counted(o) then m[o.name := TriangleCount(o.element).value] else m
  }

  /** A name is a key exactly when some counted object carries it. */
  lemma {:induction false} TrianglesInfoKeys(objects: seq<ObjectInfo>, name: string)
    ensures name in TrianglesInfo(objects) <==>
      exists i :: 0 <= i < |objects| && objects[i].name == name && Counted(objects[i])
  {
    if |objects| > 0 {
      var n := |objects| - 1;
      var init := objects[..n];
      TrianglesInfoKeys(init, name);
      assert forall i :: 0 <= i < n ==> objects[i] == init[i];
    }
  }

  /** The value under a name is the count of the last counted object that
      carries the name. */
  lemma {:induction false} TrianglesInfoLastWins(objects: seq<ObjectInfo>, name: string, i: nat)
    requires i < |objects| && objects[i].name == name && Counted(objects[i])
    requires forall j :: i < j < |objects| ==> !(objects[j].name == name && Counted(objects[j]))
    ensures name in TrianglesInfo(objects)
    ensures TriangleCount(objects[i].element) == Some(TrianglesInfo(objects)[name])
  {
    var n := |objects| - 1;
    var init := objects[..n];
    if i < n {
      assert objects[i] == init[i];
      TrianglesInfoLastWins(init, name, i);
    }
  }

  /** `get_triangles_info` (add_3mf_colors.py:258-306). */
  method GetTrianglesInfo(objects: seq<ObjectInfo>) returns (info: map<string, nat>)
    ensures info == TrianglesInfo(objects)
  {
    info := map[];
    var i := 0;
    while i < |objects|
      invariant 0 <= i <= |objects|
      invariant info == TrianglesInfo(objects[..i])
    {
      var obj := objects[i];
      assert objects[..i + 1][..i] == objects[..i];
      if !obj.isAssembly {
        var mesh := FindChild(obj.element, "mesh");
        if mesh.Some? {
          var triangles := FindChild(obj.element.children[mesh.value], "triangles");
          if triangles.Some? {
            var cs := obj.element.children[mesh.value].children[triangles.value].children;
            var count := 0;
            var k := 0;
            while k < |cs|
              invariant 0 <= k <= |cs|
              invariant count == CountNamed(cs[..k], "triangle")
            {
              assert cs[..k + 1][..k] == cs[..k];
              if HasLocalName(cs[k], "triangle") {
                count := count + 1;
              }
              k := k + 1;
            }
            assert cs[..k] == cs;
            info := info[obj.name := count];
          }
        }
      }
      i := i + 1;
    }
    assert objects[..i] == objects;
  }
}
