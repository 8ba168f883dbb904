/** Colorgroup synthesis and injection: one `m:colorgroup` per palette
    entry, each holding one `m:color`, spliced into `resources` in front of
    the first object (add_3mf_colors.py:311-371). The elements follow the
    Color Groups chapter of the 3MF Materials and Properties Extension. */
module Injection {
  import opened Results
  import opened Text
  import opened XmlTree
  import opened Palette
  import opened Catalog

  /** MATERIAL_NAMESPACE (add_3mf_colors.py:34). It is written as a
      concatenation of short pieces because the verifier then shows that it
      holds no `}` piece by piece (NamespaceHasNoBrace); as one long literal
      that proof is many times more expensive. */
  const MATERIAL_NAMESPACE := "http://" + "schemas." + "microsoft.com/" + "3dmanufacturing/" + "material/" + "2015/02"

  /** `{MATERIAL_NAMESPACE}local`, as ElementTree spells a namespaced tag. */
  function MaterialTag(local: string): string
  {
    "{" + MATERIAL_NAMESPACE + "}" + local
  }

  /** The colorgroup built for one palette entry: id from the mode's table,
      one `color` child carrying the entry's hex value (add_3mf_colors.py:340-346). */
  function Colorgroup(s: Swatch, mode: string): Element
  {
    Element(MaterialTag("colorgroup"), map["id" := ColorgroupId(s.name, mode)],
            [Element(MaterialTag("color"), map["color" := s.hex], [])])
  }

  /** `colorgroup_elements`: the colorgroups in palette order. */
  function Colorgroups(mode: string): (gs: seq<Element>)
    ensures |gs| == 4
    ensures forall i :: 0 <= i < 4 ==> gs[i] == Colorgroup(PaletteFor(mode)[i], mode)
  {
    seq(4, i requires 0 <= i < 4 => Colorgroup(PaletteFor(mode)[i], mode))
  }

  /** `colorgroup_map`: palette name to colorgroup id. */
  function ColorgroupMap(mode: string): map<string, string>
  {
    map name | name in Names(PaletteFor(mode)) :: ColorgroupId(name, mode)
  }

  function Reverse(s: seq<Element>): (r: seq<Element>)
    ensures |r| == |s|
  {
    if |s| == 0 then [] else Reverse(s[1..]) + [s[0]]
  }

  lemma {:induction false} ReverseAt(s: seq<Element>, k: nat)
    requires k < |s|
    ensures Reverse(s)[k] == s[|s| - 1 - k]
  {
    if k < |s| - 1 {
      ReverseAt(s[1..], k);
    }
  }

  /** The insertion itself, for any block `gs` of new children: in order
      right before the first object, or, with no object, appended one by
      one in the order the reversed loop visits them, that is reversed
      (add_3mf_colors.py:353-367). */
  function Splice(cs: seq<Element>, gs: seq<Element>): seq<Element>
  {
    match FirstMatch(cs, "object")
    case Some(p) => cs[..p] + gs + cs[p..]
    case None => cs + Reverse(gs)
  }

  /** The children of `resources` after `insert_colorgroups`. */
  function Spliced(cs: seq<Element>, mode: string): seq<Element>
  {
    Splice(cs, Colorgroups(mode))
  }

  /** Lines 337-351 of `insert_colorgroups`: the colorgroup elements in
      palette order and the name-to-id map. */
  method BuildColorgroups(mode: string) returns (elements: seq<Element>, colorgroupMap: map<string, string>)
    ensures elements == Colorgroups(mode)
    ensures colorgroupMap == ColorgroupMap(mode)
  {
    var colors := PaletteFor(mode);
    colorgroupMap := map[];
    elements := [];
    var i := 0;
    while i < |colors|
      invariant 0 <= i <= |colors|
      invariant elements == Colorgroups(mode)[..i]
      invariant forall name :: name in colorgroupMap <==> name in Names(colors)[..i]
      invariant forall name :: name in colorgroupMap ==> colorgroupMap[name] == ColorgroupId(name, mode)
    {
      var colorgroupId := ColorgroupId(colors[i].name, mode);
      var colorgroup := Element(MaterialTag("colorgroup"), map["id" := colorgroupId],
                                [Element(MaterialTag("color"), map["color" := colors[i].hex], [])]);
      assert colorgroup == Colorgroups(mode)[i];
      PrefixStep(Colorgroups(mode), i);
      PrefixStep(Names(colors), i);
      elements := elements + [colorgroup];
      colorgroupMap := colorgroupMap[colors[i].name := colorgroupId];
      i := i + 1;
    }
    ColorgroupMapComplete(mode, colorgroupMap);
    assert Colorgroups(mode)[..i] == Colorgroups(mode);
  }

  /** A prefix one longer gains the next element. */
  lemma PrefixStep<T>(s: seq<T>, i: nat)
    requires i < |s|
    ensures s[..i + 1] == s[..i] + [s[i]]
  {
  }

  /** A map with exactly the palette's names as keys and each name's id
      as value is the colorgroup map. */
  lemma ColorgroupMapComplete(mode: string, m: map<string, string>)
    requires forall name :: name in m <==> name in Names(PaletteFor(mode))[..4]
    requires forall name :: name in m ==> m[name] == ColorgroupId(name, mode)
    ensures m == ColorgroupMap(mode)
  {
    assert Names(PaletteFor(mode))[..4] == Names(PaletteFor(mode));
    assert m.Keys == ColorgroupMap(mode).Keys;
  }

  /** One turn of the reversed loop with an object present: inserting at
      the object's old position puts the element in front of those already
      inserted. */
  lemma InsertStepBefore(c0: seq<Element>, p: nat, gs: seq<Element>, j: nat, children: seq<Element>)
    requires p <= |c0| && j < |gs|
    requires children == c0[..p] + gs[j + 1..] + c0[p..]
    ensures children[..p] + [gs[j]] + children[p..] == c0[..p] + gs[j..] + c0[p..]
  {
    assert children[..p] == c0[..p];
    assert children[p..] == gs[j + 1..] + c0[p..];
    assert gs[j..] == [gs[j]] + gs[j + 1..];
  }

  /** One turn of the reversed loop without an object: appending extends
      the reversed block. */
  lemma InsertStepAppend(c0: seq<Element>, gs: seq<Element>, j: nat, children: seq<Element>)
    requires j < |gs|
    requires children == c0 + Reverse(gs[j + 1..])
    ensures children + [gs[j]] == c0 + Reverse(gs[j..])
  {
    assert gs[j..][1..] == gs[j + 1..];
  }

  /** `insert_colorgroups` (add_3mf_colors.py:311-371): the loop of lines
      362-367 splices the block into the children of `resources`. */
  method InsertColorgroups(resources: Element, mode: string) returns (updated: Element, colorgroupMap: map<string, string>)
    ensures updated == resources.(children := Spliced(resources.children, mode))
    ensures colorgroupMap == ColorgroupMap(mode)
  {
    var elements;
    elements, colorgroupMap := BuildColorgroups(mode);
    var objectIndex := FindChild(resources, "object");
    var c0 := resources.children;
    var children := c0;
    var j := |elements|;
    InsertEnds(c0, elements, if objectIndex.Some? then objectIndex.value else 0);
    while j > 0
      invariant 0 <= j <= |elements|
      invariant objectIndex.Some? ==> children == c0[..objectIndex.value] + elements[j..] + c0[objectIndex.value..]
      invariant objectIndex.None? ==> children == c0 + Reverse(elements[j..])
    {
      j := j - 1;
      if objectIndex.Some? {
        var p := objectIndex.value;
        InsertStepBefore(c0, p, elements, j, children);
        children := children[..p] + [elements[j]] + children[p..];
      } else {
        InsertStepAppend(c0, elements, j, children);
        children := children + [elements[j]];
      }
    }
    updated := resources.(children := children);
  }

  /** Before the reversed loop nothing is inserted yet; after it the whole
      block is. */
  lemma InsertEnds(c0: seq<Element>, gs: seq<Element>, p: nat)
    requires p <= |c0|
    ensures c0[..p] + gs[|gs|..] + c0[p..] == c0
    ensures c0 + Reverse(gs[|gs|..]) == c0
    ensures gs[0..] == gs
  {
    assert gs[|gs|..] == [];
  }

  /** MATERIAL_NAMESPACE holds no closing brace. */
  lemma NamespaceHasNoBrace()
    ensures '}' !in MATERIAL_NAMESPACE
  {
    var a, b, c, d, e, f := "http://", "schemas.", "microsoft.com/", "3dmanufacturing/", "material/", "2015/02";
    assert '}' !in a && '}' !in b && '}' !in c && '}' !in d && '}' !in e && '}' !in f;
    NotInConcat(a, b, '}');
    NotInConcat(a + b, c, '}');
    NotInConcat(a + b + c, d, '}');
    NotInConcat(a + b + c + d, e, '}');
    NotInConcat(a + b + c + d + e, f, '}');
  }

  /** The inserted elements are colorgroups, never objects. */
  lemma ColorgroupIsNotObject(s: Swatch, mode: string)
    ensures !HasLocalName(Colorgroup(s, mode), "object")
    ensures HasLocalName(Colorgroup(s, mode), "colorgroup")
  {
    NamespaceHasNoBrace();
    QualifiedTagMatch(Colorgroup(s, mode), MATERIAL_NAMESPACE, "colorgroup", "object");
    QualifiedTagMatch(Colorgroup(s, mode), MATERIAL_NAMESPACE, "colorgroup", "colorgroup");
  }

  predicate NoObjects(gs: seq<Element>)
  {
    forall i :: 0 <= i < |gs| ==> !HasLocalName(gs[i], "object")
  }

  lemma ColorgroupsHaveNoObjects(mode: string)
    ensures NoObjects(Colorgroups(mode))
  {
    forall i | 0 <= i < 4 ensures !HasLocalName(Colorgroups(mode)[i], "object") {
      ColorgroupIsNotObject(PaletteFor(mode)[i], mode);
    }
  }

  /** The i-th new colorgroup: a `colorgroup` whose one attribute is the
      id i + 1, holding exactly one empty `color` element whose one
      attribute is the i-th palette colour's hex value. */
  lemma ColorgroupContent(mode: string, i: nat)
    requires i < 4
    ensures var g := Colorgroups(mode)[i];
      && HasLocalName(g, "colorgroup") && g.attrs == map["id" := [DigitChar(i + 1)]]
      && |g.children| == 1 && HasLocalName(g.children[0], "color")
      && g.children[0].attrs == map["color" := PaletteFor(mode)[i].hex]
      && g.children[0].children == []
  {
    var s := PaletteFor(mode)[i];
    GroupShape(Colorgroups(mode)[i], ColorgroupId(s.name, mode), s.hex);
    assert ColorgroupId(s.name, mode) == [DigitChar(i + 1)];
  }

  /** A colorgroup element with a given id and colour value, element by
      element. */
  lemma GroupShape(g: Element, id: string, hex: string)
    requires g == Element(MaterialTag("colorgroup"), map["id" := id],
                          [Element(MaterialTag("color"), map["color" := hex], [])])
    ensures HasLocalName(g, "colorgroup") && HasLocalName(g.children[0], "color")
  {
    NamespaceHasNoBrace();
    QualifiedTagMatch(g, MATERIAL_NAMESPACE, "colorgroup", "colorgroup");
    QualifiedTagMatch(g.children[0], MATERIAL_NAMESPACE, "color", "color");
  }

  /** `resources` gains exactly one child per new element, and taking the
      inserted block out gives the old children back in their old order. */
  lemma SpliceKeepsChildren(cs: seq<Element>, gs: seq<Element>)
    ensures |Splice(cs, gs)| == |cs| + |gs|
    ensures FirstMatch(cs, "object").Some? ==>
      var p := FirstMatch(cs, "object").value;
      Splice(cs, gs)[..p] + Splice(cs, gs)[p + |gs|..] == cs
    ensures FirstMatch(cs, "object").None? ==> Splice(cs, gs)[..|cs|] == cs
  {
    if FirstMatch(cs, "object").Some? {
      var p := FirstMatch(cs, "object").value;
      var r := Splice(cs, gs);
      assert r[..p] == cs[..p];
      assert r[p + |gs|..] == cs[p..];
      assert cs[..p] + cs[p..] == cs;
    }
  }

  /** Placement with an object present: the block sits in order
      immediately before it, and it stays the first object. */
  lemma SplicePlacementBefore(cs: seq<Element>, gs: seq<Element>, p: nat)
    requires NoObjects(gs)
    requires FirstMatch(cs, "object") == Some(p)
    ensures Splice(cs, gs)[p..p + |gs|] == gs
    ensures FirstMatch(Splice(cs, gs), "object") == Some(p + |gs|)
  {
    var r := cs[..p] + gs + cs[p..];
    assert r == Splice(cs, gs);
    assert r[p..p + |gs|] == gs;
    assert r[p + |gs|] == cs[p];
    forall j | 0 <= j < p + |gs| ensures !HasLocalName(r[j], "object") {
      if j < p {
        assert r[j] == cs[j];
      } else {
        assert r[j] == gs[j - p];
      }
    }
    FirstMatchAt(r, "object", p + |gs|);
  }

  /** Placement without an object: the block is appended in reverse
      order, and there is still no object. */
  lemma SplicePlacementAppended(cs: seq<Element>, gs: seq<Element>)
    requires NoObjects(gs)
    requires FirstMatch(cs, "object").None?
    ensures Splice(cs, gs)[|cs|..] == Reverse(gs)
    ensures FirstMatch(Splice(cs, gs), "object").None?
  {
    var r := cs + Reverse(gs);
    assert r == Splice(cs, gs);
    assert r[|cs|..] == Reverse(gs);
    forall j | 0 <= j < |r| ensures !HasLocalName(r[j], "object") {
      if j >= |cs| {
        ReverseAt(gs, j - |cs|);
        assert r[j] == Reverse(gs)[j - |cs|];
      } else {
        assert r[j] == cs[j];
      }
    }
    FirstMatchAbsent(r, "object");
  }

  /** With no object child, the colorgroups end up in reverse palette order. */
  lemma SplicedReversedWithoutObject(cs: seq<Element>, mode: string, i: nat)
    requires FirstMatch(cs, "object").None? && i < 4
    ensures Spliced(cs, mode)[|cs| + i] == Colorgroup(PaletteFor(mode)[3 - i], mode)
  {
    AppendedAt(cs, Colorgroups(mode), i, Colorgroup(PaletteFor(mode)[3 - i], mode));
  }

  /** With no object child, the element `i` places after the old children is
      the `i`-th from the end of `gs`. */
  lemma AppendedAt(cs: seq<Element>, gs: seq<Element>, i: nat, g: Element)
    requires FirstMatch(cs, "object").None? && i < |gs| && gs[|gs| - 1 - i] == g
    ensures Splice(cs, gs)[|cs| + i] == g
  {
    ReverseAt(gs, i);
  }

  lemma {:induction false} CatalogueOfNoObjects(gs: seq<Element>)
    requires NoObjects(gs)
    ensures Catalogue(gs) == []
  {
    if |gs| > 0 {
      CatalogueOfNoObjects(gs[..|gs| - 1]);
    }
  }

  /** The inserted block contributes nothing to the object catalogue, so
      the catalogue taken before the insertion still describes the objects
      of the document after it (the references stay valid). */
  lemma SpliceCatalogue(cs: seq<Element>, gs: seq<Element>)
    requires NoObjects(gs)
    ensures Catalogue(Splice(cs, gs)) == Catalogue(cs)
  {
    match FirstMatch(cs, "object")
    case Some(p) =>
      CatalogueIgnoresNoObjects(cs[..p], gs, cs[p..]);
      assert cs[..p] + cs[p..] == cs;
    case None =>
      var rg := Reverse(gs);
      forall i | 0 <= i < |rg| ensures !HasLocalName(rg[i], "object") {
        ReverseAt(gs, i);
      }
      CatalogueIgnoresNoObjects(cs, rg, []);
      assert cs + rg + [] == cs + rg;
      assert cs + [] == cs;
  }

  /** A run without objects adds nothing to the catalogue wherever it is put. */
  lemma CatalogueIgnoresNoObjects(a: seq<Element>, gs: seq<Element>, b: seq<Element>)
    requires NoObjects(gs)
    ensures Catalogue(a + gs + b) == Catalogue(a + b)
  {
    CatalogueOfNoObjects(gs);
    CatalogueAppend(a, gs);
    assert Catalogue(a) + [] == Catalogue(a);
    CatalogueAppend(a + gs, b);
    CatalogueAppend(a, b);
  }

  /** The colorgroup map: its keys are exactly the palette's names, its
      values the ids of the table, pairwise distinct. */
  lemma ColorgroupMapProperties(mode: string)
    ensures forall name :: name in ColorgroupMap(mode) <==> name in Names(PaletteFor(mode))
    ensures forall i :: 0 <= i < 4 ==> ColorgroupMap(mode)[PaletteFor(mode)[i].name] == [DigitChar(i + 1)]
    ensures forall a, b :: a in ColorgroupMap(mode) && b in ColorgroupMap(mode) && a != b ==>
      ColorgroupMap(mode)[a] != ColorgroupMap(mode)[b]
  {
    var p := PaletteFor(mode);
    var m := ColorgroupMap(mode);
    forall a, b | a in m && b in m && a != b ensures m[a] != m[b] {
      var i :| 0 <= i < 4 && p[i].name == a;
      var j :| 0 <= j < 4 && p[j].name == b;
      ColorgroupIdsDistinct(mode, i, j);
    }
  }
}
