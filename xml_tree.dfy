/** The parsed model document as the colorizer sees it: an element tree
    with a tag, an attribute map and ordered children, and the
    namespace-tolerant way every lookup in the colorizer matches a tag. */
module XmlTree {
  import opened Results
  import opened Text

  /** An ElementTree element. Tags carry their namespace the way
      ElementTree writes it, `{uri}local`, or no namespace at all. */
  datatype Element = Element(tag: string, attrs: map<string, string>, children: seq<Element>)

  /** Every lookup in the colorizer tests `name in e.tag.split('}')`
      (add_3mf_colors.py:140, 228, 237, 277, 287, 297, 356, 412, 423, 434, 467, 479, 584). */
  predicate HasLocalName(e: Element, name: string)
  {
    name in Split(e.tag, '}')
  }

  /** For a namespaced tag `{ns}local` the test matches exactly the local
      name, for any name that does not itself start a namespace. */
  lemma QualifiedTagMatch(e: Element, ns: string, local: string, name: string)
    requires e.tag == "{" + ns + "}" + local
    requires '}' !in ns && '}' !in local && '{' !in name
    ensures HasLocalName(e, name) <==> name == local
  {
    assert e.tag == ("{" + ns) + ['}'] + local;
    SplitAtSeparator("{" + ns, local, '}');
    SplitNoSeparator(local, '}');
    assert Split(e.tag, '}') == ["{" + ns, local];
    assert ("{" + ns)[0] == '{';
  }

  /** For a tag without a namespace the test is plain equality. */
  lemma PlainTagMatch(e: Element, name: string)
    requires '}' !in e.tag
    ensures HasLocalName(e, name) <==> name == e.tag
  {
    SplitNoSeparator(e.tag, '}');
  }

  /** The first child at or after `from` whose tag matches `name`. */
  function FirstMatchFrom(cs: seq<Element>, name: string, from: nat): (r: Option<nat>)
    decreases |cs| - from
    ensures r.Some? ==> from <= r.value < |cs| && HasLocalName(cs[r.value], name)
    ensures r.Some? ==> forall j :: from <= j < r.value ==> !HasLocalName(cs[j], name)
    ensures r.None? ==> forall j :: from <= j < |cs| ==> !HasLocalName(cs[j], name)
  {
    if from >= |cs| then None
    else if HasLocalName(cs[from], name) then Some(from)
    else FirstMatchFrom(cs, name, from + 1)
  }

  /** The locator: position of the first child whose tag matches `name`. */
  function FirstMatch(cs: seq<Element>, name: string): Option<nat>
  {
    FirstMatchFrom(cs, name, 0)
  }

  /** The locator's result is determined by where the first match is. */
  lemma FirstMatchAt(cs: seq<Element>, name: string, k: nat)
    requires k < |cs| && HasLocalName(cs[k], name)
    requires forall j :: 0 <= j < k ==> !HasLocalName(cs[j], name)
    ensures FirstMatch(cs, name) == Some(k)
  {
  }

  lemma FirstMatchAbsent(cs: seq<Element>, name: string)
    requires forall j :: 0 <= j < |cs| ==> !HasLocalName(cs[j], name)
    ensures FirstMatch(cs, name).None?
  {
  }

  /** The source's `for child in parent: if name in child.tag.split('}'): found = child; break`
      (add_3mf_colors.py:276-279, 286-289, 355-358, 466-469, 583-586),
      returning the child's position. */
  method FindChild(parent: Element, name: string) returns (r: Option<nat>)
    ensures r == FirstMatch(parent.children, name)
    ensures r.Some? ==> r.value < |parent.children| && HasLocalName(parent.children[r.value], name)
    ensures r.None? <==> forall j :: 0 <= j < |parent.children| ==> !HasLocalName(parent.children[j], name)
  {
    var i := 0;
    while i < |parent.children|
      invariant 0 <= i <= |parent.children|
      invariant forall j :: 0 <= j < i ==> !HasLocalName(parent.children[j], name)
    {
      if HasLocalName(parent.children[i], name) {
        return Some(i);
      }
      i := i + 1;
    }
    return None;
  }

  /** `e.get(key, default)`. */
  function Attr(e: Element, key: string, default: string): string
  {
    if key in e.attrs then e.attrs[key] else default
  }

  /** `e.get(key)`, which is None when the attribute is absent. */
  function AttrOpt(e: Element, key: string): Option<string>
  {
    if key in e.attrs then Some(e.attrs[key]) else None
  }

  /** Number of children whose tag matches `name`, counted front to back. */
  function CountNamed(cs: seq<Element>, name: string): (n: nat)
    ensures n <= |cs|
  {
    if |cs| == 0 then 0
    else CountNamed(cs[..|cs| - 1], name) + (if HasLocalName(cs[|cs| - 1], name) then 1 else 0)
  }

  /** Two runs of children with the same tags, position by position. */
  predicate SameTags(a: seq<Element>, b: seq<Element>)
  {
    |a| == |b| && forall i :: 0 <= i < |a| ==> a[i].tag == b[i].tag
  }

  /** Lookups see only tags: children whose tags are unchanged are found
      at the same positions. */
  lemma {:induction false} FirstMatchFromSameTags(a: seq<Element>, b: seq<Element>, name: string, from: nat)
    requires SameTags(a, b)
    decreases |a| - from
    ensures FirstMatchFrom(a, name, from) == FirstMatchFrom(b, name, from)
  {
    if from < |a| {
      assert HasLocalName(a[from], name) == HasLocalName(b[from], name);
      FirstMatchFromSameTags(a, b, name, from + 1);
    }
  }

  lemma {:induction false} CountNamedSameTags(a: seq<Element>, b: seq<Element>, name: string)
    requires SameTags(a, b)
    ensures CountNamed(a, name) == CountNamed(b, name)
  {
    if |a| > 0 {
      var n := |a| - 1;
      assert HasLocalName(a[n], name) == HasLocalName(b[n], name);
      CountNamedSameTags(a[..n], b[..n], name);
    }
  }

  lemma {:induction false} CountNamedAppend(a: seq<Element>, b: seq<Element>, name: string)
    ensures CountNamed(a + b, name) == CountNamed(a, name) + CountNamed(b, name)
  {
    if |b| > 0 {
      var ab := a + b;
      assert ab[..|ab| - 1] == a + b[..|b| - 1];
      assert ab[|ab| - 1] == b[|b| - 1];
      CountNamedAppend(a, b[..|b| - 1], name);
    } else {
      assert a + b == a;
    }
  }

  /** Position of the first `mesh` child and, inside it, of the first
      `triangles` child, when both exist (add_3mf_colors.py:274-292, 409-429). */
  function TrianglesPath(obj: Element): (r: Option<(nat, nat)>)
    ensures r.Some? ==> r.value.0 < |obj.children| && r.value.1 < |obj.children[r.value.0].children|
    ensures r.Some? ==> HasLocalName(obj.children[r.value.0], "mesh")
                        && HasLocalName(obj.children[r.value.0].children[r.value.1], "triangles")
    ensures r.Some? ==> (forall j :: 0 <= j < r.value.0 ==> !HasLocalName(obj.children[j], "mesh"))
                        && (forall j :: 0 <= j < r.value.1 ==> !HasLocalName(obj.children[r.value.0].children[j], "triangles"))
    ensures r.None? <==> (FirstMatch(obj.children, "mesh").None?
                          || FirstMatch(obj.children[FirstMatch(obj.children, "mesh").value].children, "triangles").None?)
  {
    match FirstMatch(obj.children, "mesh")
    case None => None
    case Some(m) =>
      match FirstMatch(obj.children[m].children, "triangles")
      case None => None
      case Some(t) => Some((m, t))
  }
}
