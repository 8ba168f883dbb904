/** The rewrite of one object start tag (helpers.py:74-75): every
    `\s+name="..."` removed, then the new name attribute placed before the
    final `>`. */
module NameAttr {
  import opened Results
  import opened Text

  /** What `\s` matches in a `str` pattern: the characters `str.isspace`
      accepts. */
  predicate IsSpace(c: char)
  {
    || ('\t' <= c <= '\r') || ('\U{1C}' <= c <= ' ') || c == '\U{85}' || c == '\U{A0}'
    || c == '\U{1680}' || ('\U{2000}' <= c <= '\U{200A}') || c == '\U{2028}' || c == '\U{2029}'
    || c == '\U{202F}' || c == '\U{205F}' || c == '\U{3000}'
  }

  /** The end of the run of whitespace that starts at `i`. */
  function SpaceRunEnd(t: string, i: nat): (j: nat)
    requires i <= |t|
    decreases |t| - i
    ensures i <= j <= |t| && (j < |t| ==> !IsSpace(t[j]))
    ensures forall k :: i <= k < j ==> IsSpace(t[k])
  {
    if i < |t| && IsSpace(t[i]) then SpaceRunEnd(t, i + 1) else i
  }

  /** The end of a match of `\s+name="[^"]*"` starting at `i`, if one does.
      The whitespace run is taken whole, since `n` is not whitespace, and
      the value ends at the first `"` after the opening one. */
  function NameAttrAt(t: string, i: nat): (r: Option<nat>)
    requires i <= |t|
    ensures r.Some? ==> i < r.value <= |t|
  {
    if i < |t| && IsSpace(t[i]) then
      var j := SpaceRunEnd(t, i);
      if OccursAt(t, "name=\"", j) then
        match Find(t, "\"", j + 6)
        case Some(q) => Some(q + 1)
        case None => None
      else None
    else None
  }

  /** `re.sub(r'\s+name="[^"]*"', '', t[i:])`: scanning left to right,
      each match is dropped and the scan resumes after it. */
  function StripFrom(t: string, i: nat): (r: string)
    requires i <= |t|
    decreases |t| - i
    ensures |r| <= |t| - i
  {
    if i == |t| then ""
    else
      match NameAttrAt(t, i)
      case Some(e) => StripFrom(t, e)
      case None => [t[i]] + StripFrom(t, i + 1)
  }

  function StripNameAttrs(t: string): string
  {
    StripFrom(t, 0)
  }

  /** Text with no name attribute anywhere is left as it is. */
  lemma {:induction false} StripFromIdentity(t: string, i: nat)
    requires i <= |t|
    requires forall k :: i <= k <= |t| ==> NameAttrAt(t, k).None?
    decreases |t| - i
    ensures StripFrom(t, i) == t[i..]
  {
    if i < |t| {
      StripFromIdentity(t, i + 1);
      assert t[i..] == [t[i]] + t[i + 1..];
    }
  }

  /** A match ends with `"`, so a final `>` always survives the strip. */
  lemma {:induction false} StripKeepsFinalChar(t: string, i: nat)
    requires i < |t| && t[|t| - 1] != '"'
    decreases |t| - i
    ensures |StripFrom(t, i)| > 0 && StripFrom(t, i)[|StripFrom(t, i)| - 1] == t[|t| - 1]
  {
    match NameAttrAt(t, i)
    case Some(e) =>
      var j := SpaceRunEnd(t, i);
      var q := Find(t, "\"", j + 6).value;
      assert t[q..q + 1] == "\"";
      assert e == q + 1 && e < |t|;
      StripKeepsFinalChar(t, e);
    case None =>
      if i + 1 < |t| {
        StripKeepsFinalChar(t, i + 1);
      }
  }

  /** The renamed start tag (helpers.py:74-75): name attributes stripped,
      the final `>` replaced by ` name="..."` and `>`. */
  function RenameTag(oldTag: string, name: string): (r: string)
  {
    var stripped := StripNameAttrs(oldTag);
    (if |stripped| == 0 then "" else stripped[..|stripped| - 1]) + " name=\"" + name + "\">"
  }

  /** A renamed tag keeps everything the strip kept before its final `>`
      and ends with the new name attribute and that `>`. */
  lemma RenameTagShape(oldTag: string, name: string)
    requires |oldTag| > 0 && oldTag[|oldTag| - 1] == '>'
    ensures var stripped := StripNameAttrs(oldTag);
      && |stripped| > 0 && stripped[|stripped| - 1] == '>'
      && RenameTag(oldTag, name) == stripped[..|stripped| - 1] + " name=\"" + name + "\">"
      && |RenameTag(oldTag, name)| == |stripped| + 8 + |name|
  {
    StripKeepsFinalChar(oldTag, 0);
  }

}
