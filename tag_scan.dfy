/** The object start tags of a model text as the regular-expression scan
    of `safe_fix_3mf_names` reports them (helpers.py:49-62). The scan is
    given as its list of matches; what is kept of it is written out. */
module TagScan {
  import opened Results
  import opened Text

  /** One match of `<object\s+([^>]*)>` in the model text: its span and,
      when `\bid="(\d+)"` occurs inside it, the digits of the id. */
  datatype TagMatch = TagMatch(start: nat, end: nat, id: Option<string>)

  /** An entry of `obj_info` (helpers.py:52-59): the span of an object
      start tag that carries a numeric id, and the id. */
  datatype ObjectTag = ObjectTag(start: nat, end: nat, id: string)

  /** A start tag's span: inside the text, from its `<` to its `>`. */
  predicate TagSpan(content: string, start: nat, end: nat)
  {
    start < end <= |content| && content[start] == '<' && content[end - 1] == '>'
  }

  /** What `finditer` yields: start tags in order of appearance, none
      overlapping the next, with digit ids. */
  predicate ValidScan(content: string, ms: seq<TagMatch>)
  {
    && (forall i :: 0 <= i < |ms| ==> TagSpan(content, ms[i].start, ms[i].end))
    && (forall i :: 0 <= i < |ms| && ms[i].id.Some? ==> IsDigits(ms[i].id.value))
    && (forall i, j :: 0 <= i < j < |ms| ==> ms[i].end <= ms[j].start)
  }

  predicate ValidTags(content: string, tags: seq<ObjectTag>)
  {
    && (forall i :: 0 <= i < |tags| ==> TagSpan(content, tags[i].start, tags[i].end) && IsDigits(tags[i].id))
    && (forall i, j :: 0 <= i < j < |tags| ==> tags[i].end <= tags[j].start)
  }

  /** `obj_info`: the matches that carry an id, in order (helpers.py:54-59). */
  function ObjectTags(ms: seq<TagMatch>): (tags: seq<ObjectTag>)
    ensures |tags| <= |ms|
  {
    if |ms| == 0 then []
    else
      var m := ms[|ms| - 1];
      ObjectTags(ms[..|ms| - 1]) + (if m.id.Some? then [ObjectTag(m.start, m.end, m.id.value)] else [])
  }

  /** Each entry comes from a match with an id at or after the entry's
      own position. */
  lemma {:induction false} ObjectTagSource(ms: seq<TagMatch>, k: nat) returns (i: nat)
    requires k < |ObjectTags(ms)|
    ensures k <= i < |ms| && ms[i].id.Some?
    ensures ObjectTags(ms)[k] == ObjectTag(ms[i].start, ms[i].end, ms[i].id.value)
  {
    var n := |ms| - 1;
    var init := ObjectTags(ms[..n]);
    if k < |init| {
      i := ObjectTagSource(ms[..n], k);
      assert ms[..n][i] == ms[i];
      assert ObjectTags(ms)[k] == init[k];
    } else {
      i := n;
    }
  }

  /** Every match with an id becomes an entry. */
  lemma {:induction false} ObjectTagsComplete(ms: seq<TagMatch>)
    ensures forall i :: 0 <= i < |ms| && ms[i].id.Some? ==>
      ObjectTag(ms[i].start, ms[i].end, ms[i].id.value) in ObjectTags(ms)
  {
    if |ms| > 0 {
      var n := |ms| - 1;
      ObjectTagsComplete(ms[..n]);
      assert forall i :: 0 <= i < n ==> ms[..n][i] == ms[i];
    }
  }

  /** Keeping only the matches with an id keeps the order and the spans. */
  lemma ObjectTagsValid(content: string, ms: seq<TagMatch>)
    requires ValidScan(content, ms)
    ensures ValidTags(content, ObjectTags(ms))
  {
    var tags := ObjectTags(ms);
    forall k | 0 <= k < |tags| ensures TagSpan(content, tags[k].start, tags[k].end) && IsDigits(tags[k].id) {
      var i := ObjectTagSource(ms, k);
    }
    forall k, l | 0 <= k < l < |tags| ensures tags[k].end <= tags[l].start {
      ObjectTagsOrder(ms, k, l);
    }
  }

  /** Two entries in order come from two matches in order. */
  lemma {:induction false} ObjectTagsOrder(ms: seq<TagMatch>, k: nat, l: nat)
    requires forall i, j :: 0 <= i < j < |ms| ==> ms[i].end <= ms[j].start
    requires k < l < |ObjectTags(ms)|
    ensures ObjectTags(ms)[k].end <= ObjectTags(ms)[l].start
  {
    var n := |ms| - 1;
    var init := ObjectTags(ms[..n]);
    if l < |init| {
      ObjectTagsOrder(ms[..n], k, l);
      assert ObjectTags(ms)[k] == init[k] && ObjectTags(ms)[l] == init[l];
    } else {
      var i := ObjectTagSource(ms[..n], k);
      assert ms[..n][i] == ms[i];
      assert ObjectTags(ms)[k] == init[k];
      assert ms[i].end <= ms[n].start;
    }
  }

  /** The scan loop of helpers.py:54-59. */
  method CollectObjectTags(ms: seq<TagMatch>) returns (objInfo: seq<ObjectTag>)
    ensures objInfo == ObjectTags(ms)
  {
    objInfo := [];
    var i := 0;
    while i < |ms|
      invariant 0 <= i <= |ms|
      invariant objInfo == ObjectTags(ms[..i])
    {
      assert ms[..i + 1][..i] == ms[..i];
      if ms[i].id.Some? {
        objInfo := objInfo + [ObjectTag(ms[i].start, ms[i].end, ms[i].id.value)];
      }
      i := i + 1;
    }
    assert ms[..i] == ms;
  }

  /** `object_ids` (helpers.py:62). */
  function Ids(tags: seq<ObjectTag>): seq<string>
  {
    seq(|tags|, k requires 0 <= k < |tags| => tags[k].id)
  }

}
