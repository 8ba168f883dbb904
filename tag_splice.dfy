/** Replacing a run of non-overlapping spans of a text, one piece per
    span, the way the reverse loop of `safe_fix_3mf_names` does
    (helpers.py:65-77): the text between spans is kept as it is. */
module TagSplice {
  import opened TagScan

  /** Where the text from entry `j` on begins. */
  function Start(content: string, tags: seq<ObjectTag>, j: nat): nat
    requires j <= |tags|
  {
    if j < |tags| then tags[j].start else |content|
  }

  /** Entry `j` lies inside the text and ends before the next entry. */
  predicate Spaced(content: string, tags: seq<ObjectTag>, j: nat)
    requires j < |tags|
  {
    tags[j].start <= tags[j].end <= Start(content, tags, j + 1) <= |content|
  }

  /** The original text between entry `j` and the next one. */
  function Gap(content: string, tags: seq<ObjectTag>, j: nat): string
    requires j < |tags|
  {
    if Spaced(content, tags, j) then content[tags[j].end..Start(content, tags, j + 1)] else ""
  }

  /** The gap after every entry, in forward order. */
  function Gaps(content: string, tags: seq<ObjectTag>): (gaps: seq<string>)
    ensures |gaps| == |tags|
  {
    seq(|tags|, j requires 0 <= j < |tags| => Gap(content, tags, j))
  }

  /** The entries of a valid scan are spaced. */
  lemma EntryBeforeNext(content: string, tags: seq<ObjectTag>, j: nat)
    requires ValidTags(content, tags) && j < |tags|
    ensures tags[j].start < tags[j].end && Spaced(content, tags, j)
    ensures Gaps(content, tags)[j] == content[tags[j].end..Start(content, tags, j + 1)]
  {
  }

  /** The text from entry `j` on once every entry `i` is replaced by
      `pieces[i]`: each piece followed by the gap after its entry. */
  function Tail(pieces: seq<string>, gaps: seq<string>, j: nat): string
    requires |pieces| == |gaps| && j <= |pieces|
    decreases |pieces| - j
  {
    if j == |pieces| then ""
    else pieces[j] + gaps[j] + Tail(pieces, gaps, j + 1)
  }

  /** The text with every entry `i` replaced by `pieces[i]`. */
  function Replaced(content: string, tags: seq<ObjectTag>, pieces: seq<string>): string
    requires ValidTags(content, tags) && |pieces| == |tags|
  {
    content[..Start(content, tags, 0)] + Tail(pieces, Gaps(content, tags), 0)
  }

  /** Cutting a text at `s <= e <= n` and gluing the pieces back. */
  lemma Regroup(content: string, s: nat, e: nat, n: nat, rest: string)
    requires s <= e <= n <= |content|
    ensures content[..s] + (content[s..e] + content[e..n] + rest) == content[..n] + rest
    ensures content[s..e] + content[e..n] + content[n..] == content[s..]
  {
    assert content[..n] == content[..s] + content[s..e] + content[e..n];
    assert content[s..] == content[s..e] + content[e..n] + content[n..];
  }

  /** Replacing `[s, e)` of a text that agrees with `content` up to `n`. */
  lemma SpliceParts(text: string, content: string, s: nat, e: nat, n: nat, piece: string, rest: string)
    requires s <= e <= n <= |content| && text == content[..n] + rest
    ensures text[..s] + piece + text[e..] == content[..s] + (piece + content[e..n] + rest)
  {
    assert text[..s] == content[..s];
    assert text[e..] == content[e..n] + rest;
  }

  /** When every piece is the old tag, the text from entry `j` on is the
      original text from there. */
  lemma {:induction false} TailOfOldTags(content: string, tags: seq<ObjectTag>, pieces: seq<string>, j: nat)
    requires ValidTags(content, tags) && |pieces| == |tags| && j <= |tags|
    requires forall i :: 0 <= i < |tags| ==> pieces[i] == content[tags[i].start..tags[i].end]
    decreases |tags| - j
    ensures Tail(pieces, Gaps(content, tags), j) == content[Start(content, tags, j)..]
  {
    if j < |tags| {
      var s, e, n := tags[j].start, tags[j].end, Start(content, tags, j + 1);
      TailOfOldTags(content, tags, pieces, j + 1);
      EntryBeforeNext(content, tags, j);
      Regroup(content, s, e, n, "");
    }
  }

  /** The text while the reverse loop runs: the original text before
      entry `j`, then the entries from `j` on already replaced. */
  function Partial(content: string, tags: seq<ObjectTag>, pieces: seq<string>, gaps: seq<string>, j: nat): string
    requires ValidTags(content, tags) && |pieces| == |tags| == |gaps| && j <= |tags|
  {
    EntryBounds(content, tags, j);
    content[..Start(content, tags, j)] + Tail(pieces, gaps, j)
  }

  lemma EntryBounds(content: string, tags: seq<ObjectTag>, j: nat)
    requires ValidTags(content, tags) && j <= |tags|
    ensures Start(content, tags, j) <= |content|
  {
  }

  /** One turn of the reverse loop: splicing the piece of entry `j` into
      the text whose entries after `j` are done. */
  lemma SpliceStep(content: string, tags: seq<ObjectTag>, pieces: seq<string>, gaps: seq<string>, j: nat, text: string)
    requires ValidTags(content, tags) && |pieces| == |tags| == |gaps| && j < |tags|
    requires gaps == Gaps(content, tags) && text == Partial(content, tags, pieces, gaps, j + 1)
    ensures tags[j].start <= tags[j].end <= |text|
    ensures text[..tags[j].start] + pieces[j] + text[tags[j].end..] == Partial(content, tags, pieces, gaps, j)
  {
    var s, e, n := tags[j].start, tags[j].end, Start(content, tags, j + 1);
    EntryBeforeNext(content, tags, j);
    SpliceParts(text, content, s, e, n, pieces[j], Tail(pieces, gaps, j + 1));
  }

  /** An entry whose piece is its old tag is already in place. */
  lemma KeepStep(content: string, tags: seq<ObjectTag>, pieces: seq<string>, gaps: seq<string>, j: nat, text: string)
    requires ValidTags(content, tags) && |pieces| == |tags| == |gaps| && j < |tags|
    requires gaps == Gaps(content, tags) && text == Partial(content, tags, pieces, gaps, j + 1)
    requires pieces[j] == content[tags[j].start..tags[j].end]
    ensures text == Partial(content, tags, pieces, gaps, j)
  {
    var s, e, n := tags[j].start, tags[j].end, Start(content, tags, j + 1);
    EntryBeforeNext(content, tags, j);
    Regroup(content, s, e, n, Tail(pieces, gaps, j + 1));
  }

  /** The replaced text of the entries before `k`: each piece followed by
      the gap after its entry. */
  function Head(pieces: seq<string>, gaps: seq<string>, k: nat): string
    requires |pieces| == |gaps| && k <= |pieces|
  {
    if k == 0 then "" else Head(pieces, gaps, k - 1) + pieces[k - 1] + gaps[k - 1]
  }

  lemma Regroup4(a: string, b: string, c: string, d: string)
    ensures a + (b + c + d) == a + b + c + d
  {
  }

  lemma Regroup5(a: string, b: string, c: string, d: string, e: string)
    ensures a + (b + (c + d + e)) == a + b + c + d + e
  {
  }

  /** The text from the first entry on splits at any entry `k` into the
      entries before it and the text from `k` on. */
  lemma {:induction false} TailSplit(pieces: seq<string>, gaps: seq<string>, k: nat)
    requires |pieces| == |gaps| && k <= |pieces|
    ensures Tail(pieces, gaps, 0) == Head(pieces, gaps, k) + Tail(pieces, gaps, k)
  {
    if k > 0 {
      TailSplit(pieces, gaps, k - 1);
      Regroup4(Head(pieces, gaps, k - 1), pieces[k - 1], gaps[k - 1], Tail(pieces, gaps, k));
    }
  }

  /** Where each entry lands: the replaced text is the original text before
      the first entry, the replaced entries before `k`, the piece of `k`,
      the original text between `k` and the next entry, and the replaced
      entries after it. */
  lemma ReplacedLayout(content: string, tags: seq<ObjectTag>, pieces: seq<string>, k: nat)
    requires ValidTags(content, tags) && |pieces| == |tags| && k < |tags|
    ensures Replaced(content, tags, pieces)
            == content[..Start(content, tags, 0)] + Head(pieces, Gaps(content, tags), k)
               + pieces[k] + content[tags[k].end..Start(content, tags, k + 1)]
               + Tail(pieces, Gaps(content, tags), k + 1)
  {
    var gaps := Gaps(content, tags);
    EntryBeforeNext(content, tags, k);
    TailSplit(pieces, gaps, k);
    Regroup5(content[..Start(content, tags, 0)], Head(pieces, gaps, k), pieces[k], gaps[k], Tail(pieces, gaps, k + 1));
  }
}
