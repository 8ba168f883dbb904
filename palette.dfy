/** The two fixed four-colour palettes, the colorgroup id table of each,
    and the majority vote that picks a palette from a list of names
    (add_3mf_colors.py:15-31, 61-119). */
module Palette {
  import opened Text

  /** One palette entry: a colour name and its `#RRGGBBAA` value. */
  datatype Swatch = Swatch(name: string, hex: string)

  /** RYBW_COLORS in declaration order (add_3mf_colors.py:18-23). */
  const RYBW: seq<Swatch> :=
    [Swatch("Red", "#FF0000FF"), Swatch("Yellow", "#FFFF00FF"),
     Swatch("Blue", "#0000FFFF"), Swatch("White", "#FFFFFFFF")]

  /** CMYW_COLORS in declaration order (add_3mf_colors.py:26-31). */
  const CMYW: seq<Swatch> :=
    [Swatch("Cyan", "#00FFFFFF"), Swatch("Magenta", "#FF00FFFF"),
     Swatch("Yellow", "#FFFF00FF"), Swatch("White", "#FFFFFFFF")]

  function Names(p: seq<Swatch>): (r: seq<string>)
    ensures |r| == |p| && forall i :: 0 <= i < |p| ==> r[i] == p[i].name
  {
    seq(|p|, i requires 0 <= i < |p| => p[i].name)
  }

  /** The names of the two palettes, in order. */
  lemma PaletteNames()
    ensures Names(RYBW) == ["Red", "Yellow", "Blue", "White"]
    ensures Names(CMYW) == ["Cyan", "Magenta", "Yellow", "White"]
  {
  }

  /** The palette a mode string selects: CMYW for exactly "cmyw", RYBW for
      every other string (add_3mf_colors.py:89-92, 323-326). */
  function PaletteFor(mode: string): (p: seq<Swatch>)
    ensures |p| == 4
    ensures mode == "cmyw" ==> p == CMYW
    ensures mode != "cmyw" ==> p == RYBW
  {
    if mode == "cmyw" then CMYW else RYBW
  }

  /** `get_colorgroup_id`: the fixed id table of the selected palette,
      with "1" for a name the table does not hold (add_3mf_colors.py:61-95).
      The id of a palette entry is its 1-based position in the palette. */
  function ColorgroupId(name: string, mode: string): (id: string)
    ensures forall i :: 0 <= i < 4 && PaletteFor(mode)[i].name == name ==> id == [DigitChar(i + 1)]
    ensures name !in Names(PaletteFor(mode)) ==> id == "1"
    ensures id in ["1", "2", "3", "4"]
  {
    var table :=
      if mode == "cmyw" then map["Cyan" := "1", "Magenta" := "2", "Yellow" := "3", "White" := "4"]
      else map["Red" := "1", "Yellow" := "2", "Blue" := "3", "White" := "4"];
    PaletteNames();
    if name in table then table[name] else "1"
  }

  /** The two id tables, entry by entry. */
  lemma ColorgroupIdTables(mode: string)
    ensures mode == "cmyw" ==>
      ColorgroupId("Cyan", mode) == "1" && ColorgroupId("Magenta", mode) == "2"
      && ColorgroupId("Yellow", mode) == "3" && ColorgroupId("White", mode) == "4"
      && ColorgroupId("Red", mode) == "1" && ColorgroupId("Blue", mode) == "1"
    ensures mode != "cmyw" ==>
      ColorgroupId("Red", mode) == "1" && ColorgroupId("Yellow", mode) == "2"
      && ColorgroupId("Blue", mode) == "3" && ColorgroupId("White", mode) == "4"
      && ColorgroupId("Cyan", mode) == "1" && ColorgroupId("Magenta", mode) == "1"
  {
    if mode == "cmyw" {
      CmywIds();
    } else {
      RybwIds(mode);
    }
  }

  /** The "cmyw" half of `ColorgroupIdTables`, one mode at a time. */
  lemma CmywIds()
    ensures ColorgroupId("Cyan", "cmyw") == "1" && ColorgroupId("Magenta", "cmyw") == "2"
    ensures ColorgroupId("Yellow", "cmyw") == "3" && ColorgroupId("White", "cmyw") == "4"
    ensures ColorgroupId("Red", "cmyw") == "1" && ColorgroupId("Blue", "cmyw") == "1"
  {
  }

  /** The half of `ColorgroupIdTables` for every other mode. */
  lemma RybwIds(mode: string)
    requires mode != "cmyw"
    ensures ColorgroupId("Red", mode) == "1" && ColorgroupId("Yellow", mode) == "2"
    ensures ColorgroupId("Blue", mode) == "3" && ColorgroupId("White", mode) == "4"
    ensures ColorgroupId("Cyan", mode) == "1" && ColorgroupId("Magenta", mode) == "1"
  {
  }

  /** Distinct entries of one palette get distinct colorgroup ids. */
  lemma ColorgroupIdsDistinct(mode: string, i: nat, j: nat)
    requires i < 4 && j < 4 && i != j
    ensures ColorgroupId(PaletteFor(mode)[i].name, mode) != ColorgroupId(PaletteFor(mode)[j].name, mode)
  {
    var p := PaletteFor(mode);
    var a, b := ColorgroupId(p[i].name, mode), ColorgroupId(p[j].name, mode);
    assert DigitValue(a[0]) == i + 1 && DigitValue(b[0]) == j + 1;
  }

  /** `sum(1 for name in names if name in colors)` (add_3mf_colors.py:109-110). */
  function MatchCount(names: seq<string>, palette: seq<Swatch>): (n: nat)
    ensures n <= |names|
  {
    if |names| == 0 then 0
    else (if names[0] in Names(palette) then 1 else 0) + MatchCount(names[1..], palette)
  }

  /** `detect_color_mode`: "cmyw" only on a strict CMYW majority, "rybw"
      otherwise, ties and no matches included (add_3mf_colors.py:98-119). */
  function DetectColorMode(names: seq<string>): (mode: string)
    ensures mode == "cmyw" || mode == "rybw"
    ensures mode == "cmyw" <==> MatchCount(names, CMYW) > MatchCount(names, RYBW)
  {
    var rybwCount := MatchCount(names, RYBW);
    var cmywCount := MatchCount(names, CMYW);
    if cmywCount > rybwCount then "cmyw"
    else if rybwCount > cmywCount then "rybw"
    else "rybw"
  }

  /** Counting distributes over concatenation. */
  lemma {:induction false} MatchCountAppend(a: seq<string>, b: seq<string>, palette: seq<Swatch>)
    ensures MatchCount(a + b, palette) == MatchCount(a, palette) + MatchCount(b, palette)
  {
    if |a| > 0 {
      assert (a + b)[1..] == a[1..] + b;
      MatchCountAppend(a[1..], b, palette);
    } else {
      assert a + b == b;
    }
  }

  /** The vote does not depend on the order of the names: any reordering
      of the list, repeats kept, gives the same palette. */
  lemma DetectOrderInsensitive(a: seq<string>, b: seq<string>)
    requires multiset(a) == multiset(b)
    ensures DetectColorMode(a) == DetectColorMode(b)
  {
    MatchCountPermutation(a, b, RYBW);
    MatchCountPermutation(a, b, CMYW);
  }

  /** Counting ignores the order of the names. */
  lemma {:induction false} MatchCountPermutation(a: seq<string>, b: seq<string>, palette: seq<Swatch>)
    requires multiset(a) == multiset(b)
    ensures MatchCount(a, palette) == MatchCount(b, palette)
    decreases |a|
  {
    if |a| == 0 {
      assert |multiset(b)| == 0;
    } else {
      var x := a[0];
      assert x in multiset(a);
      var k :| 0 <= k < |b| && b[k] == x;
      var rest := b[..k] + b[k + 1..];
      MatchCountRemove(b, k, palette);
      assert a == [x] + a[1..];
      assert b == b[..k] + [x] + b[k + 1..];
      assert multiset(a[1..]) == multiset(a) - multiset{x};
      assert multiset(rest) == multiset(b) - multiset{x};
      MatchCountPermutation(a[1..], rest, palette);
    }
  }

  /** Taking the name at `k` out of the list removes its own contribution. */
  lemma MatchCountRemove(b: seq<string>, k: nat, palette: seq<Swatch>)
    requires k < |b|
    ensures MatchCount(b, palette)
         == (if b[k] in Names(palette) then 1 else 0) + MatchCount(b[..k] + b[k + 1..], palette)
  {
    var tail := [b[k]] + b[k + 1..];
    assert b == b[..k] + tail;
    assert tail[1..] == b[k + 1..];
    MatchCountAppend(b[..k], tail, palette);
    MatchCountAppend(b[..k], b[k + 1..], palette);
  }

  /** A name both palettes hold (Yellow, White) or neither holds does not move the vote. */
  lemma DetectNeutralName(names: seq<string>, name: string)
    requires (name in Names(RYBW)) == (name in Names(CMYW))
    ensures DetectColorMode(names + [name]) == DetectColorMode(names)
  {
    MatchCountAppend(names, [name], RYBW);
    MatchCountAppend(names, [name], CMYW);
  }

  /** Without a Cyan or a Magenta among the names the vote is always RYBW. */
  lemma {:induction false} CmywNeedsCyanOrMagenta(names: seq<string>)
    requires "Cyan" !in names && "Magenta" !in names
    ensures MatchCount(names, CMYW) <= MatchCount(names, RYBW)
    ensures DetectColorMode(names) == "rybw"
  {
    if |names| > 0 {
      PaletteNames();
      assert names[0] in Names(CMYW) ==> names[0] in Names(RYBW);
      CmywNeedsCyanOrMagenta(names[1..]);
    }
  }

  /** The detection scenarios: two CMYW-only names give "cmyw"; two shared
      names tie and give "rybw"; no names at all give "rybw". */
  lemma DetectScenarios()
    ensures DetectColorMode(["Cyan", "Magenta"]) == "cmyw"
    ensures DetectColorMode(["Yellow", "White"]) == "rybw"
    ensures DetectColorMode([]) == "rybw"
    ensures DetectColorMode(["Red", "Cyan"]) == "rybw"
  {
    PaletteNames();
    var cm: seq<string> := ["Cyan", "Magenta"];
    assert cm[1..] == ["Magenta"] && cm[1..][1..] == [];
    var yw: seq<string> := ["Yellow", "White"];
    assert yw[1..] == ["White"] && yw[1..][1..] == [];
    var rc: seq<string> := ["Red", "Cyan"];
    assert rc[1..] == ["Cyan"] && rc[1..][1..] == [];
  }
}
