/** `NormalizeKey` and the enumerated strings of source/program/config.cpp: season-map modes and ancient ranks. */
module Spelling {

  predicate IsSpace(c: char) {
    c == ' ' || '\t' <= c <= '\r'
  }

  /** Characters that never count in a spelling. */
  predicate IsSkipped(c: char) {
    IsSpace(c) || c == '_' || c == '-'
  }

  function Lower(c: char): char {
    if 'A' <= c <= 'Z' then c + 32 as char else c
  }

  function NormalizeKey(input: string): string {
    if input == "" then ""
    else if IsSkipped(input[0]) then NormalizeKey(input[1..])
    else [Lower(input[0])] + NormalizeKey(input[1..])
  }

  lemma {:induction false} NormalizeConcat(s: string, t: string)
    ensures NormalizeKey(s + t) == NormalizeKey(s) + NormalizeKey(t)
  {
    if s == "" {
      assert s + t == t;
    } else {
      assert (s + t)[1..] == s[1..] + t;
      NormalizeConcat(s[1..], t);
    }
  }

  /**
   What one character contributes: tab, line feed, vertical tab, form feed, carriage return, space, hyphen and
   underscore nothing, a capital letter its small one, and any other itself.
   */
  lemma FirstCharacter(c: char, s: string)
    ensures NormalizeKey([c] + s) ==
      (if c as int in {9, 10, 11, 12, 13, 32, 45, 95} then ""
       else if 65 <= c as int <= 90 then [(c as int + 32) as char]
       else [c]) + NormalizeKey(s)
  {
    assert ([c] + s)[1..] == s;
  }

  /** The loop of the program, pushing the kept characters on a buffer. */
  method NormalizeKeyLoop(input: string) returns (out: string)
    ensures out == NormalizeKey(input)
  {
    out := "";
    for i := 0 to |input|
      invariant out == NormalizeKey(input[..i])
    {
      NormalizeConcat(input[..i], [input[i]]);
      assert input[..i + 1] == input[..i] + [input[i]];
      assert NormalizeKey([input[i]]) == if IsSkipped(input[i]) then "" else [Lower(input[i])];
      if IsSkipped(input[i]) {
        continue;
      }
      out := out + [Lower(input[i])];
    }
    assert input[..|input|] == input;
  }

  /** A string that normalisation leaves alone: no separator and no capital letter. */
  ghost predicate IsNormal(s: string) {
    forall c :: c in s ==> !IsSkipped(c) && Lower(c) == c
  }

  /** The normal strings are exactly the results, and exactly the fixed points. */
  lemma {:induction false} NormalFixedPoints(s: string)
    ensures IsNormal(NormalizeKey(s))
    ensures NormalizeKey(s) == s <==> IsNormal(s)
  {
    NormalOutput(s);
    if IsNormal(s) {
      KeptUnchanged(s);
    }
  }

  lemma {:induction false} NormalOutput(s: string)
    ensures IsNormal(NormalizeKey(s))
  {
    if s != "" {
      NormalOutput(s[1..]);
    }
  }

  lemma {:induction false} KeptUnchanged(s: string)
    requires IsNormal(s)
    ensures NormalizeKey(s) == s
  {
    if s != "" {
      assert s[0] in s;
      KeptUnchanged(s[1..]);
    }
  }

  /** Without separators, normalisation is lower-casing character by character. */
  lemma {:induction false} LowerEach(s: string)
    requires forall c :: c in s ==> !IsSkipped(c)
    ensures |NormalizeKey(s)| == |s|
    ensures forall i :: 0 <= i < |s| ==> NormalizeKey(s)[i] == Lower(s[i])
  {
    if s != "" {
      assert s[0] in s;
      LowerEach(s[1..]);
    }
  }

  /** Two spellings of one word: the same letters up to case, at the same places. */
  ghost predicate SameLetters(s: string, t: string) {
    |s| == |t| && forall i :: 0 <= i < |s| ==> Lower(s[i]) == Lower(t[i])
  }

  lemma {:induction false} SameLettersNormalize(s: string, t: string)
    requires SameLetters(s, t)
    ensures NormalizeKey(s) == NormalizeKey(t)
  {
    if s != "" {
      assert Lower(s[0]) == Lower(t[0]);
      SameLettersNormalize(s[1..], t[1..]);
    }
  }

  lemma {:induction false} SeparatorsVanish(sep: string)
    requires forall c :: c in sep ==> IsSkipped(c)
    ensures NormalizeKey(sep) == ""
  {
    if sep != "" {
      assert sep[0] in sep;
      SeparatorsVanish(sep[1..]);
    }
  }

  datatype MapMode = MapOnly | OverlayConfig | Disabled

  function ParseMapMode(input: string, fallback: MapMode): MapMode {
    var normalized := NormalizeKey(input);
    if normalized == "" then fallback
    else if normalized in ["maponly", "map", "seasonmap", "simulate"] then MapOnly
    else if normalized in ["overlay", "overlayconfig", "add", "additive", "merge"] then OverlayConfig
    else if normalized in ["disabled", "off", "none", "false"] then Disabled
    else fallback
  }

  function MapModeToString(mode: MapMode): string {
    match mode
    case MapOnly => "MapOnly"
    case OverlayConfig => "OverlayConfig"
    case Disabled => "Disabled"
  }

  function AncientRankToValue(input: string, fallback: int): (value: int)
    ensures value == fallback || 0 <= value <= 2
  {
    var normalized := NormalizeKey(input);
    if normalized == "0" || normalized == "normal" || normalized == "none" then 0
    else if normalized == "1" || normalized == "ancient" then 1
    else if normalized == "2" || normalized == "primal" || normalized == "primalancient" then 2
    else fallback
  }

  function AncientRankCanonical(value: int, fallback: string): string {
    match value
    case 0 => "Normal"
    case 1 => "Ancient"
    case 2 => "Primal"
    case _ => fallback
  }

  /** Inserting separators anywhere, and changing case anywhere, does not change the key. */
  lemma SpellingIsIrrelevant(a: string, sep: string, b: string, respelt: string)
    requires forall c :: c in sep ==> IsSkipped(c)
    requires SameLetters(respelt, a + b)
    ensures NormalizeKey(a + sep + b) == NormalizeKey(respelt)
    ensures forall m :: ParseMapMode(a + sep + b, m) == ParseMapMode(respelt, m)
    ensures forall v :: AncientRankToValue(a + sep + b, v) == AncientRankToValue(respelt, v)
  {
    SeparatorsVanish(sep);
    NormalizeConcat(a + sep, b);
    NormalizeConcat(a, sep);
    NormalizeConcat(a, b);
    SameLettersNormalize(respelt, a + b);
  }

  /** Parsing a printed mode gives it back, whatever the fallback. */
  lemma ParsePrintedMode(mode: MapMode, fallback: MapMode)
    ensures ParseMapMode(MapModeToString(mode), fallback) == mode
  {
    match mode
    case MapOnly => SpelledLike("MapOnly", "maponly");
    case OverlayConfig => OverlayIsOverlay(fallback);
    case Disabled => DisabledIsDisabled(fallback);
  }

  lemma SpelledLike(s: string, normal: string)
    requires |s| == |normal|
    requires forall i :: 0 <= i < |s| ==> !IsSkipped(s[i]) && Lower(s[i]) == normal[i]
    ensures NormalizeKey(s) == normal
  {
    LowerEach(s);
  }

  lemma OverlayIsOverlay(fallback: MapMode)
    ensures ParseMapMode("OverlayConfig", fallback) == OverlayConfig
  {
    SpelledLike("OverlayConfig", "overlayconfig");
    assert |"overlayconfig"| == 13;
  }

  lemma DisabledIsDisabled(fallback: MapMode)
    ensures ParseMapMode("Disabled", fallback) == Disabled
  {
    SpelledLike("Disabled", "disabled");
    assert "disabled"[0] == 'd';
  }

  /** Parsing the canonical name of a rank gives the rank back, whatever the fallback. */
  lemma ParseCanonicalRank(value: int, name: string, fallback: int)
    requires 0 <= value <= 2
    ensures AncientRankToValue(AncientRankCanonical(value, name), fallback) == value
  {
    match value
    case 0 => SpelledLike("Normal", "normal");
    case 1 => SpelledLike("Ancient", "ancient");
    case 2 => SpelledLike("Primal", "primal");
  }

  /** A text that is not recognised with one fallback is not recognised with any. */
  lemma RankRange(input: string, fallback: int)
    ensures !(0 <= AncientRankToValue(input, fallback) <= 2) ==>
      forall other :: AncientRankToValue(input, other) == other
  {
  }
}
