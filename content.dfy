/**
 * The lesson text loader (src/content/index.ts): markdown for each progression lesson
 * and for each chord label, looked up by key, with a fallback from a harmonic-major
 * chord label to its natural-major form.
 *
 * The markdown files are bundled at build time; their text is the parameter `raw`,
 * which gives the text bundled under each key. JavaScript's `a || b` skips an empty
 * string as well as a missing entry, so an empty file counts as no content.
 */
module Content {
  import opened Wrappers
  import opened Text

  /** `raw(key)`: the text of the markdown file bundled under `key`. */
  type Raw = string -> string

  const ProgressionKeys: seq<string> := ["seq-a", "seq-b", "seq-c", "seq-d", "seq-e", "seq-f"]

  /** The bases whose harmonic-major form has its own file. */
  const HarmBases: seq<string> := ["II2", "II65", "II43", "VII7", "VII43", "VII2"]

  const ChordKeys: seq<string> := [
    "T53", "T6", "T64", "T3", "S53", "S6", "S64", "D7", "D65", "D2",
    "II2", "II65", "II43", "II2 (harm)", "II65 (harm)", "II43 (harm)",
    "VII7", "VII43", "VII2", "VII7 (harm)", "VII43 (harm)", "VII2 (harm)"]

  const HarmSuffix: string := " (harm)"

  function ProgressionContent(raw: Raw): map<string, string> {
    map k | k in ProgressionKeys :: raw(k)
  }

  function ChordContent(raw: Raw): map<string, string> {
    map k | k in ChordKeys :: raw(k)
  }

  /** `m[key] || rest`: the entry when present and non-empty, else `rest`. */
  function OrElse(m: map<string, string>, key: string, rest: Option<string>): (r: Option<string>)
    ensures key in m && m[key] != "" ==> r == Some(m[key])
    ensures !(key in m && m[key] != "") ==> r == rest
  {
    if key in m && m[key] != "" then Some(m[key]) else rest
  }

  /** `getProgressionContent(lessonId)`: the lesson's text, or null (`None`). */
  function GetProgressionContent(raw: Raw, lessonId: string): (r: Option<string>)
    ensures r.Some? <==> lessonId in ProgressionKeys && raw(lessonId) != ""
    ensures r.Some? ==> r.value == raw(lessonId)
  {
    OrElse(ProgressionContent(raw), lessonId, None)
  }

  /** `label.replace(' (harm)', '')`: the label with its first " (harm)" removed. */
  function CleanLabel(chordLabel: string): string {
    ReplaceFirst(chordLabel, HarmSuffix, "")
  }

  /**
   * `getChordContent(label)`: the text under the label itself; failing that, under the
   * label with " (harm)" removed; failing that, null (`None`).
   */
  function GetChordContent(raw: Raw, chordLabel: string): (r: Option<string>)
    ensures chordLabel in ChordKeys && raw(chordLabel) != "" ==> r == Some(raw(chordLabel))
    ensures !(chordLabel in ChordKeys && raw(chordLabel) != "") && CleanLabel(chordLabel) in ChordKeys && raw(CleanLabel(chordLabel)) != "" ==>
      r == Some(raw(CleanLabel(chordLabel)))
    ensures r.None? <==>
      !(chordLabel in ChordKeys && raw(chordLabel) != "") && !(CleanLabel(chordLabel) in ChordKeys && raw(CleanLabel(chordLabel)) != "")
    ensures r.Some? ==> r.value != ""
  {
    var content := ChordContent(raw);
    OrElse(content, chordLabel, OrElse(content, CleanLabel(chordLabel), None))
  }

  /** A label without " (harm)" is its own clean label: no fallback to another key. */
  lemma CleanLabelWithoutSuffix(chordLabel: string)
    requires !Contains(chordLabel, HarmSuffix)
    ensures CleanLabel(chordLabel) == chordLabel
  {
    ContainsIffIndexOf(chordLabel, HarmSuffix);
  }

  /** The first " (harm)" in `base + " (harm)"` is the appended one when `base` has no '('. */
  lemma SuffixFoundAtEnd(base: string)
    requires '(' !in base
    ensures IndexOfFrom(base + HarmSuffix, HarmSuffix, 0) == Some(|base|)
  {
    var s := base + HarmSuffix;
    assert OccursAt(s, HarmSuffix, |base|) by {
      assert s[|base|..|base| + |HarmSuffix|] == HarmSuffix;
    }
    forall k | 0 <= k < |base| ensures !OccursAt(s, HarmSuffix, k) {
      assert s[k + 1] != '(' by {
        if k + 1 < |base| {
          assert s[k + 1] == base[k + 1];
          assert base[k + 1] in base;
        } else {
          assert s[k + 1] == HarmSuffix[0];
        }
      }
      NoParenNoSuffix(s, k);
    }
    var r := IndexOfFrom(s, HarmSuffix, 0);
    assert r.Some?;
    assert r.value == |base|;
  }

  /** " (harm)" cannot start where the next character is not '('. */
  lemma NoParenNoSuffix(s: string, k: nat)
    requires k + 1 < |s| && s[k + 1] != '('
    ensures !OccursAt(s, HarmSuffix, k)
  {
    if k + |HarmSuffix| <= |s| {
      assert s[k..k + |HarmSuffix|][1] == s[k + 1];
    }
  }

  /** Removing " (harm)" from a harmonic label gives back its base. */
  lemma CleanHarmLabel(base: string)
    requires '(' !in base
    ensures CleanLabel(base + HarmSuffix) == base
  {
    SuffixFoundAtEnd(base);
    var s := base + HarmSuffix;
    assert s[..|base|] == base;
    assert s[|base| + |HarmSuffix|..] == "";
  }

  /** Each harmonic base has no '(' and appears in the table both alone and with " (harm)". */
  lemma HarmKeys(i: nat)
    requires i < |HarmBases|
    ensures '(' !in HarmBases[i]
    ensures HarmBases[i] in ChordKeys && HarmBases[i] + HarmSuffix in ChordKeys
  {
    var b := HarmBases[i];
    var keys := ChordKeys;
    if i == 0 {
      assert b + HarmSuffix == keys[13] && b == keys[10];
    } else if i == 1 {
      assert b + HarmSuffix == keys[14] && b == keys[11];
    } else if i == 2 {
      assert b + HarmSuffix == keys[15] && b == keys[12];
    } else if i == 3 {
      assert b + HarmSuffix == keys[19] && b == keys[16];
    } else if i == 4 {
      assert b + HarmSuffix == keys[20] && b == keys[17];
    } else {
      assert b + HarmSuffix == keys[21] && b == keys[18];
    }
  }

  /**
   * The fallback: a harmonic label whose own text is missing or empty shows the text of
   * its natural-major base, which the table always lists.
   */
  lemma HarmFallsBackToBase(raw: Raw, i: nat)
    requires i < |HarmBases|
    ensures raw(HarmBases[i] + HarmSuffix) == "" && raw(HarmBases[i]) != "" ==>
      GetChordContent(raw, HarmBases[i] + HarmSuffix) == Some(raw(HarmBases[i]))
    ensures raw(HarmBases[i] + HarmSuffix) != "" ==>
      GetChordContent(raw, HarmBases[i] + HarmSuffix) == Some(raw(HarmBases[i] + HarmSuffix))
  {
    HarmKeys(i);
    CleanHarmLabel(HarmBases[i]);
  }
}
