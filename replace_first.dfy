/** `str::replacen(pattern, replacement, 1)`: replace the leftmost occurrence
    of a literal pattern, and nothing else. */
module TextReplace {
  import opened Digits

  predicate MatchesAt(text: string, pat: string, i: nat) {
    i + |pat| <= |text| && text[i..i + |pat|] == pat
  }

  /** The leftmost position at or after `from` where `pat` occurs; see
      `FindFromLeftmost` for what it guarantees. */
  function FindFrom(text: string, pat: string, from: nat): (r: Option<nat>)
    requires from <= |text|
    ensures r.Some? ==> from <= r.value && r.value + |pat| <= |text|
    decreases |text| - from
  {
    if MatchesAt(text, pat, from) then Some(from)
    else if from == |text| then None
    else FindFrom(text, pat, from + 1)
  }

  /** Replaces the first occurrence of `pat` in `text` by `rep`;
      `ReplaceFirstNoMatch` and `ReplaceFirstAtLeftmost` state its effect. */
  function ReplaceFirst(text: string, pat: string, rep: string): string {
    match FindFrom(text, pat, 0)
    case Some(i) => text[..i] + rep + text[i + |pat|..]
    case None => text
  }

  /** The search finds a match, no match lies before it, and when it finds
      nothing there is no match anywhere from `from` to the end. */
  lemma {:induction false} FindFromLeftmost(text: string, pat: string, from: nat)
    requires from <= |text|
    ensures var r := FindFrom(text, pat, from);
      && (r.Some? ==> MatchesAt(text, pat, r.value))
      && (r.Some? ==> forall j :: from <= j < r.value ==> !MatchesAt(text, pat, j))
      && (r.None? ==> forall j :: from <= j <= |text| ==> !MatchesAt(text, pat, j))
    decreases |text| - from
  {
    if !MatchesAt(text, pat, from) && from < |text| {
      FindFromLeftmost(text, pat, from + 1);
    }
  }

  /** A text without the pattern comes back unchanged. */
  lemma ReplaceFirstNoMatch(text: string, pat: string, rep: string)
    requires forall i :: 0 <= i <= |text| ==> !MatchesAt(text, pat, i)
    ensures ReplaceFirst(text, pat, rep) == text
  {
    FindFromLeftmost(text, pat, 0);
  }

  /** Otherwise the leftmost occurrence, and only it, is replaced; the text on
      either side of it is kept. */
  lemma ReplaceFirstAtLeftmost(text: string, pat: string, rep: string, i: nat)
    requires MatchesAt(text, pat, i)
    requires forall j :: 0 <= j < i ==> !MatchesAt(text, pat, j)
    ensures ReplaceFirst(text, pat, rep) == text[..i] + rep + text[i + |pat|..]
  {
    FindFromLeftmost(text, pat, 0);
  }
}
