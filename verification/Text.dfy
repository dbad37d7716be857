/** Stripping characters from the ends of a text. */
module Text {

  function StripLeft(s: string, drop: char -> bool): string {
    if s != "" && drop(s[0]) then StripLeft(s[1..], drop) else s
  }

  function StripRight(s: string, drop: char -> bool): string
    decreases |s|
  {
    if s != "" && drop(s[|s| - 1]) then StripRight(s[..|s| - 1], drop) else s
  }

  function StripBoth(s: string, drop: char -> bool): string {
    StripRight(StripLeft(s, drop), drop)
  }

  /** Nothing but characters that stripping drops. */
  predicate Blank(s: string, drop: char -> bool) {
    forall k :: 0 <= k < |s| ==> drop(s[k])
  }

  lemma {:induction false} LeftBlank(s: string, drop: char -> bool)
    ensures StripLeft(s, drop) == "" <==> Blank(s, drop)
    ensures StripLeft(s, drop) != "" ==> !drop(StripLeft(s, drop)[0])
  {
    if s != "" && drop(s[0]) {
      LeftBlank(s[1..], drop);
      assert forall k :: 0 < k < |s| ==> s[k] == s[1..][k - 1];
    }
  }

  lemma {:induction false} RightKeeps(s: string, drop: char -> bool)
    requires s != "" && !drop(s[0])
    ensures StripRight(s, drop) != ""
    decreases |s|
  {
    if drop(s[|s| - 1]) {
      RightKeeps(s[..|s| - 1], drop);
    }
  }

  /** Stripping leaves nothing exactly when there was nothing else. */
  lemma StripsToNothing(s: string, drop: char -> bool)
    ensures StripBoth(s, drop) == "" <==> Blank(s, drop)
  {
    LeftBlank(s, drop);
    if StripLeft(s, drop) != "" {
      RightKeeps(StripLeft(s, drop), drop);
    }
  }
}
