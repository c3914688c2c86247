/** The display-label shortening that the recipe cards and the category
    buttons both write inline: `s.length > limit ? s.slice(0, keep) + "..." : s`. */
module Labels {

  function Min(a: nat, b: nat): nat { if a <= b then a else b }

  function Max(a: nat, b: nat): nat { if a <= b then b else a }

  /** `s` unchanged when it has at most `limit` characters, otherwise its
      first `keep` characters followed by an ellipsis. */
  function Ellipsize(s: string, limit: nat, keep: nat): (shown: string)
    requires keep <= limit
    ensures |s| <= limit ==> shown == s
    ensures |s| > limit ==> |shown| == keep + 3 && shown[keep..] == "..."
    ensures |shown| <= Max(limit, keep + 3)
    ensures shown[..Min(keep, |s|)] == s[..Min(keep, |s|)]
  {
    if |s| > limit then s[..keep] + "..." else s
  }

  /** Shortening a label that is already shortened changes nothing, so a label
      can be recomputed from what is on screen. */
  lemma EllipsizeIdempotent(s: string, limit: nat, keep: nat)
    requires keep <= limit
    ensures Ellipsize(Ellipsize(s, limit, keep), limit, keep) == Ellipsize(s, limit, keep)
  {
  }
}
