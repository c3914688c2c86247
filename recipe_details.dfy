/** The deterministic parts of the recipe detail screen: which ingredient
    slots are listed, the video id taken from the recipe's YouTube link,
    how the instructions text is cut into sentences, and the screen's
    `loading` and `isFavourite` flags. */
module RecipeDetails {
  import opened MealDb

  // ---------------------------------------------------------------------
  // Ingredient slots
  // ---------------------------------------------------------------------

  /** A meal record has the ingredient slots 1..SlotCount. */
  const SlotCount := 20

  /** `meal["strIngredient" + i]` is truthy: set and not the empty string. */
  predicate HasIngredient(meal: Meal, i: int)
  {
    i in meal.ingredient && meal.ingredient[i] != ""
  }

  predicate StrictlyIncreasing(s: seq<int>)
  {
    forall j, k :: 0 <= j < k < |s| ==> s[j] < s[k]
  }

  /** A strictly increasing sequence drawn from lo..hi has at most
      hi - lo + 1 elements. */
  lemma {:induction false} IncreasingWithinBounds(s: seq<int>, lo: int, hi: int)
    requires lo <= hi + 1
    requires StrictlyIncreasing(s)
    requires forall k :: 0 <= k < |s| ==> lo <= s[k] <= hi
    ensures |s| <= hi - lo + 1
  {
    if s != [] {
      assert StrictlyIncreasing(s[1..]);
      assert forall k :: 0 <= k < |s| - 1 ==> s[0] + 1 <= s[1..][k] <= hi;
      IncreasingWithinBounds(s[1..], s[0] + 1, hi);
    }
  }

  /** The slots whose ingredient is set, in increasing order; nothing for
      an absent meal. */
  method IngredientsIndexes(meal: Option<Meal>) returns (indexes: seq<int>)
    ensures meal.None? ==> indexes == []
    ensures forall k :: 0 <= k < |indexes| ==> 1 <= indexes[k] <= SlotCount
    ensures StrictlyIncreasing(indexes)
    ensures forall i :: i in indexes <==> meal.Some? && 1 <= i <= SlotCount && HasIngredient(meal.value, i)
    ensures |indexes| <= SlotCount
  {
    if meal.None? {
      return [];
    }
    indexes := [];
    for i := 1 to SlotCount + 1
      invariant forall k :: 0 <= k < |indexes| ==> 1 <= indexes[k] < i
      invariant StrictlyIncreasing(indexes)
      invariant forall j :: j in indexes <==> 1 <= j < i && HasIngredient(meal.value, j)
    {
      if HasIngredient(meal.value, i) {
        indexes := indexes + [i];
      }
    }
    IncreasingWithinBounds(indexes, 1, SlotCount);
  }

  /** `c` does not occur in `s`. */
  predicate Lacks(s: string, c: char)
  {
    forall j :: 0 <= j < |s| ==> s[j] != c
  }

  // ---------------------------------------------------------------------
  // YouTube video id: the pattern /[?&]v=([^&]+)/, scanned directly
  // ---------------------------------------------------------------------

  /** The pattern matches at `p`: `?` or `&`, then `v=`, then at least one
      character other than `&`. */
  predicate MatchesAt(url: string, p: int)
  {
    0 <= p && p + 3 < |url|
    && (url[p] == '?' || url[p] == '&')
    && url[p + 1] == 'v' && url[p + 2] == '='
    && url[p + 3] != '&'
  }

  /** `p` is the leftmost position where the pattern matches. */
  predicate LeftmostMatch(url: string, p: int)
  {
    MatchesAt(url, p) && forall q :: 0 <= q < p ==> !MatchesAt(url, q)
  }

  /** `id` is the group captured by a match at `p`: the greedy run of
      non-`&` characters after `v=`, ending at the next `&` or at the end. */
  predicate CapturedAt(url: string, p: int, id: string)
  {
    0 <= p && p + 3 + |id| <= |url|
    && url[p + 3..p + 3 + |id|] == id
    && Lacks(id, '&')
    && (p + 3 + |id| == |url| || url[p + 3 + |id|] == '&')
  }

  /** The end of the run of non-`&` characters that starts at `start`. */
  function RunEnd(url: string, start: nat): (e: nat)
    requires start <= |url|
    ensures start <= e <= |url|
    ensures forall k :: start <= k < e ==> url[k] != '&'
    ensures e == |url| || url[e] == '&'
    decreases |url| - start
  {
    if start == |url| || url[start] == '&' then start else RunEnd(url, start + 1)
  }

  /** The leftmost match at or after `from`, if any. */
  function FindMatch(url: string, from: nat): (r: Option<nat>)
    ensures r.Some? ==> from <= r.value && MatchesAt(url, r.value)
    ensures forall q :: from <= q && (r.None? || q < r.value) ==> !MatchesAt(url, q)
    decreases |url| - from
  {
    if from + 3 >= |url| then None
    else if MatchesAt(url, from) then Some(from)
    else FindMatch(url, from + 1)
  }

  /** `url.match(/[?&]v=([^&]+)/)[1]`, or null when the pattern does not match. */
  function GetYoutubeVideoId(url: string): (r: Option<string>)
    ensures r.None? <==> forall q :: !MatchesAt(url, q)
    ensures r.Some? ==> r.value != [] && exists p :: LeftmostMatch(url, p) && CapturedAt(url, p, r.value)
  {
    match FindMatch(url, 0)
    case None => None
    case Some(p) =>
      var id := url[p + 3..RunEnd(url, p + 3)];
      assert LeftmostMatch(url, p) && CapturedAt(url, p, id);
      Some(id)
  }

  /** Conversely, whatever the pattern captures at its leftmost match is
      exactly what is returned: the result is determined by the pattern. */
  lemma VideoIdIsCapture(url: string, p: int, id: string)
    requires LeftmostMatch(url, p) && CapturedAt(url, p, id)
    ensures GetYoutubeVideoId(url) == Some(id)
  {
  }

  /** A watch link `host?v=<id>` whose id is followed by nothing or by
      further `&` parameters gives back that id. */
  lemma WatchLinkRoundTrip(host: string, id: string, tail: string)
    requires forall k :: 0 <= k < |host| ==> host[k] != '?' && host[k] != '&'
    requires id != [] && Lacks(id, '&')
    requires tail == [] || tail[0] == '&'
    ensures GetYoutubeVideoId(host + "?v=" + id + tail) == Some(id)
  {
    var url := host + "?v=" + id + tail;
    var p := |host|;
    assert url[p + 3..p + 3 + |id|] == id;
    assert forall q :: 0 <= q < p ==> url[q] == host[q];
    VideoIdIsCapture(url, p, id);
  }

  // ---------------------------------------------------------------------
  // Instructions: split on ".", strip one leading space, re-append "."
  // ---------------------------------------------------------------------

  /** The number of occurrences of `c` in `s`. */
  function Count(s: string, c: char): nat
  {
    if s == [] then 0 else (if s[0] == c then 1 else 0) + Count(s[1..], c)
  }

  lemma {:induction false} CountAppend(a: string, b: string, c: char)
    ensures Count(a + b, c) == Count(a, c) + Count(b, c)
  {
    if a == [] {
      assert a + b == b;
    } else {
      assert (a + b)[1..] == a[1..] + b;
      CountAppend(a[1..], b, c);
    }
  }

  /** The index of the first `c` in `s`, or |s| when `c` does not occur. */
  function IndexOf(s: string, c: char): (i: nat)
    ensures i <= |s|
    ensures i < |s| ==> s[i] == c
    ensures forall k :: 0 <= k < i ==> s[k] != c
  {
    if s == [] || s[0] == c then 0 else 1 + IndexOf(s[1..], c)
  }

  /** `s.split(sep)` for a one-character separator: the pieces between
      separators, in order; the empty string gives one empty piece. */
  function Split(s: string, sep: char): (pieces: seq<string>)
    ensures |pieces| >= 1
    ensures forall k :: 0 <= k < |pieces| ==> Lacks(pieces[k], sep)
    decreases |s|
  {
    var i := IndexOf(s, sep);
    if i == |s| then [s] else [s[..i]] + Split(s[i + 1..], sep)
  }

  /** `pieces.join(sep)`. */
  function Join(pieces: seq<string>, sep: char): string
  {
    if pieces == [] then []
    else if |pieces| == 1 then pieces[0]
    else pieces[0] + [sep] + Join(pieces[1..], sep)
  }

  /** Splitting yields one more piece than there are separators. */
  lemma {:induction false} SplitCount(s: string, sep: char)
    ensures |Split(s, sep)| == Count(s, sep) + 1
    decreases |s|
  {
    var i := IndexOf(s, sep);
    if i == |s| {
      NoOccurrence(s, sep);
    } else {
      assert s == s[..i] + [sep] + s[i + 1..];
      CountAppend(s[..i] + [sep], s[i + 1..], sep);
      CountAppend(s[..i], [sep], sep);
      NoOccurrence(s[..i], sep);
      SplitCount(s[i + 1..], sep);
    }
  }

  lemma {:induction false} NoOccurrence(s: string, c: char)
    requires forall k :: 0 <= k < |s| ==> s[k] != c
    ensures Count(s, c) == 0
  {
    if s != [] {
      NoOccurrence(s[1..], c);
    }
  }

  /** Joining the pieces with the separator gives back the text. */
  lemma {:induction false} JoinSplit(s: string, sep: char)
    ensures Join(Split(s, sep), sep) == s
    decreases |s|
  {
    var i := IndexOf(s, sep);
    if i < |s| {
      var p, rest := s[..i], s[i + 1..];
      assert s == p + [sep] + rest;
      SplitCons(p, sep, rest);
      JoinSplit(rest, sep);
      JoinCons(p, Split(rest, sep), sep);
    }
  }

  /** Unfolding `Split` at its first separator. */
  lemma SplitCons(p: string, sep: char, rest: string)
    requires Lacks(p, sep)
    ensures Split(p + [sep] + rest, sep) == [p] + Split(rest, sep)
  {
    var s := p + [sep] + rest;
    IndexOfFirst(p, sep, rest);
    assert s[..|p|] == p && s[|p| + 1..] == rest;
  }

  /** Unfolding `Join` at its first piece. */
  lemma JoinCons(p: string, ps: seq<string>, sep: char)
    requires ps != []
    ensures Join([p] + ps, sep) == p + [sep] + Join(ps, sep)
  {
    assert ([p] + ps)[1..] == ps;
  }

  /** Splitting a join of separator-free pieces gives back the pieces. */
  lemma {:induction false} SplitJoin(pieces: seq<string>, sep: char)
    requires pieces != []
    requires forall k :: 0 <= k < |pieces| ==> Lacks(pieces[k], sep)
    ensures Split(Join(pieces, sep), sep) == pieces
  {
    var p := pieces[0];
    if |pieces| == 1 {
      assert IndexOf(p, sep) == |p|;
    } else {
      var tail := pieces[1..];
      assert pieces == [p] + tail;
      JoinCons(p, tail, sep);
      SplitCons(p, sep, Join(tail, sep));
      SplitJoin(tail, sep);
    }
  }

  lemma IndexOfFirst(p: string, sep: char, rest: string)
    requires Lacks(p, sep)
    ensures IndexOf(p + [sep] + rest, sep) == |p|
  {
    var s := p + [sep] + rest;
    assert forall k :: 0 <= k < |p| ==> s[k] == p[k];
    assert s[|p|] == sep;
  }

  /** `elem.startsWith(" ") ? elem.slice(1) : elem`. */
  function StripLeadingSpace(piece: string): (text: string)
    ensures piece == text || piece == " " + text
    ensures |piece| > 0 && piece[0] == ' ' ==> piece == " " + text
    ensures !(|piece| > 0 && piece[0] == ' ') ==> text == piece
  {
    if |piece| > 0 && piece[0] == ' ' then piece[1..] else piece
  }

  /** The text shown for each sentence of `instructions`: the piece between
      dots without one leading space, followed by a "." unless it is the
      last piece. */
  function InstructionLines(instructions: string): (lines: seq<string>)
    ensures |lines| == |Split(instructions, '.')|
  {
    Lines(Split(instructions, '.'))
  }

  /** Piece `k` of `pieces` as it is displayed. */
  function Lines(pieces: seq<string>): (lines: seq<string>)
    ensures |lines| == |pieces|
    ensures forall k :: 0 <= k < |pieces| ==> lines[k] == StripLeadingSpace(pieces[k]) + Dot(k, |pieces|)
  {
    seq(|pieces|, k requires 0 <= k < |pieces| => StripLeadingSpace(pieces[k]) + Dot(k, |pieces|))
  }

  /** The "." rendered after piece `k` of `n`: all but the last get one. */
  function Dot(k: nat, n: nat): (dot: string)
    ensures dot == "." || dot == ""
    ensures dot == "." <==> k + 1 != n
  {
    if k != n - 1 then "." else ""
  }

  /** One line per piece, so one more line than there are dots; every line
      but the last ends with a ".", the last holds none; each line's text
      is its piece, minus the leading space when the piece had one. */
  lemma InstructionLinesShape(instructions: string)
    ensures |InstructionLines(instructions)| == Count(instructions, '.') + 1
    ensures forall k :: 0 <= k < |InstructionLines(instructions)| ==>
      var line := InstructionLines(instructions)[k];
      var piece := Split(instructions, '.')[k];
      var last := k == |InstructionLines(instructions)| - 1;
      var text := if last then line else line[..|line| - 1];
      (last ==> Lacks(line, '.'))
      && (!last ==> |line| > 0 && line[|line| - 1] == '.')
      && (if |piece| > 0 && piece[0] == ' ' then piece == [' '] + text else piece == text)
  {
    SplitCount(instructions, '.');
    var lines := InstructionLines(instructions);
    var pieces := Split(instructions, '.');
    forall k | 0 <= k < |lines| - 1
      ensures lines[k][..|lines[k]| - 1] == StripLeadingSpace(pieces[k])
    {
      assert lines[k] == StripLeadingSpace(pieces[k]) + ".";
    }
  }

  /** The concatenation of a sequence of strings. */
  function Concat(lines: seq<string>): string
  {
    if lines == [] then [] else lines[0] + Concat(lines[1..])
  }

  /** Reference reading of what the lines show together: the text with one
      space removed after every "." and at the very start, where present.
      `atStart` says that the previous character was a "." or that there
      was none. */
  function Tidied(s: string, atStart: bool): string
  {
    if s == [] then []
    else if s[0] == '.' then "." + Tidied(s[1..], true)
    else if atStart && s[0] == ' ' then Tidied(s[1..], false)
    else [s[0]] + Tidied(s[1..], false)
  }

  lemma {:induction false} TidiedPlain(p: string, t: string)
    requires Lacks(p, '.')
    ensures Tidied(p + t, false) == p + Tidied(t, false)
  {
    if p == [] {
      assert p + t == t;
    } else {
      assert (p + t)[0] == p[0];
      assert (p + t)[1..] == p[1..] + t;
      TidiedPlain(p[1..], t);
    }
  }

  /** A dot-free piece followed by `t`, seen at the start of a sentence. */
  lemma TidiedPiece(p: string, t: string)
    requires Lacks(p, '.')
    requires t == [] || t[0] == '.'
    ensures Tidied(p + t, true) == StripLeadingSpace(p) + Tidied(t, true)
  {
    if p == [] {
      assert p + t == t;
    } else if p[0] == ' ' {
      assert (p + t)[1..] == p[1..] + t;
      TidiedPlain(p[1..], t);
    } else {
      assert (p + t)[1..] == p[1..] + t;
      TidiedPlain(p[1..], t);
    }
  }

  /** Another piece before `tail` that is not the last: it gets the "." and
      the others keep their lines. */
  lemma LinesCons(p: string, tail: seq<string>)
    requires tail != []
    ensures Lines([p] + tail) == [StripLeadingSpace(p) + "."] + Lines(tail)
  {
    var lines, rest := Lines([p] + tail), Lines(tail);
    forall k | 1 <= k < |lines|
      ensures lines[k] == rest[k - 1]
    {
      assert ([p] + tail)[k] == tail[k - 1];
    }
    assert lines == [lines[0]] + rest;
  }

  /** A dot-free first sentence becomes the first line, with its ".". */
  lemma InstructionLinesCons(p: string, rest: string)
    requires Lacks(p, '.')
    ensures InstructionLines(p + "." + rest) == [StripLeadingSpace(p) + "."] + InstructionLines(rest)
  {
    SplitCons(p, '.', rest);
    LinesCons(p, Split(rest, '.'));
  }

  lemma ConcatCons(line: string, lines: seq<string>)
    ensures Concat([line] + lines) == line + Concat(lines)
  {
  }

  /** Read one after another, the lines show the instructions with one
      space removed after each "." and at the start, where present. */
  lemma {:induction false} InstructionLinesTidy(instructions: string)
    ensures Concat(InstructionLines(instructions)) == Tidied(instructions, true)
    decreases |instructions|
  {
    var s := instructions;
    var i := IndexOf(s, '.');
    if i == |s| {
      InstructionLinesLast(s);
    } else {
      var p, rest := s[..i], s[i + 1..];
      assert s == p + "." + rest;
      InstructionLinesTidy(rest);
      InstructionLinesStep(p, rest);
    }
  }

  /** A text without a dot is one line: the text minus its leading space. */
  lemma InstructionLinesLast(s: string)
    requires Lacks(s, '.')
    ensures Concat(InstructionLines(s)) == Tidied(s, true)
  {
    TidiedPiece(s, []);
    assert s + [] == s;
    assert Split(s, '.') == [s];
    assert StripLeadingSpace(s) + "" == StripLeadingSpace(s);
    assert InstructionLines(s) == [StripLeadingSpace(s)];
    ConcatCons(StripLeadingSpace(s), []);
  }

  /** One sentence more on each side of the equation. */
  lemma InstructionLinesStep(p: string, rest: string)
    requires Lacks(p, '.')
    requires Concat(InstructionLines(rest)) == Tidied(rest, true)
    ensures Concat(InstructionLines(p + "." + rest)) == Tidied(p + "." + rest, true)
  {
    var first := StripLeadingSpace(p) + ".";
    calc {
      Concat(InstructionLines(p + "." + rest));
      { InstructionLinesCons(p, rest); }
      Concat([first] + InstructionLines(rest));
      { ConcatCons(first, InstructionLines(rest)); }
      first + Tidied(rest, true);
      { TidiedSentence(p, rest); }
      Tidied(p + "." + rest, true);
    }
  }

  /** A dot-free sentence and its dot, seen at the start of a sentence. */
  lemma TidiedSentence(p: string, rest: string)
    requires Lacks(p, '.')
    ensures Tidied(p + "." + rest, true) == StripLeadingSpace(p) + "." + Tidied(rest, true)
  {
    assert p + "." + rest == p + ("." + rest);
    TidiedPiece(p, "." + rest);
    TidiedDot(rest);
  }

  lemma TidiedDot(rest: string)
    ensures Tidied("." + rest, true) == "." + Tidied(rest, true)
  {
    assert ("." + rest)[1..] == rest;
  }

  // ---------------------------------------------------------------------
  // Screen state
  // ---------------------------------------------------------------------

  /** How the lookup-by-id request ended. `Threw` is a rejected request;
      `Responded` carries whether `response.data` was truthy and its `meals`
      field (None for null). */
  datatype LookupOutcome =
    | Threw
    | Responded(hasData: bool, meals: Option<seq<Meal>>)

  /** `meals[0]`, which is undefined for an empty array. */
  function FirstMeal(meals: seq<Meal>): (m: Option<Meal>)
    ensures m.Some? <==> meals != []
    ensures m.Some? ==> m.value == meals[0]
  {
    if meals == [] then None else Some(meals[0])
  }

  /** The state of a recipe detail screen. */
  class DetailsScreen {
    var isFavourite: bool
    var meal: Option<Meal>
    var loading: bool

    constructor ()
      ensures !isFavourite && meal.None? && loading
    {
      isFavourite := false;
      meal := None;
      loading := true;
    }

    /** `getMealData`: keeps the first meal of a response that has data,
        and in every case, success or failure, ends the loading state. */
    method GetMealData(outcome: LookupOutcome)
      modifies this
      ensures !loading
      ensures isFavourite == old(isFavourite)
      ensures outcome.Responded? && outcome.hasData && outcome.meals.Some? ==> meal == FirstMeal(outcome.meals.value)
      ensures !(outcome.Responded? && outcome.hasData && outcome.meals.Some?) ==> meal == old(meal)
    {
      if outcome.Responded? && outcome.hasData && outcome.meals.Some? {
        meal := FirstMeal(outcome.meals.value);
      }
      // A null `meals` makes `meals[0]` throw; the error is caught and
      // logged, and the meal stays as it was.
      loading := false;
    }

    /** The heart button flips the favourite flag and nothing else. */
    method PressFavourite()
      modifies this
      ensures isFavourite == !old(isFavourite)
      ensures meal == old(meal) && loading == old(loading)
    {
      isFavourite := !isFavourite;
    }
  }
}
