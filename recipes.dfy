/** The recipe grid: a loading indicator until both the categories and the
    recipes have arrived, then one card per recipe whose layout depends on
    the card's position in the list. */
module Recipes {
  import opened MealDb
  import Labels

  /** The two card image heights, `hp(25)` and `hp(35)` of the screen height. */
  datatype Height = Short | Tall

  /** What a `RecipeCard` lays out for one recipe. */
  datatype Card = Card(
    recipe: RecipeSummary,
    paddingLeft: nat,
    paddingRight: nat,
    height: Height,
    delay: nat,
    title: string)

  /** What `Recipes` renders. */
  datatype View = Spinner | Masonry(cards: seq<Card>)

  /** The horizontal gap between the two columns of the grid. */
  const Gutter := 8

  /** Recipe titles are shown whole up to this many characters. */
  const TitleLimit := 20

  /** `index % 2 === 0`. */
  predicate IsEven(index: nat)
  {
    index % 2 == 0
  }

  /** The card's (left, right) padding: an even card is padded on its
      right, an odd card on its left, and never both. */
  function Padding(index: nat): (p: (nat, nat))
    ensures IsEven(index) ==> p == (0, Gutter)
    ensures !IsEven(index) ==> p == (Gutter, 0)
  {
    (if IsEven(index) then 0 else Gutter, if IsEven(index) then Gutter else 0)
  }

  /** Exactly one side is padded, and neighbouring cards mirror each other. */
  lemma PaddingOneSide(index: nat)
    ensures (Padding(index).0 == 0) != (Padding(index).1 == 0)
    ensures Padding(index).0 + Padding(index).1 == Gutter
    ensures Padding(index + 1) == (Padding(index).1, Padding(index).0)
  {
  }

  /** `index % 3 === 0 ? hp(25) : hp(35)`. */
  function CardHeight(index: nat): (h: Height)
    ensures h == Short <==> index % 3 == 0
  {
    if index % 3 == 0 then Short else Tall
  }

  /** One short card in every three, starting with the first. */
  lemma CardHeightPeriodic(index: nat)
    ensures CardHeight(index + 3) == CardHeight(index)
    ensures CardHeight(3 * index) == Short
    ensures CardHeight(3 * index + 1) == Tall && CardHeight(3 * index + 2) == Tall
  {
  }

  /** The entry animation delay, in milliseconds. */
  function Delay(index: nat): (ms: nat)
    ensures ms % 100 == 0 && ms / 100 == index
  {
    index * 100
  }

  /** Later cards never start their animation earlier. */
  lemma DelayMonotonic(i: nat, j: nat)
    requires i <= j
    ensures Delay(i) <= Delay(j)
    ensures i < j ==> Delay(j) - Delay(i) >= 100
  {
  }

  /** The recipe title as the card shows it. */
  function Title(name: string): (shown: string)
    ensures |name| <= TitleLimit ==> shown == name
    ensures |name| > TitleLimit ==> shown == name[..TitleLimit] + "..."
    ensures |shown| <= TitleLimit + 3
  {
    Labels.Ellipsize(name, TitleLimit, TitleLimit)
  }

  /** A card for the recipe at position `index` of the list. */
  function RecipeCard(item: RecipeSummary, index: nat): (card: Card)
    ensures card.recipe == item && card.title == Title(item.name)
  {
    var (left, right) := Padding(index);
    Card(item, left, right, CardHeight(index), Delay(index), Title(item.name))
  }

  /** `Recipes`: the spinner while either list is empty, otherwise one card
      per recipe, in list order. */
  function Render(categories: seq<Category>, recipes: seq<RecipeSummary>): (v: View)
    ensures v.Spinner? <==> |categories| == 0 || |recipes| == 0
    ensures v.Masonry? ==> |v.cards| == |recipes|
    ensures v.Masonry? ==> forall k :: 0 <= k < |recipes| ==> v.cards[k].recipe == recipes[k]
  {
    if |categories| == 0 || |recipes| == 0 then Spinner
    else Masonry(seq(|recipes|, k requires 0 <= k < |recipes| => RecipeCard(recipes[k], k)))
  }

  /** Card k of the grid is laid out from its own position k. */
  lemma RenderedCardLayout(categories: seq<Category>, recipes: seq<RecipeSummary>, k: nat)
    requires |categories| > 0 && k < |recipes|
    ensures Render(categories, recipes).Masonry?
    ensures var card := Render(categories, recipes).cards[k];
      (card.paddingLeft, card.paddingRight) == Padding(k)
      && card.height == CardHeight(k)
      && card.delay == Delay(k)
      && card.title == Title(recipes[k].name)
  {
  }
}
