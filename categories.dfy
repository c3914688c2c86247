/** The horizontal strip of category buttons. */
module Categories {
  import opened MealDb
  import Labels

  /** What the strip lays out for one category: its key, the label under
      the image, whether it has the active background, the image URI and
      the argument its press passes to `handleChangeCategory`. */
  datatype Button = Button(
    key: nat,
    caption: string,
    isActive: bool,
    thumb: string,
    pressArgument: string)

  /** Category names are shown whole up to this many characters. */
  const CaptionLimit := 10

  /** A longer name keeps this many characters before the ellipsis. */
  const CaptionKeep := 4

  /** The category name as the button shows it. */
  function Caption(name: string): (shown: string)
    ensures |name| <= CaptionLimit ==> shown == name
    ensures |name| > CaptionLimit ==> shown == name[..CaptionKeep] + "..."
    ensures |shown| <= CaptionLimit
    ensures |name| > CaptionLimit ==> |shown| < |name|
  {
    Labels.Ellipsize(name, CaptionLimit, CaptionKeep)
  }

  /** `Categories`: one button per category, in order. */
  function Render(categories: seq<Category>, activeCategory: string): (buttons: seq<Button>)
    ensures |buttons| == |categories|
    ensures forall k :: 0 <= k < |buttons| ==>
      buttons[k].key == k
      && buttons[k].pressArgument == categories[k].name
      && buttons[k].thumb == categories[k].thumb
      && buttons[k].caption == Caption(categories[k].name)
      && (buttons[k].isActive <==> categories[k].name == activeCategory)
  {
    seq(|categories|, k requires 0 <= k < |categories| =>
      var cat := categories[k];
      Button(k, Caption(cat.name), cat.name == activeCategory, cat.thumb, cat.name))
  }

  predicate UniqueNames(categories: seq<Category>)
  {
    forall j, k :: 0 <= j < k < |categories| ==> categories[j].name != categories[k].name
  }

  /** With distinct names, exactly one button is highlighted when the active
      category is in the list, and none otherwise. */
  lemma OneActive(categories: seq<Category>, activeCategory: string)
    requires UniqueNames(categories)
    ensures var buttons := Render(categories, activeCategory);
      forall j, k :: 0 <= j < |buttons| && 0 <= k < |buttons| && buttons[j].isActive && buttons[k].isActive ==> j == k
    ensures var buttons := Render(categories, activeCategory);
      (exists k :: 0 <= k < |buttons| && buttons[k].isActive) <==> (exists k :: 0 <= k < |categories| && categories[k].name == activeCategory)
  {
  }

  /** Once the category a button's press passes to the handler becomes the
      active category, that same button is the highlighted one. */
  lemma PressSelects(categories: seq<Category>, activeCategory: string, k: nat)
    requires k < |categories|
    ensures var next := Render(categories, activeCategory)[k].pressArgument;
      Render(categories, next)[k].isActive
  {
  }
}
