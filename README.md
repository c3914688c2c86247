# Foody: the deterministic core of a recipe browser

Foody is a React Native app that lists recipe categories, shows the recipes
of a category as a two-column masonry grid, and opens a detail screen with
the ingredients, the instructions and an embedded YouTube video. Almost
all of it is layout and calls to the themealdb.com HTTP API. This project
models, in Dafny, the small helpers inside the views whose behaviour can be
stated exactly, and proves what they promise:

- `common.dfy` (`MealDb`): the record shapes the views read (category,
  recipe summary, meal record with ingredient slots).
- `labels.dfy` (`Labels`): the "shorten to N characters plus `...`" rule
  that both the recipe cards and the category buttons write inline.
- `recipe_details.dfy` (`RecipeDetails`): which ingredient slots are
  listed (a method with a loop, as in the source), the video id taken from
  the `strYoutube` link by the pattern `[?&]v=([^&]+)` (a direct scan, not
  a regular-expression engine), the cutting of the instructions into
  sentences, and the screen's `loading` and `isFavourite` flags (a class).
- `recipes.dfy` (`Recipes`): spinner or grid, and each card's padding,
  image height, animation delay and title.
- `categories.dfy` (`Categories`): one button per category, highlighting,
  caption shortening and the argument passed to the press handler.
- `image.dfy` (`Image`): the `CachedImage` cache-aside lookup over the
  device's key-value store, as a pure specification (`Resolve`) and as a
  class whose method updates the store and the shown source in place.

Conventions of the model:

- A meal's `strIngredient<i>` / `strMeasure<i>` fields are maps from the
  slot number; a field that is null or undefined is a missing key. A field
  is truthy when it is present and not the empty string (a single space is
  truthy, as in JavaScript).
- `meals[0]` of an empty `meals` array is undefined, so the meal stays
  absent (`FirstMeal`).
- The screen-percentage image heights `hp(25)` / `hp(35)` are the enum
  `Height = Short | Tall`.
- `fetch`, the base64 encoding and the key-value store's `getItem` /
  `setItem` are not modelled as code: their outcome is the parameter
  `Effects(readOk, fetched, writeOk)`, where `fetched` is None when
  fetching or encoding throws. A `setItem` that fails leaves the store as
  it was.
- `getItem` returning an empty string counts as a miss (the source tests
  the value's truthiness), so empty stored data is fetched again
  (`Image.EmptyDataIsRefetched`).
- Only a space is stripped from the start of a sentence: the `\r\n` that
  often follows a "." in the instructions text is kept.

## Model

| member | source | states |
|---|---|---|
| `RecipeDetails.IngredientsIndexes` | src/screen/RecipeDetailsScreen.jsx:49-60 | an absent meal gives no slots; otherwise slot i is listed iff 1 <= i <= 20 and its ingredient is truthy; the slots are strictly increasing, so at most 20 |
| `RecipeDetails.RunEnd` | src/screen/RecipeDetailsScreen.jsx:63 | the greedy `[^&]+` run: every character before the end is not `&`, and the end is the string's end or an `&` |
| `RecipeDetails.FindMatch` | src/screen/RecipeDetailsScreen.jsx:63-64 | returns a position where `[?&]v=` followed by a non-`&` matches, and no earlier position from the start of the search matches; None iff no position matches |
| `RecipeDetails.GetYoutubeVideoId` | src/screen/RecipeDetailsScreen.jsx:62-69 | null iff the pattern matches nowhere; otherwise a non-empty, `&`-free id that is the group captured at the leftmost match, running to the next `&` or the end |
| `RecipeDetails.VideoIdIsCapture` | src/screen/RecipeDetailsScreen.jsx:63-66 | converse: any id captured at the leftmost match is exactly what is returned, so the result is determined by the pattern |
| `RecipeDetails.WatchLinkRoundTrip` | src/screen/RecipeDetailsScreen.jsx:62-69 | a link `host?v=<id>` (host without `?`/`&`, id non-empty and `&`-free) followed by nothing or by `&` parameters gives back `<id>` |
| `RecipeDetails.Split` | src/screen/RecipeDetailsScreen.jsx:306 | `split(".")` yields at least one piece and no piece contains the separator |
| `RecipeDetails.SplitCount` | src/screen/RecipeDetailsScreen.jsx:306 | there is one more piece than there are separators |
| `RecipeDetails.JoinSplit` | src/screen/RecipeDetailsScreen.jsx:306 | joining the pieces with the separator gives back the text |
| `RecipeDetails.SplitJoin` | src/screen/RecipeDetailsScreen.jsx:306 | splitting a join of separator-free pieces gives back the pieces |
| `RecipeDetails.InstructionLines` | src/screen/RecipeDetailsScreen.jsx:306-318 | one displayed line per split piece |
| `RecipeDetails.StripLeadingSpace` | src/screen/RecipeDetailsScreen.jsx:314 | at most one leading space is removed: exactly one when the piece starts with a space, none otherwise |
| `RecipeDetails.Dot` | src/screen/RecipeDetailsScreen.jsx:315-317 | a "." after every piece but the last, nothing after the last |
| `RecipeDetails.InstructionLinesShape` | src/screen/RecipeDetailsScreen.jsx:314-317 | (number of dots) + 1 lines; each line but the last ends with a ".", the last holds none; each line's text is its piece minus one leading space when the piece starts with one |
| `RecipeDetails.InstructionLinesTidy` | src/screen/RecipeDetailsScreen.jsx:306-318 | the lines read one after another equal the text with one space removed after every "." and at the start, where present (against the independent definition `Tidied`) |
| `RecipeDetails.FirstMeal` | src/screen/RecipeDetailsScreen.jsx:40 | `meals[0]` is present iff the array is non-empty, and is then its first meal |
| `RecipeDetails.DetailsScreen.constructor` | src/screen/RecipeDetailsScreen.jsx:30-32 | the screen starts not favourite, without a meal, and loading |
| `RecipeDetails.DetailsScreen.GetMealData` | src/screen/RecipeDetailsScreen.jsx:34-47 | afterwards `loading` is false whether the request succeeded or threw; the meal becomes the first meal of a response with data and a `meals` array, and is unchanged when the request threw, the response has no data, or its `meals` is null (the `meals[0]` error is caught and logged); the favourite flag is untouched |
| `RecipeDetails.DetailsScreen.PressFavourite` | src/screen/RecipeDetailsScreen.jsx:108-109 | the heart flips the favourite flag and changes nothing else |
| `Labels.Ellipsize` | src/components/recipes.jsx:83-85 | a string within the limit is unchanged; a longer one becomes its first `keep` characters and `...`; the result keeps the original's first min(keep, len) characters and is never longer than max(limit, keep + 3) |
| `Labels.EllipsizeIdempotent` | src/components/categories.jsx:45-47 | shortening an already shortened label changes nothing |
| `Recipes.Title` | src/components/recipes.jsx:83-85 | a title of at most 20 characters is unchanged; a longer one is its first 20 characters and `...`; a shown title never exceeds 23 characters and starts with the first min(20, len) original characters |
| `Recipes.Padding` | src/components/recipes.jsx:44-57 | an even index is padded 0 left and 8 right, an odd index 8 left and 0 right |
| `Recipes.PaddingOneSide` | src/components/recipes.jsx:56-57 | exactly one side is padded, the two paddings add up to 8, and neighbouring cards mirror each other |
| `Recipes.CardHeight` | src/components/recipes.jsx:74 | the short height iff the index is divisible by 3 |
| `Recipes.CardHeightPeriodic` | src/components/recipes.jsx:74 | the heights repeat with period 3: short, tall, tall |
| `Recipes.Delay` | src/components/recipes.jsx:48 | the animation delay is a whole multiple of 100 ms, and the card's index is that multiple |
| `Recipes.DelayMonotonic` | src/components/recipes.jsx:48 | the animation delay `index * 100` never decreases with the index, and grows by at least 100 per position |
| `Recipes.RecipeCard` | src/components/recipes.jsx:43-85 | a card shows its own recipe with the shortened title |
| `Recipes.Render` | src/components/recipes.jsx:21-29 | the loading indicator iff the category list or the recipe list is empty; otherwise one card per recipe, in list order |
| `Recipes.RenderedCardLayout` | src/components/recipes.jsx:29 | card k of the grid takes its padding, height, delay and title from its own position k |
| `Categories.Caption` | src/components/categories.jsx:45-47 | a name of at most 10 characters is unchanged; a longer one is its first 4 characters and `...`; a caption is never longer than 10 characters and a shortened one is shorter than the name |
| `Categories.Render` | src/components/categories.jsx:23-29 | one button per category in input order; button k's press passes category k's name, shows its image and caption, and is highlighted iff the name equals `activeCategory` |
| `Categories.OneActive` | src/components/categories.jsx:24-25 | with distinct names at most one button is highlighted, and one is iff the active category is in the list |
| `Categories.PressSelects` | src/components/categories.jsx:29 | the category a press selects is highlighted on its own button once it becomes the active category |
| `Image.Resolve` | src/helpers/image.jsx:12-41 | Android shows the raw URL without touching the store; a hit shows the stored data with the store unchanged; a successful miss stores `uri ↦ data` and shows it; any error shows the raw URL and writes nothing; the source is always the URL or what the store now holds for it; no other key changes |
| `Image.LookupAgainIsHit` | src/helpers/image.jsx:22-36 | after a lookup that showed non-empty stored data, a second lookup of the same URL is a hit that shows the same data and changes nothing, whatever the network does |
| `Image.EmptyDataIsRefetched` | src/helpers/image.jsx:23 | empty stored data is falsy: the next lookup misses again and shows what it would have shown without it |
| `Image.CachedImage.constructor` | src/helpers/image.jsx:12-17 | on Android the URL is shown at once; elsewhere the source starts null |
| `Image.CachedImage.Settle` | src/helpers/image.jsx:19-45 | running `getCachedImage` to completion leaves exactly the source and store that `Resolve` specifies |
| `Image.ShowTwice` | src/helpers/image.jsx:22-36 | two images of one URL mounted in turn show the same data, and the store holds it once |

## Left out

- The screen layout, styling, icons, navigation and the Animated / Reanimated springs: presentation only.
- src/screen/HomeScreen.jsx: HTTP fetches and React state setters; what remains is how out-of-order responses interleave, which is concurrency.
- src/components/loading.jsx: a wrapper around the platform's activity indicator.
- The themealdb.com HTTP API, `fetch`, the `FileReader` base64 encoding, the key-value store's capacity, and YouTube playback: foreign libraries and I/O, replaced by the outcome parameters `LookupOutcome` and `Effects`.
- A `FileReader` that fails still resolves with a null result, which the source then writes to the store; the model folds a failed encoding into `fetched == None`.
- The re-run of the image effect when the `uri` prop changes, and a lookup still in flight when the component unmounts: the model runs one lookup to completion.
- Regular expressions in general: only the pattern `[?&]v=([^&]+)` is modelled.
- A null `strInstructions` crashes the source at src/screen/RecipeDetailsScreen.jsx:306; the model's `string` type excludes it.
- A null `meals` array in a response with data is handled in `getMealData` (the error is caught, the meal kept), but rendering then crashes at src/screen/RecipeDetailsScreen.jsx:325 when no meal was set earlier; the rendering crash is not modelled.
- Null `categories` or `recipes` props crash the `.length` tests at src/components/recipes.jsx:21; src/screen/HomeScreen.jsx:32 and :44 store `response.data.categories` and `response.data.meals` unchecked and :127 passes them on. The model's `seq` parameters exclude null.
- `meal.strYoutube` is read without a null check when the request failed and no meal was set; this crash is not modelled.
- The rendering of each listed ingredient slot's measure and ingredient text, and the choice of the heart's colour: plain display of fields.
- Labels.Ellipsize: lengths and cuts count Unicode characters, whereas JavaScript's `length` and `slice` count UTF-16 code units, so a label holding characters outside the Basic Multilingual Plane (emoji) is measured differently and `slice` can split a surrogate pair there; `Recipes.Title` and `Categories.Caption` inherit this.
- Image.Resolve: assumes that a `setItem` that fails leaves the store unchanged, which the store's documentation does not promise.
