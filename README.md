# The Food Report — a verified model of its decision logic

The Food Report is a client-side web application: the user types the name of a
food product, the application looks it up in the Open Food Facts database, and
it shows a nutrition label with a health score, the product image and its
allergens. The user can also pick a dietary preference (all, vegan, keto,
gluten-free) and switch between light and dark themes.

This Dafny project models the parts of the application that make decisions:

- `NutritionLabel` (nutrition_label.dfy) covers the health score: two points
  per nutritional guideline met, capped at 10. It also covers the
  product-image fallback chain and the allergen list.
- `App` (app.dfy) covers the dietary filter predicate and the three state
  cells of the search controller (`nutritionData`, `loading`, `error`). It
  also covers how a search sets them on start and on completion, and the
  render guards that choose between the nutrition label and the "doesn't
  match your dietary preferences" notice.
- `SearchBar` (search_bar.dfy) covers the search field and its submit guard:
  trim the text, and search only when something is left.
- `Theme` (theme.dfy) covers the dark-mode flag: how it is parsed from
  storage, written back as `dark`/`light`, negated by `toggle`, and mirrored
  in the document's `dark` class.
- `Text` (text.dfy) covers the JavaScript string operations these rely on:
  truthiness, `trim`, `toLowerCase`, `includes`, and `replace` with a string
  pattern.
- `FoodTypes` (types.dfy) holds the product record, the preference and the
  lookup outcome. `Wrappers` (wrappers.dfy) holds `Option`.

Modelling choices:

- Nutrient values are `real`, because the application only compares them
  with constants.
- The provider's `labels` field is modelled as one string. The filter calls
  `toLowerCase` on it directly (src/App.tsx:47), which is what the provider
  sends. src/types.ts:17 declares it as a string array; the model follows the
  code.
- The HTTP lookup is an abstract outcome, `Failure | Products(list)`.
  Storage and the document root are plain fields of the theme state.

Behaviour of the code worth knowing:

- The vegan test is a substring test on the label text, so a `non-vegan`
  label passes (`App.NonVeganLabelPasses`).
- Zero products found is not a separate state. It is handled exactly like a
  failed request: the error message is set and the product is cleared.
- Overlapping searches are not resolved in favour of the latest one. Nothing
  cancels an earlier request.

## Model

| member | source | states |
|---|---|---|
| `NutritionLabel.HealthScore` | src/components/NutritionLabel.tsx:11-23 | the score is two points per guideline met, so it is even, lies in [0, 10], and the cap at 10 never changes it |
| `NutritionLabel.Criteria` | src/components/NutritionLabel.tsx:16-20 | the five guidelines, in order: protein >= 10, fiber >= 3, sugars < 10, fat < 15, sodium < 0.4 |
| `NutritionLabel.CountTrue` | src/components/NutritionLabel.tsx:12-20 | the count of guidelines met is at most the number of guidelines; it is 0 exactly when none is met, and full exactly when all are |
| `NutritionLabel.CriteriaMet` | src/components/NutritionLabel.tsx:16-20 | at most five guidelines can be met |
| `NutritionLabel.CriteriaMetSum` | src/components/NutritionLabel.tsx:16-20 | the number of guidelines met is the sum of the five separate tests: protein >= 10, fiber >= 3, sugars < 10, fat < 15, sodium < 0.4 |
| `NutritionLabel.CountTrueMonotone` | src/components/NutritionLabel.tsx:16-20 | meeting a superset of the guidelines never gives a lower count |
| `NutritionLabel.ScoreMonotone` | src/components/NutritionLabel.tsx:16-20 | raising protein or fiber, or lowering sugars, fat or sodium, never lowers the score |
| `NutritionLabel.ScoreIgnoresEnergyAndCarbohydrates` | src/components/NutritionLabel.tsx:13-20 | energy and carbohydrates never affect the score |
| `NutritionLabel.ScoreBoundaries` | src/components/NutritionLabel.tsx:16-20 | protein 10 and fiber 3 earn their points, but sugars 10, fat 15 and sodium 0.4 do not, so these values meet exactly two guidelines (score 4) |
| `NutritionLabel.ScoreExtremes` | src/components/NutritionLabel.tsx:16-22 | the product with protein 20, fiber 5, sugars 2, fat 3 and sodium 0.1 meets all five guidelines (score 10); an all-zero product meets three (score 6) |
| `NutritionLabel.ScoreFullOrNone` | src/components/NutritionLabel.tsx:16-22 | any product meets all five guidelines (score 10) iff it is inside every threshold, and meets none (score 0) iff it is outside every threshold |
| `NutritionLabel.Or` | src/components/NutritionLabel.tsx:26 | the JavaScript or-operator on optional strings returns one of its operands; it is truthy iff either operand is, and it is `a` when `a` is truthy |
| `NutritionLabel.ProductImage` | src/components/NutritionLabel.tsx:26 | an image is shown iff one of front, generic and small-front image is non-empty, and then it is the first non-empty one in that order |
| `NutritionLabel.FrontImagePreferred` | src/components/NutritionLabel.tsx:26 | a non-empty front image is always the one shown |
| `NutritionLabel.AllergenNames` | src/components/NutritionLabel.tsx:87-89 | the list items keep the tags' number and order, and each is its tag with the first `en:` removed |
| `NutritionLabel.AllergenBox` | src/components/NutritionLabel.tsx:80-92 | the allergen box appears iff the tag list is present and non-empty, and it lists every tag in order with its first `en:` removed |
| `NutritionLabel.AllergenPrefixStripped` | src/components/NutritionLabel.tsx:88 | `en:x` is shown as `x`; `en:en:x` is shown as `en:x`, because only the first occurrence is removed |
| `NutritionLabel.OtherLanguageTagUnchanged` | src/components/NutritionLabel.tsx:88 | a tag without `en:`, such as `fr:gluten`, is shown unchanged |
| `Text.Truthy` | src/App.tsx:104 | a string that may be missing is truthy iff it is present and non-empty |
| `Text.TrimStart` | src/components/SearchBar.tsx:14 | the result is a suffix of the input; what was cut off is all whitespace; the result does not start with whitespace |
| `Text.TrimEnd` | src/components/SearchBar.tsx:14 | the result is a prefix of the input; what was cut off is all whitespace; the result does not end with whitespace |
| `Text.Trim` | src/components/SearchBar.tsx:14 | the trimmed text is a slice of the input with only whitespace before and after it; it neither starts nor ends with whitespace, and it is empty iff the input is all whitespace |
| `Text.TrimStartOf` | src/components/SearchBar.tsx:14 | removing leading whitespace from a whitespace run followed by a core gives back exactly that core |
| `Text.TrimEndOf` | src/components/SearchBar.tsx:14 | removing trailing whitespace from a core followed by a whitespace run gives back exactly that core |
| `Text.TrimExactly` | src/components/SearchBar.tsx:14 | trim removes exactly the surrounding whitespace: a core between two whitespace runs comes back unchanged |
| `Text.TrimIdempotent` | src/components/SearchBar.tsx:14-15 | trimming an already trimmed text changes nothing |
| `Text.ToLowerSlice` | src/App.tsx:47 | lower-casing a slice gives the same slice of the lower-cased text |
| `Text.ToLower` | src/App.tsx:47 | lower-casing keeps the length, turns each ASCII capital into its small letter (code point plus 32), and leaves every other character as it is |
| `Text.ToLowerIdempotent` | src/App.tsx:47 | lower-casing twice is the same as lower-casing once |
| `Text.IndexOfFrom` | src/components/NutritionLabel.tsx:88 | the search from a start index finds the first occurrence at or after it, or reports that there is none |
| `Text.IndexOf` | src/components/NutritionLabel.tsx:88 | the index found is the first occurrence of the pattern; no index is found iff the pattern does not occur |
| `Text.Includes` | src/App.tsx:50-54 | `includes` holds iff the pattern occurs somewhere in the text |
| `Text.RemoveFirst` | src/components/NutritionLabel.tsx:88 | a text without the pattern is unchanged; otherwise it loses exactly the pattern's length |
| `Text.RemoveFirstAt` | src/components/NutritionLabel.tsx:88 | only the first occurrence of the pattern is cut out, and the text around it is kept |
| `App.LabelText` | src/App.tsx:47 | missing labels become the empty text; present labels become exactly their lower-cased text, of the same length and with no ASCII capital letter |
| `App.TaggedGluten` | src/App.tsx:54 | the product is tagged with gluten iff its allergen list is present and has an entry equal to `en:gluten` |
| `App.FilterProduct` | src/App.tsx:44-58 | no product or `all` passes; `vegan` holds iff the lower-cased labels contain `vegan`; `keto` holds iff carbohydrates are < 10; `gluten-free` holds iff the labels contain `gluten-free` or the allergen list lacks `en:gluten` |
| `App.VeganAnyCase` | src/App.tsx:47-50 | labels that spell `vegan` in any mix of cases pass the vegan filter |
| `App.GlutenFreeAnyCase` | src/App.tsx:47-54 | labels that spell `gluten-free` in any mix of cases pass the gluten-free filter, whatever the allergen tags |
| `App.NonVeganLabelPasses` | src/App.tsx:47-50 | the vegan test is a substring test, so a `non-vegan` label passes |
| `App.MissingLabelsNotVegan` | src/App.tsx:47-50 | a product without labels never passes the vegan filter |
| `App.KetoBoundary` | src/App.tsx:52 | 9.9 g of carbohydrates passes keto and exactly 10 g fails; fewer carbohydrates never fail where more pass |
| `App.UntaggedIsGlutenFree` | src/App.tsx:54 | a product without an exact `en:gluten` tag passes gluten-free, including one with no allergen list |
| `App.GlutenFreeLabelOverridesTag` | src/App.tsx:47-54 | a `Gluten-Free` label, in any case, overrides an `en:gluten` tag; without labels, the tag rejects the product |
| `App.Render` | src/App.tsx:93-137 | the skeleton shows iff loading; the error text shows iff it is non-empty; label or notice shows iff not loading and a product is held, never both, and it is the label iff the filter passes |
| `App.ConsistentShowsOne` | src/App.tsx:93-137 | in every state the controller reaches while one search runs at a time, the result area shows at most one thing, and it shows one iff a search is pending, has failed, or has loaded a product |
| `App.PreferenceOnlySwapsLabelAndNotice` | src/App.tsx:115-137 | changing the preference leaves the skeleton, the error text and the number of shown parts unchanged |
| `App.SearchController.constructor` | src/App.tsx:14-17 | the application starts with no product, no error, not loading, and the `all` preference |
| `App.SearchController.Start` | src/App.tsx:20-22 | starting a search sets loading and clears the error, but keeps the previous product; only the skeleton is shown |
| `App.SearchController.Complete` | src/App.tsx:29-41 | a non-empty result loads its first product and leaves the error cleared; zero products and failure alike set the fixed message and clear the product; loading ends, and exactly one of product and error is held |
| `App.SearchController.SearchFood` | src/App.tsx:20-42 | after a whole search, loading is false, exactly one of product and error is held, and the result area shows exactly one thing |
| `App.SearchController.SetDietaryPreference` | src/App.tsx:17 | choosing a preference changes only the preference; no search is made and the product, loading flag and error are kept |
| `App.Submit` | src/App.tsx:89 | a submit that trims to nothing leaves the application unchanged; otherwise one search runs with the trimmed text: a non-empty result loads its first product with no error, and zero products or a failure set the fixed message and clear the product; the preference is kept either way |
| `SearchBar.SubmittedQuery` | src/components/SearchBar.tsx:14-15 | nothing is searched iff the field holds only whitespace; otherwise the search text is the trimmed field text, non-empty, with no whitespace at either end |
| `SearchBar.SubmitTrimsSurroundingWhitespace` | src/components/SearchBar.tsx:14-15 | leading spaces and a trailing line break are removed and the text between them is searched as it is |
| `SearchBar.BlankQueryNotSubmitted` | src/components/SearchBar.tsx:14 | a field of spaces and tabs triggers no search |
| `SearchBar.SubmitIdempotent` | src/components/SearchBar.tsx:14-15 | submitting the searched text again searches for the same text |
| `SearchBar.Form.constructor` | src/components/SearchBar.tsx:10 | the field starts empty |
| `SearchBar.Form.OnChange` | src/components/SearchBar.tsx:30 | a change replaces the field text |
| `SearchBar.Form.HandleSubmit` | src/components/SearchBar.tsx:12-17 | a submit requests at most one search, with the trimmed text, only when it is non-empty, and leaves the field text unchanged |
| `Theme.ParseSaved` | src/hooks/useTheme.ts:4-7 | the initial flag is dark iff the saved value is exactly `dark` |
| `Theme.Encode` | src/hooks/useTheme.ts:11 | the persisted value is `dark` iff the flag is set, and `light` otherwise |
| `Theme.ParseEncode` | src/hooks/useTheme.ts:6-11 | reading back the persisted value gives the same flag |
| `Theme.EncodeParse` | src/hooks/useTheme.ts:6-11 | `dark` and `light` are each persisted again as themselves |
| `Theme.DefaultsToLight` | src/hooks/useTheme.ts:5-6 | a missing, empty, `light` or `Dark` saved value gives light mode |
| `Theme.ThemeState.constructor` | src/hooks/useTheme.ts:4-12 | on mount the flag is parsed from storage, and storage and the document class are then brought in line with it |
| `Theme.ThemeState.Sync` | src/hooks/useTheme.ts:9-12 | the effect writes the encoded flag to storage and sets the `dark` class iff the flag is set |
| `Theme.ThemeState.Toggle` | src/hooks/useTheme.ts:16 | toggling negates the flag, and storage and the document class follow |
| `Theme.ThemeState.ToggleTwice` | src/hooks/useTheme.ts:16 | two toggles restore the flag, and the stored value then reads back as the original flag |

## Left out

- Rendering, styling, animation, icons and the loading skeleton's drawing are
  not modelled. Only the choice of what is shown is modelled.
- src/components/DietaryFilter.tsx is a list of four buttons. Its effect is
  `App.SearchController.SetDietaryPreference`.
- The HTTP request, its URL and `encodeURIComponent` are not modelled. A
  search's request is the abstract `LookupOutcome` given to the search.
- Reading and writing `localStorage` and the document root's class list are
  not modelled as I/O. Both are fields of `Theme.ThemeState`.
- The image `onError` handler, which swaps a broken image for the
  placeholder icon in the DOM, is not modelled.
- Overlapping searches are not modelled. Nothing cancels an earlier request,
  so two searches in flight race. The model runs each search as a start
  followed by its own completion. With two searches in flight the program
  can end holding both the error and a product: A and B start, A fails
  (error set, `loading` cleared), then B succeeds and sets the product
  without clearing the error. Both the error text and the label or notice
  then show. So `App.Consistent`, `App.SearchController.Settled` and
  `App.ConsistentShowsOne` hold only while one search runs at a time.
- App.SearchController.Complete: requires a started search (`loading`, no
  error). In the sequential model it is reached only after its own `Start`.
  The completion of an overlapping search, which can arrive with `loading`
  already cleared and an error held, is not modelled.
- Missing nutrient fields are not modelled. src/types.ts declares all seven
  as present numbers.
- Floating-point behaviour of nutrient values is not modelled. They are
  reals, and only comparisons are made on them.
- Text.ToLower: lower-cases ASCII letters only. JavaScript's `toLowerCase`
  also maps non-ASCII capitals, some to two characters.
- The `theme` storage key is not modelled. Storage is a single slot.
- The `toggle` closure captures `isDark` at render time. So two toggles within
  one render would both set the same value. The model treats each toggle as a
  separate event, as two clicks are.
