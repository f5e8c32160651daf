/**
 * The application component (src/App.tsx): the dietary filter, the search
 * controller's three state cells and their updates, and the guards that
 * choose what the result area shows.
 */
module App {
  import opened Wrappers
  import opened FoodTypes
  import opened Text
  import SearchBar

  const FetchErrorMessage: string := "Failed to fetch nutrition data. Please try again."
  const VeganLabel: string := "vegan"
  const GlutenFreeLabel: string := "gluten-free"
  const GlutenTag: string := "en:gluten"
  const KetoCarbLimit: real := 10.0

  /** The label text the filter searches: the provider's labels lower-cased, or empty when missing. */
  function LabelText(p: Product): (r: string)
    ensures p.labels.None? ==> r == ""
    ensures p.labels.Some? ==> r == ToLower(p.labels.value)
    ensures p.labels.Some? ==> |r| == |p.labels.value|
    ensures forall k :: 0 <= k < |r| ==> !('A' <= r[k] <= 'Z')
  {
    ToLower(p.labels.GetOr(""))
  }

  /** The product's allergen tags include `en:gluten` exactly; a missing list includes nothing. */
  function TaggedGluten(p: Product): (r: bool)
    ensures r <==> p.allergensTags.Some? && exists k :: 0 <= k < |p.allergensTags.value| && p.allergensTags.value[k] == GlutenTag
  {
    p.allergensTags.Some? && GlutenTag in p.allergensTags.value
  }

  /**
   * `filterProduct`: whether the loaded product suits the preference. No
   * product, or the `All` preference, always passes; `Vegan` asks for `vegan`
   * anywhere in the lower-cased labels; `Keto` for strictly under 10 g of
   * carbohydrates; `GlutenFree` for a `gluten-free` label OR no exact
   * `en:gluten` allergen tag.
   */
  function FilterProduct(product: Option<Product>, pref: DietaryPreference): (r: bool)
    ensures product.None? || pref == All ==> r
    ensures product.Some? && pref == Vegan ==>
              (r <==> exists j :: OccursAt(LabelText(product.value), VeganLabel, j))
    ensures product.Some? && pref == Keto ==>
              (r <==> product.value.nutriments.carbohydrates < KetoCarbLimit)
    ensures product.Some? && pref == GlutenFree ==>
              (r <==> (exists j :: OccursAt(LabelText(product.value), GlutenFreeLabel, j))
                      || !TaggedGluten(product.value))
  {
    if product.None? || pref == All then true
    else
      var labels := LabelText(product.value);
      match pref
      case Vegan => Includes(labels, VeganLabel)
      case Keto => product.value.nutriments.carbohydrates < KetoCarbLimit
      case GlutenFree => Includes(labels, GlutenFreeLabel) || !TaggedGluten(product.value)
      case All => true
  }

  /** Any product whose labels spell `vegan` in any mix of cases passes the vegan filter. */
  lemma {:induction false} VeganAnyCase(p: Product, i: nat)
    requires p.labels.Some? && i + 5 <= |p.labels.value|
    requires ToLower(p.labels.value[i..i + 5]) == VeganLabel
    ensures FilterProduct(Some(p), Vegan)
  {
    ToLowerSlice(p.labels.value, i, i + 5);
    assert OccursAt(LabelText(p), VeganLabel, i);
  }

  /** Any product whose labels spell `gluten-free` in any mix of cases passes the gluten-free filter. */
  lemma {:induction false} GlutenFreeAnyCase(p: Product, i: nat)
    requires p.labels.Some? && i + 11 <= |p.labels.value|
    requires ToLower(p.labels.value[i..i + 11]) == GlutenFreeLabel
    ensures FilterProduct(Some(p), GlutenFree)
  {
    ToLowerSlice(p.labels.value, i, i + 11);
    assert OccursAt(LabelText(p), GlutenFreeLabel, i);
  }

  /** The vegan test is a substring test, so a `non-vegan` label passes it too. */
  lemma NonVeganLabelPasses(p: Product)
    requires p.labels == Some("non-vegan")
    ensures FilterProduct(Some(p), Vegan)
  {
    VeganAnyCase(p, 4);
  }

  /** Missing labels never pass the vegan filter. */
  lemma MissingLabelsNotVegan(p: Product)
    requires p.labels.None?
    ensures !FilterProduct(Some(p), Vegan)
  {
  }

  /** The keto test is strict: 9.9 g passes, exactly 10 g fails, and less is never worse. */
  lemma KetoBoundary(p: Product, q: Product)
    requires q.nutriments.carbohydrates <= p.nutriments.carbohydrates
    ensures p.nutriments.carbohydrates == 9.9 ==> FilterProduct(Some(p), Keto)
    ensures p.nutriments.carbohydrates == 10.0 ==> !FilterProduct(Some(p), Keto)
    ensures FilterProduct(Some(p), Keto) ==> FilterProduct(Some(q), Keto)
  {
  }

  /** A product with no `en:gluten` tag, including one with no allergen list, passes gluten-free. */
  lemma UntaggedIsGlutenFree(p: Product)
    requires !TaggedGluten(p)
    ensures FilterProduct(Some(p), GlutenFree)
  {
  }

  /**
   * A `gluten-free` label, in any case, overrides an `en:gluten` tag; without
   * labels, the tag rejects the product.
   */
  lemma GlutenFreeLabelOverridesTag(p: Product)
    requires p.allergensTags == Some([GlutenTag])
    ensures p.labels == Some("Gluten-Free") ==> FilterProduct(Some(p), GlutenFree)
    ensures p.labels.None? ==> !FilterProduct(Some(p), GlutenFree)
  {
  }

  /** What the result area shows: the loading skeleton, the error text, the label, the notice. */
  datatype View = View(skeleton: bool, errorText: Option<string>, nutritionLabel: Option<Product>, notice: bool)

  /**
   * The render guards. The skeleton shows while loading and the error text
   * whenever it is non-empty. The label and the "doesn't match" notice need a
   * loaded product and no pending request, and then exactly one of them shows,
   * chosen by the filter.
   */
  function Render(loading: bool, data: Option<Product>, error: Option<string>, pref: DietaryPreference): (v: View)
    ensures v.skeleton == loading
    ensures v.errorText.Some? <==> Truthy(error)
    ensures v.errorText.Some? ==> v.errorText == error
    ensures v.nutritionLabel.Some? ==> v.nutritionLabel == data
    ensures v.nutritionLabel.Some? || v.notice <==> !loading && data.Some?
    ensures !(v.nutritionLabel.Some? && v.notice)
    ensures !loading && data.Some? ==> (v.nutritionLabel.Some? <==> FilterProduct(data, pref))
  {
    View(
      loading,
      if Truthy(error) then error else None,
      if !loading && data.Some? && FilterProduct(data, pref) then data else None,
      !loading && data.Some? && !FilterProduct(data, pref))
  }

  /** How many parts of the result area are on screen. */
  function ShownCount(v: View): nat {
    (if v.skeleton then 1 else 0) + (if v.errorText.Some? then 1 else 0)
    + (if v.nutritionLabel.Some? then 1 else 0) + (if v.notice then 1 else 0)
  }

  /**
   * The states the controller reaches while one search runs at a time: an
   * error is only ever the fixed message, and it never coexists with a
   * product or a pending request. Overlapping searches can break this.
   */
  predicate Consistent(loading: bool, data: Option<Product>, error: Option<string>) {
    error.Some? ==> error == Some(FetchErrorMessage) && data.None? && !loading
  }

  /**
   * In every consistent state the result area shows at most one thing, and
   * shows one exactly when a search is pending, has failed, or has loaded a
   * product.
   */
  lemma ConsistentShowsOne(loading: bool, data: Option<Product>, error: Option<string>, pref: DietaryPreference)
    requires Consistent(loading, data, error)
    ensures ShownCount(Render(loading, data, error, pref)) <= 1
    ensures ShownCount(Render(loading, data, error, pref)) == 1 <==> loading || error.Some? || data.Some?
  {
  }

  /** Changing the preference changes at most which of label and notice is shown. */
  lemma PreferenceOnlySwapsLabelAndNotice(loading: bool, data: Option<Product>, error: Option<string>,
                                          pref: DietaryPreference, pref': DietaryPreference)
    ensures Render(loading, data, error, pref).skeleton == Render(loading, data, error, pref').skeleton
    ensures Render(loading, data, error, pref).errorText == Render(loading, data, error, pref').errorText
    ensures ShownCount(Render(loading, data, error, pref)) == ShownCount(Render(loading, data, error, pref'))
  {
  }

  /**
   * The application's state cells. `nutritionData`, `loading` and `error` are
   * updated by `searchFood`; `dietaryPreference` by the filter buttons.
   */
  class SearchController {
    var nutritionData: Option<Product>
    var loading: bool
    var error: Option<string>
    var dietaryPreference: DietaryPreference

    predicate Valid()
      reads this
    {
      Consistent(loading, nutritionData, error)
    }

    /** No request pending, and exactly one of a product and an error is held. */
    predicate Settled()
      reads this
    {
      !loading && (nutritionData.Some? != error.Some?)
    }

    /** What the result area shows for the current state. */
    function Shown(): View
      reads this
    {
      Render(loading, nutritionData, error, dietaryPreference)
    }

    constructor ()
      ensures nutritionData.None? && !loading && error.None? && dietaryPreference == All
      ensures Valid()
    {
      nutritionData := None;
      loading := false;
      error := None;
      dietaryPreference := All;
    }

    /**
     * The start of `searchFood`: loading is set and the error cleared, while a
     * previously loaded product stays in place (hidden by the loading guard).
     */
    method Start()
      modifies this
      ensures loading && error.None?
      ensures nutritionData == old(nutritionData) && dietaryPreference == old(dietaryPreference)
      ensures Valid()
      ensures Shown().skeleton && Shown().errorText.None? && Shown().nutritionLabel.None? && !Shown().notice
    {
      loading := true;
      error := None;
    }

    /**
     * The completion of `searchFood`. A non-empty product list loads its first
     * product; an empty list throws inside the `try` and so is handled exactly
     * like a failed request: the fixed message is set and the product cleared.
     * Loading ends either way (the `finally`).
     */
    method Complete(outcome: LookupOutcome)
      requires Valid() && loading
      modifies this
      ensures !loading && dietaryPreference == old(dietaryPreference)
      ensures outcome.Products? && |outcome.products| > 0 ==>
                nutritionData == Some(outcome.products[0]) && error.None?
      ensures outcome.Failure? || outcome == Products([]) ==>
                nutritionData.None? && error == Some(FetchErrorMessage)
      ensures Valid() && Settled()
    {
      var failed := outcome.Failure?;
      if !failed {
        if |outcome.products| == 0 {
          failed := true;
        } else {
          nutritionData := Some(outcome.products[0]);
        }
      }
      if failed {
        error := Some(FetchErrorMessage);
        nutritionData := None;
      }
      loading := false;
    }

    /**
     * One whole `searchFood` call, its request answered by `outcome`. Afterwards
     * the result area shows exactly one thing: the error text when no product
     * was found, otherwise the label or the notice as the filter decides.
     */
    method SearchFood(outcome: LookupOutcome)
      modifies this
      ensures Valid() && Settled() && dietaryPreference == old(dietaryPreference)
      ensures outcome.Products? && |outcome.products| > 0 ==>
                nutritionData == Some(outcome.products[0]) && error.None?
      ensures outcome.Failure? || outcome == Products([]) ==>
                nutritionData.None? && error == Some(FetchErrorMessage)
      ensures ShownCount(Shown()) == 1
      ensures Shown().errorText.Some? <==> nutritionData.None?
    {
      Start();
      Complete(outcome);
      ConsistentShowsOne(loading, nutritionData, error, dietaryPreference);
    }

    /** A filter button: only the preference changes; no new search is made. */
    method SetDietaryPreference(pref: DietaryPreference)
      modifies this
      ensures dietaryPreference == pref
      ensures nutritionData == old(nutritionData) && loading == old(loading) && error == old(error)
    {
      dietaryPreference := pref;
    }
  }

  /**
   * The search form wired to `searchFood`: a submit whose text trims to
   * nothing leaves the application untouched; otherwise one search runs with
   * the trimmed text, answered by `outcome`.
   */
  method Submit(form: SearchBar.Form, app: SearchController, outcome: LookupOutcome)
    returns (searched: Option<string>)
    modifies app
    ensures searched == SearchBar.SubmittedQuery(form.query)
    ensures searched.None? ==> unchanged(app)
    ensures app.dietaryPreference == old(app.dietaryPreference)
    ensures searched.Some? ==> app.Valid() && app.Settled()
    ensures searched.Some? && outcome.Products? && |outcome.products| > 0 ==>
              app.nutritionData == Some(outcome.products[0]) && app.error.None?
    ensures searched.Some? && (outcome.Failure? || outcome == Products([])) ==>
              app.nutritionData.None? && app.error == Some(FetchErrorMessage)
  {
    searched := form.HandleSubmit();
    if searched.Some? {
      app.SearchFood(outcome);
    }
  }
}
