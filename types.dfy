/**
 * The records the application receives from the food database, and the
 * dietary preference the user selects (src/types.ts).
 */
module FoodTypes {
  import opened Wrappers

  /** The seven per-100g nutrient values. Only compared against constants, so modelled as reals. */
  datatype Nutriments = Nutriments(
    energy: real,
    proteins: real,
    carbohydrates: real,
    fat: real,
    fiber: real,
    sodium: real,
    sugars: real)

  /**
   * One product record as the provider returns it. Optional fields are `None`
   * when the provider omits them; `labels` is the provider's comma-separated
   * label text, which is what the filter reads.
   */
  datatype Product = Product(
    productName: string,
    imageUrl: Option<string>,
    imageFrontUrl: Option<string>,
    imageFrontSmallUrl: Option<string>,
    nutriments: Nutriments,
    allergensTags: Option<seq<string>>,
    labels: Option<string>)

  /** The four preferences a user can pick; `All` is the initial one. */
  datatype DietaryPreference = All | Vegan | Keto | GlutenFree

  /** The abstract outcome of the one lookup request a search issues. */
  datatype LookupOutcome = Failure | Products(products: seq<Product>)
}
