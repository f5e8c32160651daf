/**
 * The decisions the nutrition label makes (src/components/NutritionLabel.tsx):
 * the health score, which product image is shown, and the allergen list.
 */
module NutritionLabel {
  import opened Wrappers
  import opened FoodTypes
  import opened Text

  const ProteinMin: real := 10.0
  const FiberMin: real := 3.0
  const SugarsLimit: real := 10.0
  const FatLimit: real := 15.0
  const SodiumLimit: real := 0.4
  const PointsPerCriterion: int := 2
  const MaxScore: int := 10

  /**
   * The five nutritional guidelines, in the order the score checks them:
   * enough protein, enough fiber, and strictly less sugar, fat and sodium
   * than their limits.
   */
  function Criteria(n: Nutriments): (r: seq<bool>)
    ensures |r| == 5
    ensures r[0] <==> n.proteins >= 10.0
    ensures r[1] <==> n.fiber >= 3.0
    ensures r[2] <==> n.sugars < 10.0
    ensures r[3] <==> n.fat < 15.0
    ensures r[4] <==> n.sodium < 0.4
  {
    [n.proteins >= ProteinMin, n.fiber >= FiberMin,
     n.sugars < SugarsLimit, n.fat < FatLimit, n.sodium < SodiumLimit]
  }

  /** One for a guideline met, none otherwise. */
  function Point(b: bool): nat {
    if b then 1 else 0
  }

  /** How many entries of `bs` hold. */
  function CountTrue(bs: seq<bool>): (k: nat)
    ensures k <= |bs|
    ensures k == 0 <==> forall i :: 0 <= i < |bs| ==> !bs[i]
    ensures k == |bs| <==> forall i :: 0 <= i < |bs| ==> bs[i]
  {
    if bs == [] then 0 else Point(bs[0]) + CountTrue(bs[1..])
  }

  /** The number of guidelines the nutrients meet. */
  function CriteriaMet(n: Nutriments): (k: nat)
    ensures k <= 5
  {
    CountTrue(Criteria(n))
  }

  /**
   * `getHealthScore`: start at 0, add two points per guideline met, cap at 10.
   * The score is twice the number of guidelines met, so it is even and within
   * [0, 10], and the cap never changes it.
   */
  method HealthScore(n: Nutriments) returns (score: int)
    ensures score == PointsPerCriterion * CriteriaMet(n)
    ensures 0 <= score <= MaxScore && score % 2 == 0
  {
    score := 0;
    if n.proteins >= ProteinMin { score := score + PointsPerCriterion; }
    if n.fiber >= FiberMin { score := score + PointsPerCriterion; }
    if n.sugars < SugarsLimit { score := score + PointsPerCriterion; }
    if n.fat < FatLimit { score := score + PointsPerCriterion; }
    if n.sodium < SodiumLimit { score := score + PointsPerCriterion; }
    CriteriaMetSum(n);
    score := if score < MaxScore then score else MaxScore;
  }

  /** The guidelines met, one by one: the sum the score accumulates. */
  lemma CriteriaMetSum(n: Nutriments)
    ensures CriteriaMet(n) == Point(n.proteins >= ProteinMin) + Point(n.fiber >= FiberMin)
      + Point(n.sugars < SugarsLimit) + Point(n.fat < FatLimit) + Point(n.sodium < SodiumLimit)
  {
    var c := Criteria(n);
    assert c[4..][1..] == [];
    assert CountTrue(c[4..]) == Point(c[4]);
    assert c[3..][1..] == c[4..];
    assert CountTrue(c[3..]) == Point(c[3]) + CountTrue(c[4..]);
    assert c[2..][1..] == c[3..];
    assert CountTrue(c[2..]) == Point(c[2]) + CountTrue(c[3..]);
    assert c[1..][1..] == c[2..];
    assert CountTrue(c[1..]) == Point(c[1]) + CountTrue(c[2..]);
  }

  /** Counting is monotone: where `bs` holds, `cs` holds too, so `cs` counts at least as many. */
  lemma {:induction false} CountTrueMonotone(bs: seq<bool>, cs: seq<bool>)
    requires |bs| == |cs|
    requires forall i :: 0 <= i < |bs| && bs[i] ==> cs[i]
    ensures CountTrue(bs) <= CountTrue(cs)
  {
    if bs != [] {
      CountTrueMonotone(bs[1..], cs[1..]);
    }
  }

  /** More protein or fiber, or less sugar, fat or sodium, never lowers the score. */
  lemma ScoreMonotone(n: Nutriments, m: Nutriments)
    requires n.proteins <= m.proteins && n.fiber <= m.fiber
    requires m.sugars <= n.sugars && m.fat <= n.fat && m.sodium <= n.sodium
    ensures CriteriaMet(n) <= CriteriaMet(m)
  {
    CountTrueMonotone(Criteria(n), Criteria(m));
  }

  /** Energy and carbohydrates play no part in the score. */
  lemma ScoreIgnoresEnergyAndCarbohydrates(n: Nutriments, energy: real, carbohydrates: real)
    ensures CriteriaMet(n.(energy := energy, carbohydrates := carbohydrates)) == CriteriaMet(n)
  {
  }

  /**
   * At the boundaries, protein 10 and fiber 3 earn their points (the tests are
   * inclusive) while sugars 10, fat 15 and sodium 0.4 do not (the tests are strict).
   */
  lemma ScoreBoundaries(energy: real, carbohydrates: real)
    ensures Criteria(Nutriments(energy, 10.0, carbohydrates, 15.0, 3.0, 0.4, 10.0))
      == [true, true, false, false, false]
    ensures CriteriaMet(Nutriments(energy, 10.0, carbohydrates, 15.0, 3.0, 0.4, 10.0)) == 2
  {
    CriteriaMetSum(Nutriments(energy, 10.0, carbohydrates, 15.0, 3.0, 0.4, 10.0));
  }

  /** A product meeting every guideline scores the full 10; an all-zero one scores 6. */
  lemma ScoreExtremes(energy: real, carbohydrates: real)
    ensures CriteriaMet(Nutriments(energy, 20.0, carbohydrates, 3.0, 5.0, 0.1, 2.0)) == 5
    ensures CriteriaMet(Nutriments(energy, 0.0, carbohydrates, 0.0, 0.0, 0.0, 0.0)) == 3
  {
    CriteriaMetSum(Nutriments(energy, 20.0, carbohydrates, 3.0, 5.0, 0.1, 2.0));
    CriteriaMetSum(Nutriments(energy, 0.0, carbohydrates, 0.0, 0.0, 0.0, 0.0));
  }

  /**
   * The full score needs every guideline met, and a score of 0 needs every
   * guideline missed: a product scores 10 exactly when it is inside all five
   * thresholds, and 0 exactly when it is outside all five.
   */
  lemma ScoreFullOrNone(n: Nutriments)
    ensures CriteriaMet(n) == 5 <==>
      n.proteins >= ProteinMin && n.fiber >= FiberMin && n.sugars < SugarsLimit
      && n.fat < FatLimit && n.sodium < SodiumLimit
    ensures CriteriaMet(n) == 0 <==>
      n.proteins < ProteinMin && n.fiber < FiberMin && n.sugars >= SugarsLimit
      && n.fat >= FatLimit && n.sodium >= SodiumLimit
  {
    CriteriaMetSum(n);
  }

  /** JavaScript `a || b` on optional strings: `a` when it is truthy, otherwise `b`. */
  function Or(a: Option<string>, b: Option<string>): (r: Option<string>)
    ensures r == a || r == b
    ensures Truthy(r) <==> Truthy(a) || Truthy(b)
    ensures Truthy(a) ==> r == a
  {
    if Truthy(a) then a else b
  }

  /** The image fields in order of preference: front image, generic image, small front image. */
  function ImageCandidates(p: Product): seq<Option<string>> {
    [p.imageFrontUrl, p.imageUrl, p.imageFrontSmallUrl]
  }

  /**
   * `productImage`: the `||` chain over the image fields. The label shows an
   * image exactly when this is truthy, and then it is the first non-empty
   * candidate; otherwise the placeholder icon is shown.
   */
  function ProductImage(p: Product): (r: Option<string>)
    ensures Truthy(r) <==> exists i :: 0 <= i < 3 && Truthy(ImageCandidates(p)[i])
    ensures Truthy(r) ==> exists i :: 0 <= i < 3 && ImageCandidates(p)[i] == r
                                      && forall j :: 0 <= j < i ==> !Truthy(ImageCandidates(p)[j])
  {
    var r := Or(Or(p.imageFrontUrl, p.imageUrl), p.imageFrontSmallUrl);
    assert Truthy(p.imageFrontUrl) ==> ImageCandidates(p)[0] == r;
    assert !Truthy(p.imageFrontUrl) && Truthy(p.imageUrl) ==> ImageCandidates(p)[1] == r;
    assert !Truthy(p.imageFrontUrl) && !Truthy(p.imageUrl) ==> ImageCandidates(p)[2] == r;
    r
  }

  /** A present front image always wins, even over other present images. */
  lemma FrontImagePreferred(p: Product, url: string)
    requires p.imageFrontUrl == Some(url) && url != ""
    ensures ProductImage(p) == Some(url)
  {
  }

  const EnPrefix: string := "en:"

  /** The allergen list items: each tag with its first `en:` removed, in input order. */
  function AllergenNames(tags: seq<string>): (r: seq<string>)
    ensures |r| == |tags|
    ensures forall i :: 0 <= i < |tags| ==> r[i] == RemoveFirst(tags[i], EnPrefix)
  {
    if tags == [] then [] else [RemoveFirst(tags[0], EnPrefix)] + AllergenNames(tags[1..])
  }

  /**
   * The allergen box: shown (as `Some` of its items) exactly when the tag list
   * is present and non-empty.
   */
  function AllergenBox(tags: Option<seq<string>>): (r: Option<seq<string>>)
    ensures r.Some? <==> tags.Some? && |tags.value| > 0
    ensures r.Some? ==> |r.value| == |tags.value|
    ensures r.Some? ==> forall i :: 0 <= i < |tags.value| ==> r.value[i] == RemoveFirst(tags.value[i], EnPrefix)
  {
    if tags.Some? && |tags.value| > 0 then Some(AllergenNames(tags.value)) else None
  }

  /** A tag `en:x` is shown as `x`; only the first `en:` goes, so `en:en:x` shows as `en:x`. */
  lemma AllergenPrefixStripped(x: string)
    ensures RemoveFirst(EnPrefix + x, EnPrefix) == x
    ensures RemoveFirst(EnPrefix + EnPrefix + x, EnPrefix) == EnPrefix + x
  {
    var s := EnPrefix + x;
    assert s[0..3] == EnPrefix;
    RemoveFirstAt(s, EnPrefix, 0);
    assert s[3..] == x;
    var t := EnPrefix + EnPrefix + x;
    assert t[0..3] == EnPrefix;
    RemoveFirstAt(t, EnPrefix, 0);
    assert t[3..] == EnPrefix + x;
  }

  /** A tag in another language, such as `fr:gluten`, is shown unchanged. */
  lemma OtherLanguageTagUnchanged()
    ensures RemoveFirst("fr:gluten", EnPrefix) == "fr:gluten"
  {
    var s := "fr:gluten";
    forall j ensures !OccursAt(s, EnPrefix, j) {
      if 0 <= j && j + 3 <= |s| {
        assert s[j..j + 3][0] == s[j];
      }
    }
  }
}
