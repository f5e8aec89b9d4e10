/** The daily product file: `n` products with identifiers `P` +
    `zfill(i, 5)`, a category out of three and a suffixed name, all created
    at the same instant, yesterday. Prices, costs and weights are floats
    and are not part of this model. */
module ProductsDaily {
  import Text
  import DataGenerator

  const DailyCategories: seq<string> := ["Computers", "Components", "Accessories"]

  /** The draws behind one product. */
  datatype ProductDraw = ProductDraw(word: string, suffix: nat, category: nat, inStock: bool)

  predicate ValidProductDraws(draws: seq<ProductDraw>)
  {
    forall i :: 0 <= i < |draws| ==>
      draws[i].suffix < |DataGenerator.ProductSuffixes| && draws[i].category < |DailyCategories|
  }

  datatype Product = Product(productId: string, productName: string, category: string, inStock: bool, createdAt: string)

  /** A name ending in one of the five suffixes. */
  predicate HasProductSuffix(name: string)
  {
    exists k :: 0 <= k < |DataGenerator.ProductSuffixes| && Text.EndsWith(name, " " + DataGenerator.ProductSuffixes[k])
  }

  /** `generate_products(n)`: one row per draw, each column built by its
      own comprehension. */
  function GenerateProducts(draws: seq<ProductDraw>, yesterday: string): (rows: seq<Product>)
    requires ValidProductDraws(draws)
    ensures |rows| == |draws|
    ensures forall i :: 0 <= i < |rows| ==>
      rows[i].productId == DataGenerator.ProductId(i + 1) && rows[i].createdAt == yesterday
  {
    seq(|draws|, i requires 0 <= i < |draws| =>
      Product(DataGenerator.ProductId(i + 1),
              DataGenerator.ProductName(draws[i].word, draws[i].suffix),
              DailyCategories[draws[i].category], draws[i].inStock, yesterday))
  }

  /** What every row holds: the identifier of its position, one of the
      three categories, a suffixed name, and the shared creation instant. */
  lemma ProductRow(draws: seq<ProductDraw>, yesterday: string, i: nat)
    requires ValidProductDraws(draws) && i < |draws|
    ensures GenerateProducts(draws, yesterday)[i].productId == DataGenerator.ProductId(i + 1)
    ensures GenerateProducts(draws, yesterday)[i].category in DailyCategories
    ensures HasProductSuffix(GenerateProducts(draws, yesterday)[i].productName)
    ensures GenerateProducts(draws, yesterday)[i].createdAt == yesterday
  {
    var k := draws[i].suffix;
    assert Text.EndsWith(GenerateProducts(draws, yesterday)[i].productName, " " + DataGenerator.ProductSuffixes[k]);
  }

  lemma ProductIdsDiffer(i: nat, j: nat)
    requires i != j
    ensures DataGenerator.ProductId(i) != DataGenerator.ProductId(j)
  {
    if DataGenerator.ProductId(i) == DataGenerator.ProductId(j) {
      DataGenerator.ProductIdInjective(i, j);
    }
  }

  /** Distinct rows have distinct identifiers. */
  lemma ProductRowsDistinct(draws: seq<ProductDraw>, yesterday: string, i: nat, j: nat)
    requires ValidProductDraws(draws) && i < |draws| && j < |draws| && i != j
    ensures GenerateProducts(draws, yesterday)[i].productId != GenerateProducts(draws, yesterday)[j].productId
  {
    ProductIdsDiffer(i + 1, j + 1);
  }
}
