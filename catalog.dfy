/** The product records the chatbot can recommend, and its built-in catalog. */
module Catalog {

  /**
    One product. `kind` is the record's `type` key. `price` holds the text
    Python prints for the price (the catalog stores floats such as 27.89).
   */
  datatype Product = Product(
    name: string,
    kind: string,
    skinType: string,
    price: string,
    imageUrl: string,
    description: string)

  const StockPhoto: string := "https://media.istockphoto.com/id/1218450334/photo/flat-lay-flatlay-top-above-overhead-view-photo-of-blank-empty-white-tube-for-cream-isolated.jpg?s=612x612&w=0&k=20&c=Fp38-GfhHTe-tweUOpalawrY1ydgyehbNtAmOcctZJQ="

  /** The three sample products the service ships with, in catalog order. */
  const Products: seq<Product> := [
    Product("Gentle Cleanser", "face wash", "acne-prone", "27.89", StockPhoto,
      "A gentle cleanser perfect for acne-prone skin, helps control breakouts while maintaining skin's natural balance."),
    Product("Exfoliating Face Wash", "face wash", "acne-prone", "21.64", StockPhoto,
      "An exfoliating face wash that helps remove dead skin cells and unclog pores, ideal for acne-prone skin."),
    Product("Foaming Face Wash", "face wash", "acne-prone", "19.06", StockPhoto,
      "A foaming face wash that deeply cleanses while being gentle on sensitive, acne-prone skin.")
  ]

  /** The built-in catalog holds three face washes for acne-prone skin, with distinct names. */
  lemma CatalogContents()
    ensures |Products| == 3
    ensures forall k :: 0 <= k < |Products| ==>
              Products[k].kind == "face wash" && Products[k].skinType == "acne-prone"
    ensures forall j, k :: 0 <= j < k < |Products| ==> Products[j].name != Products[k].name
  {
    assert Products[0].name[0] == 'G' && Products[1].name[0] == 'E' && Products[2].name[0] == 'F';
  }
}
