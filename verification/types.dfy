/** The catalog record shared by every part of the storefront, and the
    optional-value wrapper used where the source yields `undefined`. */
module Types {

  datatype Option<+T> = None | Some(value: T)

  /** A catalog product. Prices are whole rupiah; `rating` is a real in the
      source's data and is kept as one. */
  datatype Product = Product(
    id: int,
    name: string,
    price: int,
    description: string,
    images: seq<string>,
    category: string,
    subcategory: string,
    colors: seq<string>,
    sizes: seq<string>,
    stock: int,
    rating: real,
    reviews: int,
    isNew: bool,
    isBestSeller: bool)
}
