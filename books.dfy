/** The catalog record shared by every page of the storefront. */
module Books {

  datatype Option<T> = None | Some(value: T)

  /**
   A book of the catalog. Prices and ratings are exact reals: the properties
   proved about money hold for idealised arithmetic, not for binary floats.
   An absent `originalPrice` is `None`.
   */
  datatype Book = Book(
    id: string,
    title: string,
    author: string,
    price: real,
    originalPrice: Option<real>,
    image: string,
    category: string,
    rating: real,
    description: string)
}
