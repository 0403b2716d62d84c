/** The records shared by the stores and pages. */
module Types {
  import opened Wrappers

  datatype Category = Category(id: string, name: string)

  /** A catalog product. `price` is in integer cents, so that sums and
      comparisons are exact; `description` is optional. */
  datatype Product = Product(
    id: string,
    name: string,
    price: int,
    category: Category,
    inStock: bool,
    description: Option<string>)

  /** One cart line: the product as it was passed to the cart, and how many. */
  datatype CartItem = CartItem(product: Product, quantity: int)

  /** A registered account. The optional fields are absent when registration
      received no value for them. */
  datatype User = User(
    id: string,
    name: string,
    email: string,
    password: string,
    dob: Option<string>,
    address: Option<string>,
    phone: Option<string>)

  /** The tabs of the bottom navigation bar. */
  datatype Page = Home | Orders | Profile
}
