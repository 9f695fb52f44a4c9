/**
 * The records of shared/schema.ts. Nullable columns and optional insert
 * fields are `Option`s; JavaScript numbers holding counts are `int`s.
 */
module Schema {
  import opened Options

  datatype User = User(id: string, username: string, password: string)

  datatype InsertUser = InsertUser(username: string, password: string)

  datatype Product = Product(
    id: string,
    name: string,
    description: string,
    price: string,
    image: string,
    category: string,
    material: Option<string>,
    certification: Option<string>,
    inStock: Option<int>)

  datatype InsertProduct = InsertProduct(
    name: string,
    description: string,
    price: string,
    image: string,
    category: string,
    material: Option<string>,
    certification: Option<string>,
    inStock: Option<int>)

  datatype CartItem = CartItem(id: string, productId: string, quantity: int, userId: Option<string>)

  /** A cart item joined with its product, as the client keeps it. */
  datatype CartItemWithProduct = CartItemWithProduct(
    id: string,
    productId: string,
    quantity: int,
    userId: Option<string>,
    product: Product)

  /** The body of a cart insertion: `quantity` and `userId` may be missing. */
  datatype InsertCartItem = InsertCartItem(productId: string, quantity: Option<int>, userId: Option<string>)
}
