/**
 * The four tables of the storefront (Product, CartItem, Transaction,
 * LineItem) as plain records, plus the small wrappers the handlers use for
 * "maybe absent" and "failed" results.
 *
 * Foreign keys are stored as the referenced row's id; every row carries the
 * id its table assigned when it was saved.
 */
module Records {

  type UserId = nat
  type ProductId = nat

  /** A point in time in UTC, at whatever resolution the clock gives. */
  type Timestamp = int

  datatype Product = Product(id: ProductId, name: string)

  /** One "add to cart": quantity is whatever was submitted, with no range check. */
  datatype CartItem = CartItem(id: nat, user: UserId, product: ProductId, quantity: int)

  /** One completed checkout. */
  datatype Transaction = Transaction(id: nat, user: UserId, createdAt: Timestamp)

  /** One purchased (product, quantity), copied from a CartItem at checkout. */
  datatype LineItem = LineItem(id: nat, transaction: nat, product: ProductId, quantity: int)

  datatype Option<+T> = None | Some(value: T)

  /** The only failure a handler in the model can raise: a get() by an unknown id. */
  datatype Error = ProductDoesNotExist

  datatype Result<+T> = Ok(value: T) | Err(error: Error)
}
