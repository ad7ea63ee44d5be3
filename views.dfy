/**
 * The request handlers, over an in-memory store that stands for the
 * database. The signed-in user, the clock and the authentication backend
 * are passed in as plain values.
 */
module Views {
  import opened Records
  import opened Queries
  import opened Checkout
  import History

  /** Who the session says is signed in. */
  datatype Session = Anonymous | SignedIn(user: UserId)

  /**
   * The login form's POST: authenticated is what the authentication
   * backend answered for the submitted credentials. A failed attempt does
   * not touch the session; a successful one signs the session in as the
   * returned user, whoever was signed in before.
   */
  function LoginPost(session: Session, authenticated: Option<UserId>): (next: Session)
    ensures authenticated.None? ==> next == session
    ensures authenticated.Some? ==> next == SignedIn(authenticated.value)
  {
    match authenticated
    case None => session
    case Some(u) => SignedIn(u)
  }

  /**
   * A session that starts anonymous ends signed in as u exactly when the
   * backend vouched for u.
   */
  lemma LoginOnlyAsAuthenticated(authenticated: Option<UserId>, u: UserId)
    ensures LoginPost(Anonymous, authenticated) == SignedIn(u) <==> authenticated == Some(u)
    ensures authenticated.None? ==> LoginPost(Anonymous, authenticated) == Anonymous
  {
  }

  /** The four tables and the next primary key of each table that the storefront writes. */
  class Store {
    var products: seq<Product>
    var cartItems: seq<CartItem>
    var transactions: seq<Transaction>
    var lineItems: seq<LineItem>
    var nextCartItemId: nat
    var nextTransactionId: nat
    var nextLineItemId: nat

    /** Keys are distinct and below the next key; foreign keys point at existing rows. */
    ghost predicate Valid()
      reads this
    {
      && ProductKeys(products)
      && CartTable(cartItems, nextCartItemId, products)
      && TransactionTable(transactions, nextTransactionId)
      && LineItemTable(lineItems, nextLineItemId, transactions, products)
    }

    /** A store with the given catalogue and no carts or orders yet. */
    constructor (catalogue: seq<Product>)
      requires ProductKeys(catalogue)
      ensures Valid()
      ensures products == catalogue && cartItems == [] && transactions == [] && lineItems == []
    {
      products := catalogue;
      cartItems, transactions, lineItems := [], [], [];
      nextCartItemId, nextTransactionId, nextLineItemId := 1, 1, 1;
    }

    /**
     * The product page's POST ("add to cart"). An unknown product id fails
     * before anything is written; otherwise exactly one new cart item is
     * appended, never merged with an earlier one for the same product.
     */
    method AddToCart(user: UserId, productId: ProductId, quantity: int) returns (r: Result<CartItem>)
      requires Valid()
      modifies this
      ensures Valid()
      ensures products == old(products) && transactions == old(transactions) && lineItems == old(lineItems)
      ensures nextTransactionId == old(nextTransactionId) && nextLineItemId == old(nextLineItemId)
      ensures r.Err? <==> !HasProduct(products, productId)
      ensures r.Err? ==> r.error == ProductDoesNotExist && cartItems == old(cartItems) && nextCartItemId == old(nextCartItemId)
      ensures r.Ok? ==> r.value == CartItem(old(nextCartItemId), user, productId, quantity)
      ensures r.Ok? ==> cartItems == old(cartItems) + [r.value] && nextCartItemId == old(nextCartItemId) + 1
      ensures r.Ok? ==> CartOf(cartItems, user) == CartOf(old(cartItems), user) + [r.value]
      ensures forall v :: v != user ==> CartOf(cartItems, v) == CartOf(old(cartItems), v)
    {
      var found := FindProduct(products, productId);
      if found.None? {
        return Err(ProductDoesNotExist);
      }
      var item := CartItem(nextCartItemId, user, found.value.id, quantity);
      AppendCartItem(cartItems, nextCartItemId, products, item);
      CartOfAppend(cartItems, item, user);
      forall v | v != user
        ensures CartOf(cartItems + [item], v) == CartOf(cartItems, v)
      {
        CartOfAppend(cartItems, item, v);
      }
      cartItems := cartItems + [item];
      nextCartItemId := nextCartItemId + 1;
      r := Ok(item);
    }

    /** The checkout page's GET: the signed-in user's cart items. */
    function CartListing(user: UserId): (r: seq<CartItem>)
      reads this
      ensures forall x :: x in r <==> x in cartItems && x.user == user
    {
      CartOf(cartItems, user)
    }

    /**
     * The checkout page's POST. Takes a snapshot of the user's cart, saves
     * one new transaction stamped now, and then, item by item in snapshot
     * order, saves a line item copying the product and quantity and deletes
     * the cart item. An empty cart still produces a transaction.
     */
    method Checkout(user: UserId, now: Timestamp) returns (t: Transaction)
      requires Valid()
      modifies this
      ensures Valid()
      ensures products == old(products) && nextCartItemId == old(nextCartItemId)
      ensures nextTransactionId == old(nextTransactionId) + 1
      ensures nextLineItemId == old(nextLineItemId) + |CartOf(old(cartItems), user)|
      ensures t == Transaction(old(nextTransactionId), user, now)
      ensures transactions == old(transactions) + [t]
      ensures lineItems == old(lineItems) + LinesFor(t.id, CartOf(old(cartItems), user), old(nextLineItemId))
      ensures LinesOf(lineItems, t.id) == LinesFor(t.id, CartOf(old(cartItems), user), old(nextLineItemId))
      ensures cartItems == OthersOf(old(cartItems), user)
      ensures CartOf(cartItems, user) == []
      ensures forall v :: v != user ==> CartOf(cartItems, v) == CartOf(old(cartItems), v)
    {
      var snapshot := CartOf(cartItems, user);
      t := SaveTransaction(user, now);
      ghost var ts, ps := transactions, products;
      assert TransactionTable(ts, t.id + 1) && HasTransaction(ts, t.id);
      assert LineItemTable(old(lineItems), old(nextLineItemId), ts, ps);
      MoveToLineItems(t.id, snapshot);
      CartAfterDeletingOwn(old(cartItems), user);
      DeleteCartItems(old(cartItems), old(nextCartItemId), ps, Keys(snapshot));
      AppendLines(old(lineItems), old(nextLineItemId), ts, ps, t.id, snapshot);
      NewTransactionLines(old(lineItems), old(transactions), t.id, snapshot, old(nextLineItemId));
    }

    /**
     * The loop of the checkout: for each item, in order, save a line item
     * under transaction tid copying its product and quantity, then delete
     * the cart item by its key.
     */
    method MoveToLineItems(tid: nat, items: seq<CartItem>)
      modifies this
      ensures lineItems == old(lineItems) + LinesFor(tid, items, old(nextLineItemId))
      ensures nextLineItemId == old(nextLineItemId) + |items|
      ensures cartItems == Remaining(old(cartItems), Keys(items))
      ensures products == old(products) && transactions == old(transactions)
      ensures nextCartItemId == old(nextCartItemId) && nextTransactionId == old(nextTransactionId)
    {
      RemainingNone(cartItems);
      assert Keys(items[..0]) == {};
      assert LinesFor(tid, items[..0], nextLineItemId) == [];
      assert lineItems == old(lineItems) + [];
      var i := 0;
      while i < |items|
        invariant 0 <= i <= |items|
        invariant products == old(products) && transactions == old(transactions)
        invariant nextCartItemId == old(nextCartItemId) && nextTransactionId == old(nextTransactionId)
        invariant lineItems == old(lineItems) + LinesFor(tid, items[..i], old(nextLineItemId))
        invariant nextLineItemId == old(nextLineItemId) + i
        invariant cartItems == Remaining(old(cartItems), Keys(items[..i]))
      {
        var item := items[i];
        var line := LineItem(nextLineItemId, tid, item.product, item.quantity);
        LinesForSnoc(lineItems, old(lineItems), tid, items, i, old(nextLineItemId), line);
        lineItems := lineItems + [line];
        nextLineItemId := nextLineItemId + 1;
        DeleteStep(old(cartItems), items, i);
        cartItems := Remaining(cartItems, {item.id});
        i := i + 1;
      }
      assert items[..i] == items;
    }

    /** Saving a new transaction: it gets the next key of its table. */
    method SaveTransaction(user: UserId, createdAt: Timestamp) returns (t: Transaction)
      requires Valid()
      modifies this
      ensures Valid() && HasTransaction(transactions, t.id)
      ensures t == Transaction(old(nextTransactionId), user, createdAt)
      ensures transactions == old(transactions) + [t] && nextTransactionId == old(nextTransactionId) + 1
      ensures products == old(products) && cartItems == old(cartItems) && lineItems == old(lineItems)
      ensures nextCartItemId == old(nextCartItemId) && nextLineItemId == old(nextLineItemId)
    {
      t := Transaction(nextTransactionId, user, createdAt);
      AppendTransaction(transactions, nextTransactionId, lineItems, nextLineItemId, products, t);
      transactions := transactions + [t];
      nextTransactionId := nextTransactionId + 1;
    }

    /** The transaction history page: the user's transactions, newest first. */
    function TransactionHistory(user: UserId): (r: seq<Transaction>)
      reads this
      ensures History.NewestFirst(r)
      ensures forall t :: t in r <==> t in transactions && t.user == user
      ensures multiset(r) == multiset(OwnedBy(transactions, user))
      ensures forall t :: multiset(r)[t] == if t.user == user then multiset(transactions)[t] else 0
    {
      History.HistoryOf(transactions, user)
    }
  }

  /**
   * Adding the same product twice in a row leaves two separate cart items
   * with the submitted quantity each, rather than one merged item.
   */
  method AddTwice(store: Store, user: UserId, productId: ProductId, quantity: int)
      returns (first: CartItem, second: CartItem)
    requires store.Valid() && HasProduct(store.products, productId)
    modifies store
    ensures store.Valid()
    ensures first.product == productId && second.product == productId
    ensures first.quantity == quantity && second.quantity == quantity
    ensures first.id != second.id
    ensures CartOf(store.cartItems, user) == CartOf(old(store.cartItems), user) + [first, second]
  {
    var r1 := store.AddToCart(user, productId, quantity);
    var r2 := store.AddToCart(user, productId, quantity);
    first, second := r1.value, r2.value;
  }

  /**
   * Checking out an empty cart still saves one transaction for the user,
   * stamped now, and writes no line items.
   */
  method CheckoutEmptyCart(store: Store, user: UserId, now: Timestamp) returns (t: Transaction)
    requires store.Valid() && CartOf(store.cartItems, user) == []
    modifies store
    ensures store.Valid()
    ensures t.user == user && t.createdAt == now
    ensures store.transactions == old(store.transactions) + [t]
    ensures store.lineItems == old(store.lineItems)
  {
    t := store.Checkout(user, now);
  }
}
