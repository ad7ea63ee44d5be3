/**
 * The ORM queries the handlers issue, each as a function over one table
 * (a sequence of rows in table order), and the well-formedness of the
 * tables that the store keeps: distinct primary keys handed out in
 * increasing order, and foreign keys that point at existing rows.
 */
module Queries {
  import opened Records

  /** Looking a product up by its primary key; None is the "does not exist" case. */
  function FindProduct(products: seq<Product>, id: ProductId): (r: Option<Product>)
    ensures r.Some? ==> r.value in products && r.value.id == id
    ensures r.None? <==> forall p :: p in products ==> p.id != id
  {
    if products == [] then None
    else if products[0].id == id then Some(products[0])
    else FindProduct(products[1..], id)
  }

  predicate HasProduct(products: seq<Product>, id: ProductId) {
    FindProduct(products, id).Some?
  }

  predicate HasTransaction(ts: seq<Transaction>, id: nat) {
    exists t :: t in ts && t.id == id
  }

  /** The cart items of one user, in table order. */
  function CartOf(items: seq<CartItem>, user: UserId): (r: seq<CartItem>)
    ensures forall x :: x in r <==> x in items && x.user == user
    ensures multiset(r) <= multiset(items)
  {
    if items == [] then []
    else
      assert items == [items[0]] + items[1..];
      if items[0].user == user then [items[0]] + CartOf(items[1..], user)
      else CartOf(items[1..], user)
  }

  /** A user's cart holds each of the user's rows as often as the table does. */
  lemma {:induction false} CartOfCounts(items: seq<CartItem>, user: UserId)
    ensures forall x :: multiset(CartOf(items, user))[x] == if x.user == user then multiset(items)[x] else 0
  {
    if items != [] {
      CartOfCounts(items[1..], user);
      assert items == [items[0]] + items[1..];
    }
  }

  /** The cart items of every user other than user, in table order. */
  function OthersOf(items: seq<CartItem>, user: UserId): seq<CartItem>
  {
    if items == [] then []
    else
      if items[0].user != user then [items[0]] + OthersOf(items[1..], user)
      else OthersOf(items[1..], user)
  }

  /** The cart table after the rows whose ids are in removed have been deleted. */
  function Remaining(items: seq<CartItem>, removed: set<nat>): (r: seq<CartItem>)
    ensures |r| <= |items|
    ensures forall i :: 0 <= i < |r| ==> r[i].id !in removed
  {
    if items == [] then []
    else if items[0].id in removed then Remaining(items[1..], removed)
    else [items[0]] + Remaining(items[1..], removed)
  }

  /**
   * Deleting keeps exactly the rows whose keys were not removed, and keeps
   * keys in increasing order.
   */
  lemma {:induction false} RemainingRows(items: seq<CartItem>, removed: set<nat>)
    ensures forall x :: x in Remaining(items, removed) <==> x in items && x.id !in removed
    ensures CartKeysAscending(items) ==> CartKeysAscending(Remaining(items, removed))
  {
    if items != [] {
      RemainingRows(items[1..], removed);
      assert items == [items[0]] + items[1..];
      if CartKeysAscending(items) {
        assert CartKeysAscending(items[1..]);
      }
    }
  }

  /** The transactions of one user, in table order. */
  function OwnedBy(ts: seq<Transaction>, user: UserId): (r: seq<Transaction>)
    ensures forall t :: t in r <==> t in ts && t.user == user
    ensures forall t :: multiset(r)[t] == if t.user == user then multiset(ts)[t] else 0
  {
    if ts == [] then []
    else
      assert ts == [ts[0]] + ts[1..];
      if ts[0].user == user then [ts[0]] + OwnedBy(ts[1..], user)
      else OwnedBy(ts[1..], user)
  }

  /** The line items of one transaction, in table order. */
  function LinesOf(lines: seq<LineItem>, tid: nat): seq<LineItem>
  {
    if lines == [] then []
    else
      if lines[0].transaction == tid then [lines[0]] + LinesOf(lines[1..], tid)
      else LinesOf(lines[1..], tid)
  }

  // ---- Well-formed tables ----

  predicate ProductKeys(products: seq<Product>) {
    forall i, j :: 0 <= i < j < |products| ==> products[i].id != products[j].id
  }

  predicate CartKeysAscending(items: seq<CartItem>) {
    forall i, j :: 0 <= i < j < |items| ==> items[i].id < items[j].id
  }

  predicate CartTable(items: seq<CartItem>, next: nat, products: seq<Product>) {
    && CartKeysAscending(items)
    && forall x :: x in items ==> x.id < next && HasProduct(products, x.product)
  }

  predicate TransactionTable(ts: seq<Transaction>, next: nat) {
    && (forall i, j :: 0 <= i < j < |ts| ==> ts[i].id < ts[j].id)
    && forall t :: t in ts ==> t.id < next
  }

  predicate LineItemTable(lines: seq<LineItem>, next: nat, ts: seq<Transaction>, products: seq<Product>) {
    && (forall i, j :: 0 <= i < j < |lines| ==> lines[i].id < lines[j].id)
    && forall l :: l in lines ==> l.id < next && HasTransaction(ts, l.transaction) && HasProduct(products, l.product)
  }

  // ---- The writes keep the tables well formed ----

  lemma AppendCartItem(items: seq<CartItem>, next: nat, products: seq<Product>, c: CartItem)
    requires CartTable(items, next, products)
    requires c.id == next && HasProduct(products, c.product)
    ensures CartTable(items + [c], next + 1, products)
  {
  }

  lemma DeleteCartItems(items: seq<CartItem>, next: nat, products: seq<Product>, removed: set<nat>)
    requires CartTable(items, next, products)
    ensures CartTable(Remaining(items, removed), next, products)
  {
    RemainingRows(items, removed);
  }

  lemma AppendTransaction(ts: seq<Transaction>, next: nat, lines: seq<LineItem>, nextLine: nat, products: seq<Product>, t: Transaction)
    requires TransactionTable(ts, next) && LineItemTable(lines, nextLine, ts, products)
    requires t.id == next
    ensures TransactionTable(ts + [t], next + 1) && LineItemTable(lines, nextLine, ts + [t], products)
    ensures HasTransaction(ts + [t], t.id)
  {
    assert t in ts + [t];
    forall l | l in lines
      ensures HasTransaction(ts + [t], l.transaction)
    {
      var w :| w in ts && w.id == l.transaction;
      assert w in ts + [t];
    }
  }

  // ---- Lemmas about the queries ----

  /** A primary key identifies its row. */
  lemma {:induction false} CartKeyIdentifies(items: seq<CartItem>, x: CartItem, y: CartItem)
    requires CartKeysAscending(items)
    requires x in items && y in items && x.id == y.id
    ensures x == y
  {
    var i :| 0 <= i < |items| && items[i] == x;
    var j :| 0 <= j < |items| && items[j] == y;
    assert !(i < j) && !(j < i);
  }

  /** The primary keys of some cart items. */
  function Keys(items: seq<CartItem>): set<nat>
  {
    if items == [] then {}
    else Keys(items[..|items| - 1]) + {items[|items| - 1].id}
  }

  /** A key is in Keys(items) exactly when some item carries it. */
  lemma {:induction false} KeysMembers(items: seq<CartItem>)
    ensures forall x :: x in items ==> x.id in Keys(items)
    ensures forall k :: k in Keys(items) ==> exists x :: x in items && x.id == k
  {
    if items != [] {
      var init := items[..|items| - 1];
      KeysMembers(init);
      assert items == init + [items[|items| - 1]];
    }
  }

  /**
   * Deleting snapshot[i] by its key from what is left after deleting the
   * first i snapshot items leaves what is left after deleting the first
   * i + 1.
   */
  lemma DeleteStep(items: seq<CartItem>, snapshot: seq<CartItem>, i: nat)
    requires i < |snapshot|
    ensures Remaining(Remaining(items, Keys(snapshot[..i])), {snapshot[i].id}) == Remaining(items, Keys(snapshot[..i + 1]))
  {
    RemainingTwice(items, Keys(snapshot[..i]), {snapshot[i].id});
    assert snapshot[..i + 1][..i] == snapshot[..i];
  }

  /** With distinct keys, a row's key is among the keys of user's cart exactly when the row is user's. */
  lemma OwnKeys(items: seq<CartItem>, user: UserId)
    requires CartKeysAscending(items)
    ensures forall x :: x in items ==> (x.id in Keys(CartOf(items, user)) <==> x.user == user)
  {
    var own := CartOf(items, user);
    KeysMembers(own);
    forall x | x in items && x.id in Keys(own)
      ensures x.user == user
    {
      var y :| y in own && y.id == x.id;
      CartKeyIdentifies(items, x, y);
    }
  }

  /**
   * Deleting the rows of user's cart, by key, leaves every other row in
   * order: user's cart is then empty and every other cart is as it was.
   */
  lemma CartAfterDeletingOwn(items: seq<CartItem>, user: UserId)
    requires CartKeysAscending(items)
    ensures Remaining(items, Keys(CartOf(items, user))) == OthersOf(items, user)
    ensures CartOf(Remaining(items, Keys(CartOf(items, user))), user) == []
    ensures forall v :: v != user ==> CartOf(Remaining(items, Keys(CartOf(items, user))), v) == CartOf(items, v)
  {
    OwnKeys(items, user);
    RemainingOwnKeys(items, Keys(CartOf(items, user)), user);
    OthersOfEmptiesCart(items, user);
    forall v | v != user
      ensures CartOf(OthersOf(items, user), v) == CartOf(items, v)
    {
      OthersOfKeepsCarts(items, user, v);
    }
  }

  lemma {:induction false} RemainingNone(items: seq<CartItem>)
    ensures Remaining(items, {}) == items
  {
    if items != [] {
      RemainingNone(items[1..]);
      assert items == [items[0]] + items[1..];
    }
  }

  /** Deleting in two rounds is deleting the union at once. */
  lemma {:induction false} RemainingTwice(items: seq<CartItem>, a: set<nat>, b: set<nat>)
    ensures Remaining(Remaining(items, a), b) == Remaining(items, a + b)
  {
    if items != [] {
      RemainingTwice(items[1..], a, b);
    }
  }

  /**
   * When the deleted keys are exactly the keys of user's rows, what is left
   * is every other user's rows, in their original order.
   */
  lemma {:induction false} RemainingOwnKeys(items: seq<CartItem>, removed: set<nat>, user: UserId)
    requires forall x :: x in items ==> (x.id in removed <==> x.user == user)
    ensures Remaining(items, removed) == OthersOf(items, user)
  {
    if items != [] {
      assert items[0] in items;
      RemainingOwnKeys(items[1..], removed, user);
    }
  }

  /**
   * Adding a cart item appends it to its owner's cart, after every item
   * already there (same product or not), and leaves other carts as they were.
   */
  lemma {:induction false} CartOfAppend(items: seq<CartItem>, c: CartItem, user: UserId)
    ensures CartOf(items + [c], user) == if c.user == user then CartOf(items, user) + [c] else CartOf(items, user)
  {
    if items == [] {
      assert items + [c] == [c];
    } else {
      assert (items + [c])[1..] == items[1..] + [c];
      CartOfAppend(items[1..], c, user);
    }
  }

  /** Removing one user's rows does not change what any other user sees. */
  lemma {:induction false} OthersOfKeepsCarts(items: seq<CartItem>, user: UserId, other: UserId)
    requires other != user
    ensures CartOf(OthersOf(items, user), other) == CartOf(items, other)
  {
    if items != [] {
      OthersOfKeepsCarts(items[1..], user, other);
    }
  }

  /** Removing one user's rows keeps exactly the rows of everybody else. */
  lemma {:induction false} OthersOfRows(items: seq<CartItem>, user: UserId)
    ensures forall x :: x in OthersOf(items, user) <==> x in items && x.user != user
  {
    if items != [] {
      OthersOfRows(items[1..], user);
      assert items == [items[0]] + items[1..];
    }
  }

  /** After removing one user's rows, that user's cart is empty. */
  lemma OthersOfEmptiesCart(items: seq<CartItem>, user: UserId)
    ensures CartOf(OthersOf(items, user), user) == []
  {
    OthersOfRows(items, user);
  }

  /** Querying a table grown by an append is querying each part. */
  lemma {:induction false} LinesOfAppend(a: seq<LineItem>, b: seq<LineItem>, tid: nat)
    ensures LinesOf(a + b, tid) == LinesOf(a, tid) + LinesOf(b, tid)
  {
    if a == [] {
      assert a + b == b;
    } else {
      assert (a + b)[1..] == a[1..] + b;
      LinesOfAppend(a[1..], b, tid);
    }
  }

  lemma {:induction false} LinesOfNone(lines: seq<LineItem>, tid: nat)
    requires forall l :: l in lines ==> l.transaction != tid
    ensures LinesOf(lines, tid) == []
  {
    if lines != [] {
      assert lines[0] in lines;
      LinesOfNone(lines[1..], tid);
    }
  }

  lemma {:induction false} LinesOfAll(lines: seq<LineItem>, tid: nat)
    requires forall l :: l in lines ==> l.transaction == tid
    ensures LinesOf(lines, tid) == lines
  {
    if lines != [] {
      assert lines[0] in lines;
      LinesOfAll(lines[1..], tid);
      assert lines == [lines[0]] + lines[1..];
    }
  }
}
