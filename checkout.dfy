/**
 * What one checkout writes to the LineItem table, and what that means:
 * every cart item of the snapshot becomes one line item under the new
 * transaction, in the snapshot's order, carrying the same product and
 * quantity.
 */
module Checkout {
  import opened Records
  import opened Queries

  /**
   * The line items the checkout loop saves for the snapshot items, under
   * transaction tid, with ids handed out from firstId on.
   */
  function LinesFor(tid: nat, items: seq<CartItem>, firstId: nat): (r: seq<LineItem>)
    ensures |r| == |items|
    ensures forall k :: 0 <= k < |r| ==> r[k].transaction == tid && r[k].id == firstId + k
    ensures forall k :: 0 <= k < |r| ==> r[k].product == items[k].product && r[k].quantity == items[k].quantity
    decreases |items|
  {
    if items == [] then []
    else
      var last := items[|items| - 1];
      LinesFor(tid, items[..|items| - 1], firstId) + [LineItem(firstId + |items| - 1, tid, last.product, last.quantity)]
  }

  // Ordered and Purchased are the same (product, quantity) projection, once
  // over cart items and once over line items: the two row types are
  // distinct, and conservation compares one with the other.

  /** The (product, quantity) pairs a customer asked for. */
  function Ordered(items: seq<CartItem>): (r: seq<(ProductId, int)>)
    ensures |r| == |items|
  {
    seq(|items|, k requires 0 <= k < |items| => (items[k].product, items[k].quantity))
  }

  /** The (product, quantity) pairs a set of line items records as bought. */
  function Purchased(lines: seq<LineItem>): (r: seq<(ProductId, int)>)
    ensures |r| == |lines|
  {
    seq(|lines|, k requires 0 <= k < |lines| => (lines[k].product, lines[k].quantity))
  }

  /**
   * One more snapshot item processed is one more line item at the end of
   * the table (prefix is the table before the checkout).
   */
  lemma LinesForSnoc(lines: seq<LineItem>, prefix: seq<LineItem>, tid: nat, items: seq<CartItem>, i: nat, firstId: nat, line: LineItem)
    requires i < |items|
    requires lines == prefix + LinesFor(tid, items[..i], firstId)
    requires line == LineItem(firstId + i, tid, items[i].product, items[i].quantity)
    ensures lines + [line] == prefix + LinesFor(tid, items[..i + 1], firstId)
  {
    assert items[..i + 1][..i] == items[..i];
  }

  /**
   * Conservation: what is recorded as bought is exactly what was in the
   * cart, pair by pair and in order, so also as a multiset.
   */
  lemma Conservation(tid: nat, items: seq<CartItem>, firstId: nat)
    ensures Purchased(LinesFor(tid, items, firstId)) == Ordered(items)
    ensures multiset(Purchased(LinesFor(tid, items, firstId))) == multiset(Ordered(items))
  {
  }

  /** Appending the checkout's line items keeps the LineItem table well formed. */
  lemma AppendLines(lines: seq<LineItem>, next: nat, ts: seq<Transaction>, products: seq<Product>, tid: nat, items: seq<CartItem>)
    requires LineItemTable(lines, next, ts, products)
    requires HasTransaction(ts, tid)
    requires forall x :: x in items ==> HasProduct(products, x.product)
    ensures LineItemTable(lines + LinesFor(tid, items, next), next + |items|, ts, products)
  {
    var added := LinesFor(tid, items, next);
    var all := lines + added;
    forall l | l in added
      ensures l.id < next + |items| && HasTransaction(ts, l.transaction) && HasProduct(products, l.product)
    {
      var k :| 0 <= k < |added| && added[k] == l;
      assert items[k] in items;
    }
    forall i, j | 0 <= i < j < |all|
      ensures all[i].id < all[j].id
    {
      if j >= |lines| {
        if i < |lines| {
          assert all[i] in lines;
        }
      }
    }
  }

  /**
   * The line items of a freshly numbered transaction are exactly the ones
   * the checkout appended, provided every earlier line item belongs to an
   * earlier transaction.
   */
  lemma NewTransactionLines(lines: seq<LineItem>, ts: seq<Transaction>, tid: nat, items: seq<CartItem>, firstId: nat)
    requires forall l :: l in lines ==> HasTransaction(ts, l.transaction)
    requires forall t :: t in ts ==> t.id < tid
    ensures LinesOf(lines + LinesFor(tid, items, firstId), tid) == LinesFor(tid, items, firstId)
  {
    var added := LinesFor(tid, items, firstId);
    LinesOfAppend(lines, added, tid);
    LinesOfNone(lines, tid);
    LinesOfAll(added, tid);
  }
}
