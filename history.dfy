/**
 * The transaction history listing: a user's transactions, newest first by
 * creation time.
 */
module History {
  import opened Records
  import opened Queries

  predicate NewestFirst(ts: seq<Transaction>) {
    forall i, j :: 0 <= i < j < |ts| ==> ts[i].createdAt >= ts[j].createdAt
  }

  /** Places t in front of the first transaction that is not newer than it. */
  function Insert(t: Transaction, s: seq<Transaction>): (r: seq<Transaction>)
    requires NewestFirst(s)
    ensures NewestFirst(r)
    ensures multiset(r) == multiset(s) + multiset{t}
    ensures |r| == |s| + 1 && (r[0] == t || (s != [] && r[0] == s[0]))
  {
    if s == [] || s[0].createdAt <= t.createdAt then [t] + s
    else
      var rest := Insert(t, s[1..]);
      assert s == [s[0]] + s[1..];
      assert s[0].createdAt >= rest[0].createdAt;
      [s[0]] + rest
  }

  /** Orders transactions newest first (descending creation time). */
  function SortNewestFirst(ts: seq<Transaction>): (r: seq<Transaction>)
    ensures NewestFirst(r)
    ensures multiset(r) == multiset(ts)
  {
    if ts == [] then []
    else
      assert ts == [ts[0]] + ts[1..];
      Insert(ts[0], SortNewestFirst(ts[1..]))
  }

  /** The history page: exactly user's transactions, newest first. */
  function HistoryOf(ts: seq<Transaction>, user: UserId): (r: seq<Transaction>)
    ensures NewestFirst(r)
    ensures multiset(r) == multiset(OwnedBy(ts, user))
    ensures forall t :: t in r <==> t in ts && t.user == user
    ensures forall t :: multiset(r)[t] == if t.user == user then multiset(ts)[t] else 0
  {
    var r := SortNewestFirst(OwnedBy(ts, user));
    assert forall t :: t in r <==> t in multiset(OwnedBy(ts, user));
    r
  }
}
