/** The history route `GET /:senderId/:receiverId`: every stored message
    exchanged between the two users, in either direction, sorted ascending by
    `createdAt`. */
module Conversation {
  import opened Protocol

  /** The `$or` filter: from a to b, or from b to a. */
  predicate Between(m: Message, a: UserId, b: UserId)
    ensures Between(m, a, b) <==> {m.sender, m.receiver} == {a, b}
  {
    (m.sender == a && m.receiver == b) || (m.sender == b && m.receiver == a)
  }

  predicate SortedByCreatedAt(s: seq<Message>) {
    forall i, j :: 0 <= i < j < |s| ==> s[i].createdAt <= s[j].createdAt
  }

  /** The messages of `store` that pass the filter, in store order. */
  function Filter(store: seq<Message>, a: UserId, b: UserId): (r: seq<Message>)
    ensures forall m :: multiset(r)[m] == if Between(m, a, b) then multiset(store)[m] else 0
  {
    if store == [] then []
    else
      assert store == [store[0]] + store[1..];
      (if Between(store[0], a, b) then [store[0]] else []) + Filter(store[1..], a, b)
  }

  /** Places m into sorted s after every element not later than m. */
  function Insert(m: Message, s: seq<Message>): (r: seq<Message>)
    requires SortedByCreatedAt(s)
    ensures SortedByCreatedAt(r)
    ensures multiset(r) == multiset(s) + multiset{m}
    // membership form of the line above, which the recursive step below uses
    ensures forall x :: x in r ==> x == m || x in s
  {
    if s == [] then [m]
    else if m.createdAt < s[0].createdAt then [m] + s
    else
      assert s == [s[0]] + s[1..];
      var t := Insert(m, s[1..]);
      SortedCons(s[0], t);
      [s[0]] + t
  }

  /** A sorted sequence stays sorted under a head no later than all its elements. */
  lemma SortedCons(x: Message, t: seq<Message>)
    requires SortedByCreatedAt(t)
    requires forall y :: y in t ==> x.createdAt <= y.createdAt
    ensures SortedByCreatedAt([x] + t)
  {
  }

  /** `.sort({ createdAt: 1 })`. Order among equal timestamps is chosen by the
      database; this insertion sort is one admissible choice. */
  function SortByCreatedAt(s: seq<Message>): (r: seq<Message>)
    ensures SortedByCreatedAt(r)
    ensures multiset(r) == multiset(s)
  {
    if s == [] then []
    else
      assert s == s[..|s| - 1] + [s[|s| - 1]];
      Insert(s[|s| - 1], SortByCreatedAt(s[..|s| - 1]))
  }

  /** The route's result for `/:a/:b`: every stored message between a and b,
      exactly as many times as it is stored, none other, in time order. */
  function Query(store: seq<Message>, a: UserId, b: UserId): (r: seq<Message>)
    ensures SortedByCreatedAt(r)
    ensures forall m :: multiset(r)[m] == if Between(m, a, b) then multiset(store)[m] else 0
  {
    SortByCreatedAt(Filter(store, a, b))
  }

  /** Every returned message is between a and b; every stored message between
      them is returned. */
  lemma QueryMembership(store: seq<Message>, a: UserId, b: UserId, m: Message)
    ensures m in Query(store, a, b) <==> m in store && Between(m, a, b)
  {
    assert m in Query(store, a, b) <==> multiset(Query(store, a, b))[m] > 0;
    assert m in store <==> multiset(store)[m] > 0;
  }

  /** Asking for (a, b) or for (b, a) returns the same messages. */
  lemma QuerySymmetric(store: seq<Message>, a: UserId, b: UserId)
    ensures multiset(Query(store, a, b)) == multiset(Query(store, b, a))
  {
  }

  /** A third party's messages never appear; for a == b the result is exactly
      the self-addressed messages. */
  lemma QuerySelf(store: seq<Message>, a: UserId, m: Message)
    ensures m in Query(store, a, a) <==> m in store && m.sender == a && m.receiver == a
  {
    QueryMembership(store, a, a, m);
  }

  /** A message stored while its receiver is offline is still found by the
      next history fetch of either participant. */
  lemma StoredMessageIsRetrievable(store: seq<Message>, m: Message)
    ensures m in Query(store + [m], m.sender, m.receiver)
    ensures m in Query(store + [m], m.receiver, m.sender)
  {
    QueryMembership(store + [m], m.sender, m.receiver, m);
    QueryMembership(store + [m], m.receiver, m.sender, m);
  }
}
