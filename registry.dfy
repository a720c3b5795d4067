/** The server's `onlineUsers` map (a JavaScript `Map` from user id to socket id)
    as an association list in insertion order, with the three operations the
    server performs on it. */
module Registry {
  import opened Protocol

  /** One entry of the map: a user id and the socket id it was last joined from. */
  datatype Entry = Entry(user: UserId, socket: SocketId)

  /** `Array.from(onlineUsers.keys())`: the keys in insertion order. */
  function Keys(e: seq<Entry>): seq<UserId> {
    seq(|e|, k requires 0 <= k < |e| => e[k].user)
  }

  predicate NoDup<T(==)>(s: seq<T>) {
    forall i, j :: 0 <= i < j < |s| ==> s[i] != s[j]
  }

  /** The keys of an entry followed by more entries. */
  lemma KeysCons(x: Entry, t: seq<Entry>)
    ensures Keys([x] + t) == [x.user] + Keys(t)
  {
  }

  /** `onlineUsers.get(u)`: the socket id stored under key u, if any. */
  function Lookup(e: seq<Entry>, u: UserId): (r: Option<SocketId>)
    ensures r.Some? <==> u in Keys(e)
  {
    if e == [] then None
    else
      assert e == [e[0]] + e[1..];
      KeysCons(e[0], e[1..]);
      if e[0].user == u then Some(e[0].socket)
      else Lookup(e[1..], u)
  }

  /** `onlineUsers.set(u, s)`: an existing key keeps its position and gets the
      new value; a new key is appended at the end. */
  function MapSet(e: seq<Entry>, u: UserId, s: SocketId): (r: seq<Entry>)
    ensures Keys(r) == if u in Keys(e) then Keys(e) else Keys(e) + [u]
    ensures Lookup(r, u) == Some(s)
    ensures forall v :: v != u ==> Lookup(r, v) == Lookup(e, v)
  {
    if e == [] then [Entry(u, s)]
    else
      assert e == [e[0]] + e[1..];
      KeysCons(e[0], e[1..]);
      if e[0].user == u then
        var r := [Entry(u, s)] + e[1..];
        assert r[1..] == e[1..];
        KeysCons(Entry(u, s), e[1..]);
        r
      else
        var t := MapSet(e[1..], u, s);
        var r := [e[0]] + t;
        assert r[1..] == t;
        KeysCons(e[0], t);
        assert [e[0].user] + (Keys(e[1..]) + [u]) == ([e[0].user] + Keys(e[1..])) + [u];
        r
  }

  /** `onlineUsers.delete(u)`: drops the entry keyed u; with unique keys the
      key is gone afterwards and every other key keeps its value. */
  function MapDelete(e: seq<Entry>, u: UserId): (r: seq<Entry>)
    ensures NoDup(Keys(e)) ==> Lookup(r, u) == None
    ensures forall v :: v != u ==> Lookup(r, v) == Lookup(e, v)
  {
    if e == [] then []
    else
      assert e == [e[0]] + e[1..];
      KeysCons(e[0], e[1..]);
      if e[0].user == u then
        assert NoDup(Keys(e)) ==> u !in Keys(e[1..]) by {
          if NoDup(Keys(e)) { KeysTail(e); }
        }
        e[1..]
      else
        assert NoDup(Keys(e)) ==> NoDup(Keys(e[1..])) by {
          if NoDup(Keys(e)) { KeysTail(e); }
        }
        var t := MapDelete(e[1..], u);
        assert ([e[0]] + t)[1..] == t;
        [e[0]] + t
  }

  /** Unique keys stay unique in the tail, and the head key is not among them. */
  lemma KeysTail(e: seq<Entry>)
    requires NoDup(Keys(e)) && e != []
    ensures NoDup(Keys(e[1..])) && e[0].user !in Keys(e[1..])
  {
    var t := e[1..];
    forall a, b | 0 <= a < b < |t| ensures Keys(t)[a] != Keys(t)[b] {
      assert Keys(e)[a + 1] != Keys(e)[b + 1];
    }
    forall a | 0 <= a < |t| ensures Keys(t)[a] != e[0].user {
      assert Keys(e)[a + 1] != Keys(e)[0];
    }
  }

  /** With unique keys, no entry before position i shares entry i's key. */
  lemma UniqueKeyBefore(e: seq<Entry>, i: nat)
    requires NoDup(Keys(e)) && i < |e|
    ensures forall j :: 0 <= j < i ==> e[j].user != e[i].user
  {
    forall j | 0 <= j < i ensures e[j].user != e[i].user {
      assert Keys(e)[j] != Keys(e)[i];
    }
  }

  /** What the disconnect handler does to the map: remove the first entry, in
      insertion order, whose value is socket s; keep every other entry. */
  function DeleteFirstBySocket(e: seq<Entry>, s: SocketId): (r: seq<Entry>)
    ensures |e| - 1 <= |r| <= |e|
    ensures forall x :: x in r ==> x in e
  {
    if e == [] then []
    else if e[0].socket == s then e[1..]
    else [e[0]] + DeleteFirstBySocket(e[1..], s)
  }

  /** A socket that no entry holds leaves the map unchanged. */
  lemma {:induction false} DeleteFirstBySocketNoMatch(e: seq<Entry>, s: SocketId)
    requires forall i :: 0 <= i < |e| ==> e[i].socket != s
    ensures DeleteFirstBySocket(e, s) == e
  {
    if e != [] {
      DeleteFirstBySocketNoMatch(e[1..], s);
    }
  }

  /** Exactly the first entry holding socket s is removed; every later entry,
      including later ones holding s, stays in place. */
  lemma {:induction false} DeleteFirstBySocketAt(e: seq<Entry>, s: SocketId, i: nat)
    requires i < |e| && e[i].socket == s
    requires forall j :: 0 <= j < i ==> e[j].socket != s
    ensures DeleteFirstBySocket(e, s) == e[..i] + e[i + 1..]
  {
    if i > 0 {
      DeleteFirstBySocketAt(e[1..], s, i - 1);
      assert e[1..][..i - 1] == e[1..i];
      assert e[1..][i..] == e[i + 1..];
      assert [e[0]] + e[1..i] == e[..i];
    }
  }

  /** The handler's loop finds index i and calls `delete` with that entry's
      key; when no earlier entry has that key, exactly entry i goes. */
  lemma {:induction false} MapDeleteAt(e: seq<Entry>, i: nat)
    requires i < |e|
    requires forall j :: 0 <= j < i ==> e[j].user != e[i].user
    ensures MapDelete(e, e[i].user) == e[..i] + e[i + 1..]
  {
    var u := e[i].user;
    if i == 0 {
      assert MapDelete(e, u) == e[1..];
      assert e[..0] + e[1..] == e[1..];
    } else {
      var t := e[1..];
      assert e[0].user != u && t[i - 1] == e[i];
      assert MapDelete(e, u) == [e[0]] + MapDelete(t, u);
      MapDeleteAt(t, i - 1);
      assert t[..i - 1] == e[1..i] && t[i..] == e[i + 1..];
      assert [e[0]] + e[1..i] == e[..i];
    }
  }

  /** Removing one entry from a list with unique keys keeps its keys unique. */
  lemma {:induction false} DeleteFirstBySocketNoDup(e: seq<Entry>, s: SocketId)
    requires NoDup(Keys(e))
    ensures NoDup(Keys(DeleteFirstBySocket(e, s)))
  {
    if e != [] {
      var t := e[1..];
      KeysTail(e);
      if e[0].socket != s {
        DeleteFirstBySocketNoDup(t, s);
        var d := DeleteFirstBySocket(t, s);
        KeysCons(e[0], d);
        forall k | 0 <= k < |d| ensures d[k].user != e[0].user {
          assert d[k] in t;
          var m :| 0 <= m < |t| && t[m] == d[k];
          assert Keys(e)[m + 1] != Keys(e)[0];
        }
      }
    }
  }

  /** Last join wins across a stale disconnect: once u has rejoined from b, a
      disconnect of any other socket a leaves u bound to b. */
  lemma {:induction false} RejoinSurvivesStaleDisconnect(e: seq<Entry>, u: UserId, a: SocketId, b: SocketId)
    requires a != b
    ensures Lookup(DeleteFirstBySocket(MapSet(e, u, b), a), u) == Some(b)
  {
    LookupSurvivesDelete(MapSet(e, u, b), u, a, b);
  }

  /** Removing the first entry holding a never touches the first entry keyed u
      when that entry holds some other socket b. */
  lemma {:induction false} LookupSurvivesDelete(e: seq<Entry>, u: UserId, a: SocketId, b: SocketId)
    requires a != b && Lookup(e, u) == Some(b)
    ensures Lookup(DeleteFirstBySocket(e, a), u) == Some(b)
  {
    if e[0].user != u {
      if e[0].socket != a {
        LookupSurvivesDelete(e[1..], u, a, b);
        assert ([e[0]] + DeleteFirstBySocket(e[1..], a))[1..] == DeleteFirstBySocket(e[1..], a);
      }
    }
  }

  /** A disconnect takes its user offline when no other user shares the
      socket, and leaves every other user's binding as it was. */
  lemma {:induction false} DisconnectTakesUserOffline(e: seq<Entry>, u: UserId, s: SocketId)
    requires NoDup(Keys(e)) && Lookup(e, u) == Some(s)
    requires forall i :: 0 <= i < |e| && e[i].socket == s ==> e[i].user == u
    ensures Lookup(DeleteFirstBySocket(e, s), u) == None
    ensures forall v :: v != u ==> Lookup(DeleteFirstBySocket(e, s), v) == Lookup(e, v)
  {
    KeysTail(e);
    if e[0].socket != s {
      DisconnectTakesUserOffline(e[1..], u, s);
      assert ([e[0]] + DeleteFirstBySocket(e[1..], s))[1..] == DeleteFirstBySocket(e[1..], s);
    }
  }

  /** `set` of a key not yet in the map appends its entry at the end. */
  lemma {:induction false} MapSetNewKey(e: seq<Entry>, u: UserId, s: SocketId)
    requires u !in Keys(e)
    ensures MapSet(e, u, s) == e + [Entry(u, s)]
  {
    if e != [] {
      assert e == [e[0]] + e[1..];
      KeysCons(e[0], e[1..]);
      MapSetNewKey(e[1..], u, s);
      assert [e[0]] + (e[1..] + [Entry(u, s)]) == e + [Entry(u, s)];
    }
  }

  /** Looking up a key absent from e in e followed by one more entry. */
  lemma {:induction false} LookupSnoc(e: seq<Entry>, x: Entry, u: UserId)
    requires u !in Keys(e)
    ensures Lookup(e + [x], u) == if x.user == u then Some(x.socket) else None
  {
    if e != [] {
      assert e == [e[0]] + e[1..];
      KeysCons(e[0], e[1..]);
      assert (e + [x])[1..] == e[1..] + [x];
      LookupSnoc(e[1..], x, u);
    }
  }

  /** Two new user ids joined, in that order, from one socket s that no entry
      held: its disconnect removes the id inserted first and keeps the one
      inserted second, still bound to the closed socket. */
  lemma SharedSocketLeavesStaleEntry(e: seq<Entry>, u1: UserId, u2: UserId, s: SocketId)
    requires u1 != u2 && u1 !in Keys(e) && u2 !in Keys(e)
    requires forall i :: 0 <= i < |e| ==> e[i].socket != s
    ensures var d := DeleteFirstBySocket(MapSet(MapSet(e, u1, s), u2, s), s);
            && d == e + [Entry(u2, s)]
            && Lookup(d, u1) == None
            && Lookup(d, u2) == Some(s)
  {
    MapSetNewKey(e, u1, s);
    var e1 := e + [Entry(u1, s)];
    assert Keys(e1) == Keys(e) + [u1];
    MapSetNewKey(e1, u2, s);
    var e2 := e1 + [Entry(u2, s)];
    DeleteFirstBySocketAt(e2, s, |e|);
    assert e2[..|e|] + e2[|e| + 1..] == e + [Entry(u2, s)];
    LookupSnoc(e, Entry(u2, s), u1);
    LookupSnoc(e, Entry(u2, s), u2);
  }

  /** `set` keeps the keys free of duplicates. */
  lemma MapSetNoDup(e: seq<Entry>, u: UserId, s: SocketId)
    requires NoDup(Keys(e))
    ensures NoDup(Keys(MapSet(e, u, s)))
  {
  }
}
