/**
 * The key -> connection table that both connection registries keep
 * (`#connections = new Map()` in src/EventBus/WebSocket.js and Pm2Events.js),
 * with JavaScript `Map` semantics: one entry per key, iteration in insertion
 * order, `set` on an existing key keeping its position, `delete` reporting
 * whether the key was present. Also what a broadcast over the table delivers.
 */
module Registry {
  import opened Values

  /** A live client connection, by identity. */
  type ConnId = nat

  /** What `socket.send` receives: the JSON encoding of a value, or a value passed through as it is. */
  datatype Frame = Json(value: Value) | Raw(value: Value)

  /** The `data` of the pong reply: the flag of Ukraine (two regional indicator symbols). */
  const PONG_DATA: string := "\U{1F1FA}\U{1F1E6}"

  /** The reply both registries send to a `ping`: `JSON.stringify({type: 'pong', data: ...})`. */
  function PongFrame(): (f: Frame)
    ensures f.Json? && HasType(f.value, "pong")
  {
    Json(Obj(map["type" := Str("pong"), "data" := Str(PONG_DATA)]))
  }

  /** One successful `socket.send`: the table key it was addressed through, the connection, the frame. */
  datatype Delivery<K> = Delivery(key: K, conn: ConnId, frame: Frame)

  /** An insertion-ordered map. */
  datatype Table<K> = Table(order: seq<K>, entries: map<K, ConnId>)

  predicate Distinct<K(==,!new)>(s: seq<K>) {
    forall i, j :: 0 <= i < j < |s| ==> s[i] != s[j]
  }

  /** Every key occurs once in the order, and the order lists exactly the keys. */
  ghost predicate WellFormed<K(!new)>(t: Table<K>) {
    && Distinct(t.order)
    && (forall k :: k in t.order <==> k in t.entries)
  }

  function Empty<K(==,!new)>(): (t: Table<K>)
    ensures WellFormed(t) && t.entries == map[]
  {
    Table([], map[])
  }

  /** `order` without `k`. */
  function Without<K(==,!new)>(s: seq<K>, k: K): (r: seq<K>)
    ensures forall x :: x in r <==> x in s && x != k
    ensures |r| <= |s|
  {
    if s == [] then []
    else
      assert forall x :: x in s <==> x == s[0] || x in s[1..] by { assert s == [s[0]] + s[1..]; }
      (if s[0] == k then [] else [s[0]]) + Without(s[1..], k)
  }

  lemma {:induction false} WithoutDistinct<K(!new)>(s: seq<K>, k: K)
    requires Distinct(s)
    ensures Distinct(Without(s, k))
  {
    if s != [] {
      assert Distinct(s[1..]) by {
        forall i, j | 0 <= i < j < |s[1..]| ensures s[1..][i] != s[1..][j] {
          assert s[1..][i] == s[i + 1] && s[1..][j] == s[j + 1];
        }
      }
      WithoutDistinct(s[1..], k);
      assert s[0] !in s[1..];
    }
  }

  /** Removing `k` distributes over concatenation, so the remaining elements keep their order. */
  lemma {:induction false} WithoutConcat<K(!new)>(a: seq<K>, b: seq<K>, k: K)
    ensures Without(a + b, k) == Without(a, k) + Without(b, k)
  {
    if a == [] {
      assert a + b == b;
    } else {
      assert (a + b)[0] == a[0];
      assert (a + b)[1..] == a[1..] + b;
      WithoutConcat(a[1..], b, k);
    }
  }

  /** Every occurrence of `k` goes, and every other element keeps its number of occurrences. */
  lemma {:induction false} WithoutCounts<K(!new)>(s: seq<K>, k: K, x: K)
    ensures multiset(Without(s, k))[x] == if x == k then 0 else multiset(s)[x]
  {
    if s != [] {
      assert s == [s[0]] + s[1..];
      WithoutCounts(s[1..], k, x);
    }
  }

  /** `map.set(k, c)`: replaces the connection under `k` (keeping its position) or appends `k`. */
  function Set<K(==,!new)>(t: Table<K>, k: K, c: ConnId): (r: Table<K>)
    requires WellFormed(t)
    ensures WellFormed(r)
    ensures r.entries == t.entries[k := c]
    ensures k in t.entries ==> r.order == t.order
    ensures k !in t.entries ==> r.order == t.order + [k]
  {
    if k in t.entries then Table(t.order, t.entries[k := c])
    else Table(t.order + [k], t.entries[k := c])
  }

  /** `map.delete(k)`: the table without `k`, and whether `k` was present. */
  function Delete<K(==,!new)>(t: Table<K>, k: K): (r: (Table<K>, bool))
    requires WellFormed(t)
    ensures WellFormed(r.0)
    ensures r.0.entries == t.entries - {k}
    ensures r.1 <==> k in t.entries
    ensures r.0.order == Without(t.order, k)
  {
    WithoutDistinct(t.order, k);
    (Table(Without(t.order, k), t.entries - {k}), k in t.entries)
  }

  /** Last add wins: two adds under one key leave one entry, the second connection, in the first one's place. */
  lemma LastAddWins<K(!new)>(t: Table<K>, k: K, c1: ConnId, c2: ConnId)
    requires WellFormed(t)
    ensures Set(Set(t, k, c1), k, c2).entries == t.entries[k := c2]
    ensures Set(Set(t, k, c1), k, c2) == Set(t, k, c2)
  {
  }

  /** Removing a key touches no other entry; removing it again finds nothing. */
  lemma DeleteOnlyThatKey<K(!new)>(t: Table<K>, k: K, other: K)
    requires WellFormed(t) && other != k
    ensures other in Delete(t, k).0.entries <==> other in t.entries
    ensures other in t.entries ==> Delete(t, k).0.entries[other] == t.entries[other]
    ensures !Delete(Delete(t, k).0, k).1
  {
  }

  /** The deliveries a broadcast of `frame` makes, one per key in `keys` whose connection does not fail. */
  function Broadcast<K(==,!new)>(keys: seq<K>, entries: map<K, ConnId>, failing: set<ConnId>, frame: Frame): seq<Delivery<K>>
    requires forall k :: k in keys ==> k in entries
  {
    if keys == [] then []
    else
      var k := keys[|keys| - 1];
      Broadcast(keys[..|keys| - 1], entries, failing, frame) +
        (if entries[k] in failing then [] else [Delivery(k, entries[k], frame)])
  }

  /** How many of the deliveries went through key `k`. */
  function CountFor<K(==,!new)>(ds: seq<Delivery<K>>, k: K): nat {
    if ds == [] then 0 else CountFor(ds[..|ds| - 1], k) + (if ds[|ds| - 1].key == k then 1 else 0)
  }

  lemma {:induction false} CountForAppend<K(!new)>(a: seq<Delivery<K>>, b: seq<Delivery<K>>, k: K)
    ensures CountFor(a + b, k) == CountFor(a, k) + CountFor(b, k)
    decreases |b|
  {
    if b == [] {
      assert a + b == a;
    } else {
      assert (a + b)[..|a + b| - 1] == a + b[..|b| - 1];
      CountForAppend(a, b[..|b| - 1], k);
    }
  }

  /**
   * A broadcast over distinct keys reaches each key whose connection does not
   * fail exactly once, a failing one not at all, and no key outside the list;
   * every delivery carries the same frame to the connection registered under its key.
   */
  lemma {:induction false} BroadcastOnce<K(!new)>(keys: seq<K>, entries: map<K, ConnId>, failing: set<ConnId>, frame: Frame, k: K)
    requires forall x :: x in keys ==> x in entries
    requires Distinct(keys)
    ensures CountFor(Broadcast(keys, entries, failing, frame), k) ==
      if k in keys && entries[k] !in failing then 1 else 0
    ensures forall d :: d in Broadcast(keys, entries, failing, frame) ==>
      d.key in keys && d.conn == entries[d.key] && d.conn !in failing && d.frame == frame
  {
    if keys != [] {
      var init, last := keys[..|keys| - 1], keys[|keys| - 1];
      assert keys == init + [last];
      assert Distinct(init);
      assert last !in init;
      BroadcastOnce(init, entries, failing, frame, k);
      var tail := if entries[last] in failing then [] else [Delivery(last, entries[last], frame)];
      CountForAppend(Broadcast(init, entries, failing, frame), tail, k);
      if tail != [] {
        assert tail[..0] == [];
      }
    }
  }
}
