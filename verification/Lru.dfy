/**
 The least-recently-used caches of the gossip layer: the seen set (src/gossip/seen_set.rs) and the message cache
 with its time limit (src/gossip/message_cache.rs).  `Lru` stands for the cache library both build on.
 */
module Lru {
  import opened Wrappers
  import opened Peers
  import opened Sequences

  /** A bounded map; `order` lists the keys, most recently used first. */
  datatype Lru<K(==), V> = Lru(cap: nat, order: seq<K>, vals: map<K, V>)
  {
    predicate Has(k: K) {
      k in vals
    }

    function Put(k: K, v: V): Lru<K, V> {
      var o := [k] + Without(order, k);
      if |o| > cap then Lru(cap, o[..|o| - 1], vals[k := v] - {o[|o| - 1]}) else Lru(cap, o, vals[k := v])
    }

    function Pop(k: K): Lru<K, V> {
      Lru(cap, Without(order, k), vals - {k})
    }
  }

  ghost predicate Valid<K(!new), V>(l: Lru<K, V>) {
    && l.cap >= 1 && |l.order| <= l.cap && Distinct(l.order)
    && (forall k :: k in l.order <==> k in l.vals)
  }

  function New<K, V>(capacity: nat): (l: Lru<K, V>)
    ensures l.cap >= 1
  {
    Lru(if capacity == 0 then 1 else capacity, [], map[])
  }

  lemma PutKeeps<K(!new), V>(l: Lru<K, V>, k: K, v: V)
    requires Valid(l)
    ensures Valid(l.Put(k, v)) && k in l.Put(k, v).vals && l.Put(k, v).vals[k] == v
    ensures forall x :: x in l.Put(k, v).vals && x != k ==> x in l.vals && l.Put(k, v).vals[x] == l.vals[x]
  {
    hide Without, Distinct;
    ToFront(l.order, k);
    var o := [k] + Without(l.order, k);
    if |o| > l.cap { LastDropped(o); }
  }

  lemma ToFront<K(!new)>(s: seq<K>, k: K)
    requires Distinct(s)
    ensures var o := [k] + Without(s, k);
      && Distinct(o) && |o| <= |s| + 1 && (k in s ==> |o| <= |s|)
      && (forall y :: y in o <==> y == k || y in s)
      && (forall i :: 0 < i < |o| ==> o[i] != k)
  {
    WithoutKeeps(s, k);
    if k in s { WithoutShorter(s, k); }
  }

  lemma LastDropped<K(!new)>(o: seq<K>)
    requires o != [] && Distinct(o)
    ensures var n := |o| - 1; Distinct(o[..n]) && forall y :: y in o[..n] <==> y in o && y != o[n]
  {
    var n := |o| - 1;
    assert o == o[..n] + [o[n]];
  }

  lemma {:induction false} WithoutShorter<K(!new)>(s: seq<K>, x: K)
    requires x in s
    ensures |Without(s, x)| < |s|
  {
    if s[0] == x { WithoutKeeps(s[1..], x); } else { WithoutShorter(s[1..], x); }
  }

  lemma PopKeeps<K(!new), V>(l: Lru<K, V>, k: K)
    requires Valid(l)
    ensures Valid(l.Pop(k))
  {
    WithoutKeeps(l.order, k);
  }

  /** The keys used more recently than `k`. */
  function Ahead<K(==)>(order: seq<K>, k: K): set<K> {
    if order == [] || order[0] == k then {} else {order[0]} + Ahead(order[1..], k)
  }

  lemma {:induction false} AheadWithout<K(!new)>(s: seq<K>, x: K, k: K)
    requires x != k
    ensures Ahead(Without(s, x), k) == Ahead(s, k) - {x}
  {
    if s != [] { AheadWithout(s[1..], x, k); }
  }

  lemma {:induction false} AheadOfLast<K(!new)>(s: seq<K>)
    requires s != [] && Distinct(s)
    ensures Ahead(s, s[|s| - 1]) == ToSet(s[..|s| - 1])
    ensures forall k :: k in s && k != s[|s| - 1] ==> k in s[..|s| - 1]
    ensures forall k :: k in s[..|s| - 1] ==> Ahead(s[..|s| - 1], k) == Ahead(s, k)
  {
    var n := |s| - 1;
    AheadPrefix(s, n);
    assert s == s[..n] + [s[n]];
  }

  lemma {:induction false} AheadPrefix<K(!new)>(s: seq<K>, n: nat)
    requires n < |s| && Distinct(s)
    ensures Ahead(s, s[n]) == ToSet(s[..n])
    ensures forall k :: k in s[..n] ==> Ahead(s[..n], k) == Ahead(s, k)
  {
    if n > 0 {
      assert s[1..][n - 1] == s[n];
      assert Distinct(s[1..]) by { assert forall i :: 0 <= i < |s[1..]| ==> s[1..][i] == s[i + 1]; }
      AheadPrefix(s[1..], n - 1);
      assert s[..n] == [s[0]] + s[1..][..n - 1];
      assert s[..n][1..] == s[1..][..n - 1];
    }
  }

  lemma AheadFront<K(!new)>(s: seq<K>, x: K, k: K)
    requires x != k
    ensures Ahead([x] + s, k) == {x} + Ahead(s, k)
  {
    assert ([x] + s)[1..] == s;
  }

  /** Using `x` leaves another key `k` in place with `x` ahead of it, or drops it with `cap` keys ahead. */
  lemma PutMoves<K(!new), V>(l: Lru<K, V>, x: K, v: V, k: K)
    requires Valid(l) && k in l.vals && k != x
    ensures k in l.Put(x, v).vals ==> Ahead(l.Put(x, v).order, k) == Ahead(l.order, k) + {x}
    ensures k !in l.Put(x, v).vals ==> |Ahead(l.order, k) + {x}| >= l.cap
  {
    hide Without, Distinct, Ahead;
    ToFront(l.order, x);
    MovedAhead(l.order, x, k);
  }

  /** The same of the order alone, with its last key dropped or not. */
  lemma MovedAhead<K(!new)>(order: seq<K>, x: K, k: K)
    requires Distinct(order) && k in order && k != x
    ensures var o := [x] + Without(order, x); var n := |o| - 1;
      && Ahead(o, k) == Ahead(order, k) + {x}
      && (k != o[n] ==> Ahead(o[..n], k) == Ahead(order, k) + {x})
      && (k == o[n] ==> |Ahead(order, k) + {x}| == n)
  {
    hide Without, Distinct, Ahead;
    var o := [x] + Without(order, x);
    ToFront(order, x);
    AheadWithout(order, x, k);
    AheadFront(Without(order, x), x, k);
    LastDropped(o);
    AheadOfLast(o);
    if k == o[|o| - 1] { DistinctCard(o[..|o| - 1]); }
  }

  // ---- the seen set --------------------------------------------------------------------------

  type Hash = nat

  function SeenInsert(s: Lru<Hash, ()>, h: Hash): (Lru<Hash, ()>, bool) {
    if s.Has(h) then (s, false) else (s.Put(h, ()), true)
  }

  function AfterInserts(s: Lru<Hash, ()>, hs: seq<Hash>): Lru<Hash, ()>
    decreases |hs|
  {
    if hs == [] then s else AfterInserts(SeenInsert(s, hs[0]).0, hs[1..])
  }

  /** The hashes reported new while inserting `hs`. */
  function News(s: Lru<Hash, ()>, hs: seq<Hash>): set<Hash>
    decreases |hs|
  {
    if hs == [] then {}
    else (if SeenInsert(s, hs[0]).1 then {hs[0]} else {}) + News(SeenInsert(s, hs[0]).0, hs[1..])
  }

  lemma {:induction false} ForgottenAfterCapacity(s: Lru<Hash, ()>, h: Hash, hs: seq<Hash>)
    requires Valid(s) && s.Has(h) && !AfterInserts(s, hs).Has(h)
    ensures |Ahead(s.order, h) + News(s, hs) - {h}| >= s.cap
    decreases |hs|
  {
    hide Valid, Ahead;
    var x := hs[0];
    if s.Has(x) {
      ForgottenAfterCapacity(s, h, hs[1..]);
    } else {
      var u := s.Put(x, ());
      PutKeeps(s, x, ());
      PutMoves(s, x, (), h);
      if u.Has(h) {
        ForgottenAfterCapacity(u, h, hs[1..]);
        assert Ahead(u.order, h) + News(u, hs[1..]) - {h} == Ahead(s.order, h) + News(s, hs) - {h};
      } else {
        AheadExcludes(s.order, h);
        SubsetCard(Ahead(s.order, h) + {x}, Ahead(s.order, h) + News(s, hs) - {h});
      }
    }
  }

  lemma {:induction false} AheadExcludes<K(!new)>(s: seq<K>, k: K)
    ensures k !in Ahead(s, k)
  {
    if s != [] { AheadExcludes(s[1..], k); }
  }

  /** The seen set reports a hash as new a second time only if at least `cap` other hashes were reported new
      in between. */
  lemma NewTwiceNeedsCapacity(s: Lru<Hash, ()>, h: Hash, hs: seq<Hash>)
    requires Valid(s) && SeenInsert(s, h).1
    requires SeenInsert(AfterInserts(SeenInsert(s, h).0, hs), h).1
    ensures |News(SeenInsert(s, h).0, hs) - {h}| >= s.cap
  {
    var u := s.Put(h, ());
    PutKeeps(s, h, ());
    ForgottenAfterCapacity(u, h, hs);
    assert Ahead(u.order, h) == {};
    assert {} + News(u, hs) - {h} == News(u, hs) - {h};
  }

  function Latest(s: seq<Hash>, n: nat): seq<Hash> {
    if |s| <= n then s else s[|s| - n..]
  }

  /** The reference: the hashes that were new when they came, in order, when one is new unless it is among the latest
      `cap` new ones. */
  function NewOnes(cap: nat, hs: seq<Hash>): seq<Hash> {
    if hs == [] then []
    else
      var before := NewOnes(cap, hs[..|hs| - 1]);
      var h := hs[|hs| - 1];
      if h in Latest(before, cap) then before else before + [h]
  }

  lemma {:induction false} InsertsSnoc(s: Lru<Hash, ()>, hs: seq<Hash>, h: Hash)
    ensures AfterInserts(s, hs + [h]) == SeenInsert(AfterInserts(s, hs), h).0
    decreases |hs|
  {
    hide SeenInsert;
    if hs == [] {
      assert hs + [h] == [h] && [h][1..] == [];
      assert AfterInserts(s, [h]) == AfterInserts(SeenInsert(s, h).0, []);
    } else {
      assert (hs + [h])[1..] == hs[1..] + [h];
      InsertsSnoc(SeenInsert(s, hs[0]).0, hs[1..], h);
    }
  }

  /** `order`, most recent first, is `s` backwards. */
  ghost predicate Backwards(order: seq<Hash>, s: seq<Hash>) {
    |order| == |s| && forall i :: 0 <= i < |s| ==> order[i] == s[|s| - 1 - i]
  }

  lemma BackwardsHas(order: seq<Hash>, s: seq<Hash>, h: Hash)
    requires Backwards(order, s)
    ensures h in order <==> h in s
  {
    if h in s {
      var i :| 0 <= i < |s| && s[i] == h;
      assert order[|s| - 1 - i] == h;
    }
  }

  lemma {:induction false} WithoutAbsent(s: seq<Hash>, h: Hash)
    requires h !in s
    ensures Without(s, h) == s
  {
    if s != [] { WithoutAbsent(s[1..], h); }
  }

  lemma PutBackwards(l: Lru<Hash, ()>, news: seq<Hash>, h: Hash)
    requires Valid(l) && !l.Has(h) && Backwards(l.order, Latest(news, l.cap))
    ensures Backwards(l.Put(h, ()).order, Latest(news + [h], l.cap))
  {
    hide Without, Distinct, Backwards, Latest;
    WithoutAbsent(l.order, h);
    LatestGrows(news, h, l.cap);
    BackwardsGrows(l.order, Latest(news, l.cap), h);
  }

  lemma LatestGrows(news: seq<Hash>, h: Hash, cap: nat)
    requires cap >= 1
    ensures var s := Latest(news, cap);
      |s| <= cap && Latest(news + [h], cap) == if |s| < cap then s + [h] else s[1..] + [h]
  {
  }

  lemma BackwardsGrows(order: seq<Hash>, s: seq<Hash>, h: Hash)
    requires Backwards(order, s)
    ensures |order| == |s| && Backwards([h] + order, s + [h])
    ensures s != [] ==> Backwards(([h] + order)[..|order|], s[1..] + [h])
  {
  }

  lemma {:induction false} SeenIsLatest(cap: nat, hs: seq<Hash>)
    ensures var s := AfterInserts(New(cap), hs);
      Valid(s) && s.cap == New<Hash, ()>(cap).cap && Backwards(s.order, Latest(NewOnes(s.cap, hs), s.cap))
  {
    hide Without, Distinct, Lru<Hash, ()>.Put;
    if hs == [] {
      FreshIsValid(cap);
    } else {
      var n := |hs| - 1;
      var s := AfterInserts(New(cap), hs[..n]);
      SeenIsLatest(cap, hs[..n]);
      InsertsSnoc(New(cap), hs[..n], hs[n]);
      assert hs == hs[..n] + [hs[n]];
      BackwardsHas(s.order, Latest(NewOnes(s.cap, hs[..n]), s.cap), hs[n]);
      if !s.Has(hs[n]) {
        PutKeeps(s, hs[n], ());
        PutCap(s, hs[n]);
        PutBackwards(s, NewOnes(s.cap, hs[..n]), hs[n]);
      }
    }
  }

  lemma FreshIsValid(cap: nat)
    ensures Valid(New<Hash, ()>(cap))
  {
  }

  lemma PutCap(l: Lru<Hash, ()>, h: Hash)
    ensures l.Put(h, ()).cap == l.cap
  {
  }

  /** Over every run of a fresh seen set: a hash is reported new exactly if it is not among the latest `capacity` hashes
      that were reported new; in particular when it comes for the first time. */
  lemma NewExactly(capacity: nat, hs: seq<Hash>, h: Hash)
    ensures var s := AfterInserts(New(capacity), hs); var cap := if capacity == 0 then 1 else capacity;
      && (SeenInsert(s, h).1 <==> h !in Latest(NewOnes(cap, hs), cap))
      && (h !in hs ==> SeenInsert(s, h).1)
  {
    var s := AfterInserts(New(capacity), hs);
    SeenIsLatest(capacity, hs);
    BackwardsHas(s.order, Latest(NewOnes(s.cap, hs), s.cap), h);
    NewOnesCame(s.cap, hs, h);
  }

  lemma {:induction false} NewOnesCame(cap: nat, hs: seq<Hash>, h: Hash)
    ensures h in NewOnes(cap, hs) ==> h in hs
  {
    if hs != [] {
      NewOnesCame(cap, hs[..|hs| - 1], h);
      assert hs == hs[..|hs| - 1] + [hs[|hs| - 1]];
    }
  }

  class SeenSet {
    var hashes: Lru<Hash, ()>

    ghost predicate Wf()
      reads this
    {
      Valid(hashes)
    }

    constructor (capacity: nat)
      ensures Wf() && hashes == New(capacity)
    {
      hashes := New(capacity);
    }

    method Insert(hash: Hash) returns (isNew: bool)
      requires Wf()
      modifies this
      ensures Wf() && (hashes, isNew) == SeenInsert(old(hashes), hash)
    {
      PutKeeps(hashes, hash, ());
      if hashes.Has(hash) {
        isNew := false;
      } else {
        hashes := hashes.Put(hash, ());
        isNew := true;
      }
    }
  }

  // ---- the message cache ---------------------------------------------------------------------

  datatype Entry = Entry(data: seq<nat>, msgType: nat, insertedAt: nat)

  datatype CacheOp = Insert(hash: Hash, msgType: nat, data: seq<nat>, now: nat) | Get(hash: Hash, now: nat)

  predicate Expired(e: Entry, now: nat, ttl: nat) {
    SatSub(now, e.insertedAt) > ttl
  }

  function CacheInsert(c: Lru<Hash, Entry>, hash: Hash, msgType: nat, data: seq<nat>, now: nat): Lru<Hash, Entry> {
    c.Put(hash, Entry(data, msgType, now))
  }

  function CacheGet(c: Lru<Hash, Entry>, hash: Hash, now: nat, ttl: nat): (Lru<Hash, Entry>, Option<Entry>) {
    if c.Has(hash) && !Expired(c.vals[hash], now, ttl) then (c.Put(hash, c.vals[hash]), Some(c.vals[hash]))
    else (c.Pop(hash), None)
  }

  function CacheRun(capacity: nat, ttl: nat, ops: seq<CacheOp>): Lru<Hash, Entry> {
    if ops == [] then New(capacity)
    else
      var c := CacheRun(capacity, ttl, ops[..|ops| - 1]);
      match ops[|ops| - 1]
      case Insert(h, m, d, now) => CacheInsert(c, h, m, d, now)
      case Get(h, now) => CacheGet(c, h, now, ttl).0
  }

  /** The reference: an unbounded map of the latest insertions, which forgets an entry found expired. */
  function Timed(ttl: nat, ops: seq<CacheOp>): map<Hash, Entry> {
    if ops == [] then map[]
    else
      var m := Timed(ttl, ops[..|ops| - 1]);
      match ops[|ops| - 1]
      case Insert(h, t, d, now) => m[h := Entry(d, t, now)]
      case Get(h, now) => if h in m && Expired(m[h], now, ttl) then m - {h} else m
  }

  /** The other hashes mentioned since `h` was last inserted. */
  function OthersSince(ops: seq<CacheOp>, h: Hash): set<Hash> {
    if ops == [] then {}
    else
      var op := ops[|ops| - 1];
      if op.hash == h then (if op.Insert? then {} else OthersSince(ops[..|ops| - 1], h))
      else OthersSince(ops[..|ops| - 1], h) + {op.hash}
  }

  ghost predicate Agrees(capacity: nat, ttl: nat, ops: seq<CacheOp>, h: Hash) {
    var c, m := CacheRun(capacity, ttl, ops), Timed(ttl, ops);
    && (c.Has(h) ==> h in m && c.vals[h] == m[h] && Ahead(c.order, h) <= OthersSince(ops, h))
    && (h in m && !c.Has(h) ==> |OthersSince(ops, h)| >= c.cap)
  }

  lemma {:induction false} CacheRefines(capacity: nat, ttl: nat, ops: seq<CacheOp>, h: Hash)
    ensures Valid(CacheRun(capacity, ttl, ops)) && Agrees(capacity, ttl, ops, h)
    ensures CacheRun(capacity, ttl, ops).cap == New<Hash, Entry>(capacity).cap
  {
    if ops != [] {
      var before := ops[..|ops| - 1];
      CacheRefines(capacity, ttl, before, h);
      CacheStep(capacity, ttl, ops, h);
    }
  }

  lemma CacheStep(capacity: nat, ttl: nat, ops: seq<CacheOp>, h: Hash)
    requires ops != [] && var b := ops[..|ops| - 1]; Valid(CacheRun(capacity, ttl, b)) && Agrees(capacity, ttl, b, h)
    ensures Valid(CacheRun(capacity, ttl, ops)) && Agrees(capacity, ttl, ops, h)
    ensures CacheRun(capacity, ttl, ops).cap == CacheRun(capacity, ttl, ops[..|ops| - 1]).cap
  {
    var before := ops[..|ops| - 1];
    var op := ops[|ops| - 1];
    var c := CacheRun(capacity, ttl, before);
    var x := op.hash;
    if op.Insert? {
      UseStep(c, x, Entry(op.data, op.msgType, op.now), h, OthersSince(before, h));
    } else if c.Has(x) && !Expired(c.vals[x], op.now, ttl) {
      UseStep(c, x, c.vals[x], h, OthersSince(before, h));
    } else {
      PopKeeps(c, x);
      if h != x { AheadWithout(c.order, x, h); SubsetCard(OthersSince(before, h), OthersSince(ops, h)); }
    }
  }

  /** One use of `x` seen from `h`. */
  lemma UseStep(c: Lru<Hash, Entry>, x: Hash, e: Entry, h: Hash, others: set<Hash>)
    requires Valid(c) && (c.Has(h) ==> Ahead(c.order, h) <= others)
    ensures Valid(c.Put(x, e)) && c.Put(x, e).Has(x) && c.Put(x, e).vals[x] == e
    ensures x == h ==> Ahead(c.Put(x, e).order, h) == {}
    ensures x != h && c.Put(x, e).Has(h) ==>
      c.Has(h) && c.Put(x, e).vals[h] == c.vals[h] && Ahead(c.Put(x, e).order, h) <= others + {x}
    ensures x != h && c.Has(h) && !c.Put(x, e).Has(h) ==> |others + {x}| >= c.cap
    ensures |others| <= |others + {x}|
  {
    PutKeeps(c, x, e);
    SubsetCard(others, others + {x});
    if x != h && c.Has(h) {
      PutMoves(c, x, e, h);
      SubsetCard(Ahead(c.order, h) + {x}, others + {x});
    }
  }

  /** A lookup answers with the latest value inserted for the hash, no older than the limit, or not at all;
      and it does answer whenever the unbounded map would, unless `cap` other hashes came up since. */
  lemma GetIsTimed(capacity: nat, ttl: nat, ops: seq<CacheOp>, h: Hash, now: nat)
    ensures var got := CacheGet(CacheRun(capacity, ttl, ops), h, now, ttl).1; var m := Timed(ttl, ops);
      && (got.Some? ==> h in m && got.value == m[h] && SatSub(now, m[h].insertedAt) <= ttl)
      && (|OthersSince(ops, h)| < New<Hash, Entry>(capacity).cap ==>
          (got.Some? <==> h in m && SatSub(now, m[h].insertedAt) <= ttl))
  {
    CacheRefines(capacity, ttl, ops, h);
  }

  /** What the reference remembers is what was inserted last. */
  lemma {:induction false} TimedIsLatest(ttl: nat, ops: seq<CacheOp>, h: Hash, i: nat)
    requires i < |ops| && ops[i].Insert? && ops[i].hash == h && h in Timed(ttl, ops)
    requires forall j :: i < j < |ops| ==> !(ops[j].Insert? && ops[j].hash == h)
    ensures Timed(ttl, ops)[h] == Entry(ops[i].data, ops[i].msgType, ops[i].now)
  {
    if i < |ops| - 1 {
      assert ops[..|ops| - 1][i] == ops[i];
      TimedIsLatest(ttl, ops[..|ops| - 1], h, i);
    }
  }

  /** Operation `i` is the last insertion for `h`, and no lookup of `h` since has found it expired. */
  ghost predicate Fresh(ttl: nat, ops: seq<CacheOp>, h: Hash, i: nat) {
    && i < |ops| && ops[i].Insert? && ops[i].hash == h
    && (forall j :: i < j < |ops| && ops[j].hash == h ==> ops[j].Get? && SatSub(ops[j].now, ops[i].now) <= ttl)
  }

  /** What the reference remembers is exactly the last insertion, unless a lookup since has found it expired. */
  lemma {:induction false} TimedExactly(ttl: nat, ops: seq<CacheOp>, h: Hash)
    ensures h in Timed(ttl, ops) <==> exists i: nat :: Fresh(ttl, ops, h, i)
    ensures forall i: nat :: Fresh(ttl, ops, h, i) && h in Timed(ttl, ops) ==>
      Timed(ttl, ops)[h] == Entry(ops[i].data, ops[i].msgType, ops[i].now)
  {
    if ops != [] {
      var n := |ops| - 1;
      var before := ops[..n];
      TimedExactly(ttl, before, h);
      if ops[n].hash != h {
        forall i: nat ensures Fresh(ttl, ops, h, i) <==> Fresh(ttl, before, h, i) { FreshFrame(ttl, ops, h, i); }
      } else if ops[n].Insert? {
        assert Fresh(ttl, ops, h, n);
        forall i: nat | Fresh(ttl, ops, h, i) ensures i == n {}
      } else {
        forall i: nat ensures Fresh(ttl, ops, h, i) <==> Fresh(ttl, before, h, i) && SatSub(ops[n].now, ops[i].now) <= ttl {
          FreshGet(ttl, ops, h, i);
        }
      }
    }
  }

  lemma FreshFrame(ttl: nat, ops: seq<CacheOp>, h: Hash, i: nat)
    requires ops != [] && ops[|ops| - 1].hash != h
    ensures Fresh(ttl, ops, h, i) <==> Fresh(ttl, ops[..|ops| - 1], h, i)
  {
  }

  lemma FreshGet(ttl: nat, ops: seq<CacheOp>, h: Hash, i: nat)
    requires ops != [] && ops[|ops| - 1].Get? && ops[|ops| - 1].hash == h
    ensures Fresh(ttl, ops, h, i) <==>
      Fresh(ttl, ops[..|ops| - 1], h, i) && SatSub(ops[|ops| - 1].now, ops[i].now) <= ttl
  {
  }

  class MessageCache {
    var cache: Lru<Hash, Entry>
    const ttlSecs: nat

    ghost predicate Wf()
      reads this
    {
      Valid(cache)
    }

    constructor (capacity: nat, ttlSecs: nat)
      ensures Wf() && cache == New(capacity) && this.ttlSecs == ttlSecs
    {
      cache := New(capacity);
      this.ttlSecs := ttlSecs;
    }

    method Insert(hash: Hash, msgType: nat, data: seq<nat>, now: nat)
      requires Wf()
      modifies this
      ensures Wf() && cache == CacheInsert(old(cache), hash, msgType, data, now)
    {
      PutKeeps(cache, hash, Entry(data, msgType, now));
      cache := cache.Put(hash, Entry(data, msgType, now));
    }

    method Get(hash: Hash, now: nat) returns (found: Option<Entry>)
      requires Wf()
      modifies this
      ensures Wf() && (cache, found) == CacheGet(old(cache), hash, now, ttlSecs)
    {
      PopKeeps(cache, hash);
      var expired := if cache.Has(hash) then Expired(cache.vals[hash], now, ttlSecs) else true;
      if expired {
        cache := cache.Pop(hash);
        return None;
      }
      var e := cache.vals[hash];
      PutKeeps(cache, hash, e);
      cache := cache.Put(hash, e);
      return Some(e);
    }
  }
}
