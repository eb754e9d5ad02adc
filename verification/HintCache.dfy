/**
 The receiver's cache of distributor hints (DistributorHintCache, src/service/distributor_announce.rs).  Ids are 32
 bytes; they appear here as the numbers those bytes spell in big-endian order, which is their byte-wise order.
 */
module HintCache {
  import opened Sequences
  import opened Codecs

  const MAX_RETAINED: nat := 64

  type Id = nat

  datatype Key = Key(store: Id, launcher: Id)

  // ---- admission by age ----------------------------------------------------------------------

  /** Admit one key: a key already retained is ignored, and the oldest makes room for a new one. */
  function Admit(order: seq<Key>, k: Key): seq<Key> {
    if k in order then order
    else if |order| < MAX_RETAINED then order + [k]
    else order[|order| - MAX_RETAINED + 1..] + [k]
  }

  function AfterKeys(order: seq<Key>, ks: seq<Key>): seq<Key> {
    if ks == [] then order else Admit(AfterKeys(order, ks[..|ks| - 1]), ks[|ks| - 1])
  }

  function KeysOf(a: Announce): seq<Key> {
    seq(|a.launcherIds|, i requires 0 <= i < |a.launcherIds| => Key(FromBe(a.storeId), FromBe(a.launcherIds[i])))
  }

  function KeysOfAll(frames: seq<Announce>): seq<Key> {
    if frames == [] then [] else KeysOfAll(frames[..|frames| - 1]) + KeysOf(frames[|frames| - 1])
  }

  /** The cache after one frame after the other. */
  function AfterFrames(frames: seq<Announce>): seq<Key> {
    if frames == [] then [] else AfterKeys(AfterFrames(frames[..|frames| - 1]), KeysOf(frames[|frames| - 1]))
  }

  /** The keys that were new when they arrived, in order of arrival. */
  function Novel(ks: seq<Key>): seq<Key> {
    if ks == [] then []
    else
      var before := Novel(ks[..|ks| - 1]);
      var k := ks[|ks| - 1];
      if k in AfterKeys([], ks[..|ks| - 1]) then before else before + [k]
  }

  function Latest(s: seq<Key>, n: nat): seq<Key> {
    if |s| <= n then s else s[|s| - n..]
  }

  lemma AdmitKeeps(order: seq<Key>, k: Key)
    requires Distinct(order) && |order| <= MAX_RETAINED
    ensures Distinct(Admit(order, k)) && |Admit(order, k)| <= MAX_RETAINED && k in Admit(order, k)
    ensures forall x :: x in Admit(order, k) ==> x == k || x in order
    ensures |order| < MAX_RETAINED ==> forall x :: x in order ==> x in Admit(order, k)
  {
  }

  /** The cache is a first-in first-out queue over novel keys: it holds exactly the latest 64 of them. */
  lemma {:induction false} RetainsLatestNovel(ks: seq<Key>)
    ensures AfterKeys([], ks) == Latest(Novel(ks), 64)
    ensures Distinct(AfterKeys([], ks)) && |AfterKeys([], ks)| <= 64
  {
    if ks != [] {
      var before := ks[..|ks| - 1];
      RetainsLatestNovel(before);
      AdmitKeeps(AfterKeys([], before), ks[|ks| - 1]);
      LatestGrows(Novel(before), ks[|ks| - 1]);
    }
  }

  lemma LatestGrows(s: seq<Key>, k: Key)
    ensures var l := Latest(s, MAX_RETAINED);
      Latest(s + [k], MAX_RETAINED) == if |l| < MAX_RETAINED then l + [k] else l[1..] + [k]
  {
  }

  /** Up to 64 distinct keys none is ever dropped. */
  lemma {:induction false} NothingDropped(ks: seq<Key>)
    requires |ToSet(ks)| <= MAX_RETAINED
    ensures ToSet(AfterKeys([], ks)) == ToSet(ks)
  {
    if ks == [] {
      assert ToSet(ks) == {};
    } else {
      var n := |ks| - 1;
      assert ks == ks[..n] + [ks[n]];
      assert ToSet(ks) == ToSet(ks[..n]) + {ks[n]};
      SubsetCard(ToSet(ks[..n]), ToSet(ks));
      NothingDropped(ks[..n]);
      RetainsLatestNovel(ks[..n]);
      OneMore(AfterKeys([], ks[..n]), ks[n], ToSet(ks[..n]));
    }
  }

  lemma OneMore(order: seq<Key>, k: Key, all: set<Key>)
    requires Distinct(order) && ToSet(order) == all && |all + {k}| <= MAX_RETAINED && |order| <= MAX_RETAINED
    ensures ToSet(Admit(order, k)) == all + {k}
  {
    DistinctCard(order);
    AdmitKeeps(order, k);
    if k !in order { assert |all + {k}| == |all| + 1 by { assert k !in ToSet(order); } }
  }

  // ---- answers -------------------------------------------------------------------------------

  function LaunchersFor(retained: set<Key>, store: Id): set<Id> {
    set k | k in retained && k.store == store :: k.launcher
  }

  /** What a query answers: the retained launchers of the store, in ascending order. */
  function HintsForStore(order: seq<Key>, store: Id): seq<Id> {
    SortedIds(LaunchersFor(ToSet(order), store))
  }

  /** An answer is strictly ascending, holds exactly the retained launchers of the store, and depends on nothing
      but the set of retained keys. */
  lemma AnswersAreSorted(order: seq<Key>, store: Id)
    ensures var r := HintsForStore(order, store);
      && (forall i, j :: 0 <= i < j < |r| ==> r[i] < r[j])
      && (forall l :: l in r <==> Key(store, l) in order)
    ensures forall other :: ToSet(other) == ToSet(order) ==> HintsForStore(other, store) == HintsForStore(order, store)
  {
    SortedIdsIsSorted(LaunchersFor(ToSet(order), store));
    forall l ensures l in LaunchersFor(ToSet(order), store) <==> Key(store, l) in order {
      if Key(store, l) in order { assert Key(store, l) in ToSet(order); }
    }
  }

  /** Two peers told of the same at most 64 keys, in whatever frames, in whatever order and however often, answer
      alike. */
  lemma ArrivalOrderDoesNotShow(a: seq<Announce>, b: seq<Announce>, store: Id)
    requires ToSet(KeysOfAll(a)) == ToSet(KeysOfAll(b)) && |ToSet(KeysOfAll(a))| <= 64
    ensures HintsForStore(AfterFrames(a), store) == HintsForStore(AfterFrames(b), store)
  {
    FramesAreKeys(a);
    FramesAreKeys(b);
    NothingDropped(KeysOfAll(a));
    NothingDropped(KeysOfAll(b));
    AnswersAreSorted(AfterKeys([], KeysOfAll(a)), store);
  }

  lemma {:induction false} AfterConcat(order: seq<Key>, a: seq<Key>, b: seq<Key>)
    ensures AfterKeys(order, a + b) == AfterKeys(AfterKeys(order, a), b)
  {
    if b == [] {
      assert a + b == a;
    } else {
      assert (a + b)[..|a + b| - 1] == a + b[..|b| - 1];
      AfterConcat(order, a, b[..|b| - 1]);
    }
  }

  /** How the keys were cut into frames does not matter. */
  lemma {:induction false} FramesAreKeys(frames: seq<Announce>)
    ensures AfterFrames(frames) == AfterKeys([], KeysOfAll(frames))
  {
    if frames != [] {
      var n := |frames| - 1;
      FramesAreKeys(frames[..n]);
      AfterConcat([], KeysOfAll(frames[..n]), KeysOf(frames[n]));
    }
  }

  /** A frame announces `launcher` for `store`. */
  ghost predicate Announces(a: Announce, store: Bytes32, launcher: Bytes32) {
    a.storeId == store && launcher in a.launcherIds
  }

  lemma KeysOfHas(a: Announce, store: Bytes32, launcher: Bytes32)
    ensures Key(FromBe(store), FromBe(launcher)) in KeysOf(a) <==> Announces(a, store, launcher)
  {
    hide FromBe;
    SameNumber(a.storeId, store);
    if Announces(a, store, launcher) {
      var i :| 0 <= i < |a.launcherIds| && a.launcherIds[i] == launcher;
      assert KeysOf(a)[i] == Key(FromBe(store), FromBe(launcher));
    }
    if Key(FromBe(store), FromBe(launcher)) in KeysOf(a) {
      var i :| 0 <= i < |KeysOf(a)| && KeysOf(a)[i] == Key(FromBe(store), FromBe(launcher));
      SameNumber(a.launcherIds[i], launcher);
    }
  }

  lemma SameNumber(a: Bytes32, b: Bytes32)
    ensures FromBe(a) == FromBe(b) <==> a == b
  {
    BeInverse(a);
    BeInverse(b);
  }

  lemma {:induction false} KeysOfAllHas(frames: seq<Announce>, store: Bytes32, launcher: Bytes32)
    ensures Key(FromBe(store), FromBe(launcher)) in KeysOfAll(frames) <==>
      exists i :: 0 <= i < |frames| && Announces(frames[i], store, launcher)
  {
    hide FromBe, KeysOf, Announces;
    if frames != [] {
      var n := |frames| - 1;
      KeysOfAllHas(frames[..n], store, launcher);
      KeysOfHas(frames[n], store, launcher);
      if i :| 0 <= i < |frames| && Announces(frames[i], store, launcher) {
        if i < n { assert Announces(frames[..n][i], store, launcher); }
      }
    }
  }

  /** As long as no more than 64 keys have been announced, a query for a store is answered with exactly the launchers some
      frame announced for it. */
  lemma AnswersWhatWasAnnounced(frames: seq<Announce>, store: Bytes32, launcher: Bytes32)
    requires |ToSet(KeysOfAll(frames))| <= 64
    ensures FromBe(launcher) in HintsForStore(AfterFrames(frames), FromBe(store)) <==>
      exists i :: 0 <= i < |frames| && Announces(frames[i], store, launcher)
  {
    hide FromBe, AfterFrames, AfterKeys, KeysOfAll, HintsForStore, Announces;
    FramesAreKeys(frames);
    NothingDropped(KeysOfAll(frames));
    AnswersAreSorted(AfterFrames(frames), FromBe(store));
    KeysOfAllHas(frames, store, launcher);
    var k := Key(FromBe(store), FromBe(launcher));
    assert k in AfterFrames(frames) <==> k in ToSet(AfterFrames(frames));
    assert k in KeysOfAll(frames) <==> k in ToSet(KeysOfAll(frames));
  }

  // ---- byte-wise order ---------------------------------------------------------------------------

  /** The first byte in which the two differ is smaller in `a`. */
  ghost predicate Before(a: Bytes, b: Bytes) {
    exists i :: 0 <= i < |a| && i < |b| && a[..i] == b[..i] && a[i] < b[i]
  }

  lemma BeforeGrows(a: Bytes, b: Bytes, x: Byte, y: Byte)
    requires |a| == |b|
    ensures Before(a + [x], b + [y]) <==> Before(a, b) || (a == b && x < y)
  {
    var c, d := a + [x], b + [y];
    if i :| 0 <= i < |a| && a[..i] == b[..i] && a[i] < b[i] {
      assert c[..i] == a[..i] && d[..i] == b[..i] && c[i] < d[i];
    }
    if a == b && x < y { assert c[..|a|] == d[..|a|] && c[|a|] < d[|a|]; }
    if i :| 0 <= i < |c| && c[..i] == d[..i] && c[i] < d[i] {
      assert c[..|a|] == a && d[..|a|] == b;
      if i < |a| { assert a[..i] == c[..i] && b[..i] == d[..i] && a[i] < b[i]; }
    }
  }

  lemma DigitsCompare(m: nat, n: nat, x: Byte, y: Byte)
    ensures m * 256 + x < n * 256 + y <==> m < n || (m == n && x < y)
  {
  }

  /** Ids compare as the numbers they spell, and differ when those do. */
  lemma {:induction false} ByteOrderIsNumeric(a: Bytes, b: Bytes)
    requires |a| == |b|
    ensures FromBe(a) < FromBe(b) <==> Before(a, b)
    ensures FromBe(a) == FromBe(b) <==> a == b
  {
    hide Before;
    BeInverse(a);
    BeInverse(b);
    if a != [] {
      var n := |a| - 1;
      ByteOrderIsNumeric(a[..n], b[..n]);
      BeforeGrows(a[..n], b[..n], a[n], b[n]);
      assert a == a[..n] + [a[n]] && b == b[..n] + [b[n]];
      DigitsCompare(FromBe(a[..n]), FromBe(b[..n]), a[n], b[n]);
    } else {
      NothingBefore(a, b);
    }
  }

  lemma NothingBefore(a: Bytes, b: Bytes)
    requires |a| == 0
    ensures !Before(a, b)
  {
  }

  // ---- the cache in the heap ---------------------------------------------------------------------

  class DistributorHintCache {
    var order: seq<Key>
    var seen: set<Key>
    ghost var frames: seq<Announce>   // all frames so far

    /** `seen` mirrors `order`, which is what the frames so far leave: it repeats nothing and stays within the cap. */
    ghost predicate Valid()
      reads this
    {
      Mirrored() && order == AfterFrames(frames)
    }

    ghost predicate Mirrored()
      reads this
    {
      Distinct(order) && |order| <= MAX_RETAINED && seen == ToSet(order)
    }

    constructor ()
      ensures Valid() && order == [] && frames == []
    {
      order, seen, frames := [], {}, [];
    }

    method Union(announce: Announce)
      requires Valid()
      modifies this
      ensures Valid() && order == AfterKeys(old(order), KeysOf(announce)) && frames == old(frames) + [announce]
    {
      ghost var ks := KeysOf(announce);
      var i := 0;
      while i < |announce.launcherIds|
        invariant i <= |announce.launcherIds| && Mirrored() && frames == old(frames)
        invariant order == AfterKeys(old(order), ks[..i])
      {
        assert ks[..i + 1][..i] == ks[..i];
        UnionOne(Key(FromBe(announce.storeId), FromBe(announce.launcherIds[i])));
        i := i + 1;
      }
      assert ks[..i] == ks;
      frames := frames + [announce];
      assert frames[..|frames| - 1] == old(frames);
    }

    method UnionOne(key: Key)
      requires Mirrored()
      modifies this`order, this`seen
      ensures Mirrored() && order == Admit(old(order), key)
    {
      AdmitKeeps(order, key);
      if key in seen { return; }
      seen := seen + {key};
      order := order + [key];
      ghost var grown := order;
      while |order| > MAX_RETAINED
        invariant |grown| - MAX_RETAINED <= 1 && Distinct(order) && seen == ToSet(order)
        invariant order == grown || (|grown| > MAX_RETAINED && order == grown[1..])
        decreases |order|
      {
        var evicted := order[0];
        assert order == [evicted] + order[1..];
        order := order[1..];
        seen := seen - {evicted};
      }
    }

    method HintsFor(store: Id) returns (ids: seq<Id>)
      requires Valid()
      ensures ids == HintsForStore(order, store) && order == AfterFrames(frames)
      ensures (forall i, j :: 0 <= i < j < |ids| ==> ids[i] < ids[j]) && forall l :: l in ids <==> Key(store, l) in order
    {
      AnswersAreSorted(order, store);
      ids := SortedIds(LaunchersFor(seen, store));
    }
  }
}
