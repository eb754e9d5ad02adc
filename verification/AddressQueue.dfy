/**
 The collision queue: the tried cell a queued row wants is always occupied, and a pass over the queue leaves only those
 ids whose holder is neither recent nor overdue for a try.
 */
module AddressQueue {
  import opened Wrappers
  import opened Peers
  import opened Sequences
  import opened AddressTables
  import opened AddressInvariant
  import opened AddressPromotion
  import opened AddressSnapshot
  import opened AddressRuns
  import opened AddressEffects

  // ---- rows never change their peer ----------------------------------------------------------------

  ghost predicate PeerKept(a: Rows, b: Rows, id: NodeId) {
    id in b ==> id in a && b[id].peer == a[id].peer
  }

  /** No row appears, and none changes its peer. */
  ghost predicate PeersKept(a: Rows, b: Rows) {
    forall id :: PeerKept(a, b, id)
  }

  lemma KeptAt(a: Rows, b: Rows, id: NodeId)
    requires PeersKept(a, b) && id in b
    ensures id in a && b[id].peer == a[id].peer
  {
    assert PeerKept(a, b, id);
  }

  lemma KeptTwice(a: Rows, b: Rows, c: Rows)
    requires PeersKept(a, b) && PeersKept(b, c)
    ensures PeersKept(a, c)
  {
    forall id ensures PeerKept(a, c, id) { assert PeerKept(b, c, id) && PeerKept(a, b, id); }
  }

  lemma DeleteKeepsPeers(t: Tables, id: NodeId)
    ensures PeersKept(t.rows, DeleteNewEntry(t, id).rows)
  {
    hide SwapRandom;
    if id in t.rows && t.rows[id].randomPos.Some? && |t.order| > 0 {
      var s := SwapRandom(t, t.rows[id].randomPos.value, |t.order| - 1);
      SwapKeepsPeers(t, t.rows[id].randomPos.value, |t.order| - 1);
      assert DeleteNewEntry(t, id).rows == s.rows - {id};
      forall x: NodeId ensures PeerKept(t.rows, s.rows - {id}, x) { assert PeerKept(t.rows, s.rows, x); }
    }
  }

  lemma SwapKeepsPeers(t: Tables, r1: nat, r2: nat)
    ensures PeersKept(t.rows, SwapRandom(t, r1, r2).rows)
  {
  }

  lemma ClearKeepsPeers(t: Tables, c: Cell)
    ensures PeersKept(t.rows, ClearNew(t, c).rows)
  {
    hide DeleteNewEntry;
    if c in t.newAt {
      var s := DropRef(t, c);
      DeleteKeepsPeers(s, t.newAt[c]);
      assert PeersKept(t.rows, s.rows);
      KeptTwice(t.rows, s.rows, DeleteNewEntry(s, t.newAt[c]).rows);
    }
  }

  lemma PlaceKeepsPeers(t: Tables, id: NodeId, source: PeerInfo, now: nat)
    requires id in t.rows
    ensures PeersKept(t.rows, PlaceNew(t, id, source, now).rows)
  {
    hide DeleteNewEntry, ClearNew, PeersKept;
    var c := t.SourceCell(t.rows[id].peer, source);
    DeleteKeepsPeers(t, id);
    ClearKeepsPeers(t, c);
    var s := ClearNew(t, c);
    AddRefKeepsPeers(s, id, c);
    KeptTwice(t.rows, s.rows, AddRef(s, id, c).rows);
    KeptSelf(t.rows);
  }

  lemma KeptSelf(rows: Rows)
    ensures PeersKept(rows, rows)
  {
  }

  lemma AddRefKeepsPeers(t: Tables, id: NodeId, c: Cell)
    ensures PeersKept(t.rows, AddRef(t, id, c).rows)
  {
  }

  /** The same for rows under ids `t` has handed out; `u` may have new ones. */
  ghost predicate OldPeersKept(t: Tables, u: Tables) {
    forall id: NodeId :: id <= t.idCount ==> PeerKept(t.rows, u.rows, id)
  }

  lemma AddKeepsPeers(t: Tables, addr: TimestampedPeer, source: PeerInfo, penalty: nat, now: nat, draw: nat, now2: nat)
    requires IdSpare(t, addr)
    ensures var u := AddToNewTable(t, addr, source, penalty, now, draw, now2).0;
      OldPeersKept(t, u) && u.collisions == t.collisions
  {
    hide PlaceNew, MayAddRef;
    AddFrame(t, addr, source, penalty, now, draw, now2);
    if !AddressRefused(t, addr) {
      var fine := EffectivePenalty(t, addr, penalty);
      match t.Find(PeerInfo(addr.host, addr.port))
      case Some(id) =>
        var s := RefreshRow(t, id, addr.timestamp, fine, now);
        PlaceKeepsPeers(s, id, source, now2);
        assert PeersKept(t.rows, s.rows);
        KeptTwice(t.rows, s.rows, PlaceNew(s, id, source, now2).rows);
        KeptIsOldKept(t, PlaceNew(s, id, source, now2));
      case None =>
        NewcomerRow(t, addr, source, fine);
        var s := CreateCounted(t, addr, source, fine);
        PlaceKeepsPeers(s, NextId(t), source, now2);
        var u := PlaceNew(s, NextId(t), source, now2);
        forall id: NodeId | id <= t.idCount ensures PeerKept(t.rows, u.rows, id) { assert PeerKept(s.rows, u.rows, id); }
    }
  }

  lemma GoodKeepsPeers(t: Tables, addr: PeerInfo, testBeforeEvict: bool, timestamp: nat, start: nat)
    requires Inv(t)
    ensures CanMarkGood(t, addr, testBeforeEvict, timestamp, start)
    ensures PeersKept(t.rows, MarkGood(t, addr, testBeforeEvict, timestamp, start).rows)
  {
    hide MarkGood, Inv, CanMarkGood;
    MarkGoodRecords(t, addr, testBeforeEvict, timestamp, start);
  }

  lemma TouchesKeepPeers(t: Tables, op: Op)
    ensures op.Try? ==> var u := Attempt(t, op.peer, op.countFailures, op.timestamp);
      PeersKept(t.rows, u.rows) && u.collisions == t.collisions
    ensures op.Heard? ==> var u := Connect(t, op.peer, op.timestamp);
      PeersKept(t.rows, u.rows) && u.collisions == t.collisions
  {
  }

  // ---- what the queue holds ------------------------------------------------------------------------

  predicate Wanting(t: Tables, id: NodeId) {
    id in t.collisions && id in t.rows ==> t.TriedCell(t.rows[id].peer) in t.triedAt
  }

  /** The tried cell of every queued row is occupied. */
  ghost predicate Contested(t: Tables) {
    forall id :: Wanting(t, id)
  }

  /** What is queued in `u` was queued in `t`, or wants a cell that is occupied. */
  ghost predicate QueueGrowsContested(t: Tables, u: Tables) {
    forall id :: id in u.collisions ==> id in t.collisions || Wanting(u, id)
  }

  lemma ContestedKept(t: Tables, u: Tables)
    requires Inv(t) && Contested(t) && OldPeersKept(t, u) && QueueGrowsContested(t, u)
    requires u.env == t.env && t.triedAt.Keys <= u.triedAt.Keys
    ensures Contested(u)
  {
    hide OrderOk, HostsOk, NewCellsOk, TriedCellsOk, CountsOk, PointersOk, RefsOk, PeersKept;
    forall id: NodeId ensures Wanting(u, id) {
      if id in u.collisions && id in u.rows && id in t.collisions {
        assert id <= t.idCount && PeerKept(t.rows, u.rows, id);
        assert Wanting(t, id);
      }
    }
  }

  lemma KeptIsOldKept(t: Tables, u: Tables)
    requires PeersKept(t.rows, u.rows)
    ensures OldPeersKept(t, u)
  {
    forall id: NodeId | id <= t.idCount ensures PeerKept(t.rows, u.rows, id) {}
  }

  /** The queue in `u` extends that of `t` by at most one row of `u`, behind an occupied cell. */
  ghost predicate QueueGrows(t: Tables, u: Tables, testBeforeEvict: bool) {
    || u.collisions == t.collisions
    || (testBeforeEvict && exists id :: id in u.rows && Wanting(u, id) && u.collisions == t.collisions + [id])
  }

  lemma PrepareQueue(t: Tables, addr: PeerInfo, testBeforeEvict: bool, timestamp: nat, start: nat)
    ensures var (s, id) := PrepareGood(t, addr, testBeforeEvict, timestamp, start);
      && QueueGrows(t, s, testBeforeEvict)
      && (id.Some? ==> s.collisions == t.collisions)
  {
    hide FindNewBucket;
    var s := t.(lastGood := timestamp);
    match Matched(s, addr)
    case None =>
    case Some(id) =>
      var u := Settle(s.WithRow(id, GoodRow(s.rows[id], timestamp)), id, testBeforeEvict, start).0;
      assert u.collisions == t.collisions || (id in u.rows && Wanting(u, id) && u.collisions == t.collisions + [id]);
  }

  /** mark_good queues nothing but the matched row, and only behind an occupied cell. */
  lemma GoodQueue(t: Tables, addr: PeerInfo, testBeforeEvict: bool, timestamp: nat, start: nat)
    requires Inv(t)
    ensures CanMarkGood(t, addr, testBeforeEvict, timestamp, start)
    ensures QueueGrows(t, MarkGood(t, addr, testBeforeEvict, timestamp, start), testBeforeEvict)
  {
    hide Inv, MakeTried, PrepareGood;
    MarkGoodInv(t, addr, testBeforeEvict, timestamp, start);
    PrepareGoodInv(t, addr, testBeforeEvict, timestamp, start);
    PrepareQueue(t, addr, testBeforeEvict, timestamp, start);
    var (s, id) := PrepareGood(t, addr, testBeforeEvict, timestamp, start);
    if id.Some? { PromotionLeaves(s, id.value); }
  }

  lemma GrowsContested(t: Tables, u: Tables, testBeforeEvict: bool)
    requires QueueGrows(t, u, testBeforeEvict)
    ensures QueueGrowsContested(t, u)
  {
  }

  lemma ResolveOneContested(t: Tables, id: NodeId, now: nat, start: nat)
    requires Inv(t) && Contested(t)
    ensures CanResolveOne(t, id, now, start)
    ensures var u := ResolveOne(t, id, now, start); Contested(u) && PeersKept(t.rows, u.rows)
  {
    hide Inv, MarkGood, CanMarkGood, PeersKept, Contested, Judge;
    ResolveOneInv(t, id, now, start);
    JudgedHasRow(t, id, now);
    WithoutKeeps(t.collisions, id);
    KeptSelf(t.rows);
    if Judge(t, id, now).Replace? {
      GoodKeepsPeers(t, t.rows[id].peer, false, now, start);
      GoodQueue(t, t.rows[id].peer, false, now, start);
    }
    var u := ResolveOne(t, id, now, start);
    KeptIsOldKept(t, u);
    ContestedKept(t, u);
  }

  lemma {:induction false} ResolveContested(t: Tables, pending: seq<NodeId>, now: nat, starts: seq<nat>)
    requires |starts| == |pending| && Inv(t) && Contested(t) && ResolveSafe(t, pending, now, starts)
    ensures CanResolve(t, pending, now, starts) && Contested(Resolve(t, pending, now, starts))
    decreases |pending|
  {
    hide Inv, Contested, PeersKept, ResolveOne, CanResolveOne, ResolveOneHazard;
    if pending != [] {
      ResolveOneInv(t, pending[0], now, starts[0]);
      ResolveOneContested(t, pending[0], now, starts[0]);
      ResolveContested(ResolveOne(t, pending[0], now, starts[0]), pending[1..], now, starts[1..]);
    }
  }

  lemma ApplyContested(place: seq<nat> -> Placement, t: Tables, op: Op)
    requires Inv(t) && Contested(t) && t.env == place(t.env.key) && Safe(place, t, op)
    ensures Contested(Apply(place, t, op))
  {
    hide Inv, AddToNewTable, MarkGood, CanMarkGood, GoodHazard, Resolve, CanResolve, ResolveSafe, PeersKept, Contested,
      Load, Attempt, Connect;
    var u := Apply(place, t, op);
    ApplyInv(place, t, op);
    match op
    case Add(addr, source, penalty, now, draw, now2) =>
      AddKeepsPeers(t, addr, source, penalty, now, draw, now2);
      ContestedKept(t, u);
    case Good(peer, test, ts, start) =>
      GoodKeepsPeers(t, peer, test, ts, start);
      GoodQueue(t, peer, test, ts, start);
      GrowsContested(t, u, test);
      KeptIsOldKept(t, u);
      ContestedKept(t, u);
    case Try(_, _, _) => TouchesKeepPeers(t, op); KeptIsOldKept(t, u); ContestedKept(t, u);
    case Heard(_, _) => TouchesKeepPeers(t, op); KeptIsOldKept(t, u); ContestedKept(t, u);
    case ResolveAll(now, starts) => ResolveContested(t, t.collisions, now, starts);
    case PickVictim(pick) => LiveKeeps(t.collisions, t.rows); KeptSelf(t.rows); KeptIsOldKept(t, u); ContestedKept(t, u);
    case AllowPrivate(allow) => KeptSelf(t.rows); KeptIsOldKept(t, u); ContestedKept(t, u);
    case Restart => RestartIsIdentity(place, t);
  }

  lemma {:induction false} RunContested(place: seq<nat> -> Placement, t: Tables, ops: seq<Op>)
    requires Inv(t) && Contested(t) && t.env == place(t.env.key) && SafeRun(place, t, ops)
    ensures Contested(Run(place, t, ops))
    decreases |ops|
  {
    hide Inv, Contested, Apply, Safe;
    if ops != [] {
      ApplyInv(place, t, ops[0]);
      ApplyContested(place, t, ops[0]);
      RunContested(place, Apply(place, t, ops[0]), ops[1..]);
    }
  }

  lemma EmptyContested(env: Placement)
    ensures Contested(Empty(env))
  {
  }

  /** Over every run from the empty manager the row a queued row wants to replace is there. */
  lemma QueuedHaveHolders(place: seq<nat> -> Placement, key: seq<nat>, ops: seq<Op>)
    requires place(key).key == key && SafeRun(place, Empty(place(key)), ops)
    ensures var t := Run(place, Empty(place(key)), ops);
      forall id :: id in t.collisions && id in t.rows ==> Holder(t, id).Some?
  {
    hide Inv, Run, SafeRun, Contested;
    var t := Empty(place(key));
    EmptyInv(place(key));
    EmptyContested(place(key));
    RunInv(place, t, ops);
    RunContested(place, t, ops);
    ContestedHolders(Run(place, t, ops));
  }

  lemma ContestedHolders(t: Tables)
    requires Inv(t) && Contested(t)
    ensures forall id :: id in t.collisions && id in t.rows ==> Holder(t, id).Some?
  {
    hide OrderOk, HostsOk, NewCellsOk, CountsOk, PointersOk, RefsOk, IdsOk;
    forall id | id in t.collisions && id in t.rows ensures Holder(t, id).Some? {
      assert Wanting(t, id);
      assert TriedCellOk(t.env, t.triedAt, t.rows, t.TriedCell(t.rows[id].peer));
    }
  }

  // ---- what a pass leaves --------------------------------------------------------------------------

  /** What the queue does about the rows that want `c`. */
  function VerdictAt(t: Tables, c: Cell, now: nat): Verdict {
    if c !in t.triedAt || t.triedAt[c] !in t.rows then Keep
    else
      var holder := t.rows[t.triedAt[c]];
      if SatSub(now, holder.lastSuccess) < 4 * 60 * 60 then Drop
      else if SatSub(now, holder.lastTry) > 60 then Replace
      else Keep
  }

  lemma JudgedByCell(t: Tables, id: NodeId, now: nat)
    requires id in t.rows
    ensures Judge(t, id, now) == VerdictAt(t, t.TriedCell(t.rows[id].peer), now)
  {
  }

  /** Recording the success of a row which is to replace the holder of its cell, and promoting it, turns no verdict
      into Keep, and takes none back. */
  lemma GoodKeepsVerdict(t: Tables, id: NodeId, now: nat, start: nat, c: Cell)
    requires Inv(t) && id in t.rows && Judge(t, id, now).Replace?
    ensures CanMarkGood(t, t.rows[id].peer, false, now, start)
    ensures VerdictAt(MarkGood(t, t.rows[id].peer, false, now, start), c, now).Keep? <==> VerdictAt(t, c, now).Keep?
  {
    hide Inv, MarkGood, CanMarkGood, Judge, Shape;
    var peer := t.rows[id].peer;
    JudgedByCell(t, id, now);
    MarkGoodInv(t, peer, false, now, start);
    MarkGoodRecords(t, peer, false, now, start);
    GoodTriedAt(t, id, now, start);
    var u := MarkGood(t, peer, false, now, start);
    if c in u.triedAt { HolderThere(u, c); }
    if c in t.triedAt { HolderInPlace(t, c); }
  }

  lemma HolderThere(t: Tables, c: Cell)
    requires Shape(t, {}) && c in t.triedAt
    ensures t.triedAt[c] in t.rows
  {
    assert TriedCellOk(t.env, t.triedAt, t.rows, c);
  }

  lemma HolderInPlace(t: Tables, c: Cell)
    requires Inv(t) && c in t.triedAt
    ensures t.triedAt[c] in t.rows && c == t.TriedCell(t.rows[t.triedAt[c]].peer)
  {
    assert TriedCellOk(t.env, t.triedAt, t.rows, c);
  }

  lemma GoodTriedAt(t: Tables, id: NodeId, now: nat, start: nat)
    requires Inv(t) && id in t.rows
    ensures CanMarkGood(t, t.rows[id].peer, false, now, start)
    ensures var peer := t.rows[id].peer; var u := MarkGood(t, peer, false, now, start);
      && (Matched(t, peer) == Some(id) || Matched(t, peer) == None)
      && (u.triedAt == t.triedAt || (Matched(t, peer) == Some(id) && u.triedAt == t.triedAt[t.TriedCell(peer) := id]))
  {
    hide Shape, Sound, MakeTried, FindNewBucket;
    var peer := t.rows[id].peer;
    MarkGoodInv(t, peer, false, now, start);
    PrepareGoodInv(t, peer, false, now, start);
    InvParts(t);
    assert Matched(t.(lastGood := now), peer) == Matched(t, peer);
    var (s, found) := PrepareGood(t, peer, false, now, start);
    if found.Some? { PromotionConserves(s, found.value); }
  }

  /** `u` comes after `t` in a pass: no row is new, and on the rows left the verdict Keep has neither come nor gone. */
  ghost predicate VerdictsKept(t: Tables, u: Tables, now: nat) {
    && (forall id :: id in u.rows ==> id in t.rows)
    && (forall id :: id in u.rows ==> (Judge(u, id, now).Keep? <==> Judge(t, id, now).Keep?))
  }

  lemma ResolveOneKeepsVerdicts(t: Tables, id: NodeId, now: nat, start: nat)
    requires Inv(t)
    ensures CanResolveOne(t, id, now, start)
    ensures VerdictsKept(t, ResolveOne(t, id, now, start), now)
  {
    hide Inv, MarkGood, CanMarkGood, PeersKept, Judge, VerdictAt;
    ResolveOneInv(t, id, now, start);
    JudgedHasRow(t, id, now);
    KeptSelf(t.rows);
    var u := ResolveOne(t, id, now, start);
    if Judge(t, id, now).Replace? {
      GoodKeepsPeers(t, t.rows[id].peer, false, now, start);
    }
    forall x | x in u.rows ensures x in t.rows && (Judge(u, x, now).Keep? <==> Judge(t, x, now).Keep?) {
      KeptAt(t.rows, u.rows, x);
      JudgedByCell(t, x, now);
      JudgedByCell(u, x, now);
      var c := t.TriedCell(t.rows[x].peer);
      if Judge(t, id, now).Replace? { GoodKeepsVerdict(t, id, now, start, c); }
      SameVerdict(t, u, id, now, start, c);
    }
  }

  /** Leaving the queue has no part in a verdict. */
  lemma SameVerdict(t: Tables, u: Tables, id: NodeId, now: nat, start: nat, c: Cell)
    requires CanResolveOne(t, id, now, start) && u == ResolveOne(t, id, now, start)
    ensures VerdictAt(u, c, now) == VerdictAt(
      if Judge(t, id, now).Replace? then MarkGood(t, t.rows[id].peer, false, now, start) else t, c, now)
  {
    hide MarkGood, Judge;
  }

  lemma ResolveOneQueue(t: Tables, id: NodeId, now: nat, start: nat)
    requires Inv(t)
    ensures CanResolveOne(t, id, now, start)
    ensures forall x :: x in ResolveOne(t, id, now, start).collisions <==>
      x in t.collisions && (x == id ==> Judge(t, id, now).Keep?)
  {
    hide Inv, MarkGood, CanMarkGood, Judge;
    ResolveOneInv(t, id, now, start);
    JudgedHasRow(t, id, now);
    WithoutKeeps(t.collisions, id);
    if Judge(t, id, now).Replace? {
      GoodQueue(t, t.rows[id].peer, false, now, start);
    }
  }

  /** What became of `pending` when a pass led from `t` to `u`. */
  ghost predicate Settled(t: Tables, u: Tables, pending: seq<NodeId>, now: nat) {
    && (forall x :: x in u.rows ==> (x in u.collisions <==> x in t.collisions && (x in pending ==> Judge(u, x, now).Keep?)))
    && (forall x :: x in u.collisions ==> x in t.collisions && (x in pending ==> x in t.rows))
  }

  lemma {:induction false} ResolveSettles(t: Tables, pending: seq<NodeId>, now: nat, starts: seq<nat>)
    requires |starts| == |pending| && Inv(t) && ResolveSafe(t, pending, now, starts)
    ensures CanResolve(t, pending, now, starts)
    ensures var u := Resolve(t, pending, now, starts); VerdictsKept(t, u, now) && Settled(t, u, pending, now)
    decreases |pending|
  {
    hide Inv, ResolveOne, CanResolveOne, ResolveOneHazard, Judge;
    if pending != [] {
      ResolveOneInv(t, pending[0], now, starts[0]);
      ResolveOneKeepsVerdicts(t, pending[0], now, starts[0]);
      ResolveOneQueue(t, pending[0], now, starts[0]);
      var s := ResolveOne(t, pending[0], now, starts[0]);
      ResolveSettles(s, pending[1..], now, starts[1..]);
      assert pending == [pending[0]] + pending[1..];
      JudgedLive(t, pending[0], now);
    }
  }

  lemma JudgedLive(t: Tables, id: NodeId, now: nat)
    ensures Judge(t, id, now).Keep? ==> id in t.rows
  {
  }

  /** The holder is neither recent enough to settle the matter nor overdue for another try. */
  predicate UnderTest(t: Tables, id: NodeId, now: nat) {
    var h := Holder(t, id);
    h.Some? && SatSub(now, h.value.lastSuccess) >= 4 * 60 * 60 && SatSub(now, h.value.lastTry) <= 60
  }

  /** After a pass over the queue a row is still queued exactly when it was and the holder of its cell, as it is then,
      last succeeded at least four hours ago and was tried within the last minute.  No id without a row at the start
      is still queued. */
  lemma PassLeavesUnderTest(t: Tables, now: nat, starts: seq<nat>)
    requires Inv(t) && Contested(t) && |starts| == |t.collisions| && ResolveSafe(t, t.collisions, now, starts)
    ensures CanResolve(t, t.collisions, now, starts)
    ensures var u := Resolve(t, t.collisions, now, starts);
      && (forall id :: id in u.rows ==> (id in u.collisions <==> id in t.collisions && UnderTest(u, id, now)))
      && (forall id :: id in u.collisions ==> id in t.collisions && id in t.rows)
  {
    hide Inv, Resolve, CanResolve, ResolveSafe, Contested, Judge;
    ResolveInv(t, t.collisions, now, starts);
    ResolveSettles(t, t.collisions, now, starts);
    ResolveContested(t, t.collisions, now, starts);
    var u := Resolve(t, t.collisions, now, starts);
    ContestedHolders(u);
    forall id | id in u.rows ensures id in u.collisions <==> id in t.collisions && UnderTest(u, id, now) {
      JudgeExact(u, id, now);
    }
  }
}
