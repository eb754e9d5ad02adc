/**
 Single operations of the address manager, field by field and cell by cell: what changes, when, and that nothing else
 does.
 */
module AddressExact {
  import opened Wrappers
  import opened Peers
  import opened Sequences
  import opened AddressTables
  import opened AddressInvariant
  import opened AddressPromotion
  import opened AddressSnapshot
  import opened AddressRuns
  import opened AddressEffects
  import opened AddressQueue
  import opened AddressPrivacy
  import opened AddressRepeats
  import opened AddressDeadQueue

  // ---- successes ---------------------------------------------------------------------------------------

  ghost predicate GoodRowFrom(t: Tables, addr: PeerInfo, timestamp: nat, was: Row, row: Row) {
    && row.peer == was.peer && row.src == was.src
    && row.timestamp == was.timestamp && row.lastCountAttempt == was.lastCountAttempt
    && (var hit := was.peer == addr && (t.env.isPrivate(addr.host) ==> t.allowPrivate);
        && row.lastSuccess == (if hit then timestamp else was.lastSuccess)
        && row.lastTry == (if hit then timestamp else was.lastTry)
        && row.numAttempts == (if hit then 0 else was.numAttempts))
  }

  /** After mark_good a row's times and attempts are those of the success if it is the matched row, and what they were
      before if not; its address, source and announced time are what they were. */
  lemma GoodFields(t: Tables, addr: PeerInfo, testBeforeEvict: bool, timestamp: nat, start: nat, id: NodeId)
    requires Inv(t)
    ensures CanMarkGood(t, addr, testBeforeEvict, timestamp, start)
    ensures var u := MarkGood(t, addr, testBeforeEvict, timestamp, start);
      && u.lastGood == timestamp && u.allowPrivate == t.allowPrivate && u.idCount == t.idCount
      && (id in u.rows ==> id in t.rows && GoodRowFrom(t, addr, timestamp, t.rows[id], u.rows[id]))
  {
    hide Shape, Sound, MarkGood, CanMarkGood, Matched;
    InvParts(t);
    GoodKeepsSwitch(t, addr, testBeforeEvict, timestamp, start);
    GoodKeepsIds(t, addr, testBeforeEvict, timestamp, start);
    MarkGoodRecords(t, addr, testBeforeEvict, timestamp, start);
    MatchedExactly(t, addr, id);
  }

  lemma GoodKeepsIds(t: Tables, addr: PeerInfo, testBeforeEvict: bool, timestamp: nat, start: nat)
    requires Inv(t)
    ensures CanMarkGood(t, addr, testBeforeEvict, timestamp, start)
    ensures MarkGood(t, addr, testBeforeEvict, timestamp, start).idCount == t.idCount
  {
    hide Inv, MakeTried, PrepareGood;
    MarkGoodInv(t, addr, testBeforeEvict, timestamp, start);
    PrepareGoodInv(t, addr, testBeforeEvict, timestamp, start);
    PrepareKeepsIds(t, addr, testBeforeEvict, timestamp, start);
    var (s, id) := PrepareGood(t, addr, testBeforeEvict, timestamp, start);
    if id.Some? { PromotionConserves(s, id.value); }
  }

  lemma PrepareKeepsIds(t: Tables, addr: PeerInfo, testBeforeEvict: bool, timestamp: nat, start: nat)
    ensures PrepareGood(t, addr, testBeforeEvict, timestamp, start).0.idCount == t.idCount
  {
    hide FindNewBucket;
  }

  /** mark_good queues the matched row exactly if it is not tried, not promoted and not queued yet: when a test is asked
      for, its tried cell is held and the queue has room. */
  lemma QueuedExactly(t: Tables, addr: PeerInfo, testBeforeEvict: bool, timestamp: nat, start: nat)
    requires Inv(t)
    ensures CanMarkGood(t, addr, testBeforeEvict, timestamp, start)
    ensures var u := MarkGood(t, addr, testBeforeEvict, timestamp, start); var found := Matched(t, addr);
      u.collisions ==
        if found.Some? && !t.rows[found.value].isTried && testBeforeEvict && t.TriedCell(addr) in t.triedAt
          && |t.collisions| < 10 && found.value !in t.collisions
        then t.collisions + [found.value] else t.collisions
  {
    hide Inv, MakeTried, PrepareGood, Matched;
    MarkGoodInv(t, addr, testBeforeEvict, timestamp, start);
    PrepareGoodInv(t, addr, testBeforeEvict, timestamp, start);
    PreparedQueue(t, addr, testBeforeEvict, timestamp, start);
    var (s, id) := PrepareGood(t, addr, testBeforeEvict, timestamp, start);
    if id.Some? { PromotionLeaves(s, id.value); }
  }

  lemma PreparedQueue(t: Tables, addr: PeerInfo, testBeforeEvict: bool, timestamp: nat, start: nat)
    requires Inv(t)
    ensures var s := PrepareGood(t, addr, testBeforeEvict, timestamp, start).0; var found := Matched(t, addr);
      s.collisions ==
        if found.Some? && !t.rows[found.value].isTried && testBeforeEvict && t.TriedCell(addr) in t.triedAt
          && |t.collisions| < 10 && found.value !in t.collisions
        then t.collisions + [found.value] else t.collisions
  {
    hide Shape, Sound, FindNewBucket;
    InvParts(t);
    assert Matched(t.(lastGood := timestamp), addr) == Matched(t, addr);
    var found := Matched(t, addr);
    if found.Some? && !t.rows[found.value].isTried { FoundGood(t, found.value, timestamp, start); }
  }

  // ---- attempts, connections ---------------------------------------------------------------------------

  /** An attempt on a row's own address changes nothing but its time of last try and, if it is counted, the count and
      its time; one on any other address changes nothing. */
  lemma AttemptFields(t: Tables, addr: PeerInfo, countFailures: bool, timestamp: nat, id: NodeId)
    requires HostsOk(t.hostIds, t.rows)
    ensures var u := Attempt(t, addr, countFailures, timestamp);
      && u == t.(rows := u.rows) && u.rows.Keys == t.rows.Keys
      && (id in t.rows ==> var row := t.rows[id];
          u.rows[id] == if row.peer != addr then row
            else if countFailures && row.lastCountAttempt < t.lastGood
            then row.(lastTry := timestamp, lastCountAttempt := timestamp, numAttempts := SatAdd(row.numAttempts, 1, U32_MAX))
            else row.(lastTry := timestamp))
  {
  }

  /** A connection to any other address changes nothing. */
  lemma ConnectMisses(t: Tables, addr: PeerInfo, timestamp: nat)
    requires HostsOk(t.hostIds, t.rows) && forall id :: id in t.rows ==> t.rows[id].peer != addr
    ensures Connect(t, addr, timestamp) == t
  {
  }

  // ---- announcements of known hosts ----------------------------------------------------------------------

  /** The announced time a known row ends up with. */
  lemma RefreshedExactly(t: Tables, addr: TimestampedPeer, id: NodeId, penalty: nat, now: nat)
    requires t.Find(PeerInfo(addr.host, addr.port)) == Some(id)
    ensures var row := t.rows[id];
      var fine := if row.peer == PeerInfo(addr.host, addr.port) then 0 else penalty;
      var was, heard := row.timestamp, addr.timestamp;
      RefreshRow(t, id, heard, EffectivePenalty(t, addr, penalty), now) == t.WithRow(id, row.(timestamp :=
        if heard == 0 || (was == 0 && heard <= SatAdd(UpdateInterval(heard, now), fine, U64_MAX)) then was
        else if heard >= fine then heard - fine else 0))
  {
  }

  /** A known row takes the cell it is offered exactly if it may take one more, by the condition of ExactRepeat, and the
      cell is free or held by another row that is terrible; no other cell changes hands. */
  lemma KnownTakesExactly(t: Tables, addr: TimestampedPeer, id: NodeId, source: PeerInfo, penalty: nat, now: nat, draw: nat,
      now2: nat)
    requires Inv(t) && t.Find(PeerInfo(addr.host, addr.port)) == Some(id) && !AddressRefused(t, addr)
    ensures var row := t.rows[id]; var c := t.SourceCell(row.peer, source);
      var may := addr.timestamp > 0 && !row.isTried && row.refCount < 8 && (row.refCount == 0 || draw == 0)
        && LeavesBehind(row, addr, penalty, now);
      AddToNewTable(t, addr, source, penalty, now, draw, now2).0.newAt ==
        if may && (c in t.newAt ==> t.newAt[c] != id && t.newAt[c] in t.rows && t.rows[t.newAt[c]].IsTerrible(now2))
        then t.newAt[c := id] else t.newAt
  {
    hide Shape, PointersOk, PlaceNew, MayAddRef, Row.IsTerrible, LeavesBehind;
    ExactRepeat(t, addr, id, source, penalty, now, draw, now2);
    var s := RefreshRow(t, id, addr.timestamp, EffectivePenalty(t, addr, penalty), now);
    TouchRowSound(t, {}, id, s.rows[id]);
    if MayAddRef(s.rows[id], addr.timestamp, draw) {
      KnownPlacedExactly(s, id, source, now2, addr.timestamp, draw);
    }
  }

  lemma KnownPlacedExactly(s: Tables, id: NodeId, source: PeerInfo, now: nat, heard: nat, draw: nat)
    requires Sound(s, {}) && id in s.rows && MayAddRef(s.rows[id], heard, draw)
    ensures var c := s.SourceCell(s.rows[id].peer, source);
      PlaceNew(s, id, source, now).newAt ==
        if c in s.newAt ==> s.newAt[c] != id && s.newAt[c] in s.rows && s.rows[s.newAt[c]].IsTerrible(now)
        then s.newAt[c := id] else s.newAt
  {
    hide OrderOk, HostsOk, NewCellsOk, TriedCellsOk, CountsOk, PointersOk, RefsOk, IdsOk, ClearNew, DeleteNewEntry,
      Row.IsTerrible;
    NotTriedHasRefs(s, id);
    var c := s.SourceCell(s.rows[id].peer, source);
    ClearNewIs(s, {}, c);
    assert (s.newAt - {c})[c := id] == s.newAt[c := id];
  }

  /** An announcement changes no other row's address, times or attempts. */
  lemma AddLeavesOthers(t: Tables, addr: TimestampedPeer, source: PeerInfo, penalty: nat, now: nat, draw: nat, now2: nat,
      x: NodeId)
    requires Inv(t) && IdSpare(t, addr) && x in t.rows && t.Find(PeerInfo(addr.host, addr.port)) != Some(x)
    ensures var u := AddToNewTable(t, addr, source, penalty, now, draw, now2).0;
      x in u.rows ==> SameHistory(t.rows[x], u.rows[x])
  {
    hide Shape, PointersOk, PlaceNew, MayAddRef;
    if !AddressRefused(t, addr) {
      var fine := EffectivePenalty(t, addr, penalty);
      match t.Find(PeerInfo(addr.host, addr.port))
      case Some(id) =>
        var s := RefreshRow(t, id, addr.timestamp, fine, now);
        PlacingLeavesOthers(s, id, source, now2, x);
      case None =>
        NewcomerRow(t, addr, source, fine);
        var s := CreateCounted(t, addr, source, fine);
        IdsBelow(t, x);
        PlacingLeavesOthers(s, NextId(t), source, now2, x);
    }
  }

  lemma IdsBelow(t: Tables, id: NodeId)
    requires Inv(t) && id in t.rows
    ensures id <= t.idCount < U32_MAX
  {
    hide OrderOk, HostsOk, NewCellsOk, TriedCellsOk, CountsOk, PointersOk, RefsOk;
  }

  lemma PlacingLeavesOthers(s: Tables, id: NodeId, source: PeerInfo, now: nat, x: NodeId)
    requires id in s.rows && x in s.rows && x != id
    ensures var u := PlaceNew(s, id, source, now); x in u.rows ==> SameHistory(s.rows[x], u.rows[x])
  {
    hide DeleteNewEntry, ClearNew;
    var c := s.SourceCell(s.rows[id].peer, source);
    DeletionLeaves(s, id, x);
    ClearingLeaves(s, c, x);
  }

  lemma DeletionLeaves(t: Tables, id: NodeId, x: NodeId)
    requires x in t.rows
    ensures var u := DeleteNewEntry(t, id); x in u.rows ==> SameHistory(t.rows[x], u.rows[x])
  {
    hide SwapRandom;
    if id in t.rows && t.rows[id].randomPos.Some? && |t.order| > 0 {
      SwapLeaves(t, t.rows[id].randomPos.value, |t.order| - 1, x);
    }
  }

  lemma SwapLeaves(t: Tables, r1: nat, r2: nat, x: NodeId)
    requires x in t.rows
    ensures x in SwapRandom(t, r1, r2).rows && SameHistory(t.rows[x], SwapRandom(t, r1, r2).rows[x])
  {
  }

  lemma ClearingLeaves(t: Tables, c: Cell, x: NodeId)
    requires x in t.rows
    ensures var u := ClearNew(t, c); x in u.rows ==> SameHistory(t.rows[x], u.rows[x])
  {
    hide DeleteNewEntry;
    if c in t.newAt { DeletionLeaves(DropRef(t, c), t.newAt[c], x); }
  }

  // ---- the queue -----------------------------------------------------------------------------------------

  /** Pruning the queue keeps the live ids in their order. */
  lemma {:induction false} LiveInOrder(a: seq<NodeId>, b: seq<NodeId>, rows: Rows, id: NodeId)
    ensures Live(a + b, rows) == Live(a, rows) + Live(b, rows)
    ensures Live([id], rows) == if id in rows then [id] else []
  {
    if a == [] {
      assert a + b == b;
    } else {
      assert (a + b)[1..] == a[1..] + b;
      LiveInOrder(a[1..], b, rows, id);
    }
    assert Live([id][1..], rows) == [];
  }

  /** Picking a victim touches nothing but the queue; neither does a turn of a pass that keeps or drops its id. */
  lemma QueueOnly(t: Tables, pick: nat, id: NodeId, now: nat, start: nat)
    ensures SelectTriedCollision(t, pick).0 == t.(collisions := SelectTriedCollision(t, pick).0.collisions)
    ensures !Judge(t, id, now).Replace? ==>
      CanResolveOne(t, id, now, start) && ResolveOne(t, id, now, start) ==
        t.(collisions := ResolveOne(t, id, now, start).collisions)
  {
    hide Judge;
  }
}
