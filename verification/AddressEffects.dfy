/** What single operations of the address manager achieve, beyond keeping its invariant. */
module AddressEffects {
  import opened Wrappers
  import opened Peers
  import opened Sequences
  import opened AddressTables
  import opened AddressInvariant
  import opened AddressPromotion
  import opened AddressRuns

  // ---- announcements -------------------------------------------------------------------------

  /** The cell a newcomer is given: free, or held by a row that is terrible or has references to spare. */
  predicate MakesWay(t: Tables, c: Cell, now: nat) {
    c !in t.newAt || (t.newAt[c] in t.rows && (t.rows[t.newAt[c]].IsTerrible(now) || t.rows[t.newAt[c]].refCount > 1))
  }

  /** An unknown host that finds its cell taken leaves no trace but a used id; otherwise it becomes a row with
      that one cell, and the only row that can go is the one whose last cell it took. */
  lemma NewcomerJoinsOrVanishes(t: Tables, addr: TimestampedPeer, source: PeerInfo, penalty: nat, now: nat, draw: nat,
      now2: nat)
    requires Inv(t) && t.idCount + 1 < U32_MAX && addr.host !in t.hostIds && !AddressRefused(t, addr)
    ensures var (u, isNew) := AddToNewTable(t, addr, source, penalty, now, draw, now2);
      var c := t.SourceCell(PeerInfo(addr.host, addr.port), source); var id := t.idCount + 1;
      isNew && id !in t.rows &&
      if MakesWay(t, c, now2) then
        && u.rows.Keys == t.rows.Keys - Displaced(t, c) + {id}
        && u.newAt == t.newAt[c := id]
        && u.rows[id].peer == PeerInfo(addr.host, addr.port) && u.rows[id].src == source
        && u.rows[id].timestamp == SatSub(addr.timestamp, penalty) && u.rows[id].refCount == 1 && !u.rows[id].isTried
      else u == t.(idCount := id)
  {
    hide OrderOk, HostsOk, NewCellsOk, TriedCellsOk, CountsOk, PointersOk, RefsOk, ClearNew, DeleteNewEntry, PlaceNew,
      Displaced, CreateCounted;
    var c := t.SourceCell(PeerInfo(addr.host, addr.port), source);
    NewcomerRow(t, addr, source, penalty);
    NewcomerPlaced(t, addr, source, penalty, now2, c);
  }

  lemma NewcomerPlaced(t: Tables, addr: TimestampedPeer, source: PeerInfo, penalty: nat, now: nat, c: Cell)
    requires Inv(t) && t.idCount + 1 < U32_MAX && addr.host !in t.hostIds
    requires c == t.SourceCell(PeerInfo(addr.host, addr.port), source)
    ensures var id := t.idCount + 1; var s := CreateCounted(t, addr, source, penalty);
      id !in t.rows && id in s.rows &&
      if MakesWay(t, c, now) then
        && PlaceNew(s, id, source, now) == AddRef(ClearNew(s, c), id, c)
        && ClearNew(s, c).rows.Keys == t.rows.Keys - Displaced(t, c) + {id}
        && ClearNew(s, c).newAt[c := id] == t.newAt[c := id]
        && SamePlace(ClearNew(s, c), s, id)
      else PlaceNew(s, id, source, now) == t.(idCount := id)
  {
    hide Inv, ClearNew, DeleteNewEntry, AddRef, Displaced, CreateCounted, SamePlace;
    NewcomerRow(t, addr, source, penalty);
    NewcomerCell(t, addr, source, penalty, c);
    NewcomerGoes(t, addr, source, penalty);
  }

  /** What clearing the cell offered to a newcomer does. */
  lemma NewcomerCell(t: Tables, addr: TimestampedPeer, source: PeerInfo, penalty: nat, c: Cell)
    requires Inv(t) && t.idCount + 1 < U32_MAX && addr.host !in t.hostIds
    ensures var id := t.idCount + 1; var s := CreateCounted(t, addr, source, penalty);
      && id !in t.rows && id in s.rows && (c in t.newAt ==> t.newAt[c] in t.rows)
      && ClearNew(s, c).rows.Keys == t.rows.Keys - Displaced(t, c) + {id}
      && ClearNew(s, c).newAt[c := id] == t.newAt[c := id]
      && SamePlace(ClearNew(s, c), s, id)
  {
    hide OrderOk, HostsOk, NewCellsOk, TriedCellsOk, CountsOk, PointersOk, RefsOk, IdsOk, ClearNew, CreateCounted;
    var id := t.idCount + 1;
    var s := CreateCounted(t, addr, source, penalty);
    CreateSound(t, addr, source, penalty);
    NewcomerRow(t, addr, source, penalty);
    if c in t.newAt { OccupantHasRef(t, {}, c); }
    ClearNewIs(s, {id}, c);
    assert Displaced(s, c) == Displaced(t, c);
  }

  /** Row `id` of `u` differs from that of `s` at most in its pointer. */
  predicate SamePlace(u: Tables, s: Tables, id: NodeId) {
    id in u.rows && id in s.rows && u.rows[id] == s.rows[id].(randomPos := u.rows[id].randomPos)
  }

  lemma NewcomerRow(t: Tables, addr: TimestampedPeer, source: PeerInfo, penalty: nat)
    ensures var s := CreateCounted(t, addr, source, penalty); var id := NextId(t);
      && s == t.(idCount := id, hostIds := t.hostIds[addr.host := id], order := t.order + [id], newCount := t.newCount + 1,
        rows := t.rows[id := FreshRow(addr, source, |t.order|).(timestamp := SatSub(addr.timestamp, penalty))])
  {
  }

  lemma NewcomerGoes(t: Tables, addr: TimestampedPeer, source: PeerInfo, penalty: nat)
    requires t.idCount + 1 < U32_MAX && addr.host !in t.hostIds && t.idCount + 1 !in t.rows
    ensures DeleteNewEntry(CreateCounted(t, addr, source, penalty), t.idCount + 1) == t.(idCount := t.idCount + 1)
  {
    var id := t.idCount + 1;
    assert (t.order + [id])[..|t.order|] == t.order;
    assert t.rows[id := FreshRow(addr, source, |t.order|).(timestamp := SatSub(addr.timestamp, penalty))] - {id} == t.rows;
    assert t.hostIds[addr.host := id] - {addr.host} == t.hostIds;
  }

  /** A known row that is placed again keeps every cell it has and gains at most the one its source selects. */
  lemma KnownGainsOneCell(t: Tables, addr: TimestampedPeer, source: PeerInfo, penalty: nat, now: nat, draw: nat, now2: nat)
    requires Inv(t) && t.Find(PeerInfo(addr.host, addr.port)).Some?
    ensures var id := t.Find(PeerInfo(addr.host, addr.port)).value;
      var u := AddToNewTable(t, addr, source, penalty, now, draw, now2).0;
      && id in u.rows
      && RefCells(t.newAt, id) <= RefCells(u.newAt, id)
      && RefCells(u.newAt, id) <= RefCells(t.newAt, id) + {t.SourceCell(t.rows[id].peer, source)}
  {
    hide OrderOk, HostsOk, NewCellsOk, TriedCellsOk, CountsOk, PointersOk, RefsOk, IdsOk, PlaceNew, MayAddRef;
    if !AddressRefused(t, addr) {
      var id := t.Find(PeerInfo(addr.host, addr.port)).value;
      var s := RefreshRow(t, id, addr.timestamp, EffectivePenalty(t, addr, penalty), now);
      TouchRowSound(t, {}, id, s.rows[id]);
      if MayAddRef(s.rows[id], addr.timestamp, draw) {
        KnownPlaced(s, id, source, now2, addr.timestamp, draw);
      }
    }
  }

  lemma KnownPlaced(s: Tables, id: NodeId, source: PeerInfo, now: nat, heard: nat, draw: nat)
    requires Sound(s, {}) && id in s.rows && MayAddRef(s.rows[id], heard, draw)
    ensures var u := PlaceNew(s, id, source, now);
      && id in u.rows
      && RefCells(s.newAt, id) <= RefCells(u.newAt, id)
      && RefCells(u.newAt, id) <= RefCells(s.newAt, id) + {s.SourceCell(s.rows[id].peer, source)}
  {
    hide OrderOk, HostsOk, NewCellsOk, TriedCellsOk, CountsOk, PointersOk, RefsOk, IdsOk, ClearNew, DeleteNewEntry;
    NotTriedHasRefs(s, id);
    ClearNewIs(s, {}, s.SourceCell(s.rows[id].peer, source));
  }

  // ---- attempts --------------------------------------------------------------------------------

  datatype Try = Try(counted: bool, timestamp: nat)

  function Attempts(t: Tables, addr: PeerInfo, tries: seq<Try>): Tables
    decreases |tries|
  {
    if tries == [] then t
    else Attempts(Attempt(t, addr, tries[0].counted, tries[0].timestamp), addr, tries[1..])
  }

  predicate AnyCounted(tries: seq<Try>) {
    exists i :: 0 <= i < |tries| && tries[i].counted
  }

  /** However many attempts are made on a peer after the last success of anyone, they count as at most one failure:
      as one exactly when some are to be counted and none was before. */
  lemma {:induction false} AttemptsCountedOnce(t: Tables, addr: PeerInfo, id: NodeId, tries: seq<Try>)
    requires t.Find(addr) == Some(id) && t.rows[id].peer == addr && tries != []
    requires forall i :: 0 <= i < |tries| - 1 && tries[i].counted ==> tries[i].timestamp >= t.lastGood
    ensures var u := Attempts(t, addr, tries); var row := t.rows[id];
      && id in u.rows && u == t.WithRow(id, u.rows[id])
      && u.rows[id].lastTry == tries[|tries| - 1].timestamp
      && u.rows[id].numAttempts ==
        (if row.lastCountAttempt < t.lastGood && AnyCounted(tries) then SatAdd(row.numAttempts, 1, U32_MAX)
         else row.numAttempts)
    decreases |tries|
  {
    var u := Attempt(t, addr, tries[0].counted, tries[0].timestamp);
    assert u == t.WithRow(id, u.rows[id]);
    if |tries| == 1 {
      assert tries[1..] == [];
    } else {
      var rest := tries[1..];
      assert forall i :: 0 <= i < |rest| ==> rest[i] == tries[i + 1];
      AttemptsCountedOnce(u, addr, id, rest);
      assert AnyCounted(tries) <==> tries[0].counted || AnyCounted(rest);
    }
  }

  /** After a connection the row's timestamp lags it by at most twenty minutes; it changes only if it lagged more
      before, and then only to the time of the connection. */
  lemma ConnectRefreshes(t: Tables, addr: PeerInfo, id: NodeId, timestamp: nat)
    requires t.Find(addr) == Some(id) && t.rows[id].peer == addr
    ensures var u := Connect(t, addr, timestamp); var was, now := t.rows[id].timestamp, u.rows[id].timestamp;
      && u == t.WithRow(id, t.rows[id].(timestamp := now))
      && SatSub(timestamp, now) <= 20 * 60 && (now == was || now == timestamp > was + 20 * 60)
      && (SatSub(timestamp, was) <= 20 * 60 ==> u == t)
  {
    assert t.rows[id := t.rows[id]] == t.rows;
  }

  /** The announced time is missing, in the future, or a month old. */
  predicate OutOfDate(row: Row, now: nat) {
    row.timestamp == 0 || row.timestamp > SatAdd(now, 10 * 60, U64_MAX) || SatSub(now, row.timestamp) > 30 * 24 * 60 * 60
  }

  /** A row tried within the last minute never makes way.  With few attempts, or with a success within the week,
      only its announced time can tell against it; ten attempts since the last success a week ago always do. */
  lemma WhatMakesTerrible(row: Row, now: nat)
    ensures var justTried := row.lastTry > 0 && row.lastTry >= SatSub(now, 60);
      var succeeded := row.lastSuccess > 0 && SatSub(now, row.lastSuccess) <= 7 * 24 * 60 * 60;
      && (justTried ==> !row.IsTerrible(now))
      && (!justTried && (row.numAttempts < 3 || succeeded) ==> (row.IsTerrible(now) <==> OutOfDate(row, now)))
      && (!justTried && row.lastSuccess > 0 && row.numAttempts < 10 ==> (row.IsTerrible(now) <==> OutOfDate(row, now)))
      && (!justTried && row.lastSuccess == 0 && row.numAttempts >= 3 ==> row.IsTerrible(now))
      && (!justTried && row.numAttempts >= 10 && !succeeded ==> row.IsTerrible(now))
  {
  }

  // ---- the collision queue ---------------------------------------------------------------------

  /** The row in the tried cell a queued row wants. */
  function Holder(t: Tables, id: NodeId): Option<Row> {
    if id !in t.rows then None
    else
      var c := t.TriedCell(t.rows[id].peer);
      if c in t.triedAt && t.triedAt[c] in t.rows then Some(t.rows[t.triedAt[c]]) else None
  }

  /** The tests on the holder's age come down to two: it gives way when its last success is four hours old and its
      last try more than a minute; a recent success settles the matter against the queued row. */
  lemma JudgeExact(t: Tables, id: NodeId, now: nat)
    ensures var h := Holder(t, id);
      && (Judge(t, id, now).Replace? <==>
          h.Some? && SatSub(now, h.value.lastSuccess) >= 4 * 60 * 60 && SatSub(now, h.value.lastTry) > 60)
      && (Judge(t, id, now).Drop? <==> id !in t.rows || (h.Some? && SatSub(now, h.value.lastSuccess) < 4 * 60 * 60))
  {
  }

  /** The victim offered for a test is the tried row whose cell a live queued row wants. */
  lemma VictimIsHolder(t: Tables, pick: nat)
    requires Inv(t)
    ensures var (u, victim) := SelectTriedCollision(t, pick);
      && victim == (if pick < |u.collisions| then Holder(u, u.collisions[pick]) else None)
      && (victim.Some? ==> victim.value.isTried)
  {
    hide OrderOk, HostsOk, NewCellsOk, CountsOk, PointersOk, RefsOk, IdsOk;
    LiveKeeps(t.collisions, t.rows);
    var u := SelectTriedCollision(t, pick).0;
    if pick < |u.collisions| {
      assert u.collisions[pick] in u.collisions;
      var c := u.TriedCell(u.rows[u.collisions[pick]].peer);
      if c in u.triedAt { assert TriedCellOk(t.env, t.triedAt, t.rows, c); }
    }
  }

  /** A queued row that is to replace the holder ends up tried, and out of the queue. */
  lemma ReplacedIsTried(t: Tables, id: NodeId, now: nat, start: nat)
    requires Inv(t) && Judge(t, id, now).Replace?
    requires id in t.rows && (t.env.isPrivate(t.rows[id].peer.host) ==> t.allowPrivate)
    ensures CanResolveOne(t, id, now, start)
    ensures var u := ResolveOne(t, id, now, start); id in u.rows && u.rows[id].isTried && id !in u.collisions
  {
    hide Shape, Sound, Judge, MarkGood, CanMarkGood, HostsOk;
    InvParts(t);
    FoundByHost(t, id);
    MarkGoodPromotes(t, t.rows[id].peer, false, now, start);
    WithoutKeeps(MarkGood(t, t.rows[id].peer, false, now, start).collisions, id);
  }

  lemma FoundByHost(t: Tables, id: NodeId)
    requires HostsOk(t.hostIds, t.rows) && id in t.rows
    requires t.env.isPrivate(t.rows[id].peer.host) ==> t.allowPrivate
    ensures Matched(t, t.rows[id].peer) == Some(id)
  {
  }

  // ---- promotion keeps each row's history ----------------------------------------------------------

  /** `b` is `a` but for where it stands. */
  predicate SameHistory(a: Row, b: Row) {
    b == a.(randomPos := b.randomPos, isTried := b.isTried, refCount := b.refCount)
  }

  lemma FinishKeepsHistory(s: Tables, id: NodeId)
    requires Ready(s, id)
    ensures CanPromote(s, id)
    ensures forall x :: x in FinishPromotion(s, id).rows ==> x in s.rows && SameHistory(s.rows[x], FinishPromotion(s, id).rows[x])
  {
    hide OrderOk, HostsOk, NewCellsOk, CountsOk, PointersOk, RefsOk, IdsOk, TriedCellsOk, FinishPromotion, EvictInPlace;
    FinishIs(s, id);
    var c := s.TriedCell(s.rows[id].peer);
    if c in s.triedAt {
      EvictInPlaceIs(s, id, c);
      EvictKeepsHistory(s, id, c);
    }
  }

  lemma EvictKeepsHistory(s: Tables, id: NodeId, c: Cell)
    requires Ready(s, id) && c in s.triedAt && s.triedAt[c] in s.rows
    ensures forall x :: x in EvictInPlace(s, c).rows ==> x in s.rows && SameHistory(s.rows[x], EvictInPlace(s, c).rows[x])
  {
    hide OrderOk, HostsOk, NewCellsOk, CountsOk, PointersOk, RefsOk, IdsOk, TriedCellsOk, ClearNew, EvictInPlace, Displaced;
    NotLooseAt(s, id, Dest(s, c));
    ClearNewIs(s, {id}, Dest(s, c));
    TriedOccupant(s, {id}, c);
    NotDisplaced(s, Dest(s, c), s.triedAt[c]);
    EvictInPlaceUnfold(s, c);
  }

  /** Promotion changes no row's addresses, timestamps or attempt counts. */
  lemma PromotionKeepsHistory(t: Tables, id: NodeId)
    requires Inv(t) && id in t.rows && !t.rows[id].isTried
    ensures CanPromote(t, id)
    ensures forall x :: x in MakeTried(t, id).rows ==> x in t.rows && SameHistory(t.rows[x], MakeTried(t, id).rows[x])
  {
    hide Shape, FinishPromotion, ClearRefs, OrderOk, HostsOk, NewCellsOk, CountsOk, PointersOk, RefsOk, IdsOk, TriedCellsOk;
    ReadyAfterScan(t, id);
    FinishKeepsHistory(ClearRefs(t, id, NEW_BUCKET_COUNT), id);
  }

  lemma PrepareRecords(t: Tables, addr: PeerInfo, testBeforeEvict: bool, timestamp: nat, start: nat)
    ensures var rows := PrepareGood(t, addr, testBeforeEvict, timestamp, start).0.rows;
      forall x :: x in rows ==>
        x in t.rows && rows[x] == if Matched(t, addr) == Some(x) then GoodRow(t.rows[x], timestamp) else t.rows[x]
  {
    hide FindNewBucket, GoodRow;
    assert Matched(t.(lastGood := timestamp), addr) == Matched(t, addr);
  }

  /** mark_good records the success in the matched row, and in no other; whatever else happens, no other row's
      history changes. */
  lemma MarkGoodRecords(t: Tables, addr: PeerInfo, testBeforeEvict: bool, timestamp: nat, start: nat)
    requires Inv(t)
    ensures CanMarkGood(t, addr, testBeforeEvict, timestamp, start)
    ensures var u := MarkGood(t, addr, testBeforeEvict, timestamp, start);
      forall x :: x in u.rows ==>
        x in t.rows && SameHistory(if Matched(t, addr) == Some(x) then GoodRow(t.rows[x], timestamp) else t.rows[x], u.rows[x])
  {
    hide Inv, MakeTried, PrepareGood, Matched, GoodRow;
    MarkGoodInv(t, addr, testBeforeEvict, timestamp, start);
    PrepareGoodInv(t, addr, testBeforeEvict, timestamp, start);
    PrepareRecords(t, addr, testBeforeEvict, timestamp, start);
    var (s, id) := PrepareGood(t, addr, testBeforeEvict, timestamp, start);
    if id.Some? { PromotionKeepsHistory(s, id.value); }
  }
}
