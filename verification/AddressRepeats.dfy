/**
 Hearing again of a known host: when exactly it may gain the row a further new-table cell, and what follows for the
 announcements the program makes, all of them without penalty.
 */
module AddressRepeats {
  import opened Wrappers
  import opened Peers
  import opened Sequences
  import opened AddressTables
  import opened AddressInvariant
  import opened AddressPromotion
  import opened AddressSnapshot
  import opened AddressRuns
  import opened AddressEffects

  /** How old a time the program is content with, for an announcement it takes to be of a peer online or not. */
  function UpdateInterval(heard: nat, now: nat): nat {
    if SatSub(now, heard) < 24 * 60 * 60 then 60 * 60 else 24 * 60 * 60
  }

  /** The refresh that precedes the test leaves a known row behind the announcement only if there is a penalty, or
      no stored time and an announced one within the update interval of the epoch; otherwise the row looks current
      already.  A penalty counts only against another port. */
  predicate LeavesBehind(row: Row, addr: TimestampedPeer, penalty: nat, now: nat) {
    || (penalty > 0 && row.peer != PeerInfo(addr.host, addr.port))
    || (row.timestamp == 0 && addr.timestamp <= UpdateInterval(addr.timestamp, now))
  }

  /** A known row heard of again may take one more cell exactly under that condition and the program's limits on
      cells; otherwise just its time changes. */
  lemma ExactRepeat(t: Tables, addr: TimestampedPeer, id: NodeId, source: PeerInfo, penalty: nat, now: nat, draw: nat,
      now2: nat)
    requires t.Find(PeerInfo(addr.host, addr.port)) == Some(id) && !AddressRefused(t, addr)
    ensures var row := t.rows[id]; var s := RefreshRow(t, id, addr.timestamp, EffectivePenalty(t, addr, penalty), now);
      var may := addr.timestamp > 0 && !row.isTried && row.refCount < NEW_BUCKETS_PER_ADDRESS
        && (row.refCount == 0 || draw == 0) && LeavesBehind(row, addr, penalty, now);
      && (MayAddRef(s.rows[id], addr.timestamp, draw) <==> may)
      && AddToNewTable(t, addr, source, penalty, now, draw, now2) == (if may then PlaceNew(s, id, source, now2) else s, false)
  {
    hide PlaceNew;
  }

  /** No penalty, and a time that is missing or over a day past the epoch. */
  predicate Plain(addr: TimestampedPeer, penalty: nat) {
    penalty == 0 && (addr.timestamp == 0 || addr.timestamp > 24 * 60 * 60)
  }

  /** Such an announcement of a known host, whatever the port, at most refreshes its time. */
  lemma PlainRefreshes(t: Tables, addr: TimestampedPeer, id: NodeId, source: PeerInfo, penalty: nat, now: nat, draw: nat,
      now2: nat)
    requires Plain(addr, penalty) && t.Find(PeerInfo(addr.host, addr.port)) == Some(id)
    ensures AddToNewTable(t, addr, source, penalty, now, draw, now2) ==
      (if AddressRefused(t, addr) then t else RefreshRow(t, id, addr.timestamp, 0, now), false)
  {
    hide PlaceNew, MayAddRef, RefreshRow, RefreshedTimestamp;
    if AddressRefused(t, addr) {
      RefusedLeaves(t, addr, source, penalty, now, draw, now2);
    } else {
      ExactRepeat(t, addr, id, source, penalty, now, draw, now2);
    }
  }

  /** The draw never decides anything about it, nor does the limit on cells. */
  lemma DrawNeverDecides(t: Tables, addr: TimestampedPeer, source: PeerInfo, penalty: nat, now: nat, draw: nat,
      other: nat, now2: nat)
    requires Plain(addr, penalty)
    ensures AddToNewTable(t, addr, source, penalty, now, draw, now2)
      == AddToNewTable(t, addr, source, penalty, now, other, now2)
  {
    hide PlaceNew, MayAddRef, RefreshRow;
    match t.Find(PeerInfo(addr.host, addr.port))
    case Some(id) =>
      PlainRefreshes(t, addr, id, source, penalty, now, draw, now2);
      PlainRefreshes(t, addr, id, source, penalty, now, other, now2);
    case None =>
  }

  // ---- runs ------------------------------------------------------------------------------------------

  /** No row is in two new-table cells. */
  ghost predicate Single(newAt: Cells) {
    forall c, d :: c in newAt && d in newAt && newAt[c] == newAt[d] ==> c == d
  }

  lemma OneMoreSingle(newAt: Cells, c: Cell, id: NodeId)
    requires Single(newAt) && forall d :: d in newAt ==> newAt[d] != id
    ensures Single(newAt[c := id])
  {
  }

  lemma FewerSingle(newAt: Cells, gone: set<Cell>)
    requires Single(newAt)
    ensures Single(newAt - gone)
  {
  }

  lemma NotInCells(t: Tables, id: NodeId)
    requires Inv(t) && (id in t.rows ==> t.rows[id].isTried)
    ensures forall d :: d in t.newAt ==> t.newAt[d] != id
  {
    hide OrderOk, HostsOk, TriedCellsOk, CountsOk, PointersOk, RefsOk, IdsOk;
    forall d | d in t.newAt ensures t.newAt[d] != id { assert NewCellOk(t.env, t.newAt, t.rows, d); }
  }

  lemma AddSingle(t: Tables, addr: TimestampedPeer, source: PeerInfo, penalty: nat, now: nat, draw: nat, now2: nat)
    requires Inv(t) && IdSpare(t, addr) && Single(t.newAt) && Plain(addr, penalty)
    ensures Single(AddToNewTable(t, addr, source, penalty, now, draw, now2).0.newAt)
  {
    hide Shape, Sound, AddToNewTable, Single;
    InvParts(t);
    match t.Find(PeerInfo(addr.host, addr.port))
    case Some(id) => PlainRefreshes(t, addr, id, source, penalty, now, draw, now2);
    case None =>
      if AddressRefused(t, addr) {
        RefusedLeaves(t, addr, source, penalty, now, draw, now2);
      } else {
        UnknownHost(t, addr);
        NewcomerJoinsOrVanishes(t, addr, source, penalty, now, draw, now2);
        NotInCells(t, t.idCount + 1);
        OneMoreSingle(t.newAt, t.SourceCell(PeerInfo(addr.host, addr.port), source), t.idCount + 1);
      }
  }

  lemma RefusedLeaves(t: Tables, addr: TimestampedPeer, source: PeerInfo, penalty: nat, now: nat, draw: nat, now2: nat)
    requires AddressRefused(t, addr)
    ensures AddToNewTable(t, addr, source, penalty, now, draw, now2) == (t, false)
  {
  }

  lemma UnknownHost(t: Tables, addr: TimestampedPeer)
    requires HostsOk(t.hostIds, t.rows) && t.Find(PeerInfo(addr.host, addr.port)).None?
    ensures addr.host !in t.hostIds
  {
  }

  lemma PromotionSingle(t: Tables, id: NodeId)
    requires Inv(t) && id in t.rows && !t.rows[id].isTried && Single(t.newAt)
    ensures CanPromote(t, id) && Single(MakeTried(t, id).newAt)
  {
    hide Inv, Single, MakeTried;
    PromotionNewCells(t, id);
    var c := t.TriedCell(t.rows[id].peer);
    FewerSingle(t.newAt, RefCells(t.newAt, id));
    if c in t.triedAt {
      EvictedIsTried(t, c);
      NotInCells(t, t.triedAt[c]);
      OneMoreSingle(t.newAt - RefCells(t.newAt, id), Dest(t, c), t.triedAt[c]);
    }
  }

  lemma EvictedIsTried(t: Tables, c: Cell)
    requires Inv(t) && c in t.triedAt
    ensures t.triedAt[c] in t.rows && t.rows[t.triedAt[c]].isTried
  {
    hide Shape;
    TriedOccupant(t, {}, c);
  }

  lemma PrepareKeepsCells(t: Tables, addr: PeerInfo, testBeforeEvict: bool, timestamp: nat, start: nat)
    ensures PrepareGood(t, addr, testBeforeEvict, timestamp, start).0.newAt == t.newAt
  {
    hide FindNewBucket;
  }

  lemma GoodSingle(t: Tables, addr: PeerInfo, testBeforeEvict: bool, timestamp: nat, start: nat)
    requires Inv(t) && Single(t.newAt)
    ensures CanMarkGood(t, addr, testBeforeEvict, timestamp, start)
    ensures Single(MarkGood(t, addr, testBeforeEvict, timestamp, start).newAt)
  {
    hide Inv, Single, MakeTried, PrepareGood;
    MarkGoodInv(t, addr, testBeforeEvict, timestamp, start);
    PrepareGoodInv(t, addr, testBeforeEvict, timestamp, start);
    PrepareKeepsCells(t, addr, testBeforeEvict, timestamp, start);
    var (s, id) := PrepareGood(t, addr, testBeforeEvict, timestamp, start);
    if id.Some? { PromotionSingle(s, id.value); }
  }

  lemma {:induction false} ResolveSingle(t: Tables, pending: seq<NodeId>, now: nat, starts: seq<nat>)
    requires |starts| == |pending| && Inv(t) && Single(t.newAt) && ResolveSafe(t, pending, now, starts)
    ensures CanResolve(t, pending, now, starts) && Single(Resolve(t, pending, now, starts).newAt)
    decreases |pending|
  {
    hide Inv, Single, Judge, MarkGood, CanMarkGood, GoodHazard;
    if pending != [] {
      ResolveOneInv(t, pending[0], now, starts[0]);
      JudgedHasRow(t, pending[0], now);
      if Judge(t, pending[0], now).Replace? { GoodSingle(t, t.rows[pending[0]].peer, false, now, starts[0]); }
      ResolveSingle(ResolveOne(t, pending[0], now, starts[0]), pending[1..], now, starts[1..]);
    }
  }

  predicate PlainOp(op: Op) {
    op.Add? ==> Plain(op.addr, op.penalty)
  }

  lemma ApplySingle(place: seq<nat> -> Placement, t: Tables, op: Op)
    requires Inv(t) && t.env == place(t.env.key) && Safe(place, t, op) && Single(t.newAt) && PlainOp(op)
    ensures Single(Apply(place, t, op).newAt)
  {
    hide Inv, Single, AddToNewTable, MarkGood, CanMarkGood, GoodHazard, Resolve, CanResolve, ResolveSafe, Load;
    match op
    case Add(addr, source, penalty, now, draw, now2) => AddSingle(t, addr, source, penalty, now, draw, now2);
    case Good(peer, test, ts, start) => GoodSingle(t, peer, test, ts, start);
    case ResolveAll(now, starts) => ResolveSingle(t, t.collisions, now, starts);
    case Restart => RestartIsIdentity(place, t);
    case _ =>
  }

  lemma {:induction false} RunSingle(place: seq<nat> -> Placement, t: Tables, ops: seq<Op>)
    requires Inv(t) && t.env == place(t.env.key) && SafeRun(place, t, ops) && Single(t.newAt)
    requires forall i :: 0 <= i < |ops| ==> PlainOp(ops[i])
    ensures Inv(Run(place, t, ops)) && Single(Run(place, t, ops).newAt)
    decreases |ops|
  {
    hide Inv, Single, Apply, Safe, PlainOp;
    if ops != [] {
      ApplyInv(place, t, ops[0]);
      ApplySingle(place, t, ops[0]);
      RunSingle(place, Apply(place, t, ops[0]), ops[1..]);
    }
  }

  lemma SingleRefs(t: Tables, id: NodeId)
    requires Inv(t) && Single(t.newAt) && id in t.rows
    ensures t.rows[id].refCount == if t.rows[id].isTried then 0 else 1
  {
    hide OrderOk, HostsOk, NewCellsOk, TriedCellsOk, CountsOk, PointersOk, IdsOk;
    assert RefsOkAt(t.newAt, t.rows, id, false);
    var cells := RefCells(t.newAt, id);
    if cells != {} {
      var c :| c in cells;
      assert cells == {c};
    }
  }

  /** Over every run from the empty manager whose announcements are plain, a row holds exactly one new-table cell
      while it is not tried: the second, and with it the limit of eight and the draw, never come up. */
  lemma OneCellEach(place: seq<nat> -> Placement, key: seq<nat>, ops: seq<Op>)
    requires place(key).key == key && SafeRun(place, Empty(place(key)), ops)
    requires forall i :: 0 <= i < |ops| ==> PlainOp(ops[i])
    ensures var t := Run(place, Empty(place(key)), ops);
      forall id :: id in t.rows ==> t.rows[id].refCount == if t.rows[id].isTried then 0 else 1
  {
    hide Inv, Run, SafeRun;
    var t := Empty(place(key));
    EmptyInv(place(key));
    RunSingle(place, t, ops);
    var u := Run(place, t, ops);
    forall id | id in u.rows ensures u.rows[id].refCount == if u.rows[id].isTried then 0 else 1 { SingleRefs(u, id); }
  }
}
