/**
 Rows deleted while their id is queued: a snapshot taken then stops the program.  Which announcement, promotion and
 pass over the queue leaves an id in it without a row, exactly; after which runs there is one; and a run that gets
 there.
 */
module AddressDeadQueue {
  import opened Wrappers
  import opened Peers
  import opened Sequences
  import opened AddressTables
  import opened AddressInvariant
  import opened AddressPromotion
  import opened AddressSnapshot
  import opened AddressRuns
  import opened AddressEffects
  import opened AddressQueue
  import opened AddressWitness

  ghost predicate Meets(gone: set<NodeId>, queue: seq<NodeId>) {
    exists id :: id in gone && id in queue
  }

  /** From a live queue, losing the rows in `gone` while the queue keeps its dead and gains only live ids. */
  lemma LiveUnless(t: Tables, u: Tables, gone: set<NodeId>)
    requires QueueLive(t)
    requires forall id :: id in t.rows ==> (id in u.rows <==> id !in gone)
    requires forall id :: id in u.collisions && id !in t.collisions ==> id in u.rows
    requires forall id :: id in t.collisions && id in gone ==> id in u.collisions
    ensures QueueLive(u) <==> !Meets(gone, t.collisions)
  {
    if !Meets(gone, t.collisions) {
      forall id | id in u.collisions ensures id in u.rows {
        if id in t.collisions { assert id in t.rows && id !in gone; }
      }
    }
  }

  // ---- announcements -------------------------------------------------------------------------------

  /** The announcement is of an unknown host, or of a known row that may take one more cell. */
  predicate MayPlace(t: Tables, addr: TimestampedPeer, penalty: nat, now: nat, draw: nat) {
    match t.Find(PeerInfo(addr.host, addr.port))
    case None => true
    case Some(id) =>
      MayAddRef(RefreshRow(t, id, addr.timestamp, EffectivePenalty(t, addr, penalty), now).rows[id], addr.timestamp, draw)
  }

  /** The cell the announced row is offered. */
  function OfferedCell(t: Tables, addr: TimestampedPeer, source: PeerInfo): Cell {
    match t.Find(PeerInfo(addr.host, addr.port))
    case None => t.SourceCell(PeerInfo(addr.host, addr.port), source)
    case Some(id) => t.SourceCell(t.rows[id].peer, source)
  }

  /** The row an announcement deletes, if any: a terrible one whose only cell another row is offered and may take. */
  ghost function LostToAdd(
    t: Tables, addr: TimestampedPeer, source: PeerInfo, penalty: nat, now: nat, draw: nat, now2: nat): set<NodeId>
  {
    var c := OfferedCell(t, addr, source);
    if !AddressRefused(t, addr) && MayPlace(t, addr, penalty, now, draw)
       && c in t.newAt && t.newAt[c] in t.rows && t.rows[t.newAt[c]].IsTerrible(now2)
       && t.Find(PeerInfo(addr.host, addr.port)) != Some(t.newAt[c])
    then Displaced(t, c) else {}
  }

  lemma KnownLoses(t: Tables, id: NodeId, source: PeerInfo, heard: nat, draw: nat, now: nat)
    requires Sound(t, {}) && id in t.rows && MayAddRef(t.rows[id], heard, draw)
    ensures var c := t.SourceCell(t.rows[id].peer, source);
      PlaceNew(t, id, source, now).rows.Keys == t.rows.Keys -
        (if c in t.newAt && t.newAt[c] in t.rows && t.rows[t.newAt[c]].IsTerrible(now) && t.newAt[c] != id
         then Displaced(t, c) else {})
  {
    hide OrderOk, HostsOk, NewCellsOk, TriedCellsOk, CountsOk, PointersOk, RefsOk, IdsOk, ClearNew, DeleteNewEntry;
    var c := t.SourceCell(t.rows[id].peer, source);
    NotTriedHasRefs(t, id);
    ClearNewIs(t, {}, c);
    if c in t.newAt { OccupantHasRef(t, {}, c); }
  }

  lemma AddLoses(t: Tables, addr: TimestampedPeer, source: PeerInfo, penalty: nat, now: nat, draw: nat, now2: nat)
    requires Inv(t) && IdSpare(t, addr)
    ensures var u := AddToNewTable(t, addr, source, penalty, now, draw, now2).0;
      forall id :: id in t.rows ==> (id in u.rows <==> id !in LostToAdd(t, addr, source, penalty, now, draw, now2))
  {
    hide Sound, PlaceNew, MayAddRef;
    if !AddressRefused(t, addr) {
      match t.Find(PeerInfo(addr.host, addr.port))
      case None => NewcomerLoses(t, addr, source, penalty, now, draw, now2);
      case Some(id) =>
        var s := RefreshRow(t, id, addr.timestamp, EffectivePenalty(t, addr, penalty), now);
        TouchRowSound(t, {}, id, s.rows[id]);
        if MayAddRef(s.rows[id], addr.timestamp, draw) {
          KnownLoses(s, id, source, addr.timestamp, draw, now2);
          assert Displaced(s, OfferedCell(t, addr, source)) == Displaced(t, OfferedCell(t, addr, source));
        }
    }
  }

  lemma NewcomerLoses(t: Tables, addr: TimestampedPeer, source: PeerInfo, penalty: nat, now: nat, draw: nat, now2: nat)
    requires Inv(t) && t.idCount + 1 < U32_MAX && !AddressRefused(t, addr)
    requires t.Find(PeerInfo(addr.host, addr.port)).None?
    ensures var u := AddToNewTable(t, addr, source, penalty, now, draw, now2).0;
      forall id :: id in t.rows ==> (id in u.rows <==> id !in LostToAdd(t, addr, source, penalty, now, draw, now2))
  {
    hide OrderOk, NewCellsOk, TriedCellsOk, CountsOk, PointersOk, RefsOk, IdsOk, AddToNewTable;
    InvParts(t);
    assert addr.host !in t.hostIds;
    NewcomerJoinsOrVanishes(t, addr, source, penalty, now, draw, now2);
  }

  /** From a live queue, an announcement leaves an id without a row queued exactly when the row it deletes is queued. */
  lemma AddKeepsQueueLive(t: Tables, addr: TimestampedPeer, source: PeerInfo, penalty: nat, now: nat, draw: nat, now2: nat)
    requires Inv(t) && IdSpare(t, addr) && QueueLive(t)
    ensures QueueLive(AddToNewTable(t, addr, source, penalty, now, draw, now2).0) <==>
      !Meets(LostToAdd(t, addr, source, penalty, now, draw, now2), t.collisions)
  {
    hide Inv, AddToNewTable, LostToAdd, OldPeersKept;
    var u := AddToNewTable(t, addr, source, penalty, now, draw, now2).0;
    AddLoses(t, addr, source, penalty, now, draw, now2);
    AddKeepsPeers(t, addr, source, penalty, now, draw, now2);
    LiveUnless(t, u, LostToAdd(t, addr, source, penalty, now, draw, now2));
  }

  // ---- promotions ----------------------------------------------------------------------------------

  /** mark_good promotes the matched row: it is not tried, and its tried cell is free or not to be asked about. */
  predicate Promotes(t: Tables, addr: PeerInfo, testBeforeEvict: bool) {
    match Matched(t, addr)
    case None => false
    case Some(id) =>
      !t.rows[id].isTried &&
      (!testBeforeEvict || t.TriedCell(addr) !in t.triedAt || |t.collisions| >= TRIED_COLLISION_SIZE)
  }

  ghost function LostToGood(t: Tables, addr: PeerInfo, testBeforeEvict: bool): set<NodeId> {
    if Promotes(t, addr, testBeforeEvict) then Deleted(t, Matched(t, addr).value) else {}
  }

  lemma PromotesExactly(t: Tables, addr: PeerInfo, testBeforeEvict: bool, timestamp: nat, start: nat)
    requires Inv(t)
    ensures var (s, id) := PrepareGood(t, addr, testBeforeEvict, timestamp, start);
      && (id.Some? <==> Promotes(t, addr, testBeforeEvict))
      && (id.Some? ==> id == Matched(t, addr) && id.value in t.rows && s == t.(lastGood := timestamp,
            rows := t.rows[id.value := GoodRow(t.rows[id.value], timestamp)]))
      && s.rows.Keys == t.rows.Keys
  {
    hide Shape, Sound, FindNewBucket;
    InvParts(t);
    assert Matched(t.(lastGood := timestamp), addr) == Matched(t, addr);
    var found := Matched(t, addr);
    if found.Some? && !t.rows[found.value].isTried { FoundGood(t, found.value, timestamp, start); }
  }

  lemma GoodLoses(t: Tables, addr: PeerInfo, testBeforeEvict: bool, timestamp: nat, start: nat)
    requires Inv(t)
    ensures CanMarkGood(t, addr, testBeforeEvict, timestamp, start)
    ensures var u := MarkGood(t, addr, testBeforeEvict, timestamp, start);
      u.rows.Keys == t.rows.Keys - LostToGood(t, addr, testBeforeEvict)
  {
    hide Inv, PrepareGood, MakeTried, Promotes, Deleted;
    MarkGoodInv(t, addr, testBeforeEvict, timestamp, start);
    PrepareGoodInv(t, addr, testBeforeEvict, timestamp, start);
    PromotesExactly(t, addr, testBeforeEvict, timestamp, start);
    var (s, id) := PrepareGood(t, addr, testBeforeEvict, timestamp, start);
    if id.Some? {
      PromotionConserves(s, id.value);
      SuccessDeletesTheSame(t, id.value, timestamp);
    }
  }

  lemma SuccessDeletesTheSame(t: Tables, id: NodeId, timestamp: nat)
    requires id in t.rows
    ensures Deleted(t.(lastGood := timestamp, rows := t.rows[id := GoodRow(t.rows[id], timestamp)]), id) == Deleted(t, id)
  {
    var s := t.(lastGood := timestamp, rows := t.rows[id := GoodRow(t.rows[id], timestamp)]);
    assert forall x :: x in t.rows ==> SamePlacement(t.rows[x], s.rows[x]) && t.rows[x].src == s.rows[x].src;
  }

  /** From a live queue, mark_good leaves an id without a row queued exactly when it promotes and the row that
      promotion deletes is queued. */
  lemma GoodKeepsQueueLive(t: Tables, addr: PeerInfo, testBeforeEvict: bool, timestamp: nat, start: nat)
    requires Inv(t) && QueueLive(t)
    ensures CanMarkGood(t, addr, testBeforeEvict, timestamp, start)
    ensures QueueLive(MarkGood(t, addr, testBeforeEvict, timestamp, start)) <==>
      !Meets(LostToGood(t, addr, testBeforeEvict), t.collisions)
  {
    hide Inv, MarkGood, CanMarkGood, LostToGood, Wanting;
    GoodLoses(t, addr, testBeforeEvict, timestamp, start);
    GoodQueue(t, addr, testBeforeEvict, timestamp, start);
    LiveUnless(t, MarkGood(t, addr, testBeforeEvict, timestamp, start), LostToGood(t, addr, testBeforeEvict));
  }

  /** The row the turn of `id` in a pass over the queue deletes, if any. */
  ghost function LostAtTurn(t: Tables, id: NodeId, now: nat): set<NodeId> {
    if Judge(t, id, now).Replace? && id in t.rows then LostToGood(t, t.rows[id].peer, false) else {}
  }

  lemma TurnLoses(t: Tables, id: NodeId, now: nat, start: nat)
    requires Inv(t)
    ensures CanResolveOne(t, id, now, start)
    ensures ResolveOne(t, id, now, start).rows.Keys == t.rows.Keys - LostAtTurn(t, id, now)
    ensures id !in LostAtTurn(t, id, now)
  {
    hide Inv, MarkGood, CanMarkGood, LostToGood, Judge;
    ResolveOneInv(t, id, now, start);
    JudgedHasRow(t, id, now);
    if Judge(t, id, now).Replace? {
      GoodLoses(t, t.rows[id].peer, false, now, start);
      KeepsItself(t, id);
    }
  }

  /** From a live queue, one turn of a pass leaves a queued id without a row exactly when the row it deletes is
      queued. */
  lemma ResolveOneKeepsQueueLive(t: Tables, id: NodeId, now: nat, start: nat)
    requires Inv(t) && QueueLive(t)
    ensures CanResolveOne(t, id, now, start)
    ensures QueueLive(ResolveOne(t, id, now, start)) <==> !Meets(LostAtTurn(t, id, now), t.collisions)
  {
    hide Inv, ResolveOne, CanResolveOne, LostAtTurn, Judge;
    TurnLoses(t, id, now, start);
    ResolveOneQueue(t, id, now, start);
    LiveUnless(t, ResolveOne(t, id, now, start), LostAtTurn(t, id, now));
  }

  lemma KeepsItself(t: Tables, id: NodeId)
    requires Inv(t) && id in t.rows
    ensures id !in LostToGood(t, t.rows[id].peer, false)
  {
    hide Shape, Sound, Displaced;
    InvParts(t);
  }

  /** Every operation but these and a pass leaves a live queue live. */
  lemma OthersKeepQueueLive(place: seq<nat> -> Placement, t: Tables, op: Op)
    requires Inv(t) && t.env == place(t.env.key) && QueueLive(t) && Safe(place, t, op)
    requires !op.Add? && !op.Good? && !op.ResolveAll?
    ensures QueueLive(Apply(place, t, op))
  {
    hide Inv, Load;
    match op
    case Try(_, _, _) =>
    case Heard(_, _) =>
    case PickVictim(_) => LiveKeeps(t.collisions, t.rows);
    case AllowPrivate(_) =>
    case Restart => RestartIsIdentity(place, t);
  }

  // ---- a pass over the queue ----------------------------------------------------------------------

  /** The turn of `pending[0]` deletes a queued row whose own turn does not come any more. */
  ghost predicate TurnStrands(t: Tables, pending: seq<NodeId>, now: nat)
    requires pending != []
  {
    exists id :: id in LostAtTurn(t, pending[0], now) && id in t.collisions && id !in pending[1..]
  }

  /** Some turn of the pass does. */
  ghost predicate PassStrands(t: Tables, pending: seq<NodeId>, now: nat, starts: seq<nat>)
    requires |starts| == |pending|
    decreases |pending|
  {
    pending != [] && (TurnStrands(t, pending, now) ||
      (CanResolveOne(t, pending[0], now, starts[0]) &&
       PassStrands(ResolveOne(t, pending[0], now, starts[0]), pending[1..], now, starts[1..])))
  }

  /** Queued ids without a row are still to be dealt with. */
  ghost predicate DeadPending(t: Tables, pending: seq<NodeId>) {
    forall id :: id in t.collisions && id !in t.rows ==> id in pending
  }

  /** A queued id without a row stays so, unless its turn comes. */
  lemma {:induction false} DeadStays(t: Tables, pending: seq<NodeId>, now: nat, starts: seq<nat>, id: NodeId)
    requires |starts| == |pending| && Inv(t) && ResolveSafe(t, pending, now, starts)
    requires id in t.collisions && id !in t.rows && id !in pending
    ensures CanResolve(t, pending, now, starts)
    ensures var u := Resolve(t, pending, now, starts); id in u.collisions && id !in u.rows
    decreases |pending|
  {
    hide Inv, ResolveOne, CanResolveOne, ResolveOneHazard, Judge, LostAtTurn;
    if pending != [] {
      ResolveOneInv(t, pending[0], now, starts[0]);
      TurnLoses(t, pending[0], now, starts[0]);
      ResolveOneQueue(t, pending[0], now, starts[0]);
      DeadStays(ResolveOne(t, pending[0], now, starts[0]), pending[1..], now, starts[1..], id);
    }
  }

  lemma TurnKeepsDeadPending(t: Tables, pending: seq<NodeId>, now: nat, start: nat)
    requires Inv(t) && pending != [] && DeadPending(t, pending)
    ensures CanResolveOne(t, pending[0], now, start)
    ensures DeadPending(ResolveOne(t, pending[0], now, start), pending[1..]) <==> !TurnStrands(t, pending, now)
  {
    hide Inv, ResolveOne, CanResolveOne, Judge, LostAtTurn;
    TurnLoses(t, pending[0], now, start);
    ResolveOneQueue(t, pending[0], now, start);
    JudgedLive(t, pending[0], now);
    LosesOnlyRows(t, pending[0], now);
    assert pending == [pending[0]] + pending[1..];
  }

  lemma LosesOnlyRows(t: Tables, id: NodeId, now: nat)
    requires Inv(t)
    ensures LostAtTurn(t, id, now) <= t.rows.Keys
  {
    hide Inv, Judge;
  }

  /** From any state, a pass leaves a queued id without a row exactly when some turn deletes a queued row after its
      own turn, or one never to have a turn. */
  lemma {:induction false} PassLeavesQueueLive(t: Tables, pending: seq<NodeId>, now: nat, starts: seq<nat>)
    requires |starts| == |pending| && Inv(t) && ResolveSafe(t, pending, now, starts) && DeadPending(t, pending)
    ensures CanResolve(t, pending, now, starts)
    ensures QueueLive(Resolve(t, pending, now, starts)) <==> !PassStrands(t, pending, now, starts)
    decreases |pending|
  {
    hide Inv, ResolveOne, CanResolveOne, ResolveOneHazard, TurnStrands;
    if pending != [] {
      ResolveOneInv(t, pending[0], now, starts[0]);
      TurnKeepsDeadPending(t, pending, now, starts[0]);
      var s := ResolveOne(t, pending[0], now, starts[0]);
      if TurnStrands(t, pending, now) {
        var id :| id in s.collisions && id !in s.rows && id !in pending[1..];
        DeadStays(s, pending[1..], now, starts[1..], id);
      } else {
        PassLeavesQueueLive(s, pending[1..], now, starts[1..]);
      }
    }
  }

  // ---- runs ------------------------------------------------------------------------------------------

  /** The operation leaves an id it finds live in the queue without its row. */
  ghost predicate Strands(t: Tables, op: Op) {
    match op
    case Add(addr, source, penalty, now, draw, now2) =>
      Meets(LostToAdd(t, addr, source, penalty, now, draw, now2), t.collisions)
    case Good(peer, test, _, _) => Meets(LostToGood(t, peer, test), t.collisions)
    case ResolveAll(now, starts) => |starts| == |t.collisions| && PassStrands(t, t.collisions, now, starts)
    case _ => false
  }

  /** The operation leaves a live queue whatever it finds. */
  ghost predicate Heals(t: Tables, op: Op) {
    op.PickVictim? || (op.ResolveAll? && !Strands(t, op))
  }

  lemma DeadStaysDead(place: seq<nat> -> Placement, t: Tables, op: Op)
    requires Inv(t) && Safe(place, t, op) && !QueueLive(t)
    requires !op.PickVictim? && !op.ResolveAll?
    ensures !QueueLive(Apply(place, t, op))
  {
    hide Shape, PointersOk, AddToNewTable, MarkGood, CanMarkGood, GoodHazard, Attempt, Connect, Load, PeersKept;
    var u := Apply(place, t, op);
    var id :| id in t.collisions && id !in t.rows;
    OldId(t, id);
    match op
    case Add(addr, source, penalty, now, draw, now2) =>
      AddKeepsPeers(t, addr, source, penalty, now, draw, now2);
      assert PeerKept(t.rows, u.rows, id);
    case Good(peer, test, ts, start) =>
      GoodKeepsPeers(t, peer, test, ts, start);
      GoodQueue(t, peer, test, ts, start);
      if id in u.rows { KeptAt(t.rows, u.rows, id); }
    case Try(_, _, _) => TouchesKeepPeers(t, op); if id in u.rows { KeptAt(t.rows, u.rows, id); }
    case Heard(_, _) => TouchesKeepPeers(t, op); if id in u.rows { KeptAt(t.rows, u.rows, id); }
    case AllowPrivate(_) =>
    case Restart =>
  }

  lemma OldId(t: Tables, id: NodeId)
    requires Inv(t) && id in t.collisions
    ensures id <= t.idCount
  {
    hide OrderOk, HostsOk, NewCellsOk, TriedCellsOk, CountsOk, PointersOk, RefsOk;
  }

  /** From any state: after an operation the queue is live exactly when the operation heals it, or found it live and
      stranded no id. */
  lemma ApplyQueueLiveExactly(place: seq<nat> -> Placement, t: Tables, op: Op)
    requires Inv(t) && t.env == place(t.env.key) && Safe(place, t, op)
    ensures QueueLive(Apply(place, t, op)) <==> Heals(t, op) || (QueueLive(t) && !Strands(t, op))
  {
    hide Inv, QueueLive, AddToNewTable, MarkGood, CanMarkGood, GoodHazard, Resolve, CanResolve, ResolveSafe, Load, Attempt,
      Connect, SelectTriedCollision, Meets, PassStrands;
    match op
    case ResolveAll(now, starts) => AllPending(t); PassLeavesQueueLive(t, t.collisions, now, starts);
    case PickVictim(pick) => SelectPrunes(t, pick);
    case Add(addr, source, penalty, now, draw, now2) =>
      if QueueLive(t) { AddKeepsQueueLive(t, addr, source, penalty, now, draw, now2); } else { DeadStaysDead(place, t, op); }
    case Good(peer, test, ts, start) =>
      if QueueLive(t) { GoodKeepsQueueLive(t, peer, test, ts, start); } else { DeadStaysDead(place, t, op); }
    case _ =>
      if QueueLive(t) { OthersKeepQueueLive(place, t, op); } else { DeadStaysDead(place, t, op); }
  }

  lemma AllPending(t: Tables)
    ensures DeadPending(t, t.collisions)
  {
  }

  ghost predicate NoneStrands(place: seq<nat> -> Placement, t: Tables, ops: seq<Op>)
    requires SafeRun(place, t, ops)
    decreases |ops|
  {
    ops == [] || (!Strands(t, ops[0]) && NoneStrands(place, Apply(place, t, ops[0]), ops[1..]))
  }

  /** Some operation heals the queue, and none after it strands an id. */
  ghost predicate Recovers(place: seq<nat> -> Placement, t: Tables, ops: seq<Op>)
    requires SafeRun(place, t, ops)
    decreases |ops|
  {
    ops != [] && (
      var u := Apply(place, t, ops[0]);
      (Heals(t, ops[0]) && NoneStrands(place, u, ops[1..])) || Recovers(place, u, ops[1..]))
  }

  /** Over every run: the snapshot can be taken at its end exactly when no operation stranded a queued id since the
      queue was last healed, or since the start if it was live then. */
  lemma {:induction false} RunSavesExactly(place: seq<nat> -> Placement, t: Tables, ops: seq<Op>)
    requires Inv(t) && t.env == place(t.env.key) && SafeRun(place, t, ops)
    ensures CanSave(Run(place, t, ops)) <==> (QueueLive(t) && NoneStrands(place, t, ops)) || Recovers(place, t, ops)
    decreases |ops|
  {
    hide Inv, Apply, Safe, QueueLive, CanSave, Strands, Heals;
    if ops == [] {
      SaveDefined(t);
    } else {
      ApplyInv(place, t, ops[0]);
      ApplyQueueLiveExactly(place, t, ops[0]);
      RunSavesExactly(place, Apply(place, t, ops[0]), ops[1..]);
    }
  }

  // ---- a run that gets there -----------------------------------------------------------------------

  const MONTH_OLD: nat := NOW - 31 * 24 * 60 * 60

  const SCRIPT := [Announced(ONE, NOW, NOW), Succeeded(ONE), Announced(TWO, MONTH_OLD, NOW), Succeeded(TWO),
    Announced(FIVE, NOW, NOW + 100)]

  /** `TWO` queued behind `ONE`, in the cell `FIVE` is about to be offered. */
  ghost predicate Waiting(t: Tables, key: seq<nat>) {
    && Inv(t) && t.env == Env(key) && t.collisions == [2] && t.idCount == 2 && QueueLive(t)
    && FIVE.host !in t.hostIds && t.newAt == map[Cell(0, 1) := 2]
    && 2 in t.rows && t.rows[2] == GoodRow(NewRow(TWO, MONTH_OLD, 1), NOW)
  }

  lemma ReachesWaiting(key: seq<nat>) returns (t: Tables)
    requires |key| == 32
    ensures Waiting(t, key)
    ensures SafeRun(Env, t, SCRIPT[4..]) ==>
      SafeRun(Env, Empty(Env(key)), SCRIPT) && Run(Env, Empty(Env(key)), SCRIPT) == Run(Env, t, SCRIPT[4..])
  {
    hide Safe, Apply, Inv, Run, SafeRun, ONE, TWO, THREE, FOUR, FIVE, SOURCE, HASHING, Digest, Env;
    var t0 := Empty(Env(key));
    EmptyInv(Env(key));
    HostsDiffer();
    Places(t0, key);
    JoinsFreely(t0, ONE, NOW, NOW);
    var t1 := Joined(t0, ONE, NOW);
    assert RefCells(t1.newAt, 1) == {Cell(0, 0)};
    RisesFreely(t1, 1, ONE, Cell(0, 0));
    var t2 := Risen(t1, 1, ONE, Cell(0, 0));
    JoinsFreely(t2, TWO, MONTH_OLD, NOW);
    var t3 := Joined(t2, TWO, MONTH_OLD);
    QueuesUp(t3, 2, TWO);
    t := Queued(t3, 2);
    if SafeRun(Env, t, SCRIPT[4..]) {
      RunFrom(t3, SCRIPT, 3);
      RunFrom(t2, SCRIPT, 2);
      RunFrom(t1, SCRIPT, 1);
      RunFrom(t0, SCRIPT, 0);
      assert SCRIPT[0..] == SCRIPT;
    }
  }

  lemma FiveTakesTheCell(t: Tables, key: seq<nat>)
    requires |key| == 32 && Waiting(t, key)
    ensures Safe(Env, t, SCRIPT[4])
    ensures var u := Apply(Env, t, SCRIPT[4]); Inv(u) && !QueueLive(u)
  {
    hide Inv, AddToNewTable, ONE, TWO, THREE, FOUR, FIVE, SOURCE, HASHING, Digest, Env;
    Places(t, key);
    var addr := TimestampedPeer(FIVE.host, FIVE.port, NOW);
    AddInv(t, addr, SOURCE, 0, NOW + 100, 0, NOW + 100);
    AddKeepsQueueLive(t, addr, SOURCE, 0, NOW + 100, 0, NOW + 100);
    assert 2 in LostToAdd(t, addr, SOURCE, 0, NOW + 100, 0, NOW + 100);
  }

  /** Five safe calls on an empty manager, within two minutes, after which its snapshot cannot be taken. */
  lemma DeadQueueIsReachable(key: seq<nat>)
    requires |key| == 32
    ensures SafeRun(Env, Empty(Env(key)), SCRIPT)
    ensures var t := Run(Env, Empty(Env(key)), SCRIPT); Inv(t) && !CanSave(t)
  {
    hide Inv, Safe, Apply, Waiting;
    var t := ReachesWaiting(key);
    FiveTakesTheCell(t, key);
    assert SCRIPT[5..] == [];
    RunFrom(t, SCRIPT, 4);
    SaveDefined(Run(Env, Empty(Env(key)), SCRIPT));
  }
}
