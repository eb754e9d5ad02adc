/**
 Every operation of the address manager keeps the invariant, and so does every run of them.
 The side condition a run carries is the one AddressPromotion shows to be needed.
 */
module AddressRuns {
  import opened Wrappers
  import opened Peers
  import opened Sequences
  import opened AddressTables
  import opened AddressInvariant
  import opened AddressPromotion
  import opened AddressSnapshot

  // ---- mark_good -----------------------------------------------------------------------------

  lemma {:induction false} SearchCovers(t: Tables, id: NodeId, peer: PeerInfo, start: nat, n: nat, m: nat)
    requires n <= m < NEW_BUCKET_COUNT
    requires t.NewCell(peer, (m + start) % NEW_BUCKET_COUNT) in t.newAt
    requires t.newAt[t.NewCell(peer, (m + start) % NEW_BUCKET_COUNT)] == id
    ensures FindNewBucket(t, id, peer, start, n).Some?
    decreases m - n
  {
    if n < m { SearchCovers(t, id, peer, start, n + 1, m); }
  }

  /** Wherever the search starts, it finds a bucket for every row that is not tried. */
  lemma SearchFinds(t: Tables, id: NodeId, start: nat)
    requires Sound(t, {}) && id in t.rows && !t.rows[id].isTried
    ensures FindNewBucket(t, id, t.rows[id].peer, start, 0).Some?
  {
    hide FindNewBucket, OrderOk, HostsOk, TriedCellsOk, CountsOk, PointersOk, IdsOk;
    assert RefsOkAt(t.newAt, t.rows, id, false);
    var c :| c in RefCells(t.newAt, id);
    assert NewCellOk(t.env, t.newAt, t.rows, c);
    var m := (c.bucket + NEW_BUCKET_COUNT - start % NEW_BUCKET_COUNT) % NEW_BUCKET_COUNT;
    assert (m + start) % NEW_BUCKET_COUNT == c.bucket;
    SearchCovers(t, id, t.rows[id].peer, start, 0, m);
  }

  /** mark_good leads to a promotion that meets the hazard. */
  ghost predicate GoodHazard(t: Tables, addr: PeerInfo, testBeforeEvict: bool, timestamp: nat, start: nat) {
    var (s, id) := PrepareGood(t, addr, testBeforeEvict, timestamp, start);
    id.Some? && Hazard(s, id.value)
  }

  lemma QueueSound(t: Tables, collisions: seq<NodeId>)
    requires Inv(t) && IdsOk(t.idCount, t.rows.Keys, collisions)
    ensures Inv(t.(collisions := collisions))
  {
    hide OrderOk, HostsOk, NewCellsOk, TriedCellsOk, CountsOk, PointersOk, RefsOk;
  }

  /** What PrepareGood can do, told apart by whether it promotes; no search bound to look into. */
  lemma PrepareGoodInv(t: Tables, addr: PeerInfo, testBeforeEvict: bool, timestamp: nat, start: nat)
    requires Inv(t)
    ensures var (s, id) := PrepareGood(t, addr, testBeforeEvict, timestamp, start);
      Inv(s) && s.triedAt == t.triedAt && s.env == t.env && (id.Some? ==> id.value in s.rows && !s.rows[id.value].isTried)
  {
    hide OrderOk, HostsOk, NewCellsOk, TriedCellsOk, CountsOk, PointersOk, RefsOk, FindNewBucket;
    var s := t.(lastGood := timestamp);
    var found := Matched(s, addr);
    if found.Some? {
      var id := found.value;
      var row := GoodRow(s.rows[id], timestamp);
      TouchRowSound(s, {}, id, row);
      var u := s.WithRow(id, row);
      if id !in u.collisions && |u.collisions| < TRIED_COLLISION_SIZE {
        QueueSound(u, u.collisions + [id]);
      }
    }
  }

  lemma MarkGoodInv(t: Tables, addr: PeerInfo, testBeforeEvict: bool, timestamp: nat, start: nat)
    requires Inv(t)
    ensures CanMarkGood(t, addr, testBeforeEvict, timestamp, start)
    ensures var u := MarkGood(t, addr, testBeforeEvict, timestamp, start);
      && Shape(u, {}) && NonEmptyOk(u)
      && (Inv(u) <==> !GoodHazard(t, addr, testBeforeEvict, timestamp, start))
      && t.triedAt.Keys <= u.triedAt.Keys && u.env == t.env
  {
    hide Shape, Sound, PrepareGood, MakeTried, Hazard;
    PrepareGoodInv(t, addr, testBeforeEvict, timestamp, start);
    var (s, id) := PrepareGood(t, addr, testBeforeEvict, timestamp, start);
    if id.Some? {
      PromotionInvariant(s, id.value);
      PromotionConserves(s, id.value);
    } else {
      InvParts(s);
    }
  }

  /** A known, allowed address that is not tried yet either joins the collision queue or becomes tried. */
  lemma MarkGoodPromotes(t: Tables, addr: PeerInfo, testBeforeEvict: bool, timestamp: nat, start: nat)
    requires Inv(t) && Matched(t, addr).Some?
    ensures CanMarkGood(t, addr, testBeforeEvict, timestamp, start)
    ensures var u := MarkGood(t, addr, testBeforeEvict, timestamp, start); var id := Matched(t, addr).value;
      && id in u.rows
      && (u.rows[id].isTried || id in u.collisions)
      && (!testBeforeEvict ==> u.rows[id].isTried)
  {
    hide Shape, MakeTried, FindNewBucket, OrderOk, HostsOk, NewCellsOk, TriedCellsOk, CountsOk, PointersOk, RefsOk,
      IdsOk;
    var id := Matched(t, addr).value;
    var s := t.(lastGood := timestamp);
    assert Matched(s, addr) == Some(id);
    var row := GoodRow(s.rows[id], timestamp);
    var u := s.WithRow(id, row);
    SoundLastGood(t, timestamp);
    TouchRowSound(s, {}, id, row);
    if !row.isTried {
      SearchFinds(u, id, start);
      PromotionInvariant(u, id);
      PromotedIsTried(u, id);
    }
    MarkGoodInv(t, addr, testBeforeEvict, timestamp, start);
  }

  lemma SoundLastGood(t: Tables, timestamp: nat)
    requires Sound(t, {})
    ensures Sound(t.(lastGood := timestamp), {})
  {
    hide OrderOk, HostsOk, NewCellsOk, TriedCellsOk, CountsOk, PointersOk, RefsOk, IdsOk;
  }

  /** What mark_good finds out about a row that is not tried. */
  lemma FoundGood(t: Tables, id: NodeId, ts: nat, start: nat)
    requires Inv(t) && id in t.rows && !t.rows[id].isTried && (t.env.isPrivate(t.rows[id].peer.host) ==> t.allowPrivate)
    ensures Matched(t.(lastGood := ts), t.rows[id].peer) == Some(id)
    ensures var u := t.(lastGood := ts, rows := t.rows[id := GoodRow(t.rows[id], ts)]);
      Inv(u) && Sound(u, {}) && FindNewBucket(u, id, t.rows[id].peer, start, 0).Some?
  {
    hide FindNewBucket, OrderOk, NewCellsOk, TriedCellsOk, CountsOk, PointersOk, RefsOk, IdsOk;
    InvParts(t);
    SoundLastGood(t, ts);
    var u := t.(lastGood := ts, rows := t.rows[id := GoodRow(t.rows[id], ts)]);
    TouchRowSound(t.(lastGood := ts), {}, id, u.rows[id]);
    SearchFinds(u, id, start);
  }

  lemma PromotedIsTried(t: Tables, id: NodeId)
    requires Inv(t) && id in t.rows && !t.rows[id].isTried && CanPromote(t, id)
    ensures id in MakeTried(t, id).rows && MakeTried(t, id).rows[id].isTried
  {
    hide OrderOk, HostsOk, NewCellsOk, CountsOk, PointersOk, RefsOk, IdsOk, MakeTried;
    PromotionInvariant(t, id);
    PromotionConserves(t, id);
    var u := MakeTried(t, id);
    assert TriedCellOk(u.env, u.triedAt, u.rows, t.TriedCell(t.rows[id].peer));
  }

  // ---- add_to_new_table ----------------------------------------------------------------------

  /** `id` is either settled with a reference to spare, or newly created with none. */
  ghost predicate Placeable(t: Tables, id: NodeId, loose: set<NodeId>) {
    && Sound(t, loose) && id in t.rows && !t.rows[id].isTried
    && t.rows[id].refCount < NEW_BUCKETS_PER_ADDRESS
    && ((loose == {id} && t.rows[id].refCount == 0) || (loose == {} && t.rows[id].refCount > 0))
  }

  lemma OccupantNotLoose(t: Tables, id: NodeId, loose: set<NodeId>, c: Cell)
    requires Placeable(t, id, loose) && c in t.newAt
    ensures t.newAt[c] in t.rows && (t.newAt[c] == id ==> loose == {})
  {
    OccupantHasRef(t, loose, c);
  }

  lemma PlaceNewInv(t: Tables, id: NodeId, loose: set<NodeId>, source: PeerInfo, now: nat)
    requires Placeable(t, id, loose)
    ensures var u := PlaceNew(t, id, source, now); Inv(u) && u.triedAt == t.triedAt && u.env == t.env
  {
    hide OrderOk, HostsOk, NewCellsOk, TriedCellsOk, CountsOk, PointersOk, RefsOk, IdsOk, ClearNew, DeleteNewEntry;
    var row := t.rows[id];
    var c := t.SourceCell(row.peer, source);
    if c in t.newAt { OccupantNotLoose(t, id, loose, c); }
    if c in t.newAt && t.newAt[c] == id {
    } else if c !in t.newAt || t.rows[t.newAt[c]].IsTerrible(now)
        || (t.rows[t.newAt[c]].refCount > 1 && row.refCount == 0) {
      ClearNewSound(t, loose, c);
      ClearNewIs(t, loose, c);
      var s := ClearNew(t, c);
      AddRefSound(s, loose, id, c);
      assert loose - {id} == {};
      assert id in AddRef(s, id, c).rows;
    } else if row.refCount == 0 {
      DeleteSound(t, loose, id);
      assert loose - {id} == {};
      DeleteKeepsTried(t, id);
      assert t.newAt[c] in DeleteNewEntry(t, id).rows;
    }
  }

  lemma DeleteKeepsTried(t: Tables, id: NodeId)
    ensures DeleteNewEntry(t, id).triedAt == t.triedAt && DeleteNewEntry(t, id).env == t.env
  {
  }

  lemma NotTriedHasRefs(t: Tables, id: NodeId)
    requires Sound(t, {}) && id in t.rows && !t.rows[id].isTried
    ensures t.rows[id].refCount > 0
  {
    assert RefsOkAt(t.newAt, t.rows, id, false);
  }

  lemma PlaceNewFrame(t: Tables, id: NodeId, source: PeerInfo, now: nat)
    requires id in t.rows
    ensures var u := PlaceNew(t, id, source, now);
      && u.triedAt == t.triedAt && u.env == t.env && u.idCount == t.idCount && u.collisions == t.collisions
      && u.allowPrivate == t.allowPrivate && u.lastGood == t.lastGood
  {
    hide DeleteNewEntry;
    var c := t.SourceCell(t.rows[id].peer, source);
    DeleteFrame(t, id);
    if c in t.newAt { DeleteFrame(DropRef(t, c), t.newAt[c]); }
  }

  lemma DeleteFrame(t: Tables, id: NodeId)
    ensures var u := DeleteNewEntry(t, id);
      && u.triedAt == t.triedAt && u.env == t.env && u.idCount == t.idCount && u.collisions == t.collisions
      && u.allowPrivate == t.allowPrivate && u.lastGood == t.lastGood
  {
  }

  lemma AddFrame(t: Tables, addr: TimestampedPeer, source: PeerInfo, penalty: nat, now: nat, draw: nat, now2: nat)
    ensures var u := AddToNewTable(t, addr, source, penalty, now, draw, now2).0;
      && u.triedAt == t.triedAt && u.env == t.env && u.collisions == t.collisions
      && u.allowPrivate == t.allowPrivate && u.lastGood == t.lastGood
      && u.idCount == (if NeedsId(t, addr) then NextId(t) else t.idCount)
  {
    hide PlaceNew;
    if !AddressRefused(t, addr) {
      var fine := EffectivePenalty(t, addr, penalty);
      match t.Find(PeerInfo(addr.host, addr.port))
      case Some(id) => PlaceNewFrame(RefreshRow(t, id, addr.timestamp, fine, now), id, source, now2);
      case None => PlaceNewFrame(CreateCounted(t, addr, source, fine), NextId(t), source, now2);
    }
  }

  lemma LastIdUsed(t: Tables)
    requires t.idCount >= U32_MAX
    ensures !Inv(t)
  {
  }

  /** An announcement keeps the invariant exactly when it does not use up the last id. */
  lemma AddInv(t: Tables, addr: TimestampedPeer, source: PeerInfo, penalty: nat, now: nat, draw: nat, now2: nat)
    requires Inv(t)
    ensures var u := AddToNewTable(t, addr, source, penalty, now, draw, now2).0;
      (Inv(u) <==> IdSpare(t, addr)) && u.triedAt == t.triedAt && u.env == t.env
  {
    hide OrderOk, HostsOk, NewCellsOk, TriedCellsOk, CountsOk, PointersOk, RefsOk, IdsOk, PlaceNew;
    AddFrame(t, addr, source, penalty, now, draw, now2);
    if !IdSpare(t, addr) {
      LastIdUsed(AddToNewTable(t, addr, source, penalty, now, draw, now2).0);
    } else if !AddressRefused(t, addr) {
      var fine := EffectivePenalty(t, addr, penalty);
      match t.Find(PeerInfo(addr.host, addr.port))
      case Some(id) =>
        var s := RefreshRow(t, id, addr.timestamp, fine, now);
        TouchRowSound(t, {}, id, s.rows[id]);
        if MayAddRef(s.rows[id], addr.timestamp, draw) {
          NotTriedHasRefs(s, id);
          PlaceNewInv(s, id, {}, source, now2);
        }
      case None =>
        CreateSound(t, addr, source, fine);
        PlaceNewInv(CreateCounted(t, addr, source, fine), NextId(t), {NextId(t)}, source, now2);
    }
  }

  // ---- attempt, connect ----------------------------------------------------------------------

  lemma AttemptInv(t: Tables, addr: PeerInfo, countFailures: bool, timestamp: nat)
    requires Inv(t)
    ensures Inv(Attempt(t, addr, countFailures, timestamp))
  {
    hide OrderOk, HostsOk, NewCellsOk, TriedCellsOk, CountsOk, PointersOk, RefsOk, IdsOk;
    var found := t.Find(addr);
    if found.Some? { TouchRowSound(t, {}, found.value, Attempt(t, addr, countFailures, timestamp).rows[found.value]); }
  }

  lemma ConnectInv(t: Tables, addr: PeerInfo, timestamp: nat)
    requires Inv(t)
    ensures Inv(Connect(t, addr, timestamp))
  {
    hide OrderOk, HostsOk, NewCellsOk, TriedCellsOk, CountsOk, PointersOk, RefsOk, IdsOk;
    var found := t.Find(addr);
    if found.Some? { TouchRowSound(t, {}, found.value, Connect(t, addr, timestamp).rows[found.value]); }
  }

  // ---- the collision queue -------------------------------------------------------------------

  lemma {:induction false} LiveKeeps(s: seq<NodeId>, rows: Rows)
    ensures |Live(s, rows)| <= |s|
    ensures forall y :: y in Live(s, rows) <==> y in s && y in rows
    ensures (forall i, j :: 0 <= i < j < |s| ==> s[i] != s[j]) ==>
      forall i, j :: 0 <= i < j < |Live(s, rows)| ==> Live(s, rows)[i] != Live(s, rows)[j]
  {
    if s != [] {
      LiveKeeps(s[1..], rows);
      assert s == [s[0]] + s[1..];
      if forall i, j :: 0 <= i < j < |s| ==> s[i] != s[j] {
        assert forall i, j :: 0 <= i < j < |s[1..]| ==> s[1..][i] == s[i + 1] && s[1..][j] == s[j + 1];
        assert s[0] !in s[1..];
      }
    }
  }

  ghost predicate ResolveOneHazard(t: Tables, id: NodeId, now: nat, start: nat) {
    Judge(t, id, now).Replace? && id in t.rows && GoodHazard(t, t.rows[id].peer, false, now, start)
  }

  lemma JudgedHasRow(t: Tables, id: NodeId, now: nat)
    ensures Judge(t, id, now).Replace? ==> id in t.rows
  {
  }

  lemma ResolveOneInv(t: Tables, id: NodeId, now: nat, start: nat)
    requires Inv(t)
    ensures CanResolveOne(t, id, now, start)
    ensures !ResolveOneHazard(t, id, now, start) ==> Inv(ResolveOne(t, id, now, start))
    ensures t.triedAt.Keys <= ResolveOne(t, id, now, start).triedAt.Keys
    ensures ResolveOne(t, id, now, start).env == t.env
  {
    hide Shape, Sound, Judge, MarkGood, CanMarkGood, GoodHazard;
    JudgedHasRow(t, id, now);
    var v := Judge(t, id, now);
    if v.Replace? { MarkGoodInv(t, t.rows[id].peer, false, now, start); }
    var s := if v.Replace? then MarkGood(t, t.rows[id].peer, false, now, start) else t;
    if Inv(s) {
      WithoutKeeps(s.collisions, id);
      QueueInv(s, Without(s.collisions, id));
    }
  }

  lemma QueueInv(t: Tables, collisions: seq<NodeId>)
    requires Inv(t) && |collisions| <= |t.collisions| && forall x :: x in collisions ==> x in t.collisions
    requires (forall i, j :: 0 <= i < j < |t.collisions| ==> t.collisions[i] != t.collisions[j])
      ==> forall i, j :: 0 <= i < j < |collisions| ==> collisions[i] != collisions[j]
    ensures Inv(t.(collisions := collisions))
  {
    hide OrderOk, HostsOk, NewCellsOk, TriedCellsOk, CountsOk, PointersOk, RefsOk;
    QueueSound(t, collisions);
  }

  /** No promotion during the pass meets the hazard. */
  ghost predicate ResolveSafe(t: Tables, pending: seq<NodeId>, now: nat, starts: seq<nat>)
    requires |starts| == |pending|
    decreases |pending|
  {
    pending == [] ||
    (CanResolveOne(t, pending[0], now, starts[0]) && !ResolveOneHazard(t, pending[0], now, starts[0]) &&
     ResolveSafe(ResolveOne(t, pending[0], now, starts[0]), pending[1..], now, starts[1..]))
  }

  lemma {:induction false} ResolveInv(t: Tables, pending: seq<NodeId>, now: nat, starts: seq<nat>)
    requires |starts| == |pending| && Inv(t) && ResolveSafe(t, pending, now, starts)
    ensures CanResolve(t, pending, now, starts)
    ensures Inv(Resolve(t, pending, now, starts))
    ensures t.triedAt.Keys <= Resolve(t, pending, now, starts).triedAt.Keys
    ensures Resolve(t, pending, now, starts).env == t.env
    decreases |pending|
  {
    hide Shape, Sound, Judge, ResolveOne, CanResolveOne, ResolveOneHazard;
    if pending != [] {
      ResolveOneInv(t, pending[0], now, starts[0]);
      ResolveInv(ResolveOne(t, pending[0], now, starts[0]), pending[1..], now, starts[1..]);
    }
  }

  /** Picking a collision victim prunes the queue to exactly its live ids, in order, so saving is possible. */
  lemma SelectPrunes(t: Tables, pick: nat)
    requires Inv(t)
    ensures var u := SelectTriedCollision(t, pick).0;
      && Inv(u) && QueueLive(u) && u.triedAt == t.triedAt && u.env == t.env
      && (forall id :: id in u.collisions <==> id in t.collisions && id in t.rows)
  {
    hide Shape, Sound;
    LiveKeeps(t.collisions, t.rows);
    QueueInv(t, Live(t.collisions, t.rows));
  }

  // ---- runs ----------------------------------------------------------------------------------

  datatype Op =
    | Add(addr: TimestampedPeer, source: PeerInfo, penalty: nat, now: nat, draw: nat, now2: nat)
    | Good(peer: PeerInfo, testBeforeEvict: bool, timestamp: nat, start: nat)
    | Try(peer: PeerInfo, countFailures: bool, timestamp: nat)
    | Heard(peer: PeerInfo, timestamp: nat)
    | ResolveAll(now: nat, starts: seq<nat>)
    | PickVictim(pick: nat)
    | AllowPrivate(allow: bool)
    | Restart

  /** The operation cannot stop the program and meets no hazard. */
  ghost predicate Safe(place: seq<nat> -> Placement, t: Tables, op: Op) {
    match op
    case Add(addr, _, _, _, _, _) => IdSpare(t, addr)
    case Good(peer, test, ts, start) =>
      CanMarkGood(t, peer, test, ts, start) && !GoodHazard(t, peer, test, ts, start)
    case ResolveAll(now, starts) =>
      && |starts| == |t.collisions|
      && ResolveSafe(t, t.collisions, now, starts) && CanResolve(t, t.collisions, now, starts)
    case Restart => CanSave(t)
    case _ => true
  }

  ghost function Apply(place: seq<nat> -> Placement, t: Tables, op: Op): Tables
    requires Safe(place, t, op)
  {
    match op
    case Add(addr, source, penalty, now, draw, now2) => AddToNewTable(t, addr, source, penalty, now, draw, now2).0
    case Good(peer, test, ts, start) => MarkGood(t, peer, test, ts, start)
    case Try(peer, count, ts) => Attempt(t, peer, count, ts)
    case Heard(peer, ts) => Connect(t, peer, ts)
    case ResolveAll(now, starts) => Resolve(t, t.collisions, now, starts)
    case PickVictim(pick) => SelectTriedCollision(t, pick).0
    case AllowPrivate(allow) => t.(allowPrivate := allow)
    case Restart => (match Load(place, ToSnapshot(t)) case Ok(u) => u case Err(_) => t)
  }

  /** At rest the side condition is only the hazard, a spare id, and a live queue when saving. */
  lemma SafeMeans(place: seq<nat> -> Placement, t: Tables, op: Op)
    requires Inv(t)
    ensures op.Good? ==>
      (Safe(place, t, op) <==> !GoodHazard(t, op.peer, op.testBeforeEvict, op.timestamp, op.start))
    ensures op.ResolveAll? && |op.starts| == |t.collisions| ==>
      (Safe(place, t, op) <==> ResolveSafe(t, t.collisions, op.now, op.starts))
    ensures op.Restart? ==> (Safe(place, t, op) <==> QueueLive(t))
  {
    hide Shape, Sound, MarkGood, CanMarkGood, GoodHazard, Resolve, CanResolve, ResolveSafe, CanSave;
    match op
    case Good(peer, test, ts, start) => MarkGoodInv(t, peer, test, ts, start);
    case ResolveAll(now, starts) =>
      if |starts| == |t.collisions| && ResolveSafe(t, t.collisions, now, starts) {
        ResolveInv(t, t.collisions, now, starts);
      }
    case Restart => SaveDefined(t);
    case _ =>
  }

  lemma ApplyInv(place: seq<nat> -> Placement, t: Tables, op: Op)
    requires Inv(t) && t.env == place(t.env.key) && Safe(place, t, op)
    ensures var u := Apply(place, t, op); Inv(u) && u.env == t.env && t.triedAt.Keys <= u.triedAt.Keys
  {
    hide Shape, Sound, AddToNewTable, MarkGood, CanMarkGood, GoodHazard, Resolve, CanResolve, ResolveSafe,
      Load, SelectTriedCollision, Attempt, Connect;
    match op
    case Add(addr, source, penalty, now, draw, now2) => AddInv(t, addr, source, penalty, now, draw, now2);
    case Good(peer, test, ts, start) => MarkGoodInv(t, peer, test, ts, start);
    case Try(peer, count, ts) => AttemptInv(t, peer, count, ts); RowsOnly(t, op);
    case Heard(peer, ts) => ConnectInv(t, peer, ts); RowsOnly(t, op);
    case ResolveAll(now, starts) => ResolveInv(t, t.collisions, now, starts);
    case PickVictim(pick) => SelectPrunes(t, pick);
    case AllowPrivate(allow) => AllowInv(t, allow);
    case Restart => RestartIsIdentity(place, t);
  }

  lemma RowsOnly(t: Tables, op: Op)
    ensures op.Try? ==> var u := Attempt(t, op.peer, op.countFailures, op.timestamp);
      u.triedAt == t.triedAt && u.env == t.env
    ensures op.Heard? ==> var u := Connect(t, op.peer, op.timestamp); u.triedAt == t.triedAt && u.env == t.env
  {
  }

  lemma AllowInv(t: Tables, allow: bool)
    requires Inv(t)
    ensures Inv(t.(allowPrivate := allow))
  {
    hide OrderOk, HostsOk, NewCellsOk, TriedCellsOk, CountsOk, PointersOk, RefsOk, IdsOk;
  }

  lemma RestartIsIdentity(place: seq<nat> -> Placement, t: Tables)
    requires Inv(t) && t.env == place(t.env.key) && CanSave(t)
    ensures Load(place, ToSnapshot(t)) == Ok(t)
  {
    hide Shape, Sound, Load;
    RoundTrip(place, t);
  }

  ghost predicate SafeRun(place: seq<nat> -> Placement, t: Tables, ops: seq<Op>)
    decreases |ops|
  {
    ops == [] || (Safe(place, t, ops[0]) && SafeRun(place, Apply(place, t, ops[0]), ops[1..]))
  }

  ghost function Run(place: seq<nat> -> Placement, t: Tables, ops: seq<Op>): Tables
    requires SafeRun(place, t, ops)
    decreases |ops|
  {
    if ops == [] then t else Run(place, Apply(place, t, ops[0]), ops[1..])
  }

  /** Over every run, restarts included, the invariant holds and no tried cell is ever vacated. */
  lemma {:induction false} RunInv(place: seq<nat> -> Placement, t: Tables, ops: seq<Op>)
    requires Inv(t) && t.env == place(t.env.key) && SafeRun(place, t, ops)
    ensures Inv(Run(place, t, ops)) && t.triedAt.Keys <= Run(place, t, ops).triedAt.Keys
    decreases |ops|
  {
    hide Shape, Sound, Apply, Safe;
    if ops != [] {
      ApplyInv(place, t, ops[0]);
      RunInv(place, Apply(place, t, ops[0]), ops[1..]);
    }
  }

  lemma RunFromEmpty(place: seq<nat> -> Placement, key: seq<nat>, ops: seq<Op>)
    requires place(key).key == key && SafeRun(place, Empty(place(key)), ops)
    ensures Inv(Run(place, Empty(place(key)), ops))
  {
    EmptyInv(place(key));
    RunInv(place, Empty(place(key)), ops);
  }

  /** The same with the bucket and slot functions computed from any digest, as the program computes them. */
  lemma HashedRuns(h: Hashing, isPrivate: string -> bool, key: seq<nat>, ops: seq<Op>)
    requires var place := (k: seq<nat>) => h.Place(k, isPrivate); SafeRun(place, Empty(place(key)), ops)
    ensures var place := (k: seq<nat>) => h.Place(k, isPrivate); Inv(Run(place, Empty(place(key)), ops))
  {
    RunFromEmpty((k: seq<nat>) => h.Place(k, isPrivate), key, ops);
  }
}
