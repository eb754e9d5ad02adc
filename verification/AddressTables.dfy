/**
 The address manager's state as a value, and each of its operations as a function on that value
 (src/discovery/address_manager.rs).  Class AddressManager.Inner performs the same operations in place and
 is proved against these functions.
 */
module AddressTables {
  import opened Wrappers
  import opened Peers
  import opened Sequences

  type NodeId = nat

  const TRIED_COLLISION_SIZE: nat := 10

  /** `newAt` and `triedAt` hold exactly the non-EMPTY cells of the two matrices. */
  datatype Tables = Tables(
    env: Placement,
    idCount: nat,
    triedAt: map<Cell, NodeId>,
    newAt: map<Cell, NodeId>,
    triedCount: nat,
    newCount: nat,
    hostIds: map<string, NodeId>,
    rows: map<NodeId, Row>,
    order: seq<NodeId>,
    lastGood: nat,
    collisions: seq<NodeId>,
    allowPrivate: bool)
  {
    function NewCell(peer: PeerInfo, bucket: nat): Cell {
      env.NewCell(peer, bucket)
    }

    function SourceCell(peer: PeerInfo, src: PeerInfo): Cell {
      NewCell(peer, env.newBucket(peer, src))
    }

    function TriedCell(peer: PeerInfo): Cell {
      env.TriedCell(peer)
    }

    function Find(addr: PeerInfo): Option<NodeId> {
      if addr.host in hostIds && hostIds[addr.host] in rows then Some(hostIds[addr.host]) else None
    }

    function WithRow(id: NodeId, row: Row): Tables {
      this.(rows := rows[id := row])
    }

    function WithNew(c: Cell, id: NodeId): Tables {
      this.(newAt := newAt[c := id])
    }

    function WithoutNew(c: Cell): Tables {
      this.(newAt := newAt - {c})
    }
  }

  function Empty(env: Placement): Tables {
    Tables(env, 0, map[], map[], 0, 0, map[], map[], [], 1, [], false)
  }

  function SetPointer(rows: map<NodeId, Row>, id: NodeId, pos: nat): map<NodeId, Row> {
    if id in rows then rows[id := rows[id].(randomPos := Some(pos))] else rows
  }

  /** Out-of-range positions, which stop the program, leave the state alone here. */
  function SwapRandom(t: Tables, r1: nat, r2: nat): Tables {
    if r1 == r2 || r1 >= |t.order| || r2 >= |t.order| then t
    else
      var id1, id2 := t.order[r1], t.order[r2];
      t.(rows := SetPointer(SetPointer(t.rows, id1, r2), id2, r1),
         order := t.order[r1 := id2][r2 := id1])
  }

  function DeleteNewEntry(t: Tables, id: NodeId): Tables {
    if id !in t.rows || t.rows[id].randomPos.None? || |t.order| == 0 then t
    else
      var last := |t.order| - 1;
      var s := SwapRandom(t, t.rows[id].randomPos.value, last);
      s.(order := s.order[..last],
         rows := s.rows - {id},
         hostIds := s.hostIds - {t.rows[id].peer.host},
         newCount := SatSub(s.newCount, 1))
  }

  /** Take one new-table reference away from the occupant of `c`. */
  function DropRef(t: Tables, c: Cell): Tables
    requires c in t.newAt
  {
    var d := t.newAt[c];
    var s := if d in t.rows then t.WithRow(d, t.rows[d].(refCount := SatSub(t.rows[d].refCount, 1))) else t;
    s.WithoutNew(c)
  }

  function ClearNew(t: Tables, c: Cell): Tables {
    if c !in t.newAt then t
    else
      var d := t.newAt[c];
      var s := DropRef(t, c);
      if d in s.rows && s.rows[d].refCount == 0 then DeleteNewEntry(s, d) else s
  }

  function FreshRow(addr: TimestampedPeer, src: PeerInfo, pos: nat): Row {
    Row(PeerInfo(addr.host, addr.port), addr.timestamp, src, Some(pos), false, 0, 0, 0, 0, 0)
  }

  function NextId(t: Tables): NodeId {
    SatAdd(t.idCount, 1, U32_MAX)
  }

  function CreateRow(t: Tables, addr: TimestampedPeer, src: PeerInfo): Tables {
    var id := NextId(t);
    t.(idCount := id,
       hostIds := t.hostIds[addr.host := id],
       rows := t.rows[id := FreshRow(addr, src, |t.order|)],
       order := t.order + [id])
  }

  /** The scan of make_tried over the first `n` buckets. */
  function ClearRefs(t: Tables, id: NodeId, n: nat): Tables
    requires id in t.rows
    ensures id in ClearRefs(t, id, n).rows
  {
    if n == 0 then t
    else
      var s := ClearRefs(t, id, n - 1);
      var c := s.NewCell(s.rows[id].peer, n - 1);
      if c in s.newAt && s.newAt[c] == id then DropRef(s, c) else s
  }

  /** Move the tried occupant of `c` back to one new-table cell.  Its row is out of `rows` while the
      cell it moves to is being cleared. */
  function Evict(t: Tables, c: Cell): Tables
    requires c in t.triedAt && t.triedAt[c] in t.rows
  {
    var e := t.triedAt[c];
    var ev := t.rows[e];
    var s := t.(rows := t.rows - {e}, triedAt := t.triedAt - {c}, triedCount := SatSub(t.triedCount, 1));
    var dest := s.SourceCell(ev.peer, ev.src);
    var u := ClearNew(s, dest).WithNew(dest, e);
    u.(newCount := u.newCount + 1, rows := u.rows[e := ev.(isTried := false, refCount := 1)])
  }

  function Place(t: Tables, id: NodeId, c: Cell): Tables {
    var s := t.(triedAt := t.triedAt[c := id], triedCount := t.triedCount + 1);
    if id in s.rows then s.WithRow(id, s.rows[id].(isTried := true)) else s
  }

  /** The tried occupant, when there is one, has a row: the program stops otherwise. */
  predicate CanPromote(t: Tables, id: NodeId) {
    && id in t.rows
    && (var c := t.TriedCell(t.rows[id].peer); c in t.triedAt ==> t.triedAt[c] in t.rows)
  }

  lemma {:induction false} ClearRefsKeepsRows(t: Tables, id: NodeId, n: nat)
    requires id in t.rows
    ensures var s := ClearRefs(t, id, n);
      && s.rows.Keys == t.rows.Keys
      && s.triedAt == t.triedAt && s.env == t.env
      && s.rows[id].peer == t.rows[id].peer
  {
    if n != 0 { ClearRefsKeepsRows(t, id, n - 1); }
  }

  /** make_tried once the row's new-table cells are cleared. */
  function FinishPromotion(s: Tables, id: NodeId): Tables
    requires CanPromote(s, id)
  {
    var u := s.(newCount := SatSub(s.newCount, 1));
    var c := u.TriedCell(u.rows[id].peer);
    Place(if c in u.triedAt then Evict(u, c) else u, id, c)
  }

  function MakeTried(t: Tables, id: NodeId): Tables
    requires CanPromote(t, id)
  {
    ClearRefsKeepsRows(t, id, NEW_BUCKET_COUNT);
    FinishPromotion(ClearRefs(t, id, NEW_BUCKET_COUNT), id)
  }

  /** The bucket search of mark_good: buckets `start`, `start + 1`, ... wrapping round. */
  function FindNewBucket(t: Tables, id: NodeId, peer: PeerInfo, start: nat, n: nat): Option<nat>
    requires n <= NEW_BUCKET_COUNT
    decreases NEW_BUCKET_COUNT - n
  {
    if n == NEW_BUCKET_COUNT then None
    else
      var b := (n + start) % NEW_BUCKET_COUNT;
      var c := t.NewCell(peer, b);
      if c in t.newAt && t.newAt[c] == id then Some(b)
      else FindNewBucket(t, id, peer, start, n + 1)
  }

  function GoodRow(row: Row, timestamp: nat): Row {
    row.(lastSuccess := timestamp, lastTry := timestamp, numAttempts := 0)
  }

  /** The row mark_good acts on, when the address is known, allowed and exactly matched. */
  function Matched(t: Tables, addr: PeerInfo): Option<NodeId> {
    match t.Find(addr)
    case None => None
    case Some(id) =>
      if (t.env.isPrivate(addr.host) && !t.allowPrivate) || t.rows[id].peer != addr then None else Some(id)
  }

  /** What becomes of a row found good: it may join the collision queue, or be due for promotion. */
  function Settle(u: Tables, id: NodeId, testBeforeEvict: bool, start: nat): (r: (Tables, Option<NodeId>))
    requires id in u.rows
    ensures r.1.Some? ==> r.1.value in r.0.rows
  {
    var row := u.rows[id];
    if row.isTried || FindNewBucket(u, id, row.peer, start, 0).None? then (u, None)
    else if testBeforeEvict && u.TriedCell(row.peer) in u.triedAt && |u.collisions| < TRIED_COLLISION_SIZE then
      (if id in u.collisions then u else u.(collisions := u.collisions + [id]), None)
    else (u, Some(id))
  }

  /** mark_good up to the decision to promote: the updated tables and the row to promote, if any. */
  function PrepareGood(t: Tables, addr: PeerInfo, testBeforeEvict: bool, timestamp: nat, start: nat)
    : (r: (Tables, Option<NodeId>))
    ensures r.1.Some? ==> r.1.value in r.0.rows
  {
    var s := t.(lastGood := timestamp);
    match Matched(s, addr)
    case None => (s, None)
    case Some(id) => Settle(s.WithRow(id, GoodRow(s.rows[id], timestamp)), id, testBeforeEvict, start)
  }

  predicate CanMarkGood(t: Tables, addr: PeerInfo, testBeforeEvict: bool, timestamp: nat, start: nat) {
    var (s, id) := PrepareGood(t, addr, testBeforeEvict, timestamp, start);
    id.Some? ==> CanPromote(s, id.value)
  }

  function MarkGood(t: Tables, addr: PeerInfo, testBeforeEvict: bool, timestamp: nat, start: nat): Tables
    requires CanMarkGood(t, addr, testBeforeEvict, timestamp, start)
  {
    var (s, id) := PrepareGood(t, addr, testBeforeEvict, timestamp, start);
    if id.Some? then MakeTried(s, id.value) else s
  }

  function RefreshedTimestamp(stored: nat, heard: nat, penalty: nat, now: nat): nat {
    var online := SatSub(now, heard) < 24 * 60 * 60;
    var interval := if online then 60 * 60 else 24 * 60 * 60;
    if heard > 0 && (stored > 0 || stored < SatSub(heard, SatAdd(interval, penalty, U64_MAX)))
    then SatSub(heard, penalty) else stored
  }

  /** The draw `gen_range(0..2^refs) != 0`, with `draw` any natural number. */
  predicate LosesDraw(refs: nat, draw: nat) {
    refs >= 1 && draw != 0
  }

  /** Whether a known row may take one more new-table cell, after its timestamp refresh. */
  predicate MayAddRef(row: Row, heard: nat, draw: nat) {
    && !(heard == 0 || (row.timestamp > 0 && heard <= row.timestamp))
    && !row.isTried
    && row.refCount < NEW_BUCKETS_PER_ADDRESS
    && !LosesDraw(row.refCount, draw)
  }

  /** Put `id` in the cell its source selects, displacing the occupant only when it is terrible or has
      references to spare and `id` has none; a row left without any cell is deleted. */
  function PlaceNew(t: Tables, id: NodeId, source: PeerInfo, now: nat): Tables
    requires id in t.rows
  {
    var row := t.rows[id];
    var c := t.SourceCell(row.peer, source);
    if c in t.newAt && t.newAt[c] == id then t
    else if c !in t.newAt || (t.newAt[c] in t.rows && (
        var occ := t.rows[t.newAt[c]];
        occ.IsTerrible(now) || (occ.refCount > 1 && row.refCount == 0))) then
      var s := ClearNew(t, c);
      AddRef(s, id, c)
    else if row.refCount == 0 then DeleteNewEntry(t, id)
    else t
  }

  function AddRef(t: Tables, id: NodeId, c: Cell): Tables {
    (if id in t.rows then t.WithRow(id, t.rows[id].(refCount := t.rows[id].refCount + 1)) else t).WithNew(c, id)
  }

  function AddressRefused(t: Tables, addr: TimestampedPeer): bool {
    t.env.isPrivate(addr.host) && !t.allowPrivate
  }

  /** The announcement takes a new id. */
  predicate NeedsId(t: Tables, addr: TimestampedPeer) {
    !AddressRefused(t, addr) && t.Find(PeerInfo(addr.host, addr.port)).None?
  }

  /** The id it takes, if it takes one, is not the last of 32 bits, whose cell reads as EMPTY. */
  predicate IdSpare(t: Tables, addr: TimestampedPeer) {
    NeedsId(t, addr) ==> t.idCount + 1 < U32_MAX
  }

  function EffectivePenalty(t: Tables, addr: TimestampedPeer, penalty: nat): nat {
    var p := PeerInfo(addr.host, addr.port);
    var found := t.Find(p);
    if found.Some? && t.rows[found.value].peer == p then 0 else penalty
  }

  function RefreshRow(t: Tables, id: NodeId, heard: nat, penalty: nat, now: nat): Tables
    requires id in t.rows
  {
    t.WithRow(id, t.rows[id].(timestamp := RefreshedTimestamp(t.rows[id].timestamp, heard, penalty, now)))
  }

  function CreateCounted(t: Tables, addr: TimestampedPeer, source: PeerInfo, penalty: nat): Tables {
    var s := CreateRow(t, addr, source);
    var id := NextId(t);
    s.(rows := s.rows[id := s.rows[id].(timestamp := SatSub(addr.timestamp, penalty))], newCount := s.newCount + 1)
  }

  function AddToNewTable(
    t: Tables, addr: TimestampedPeer, source: PeerInfo, penalty0: nat, now: nat, draw: nat, now2: nat)
    : (r: (Tables, bool))
  {
    if AddressRefused(t, addr) then (t, false)
    else
      var penalty := EffectivePenalty(t, addr, penalty0);
      match t.Find(PeerInfo(addr.host, addr.port))
      case Some(id) =>
        var s := RefreshRow(t, id, addr.timestamp, penalty, now);
        if MayAddRef(s.rows[id], addr.timestamp, draw) then (PlaceNew(s, id, source, now2), false) else (s, false)
      case None =>
        (PlaceNew(CreateCounted(t, addr, source, penalty), NextId(t), source, now2), true)
  }

  function Attempt(t: Tables, addr: PeerInfo, countFailures: bool, timestamp: nat): Tables {
    match t.Find(addr)
    case None => t
    case Some(id) =>
      var row := t.rows[id];
      if row.peer != addr then t
      else
        var tried := row.(lastTry := timestamp);
        t.WithRow(id, if countFailures && row.lastCountAttempt < t.lastGood
          then tried.(lastCountAttempt := timestamp, numAttempts := SatAdd(row.numAttempts, 1, U32_MAX))
          else tried)
  }

  function Connect(t: Tables, addr: PeerInfo, timestamp: nat): Tables {
    match t.Find(addr)
    case None => t
    case Some(id) =>
      var row := t.rows[id];
      if row.peer != addr then t
      else t.WithRow(id,
        if SatSub(timestamp, row.timestamp) > 20 * 60 then row.(timestamp := timestamp) else row)
  }

  datatype Verdict = Keep | Drop | Replace

  /** What the collision queue does about `id`: nothing yet, forget it, or promote it and forget it. */
  function Judge(t: Tables, id: NodeId, now: nat): Verdict {
    if id !in t.rows then Drop
    else
      var c := t.TriedCell(t.rows[id].peer);
      if c !in t.triedAt || t.triedAt[c] !in t.rows then Keep
      else
        var holder := t.rows[t.triedAt[c]];
        if SatSub(now, holder.lastSuccess) < 4 * 60 * 60 then Drop
        else if SatSub(now, holder.lastTry) < 4 * 60 * 60 then
          (if SatSub(now, holder.lastTry) > 60 then Replace else Keep)
        else Replace
  }

  predicate CanResolveOne(t: Tables, id: NodeId, now: nat, start: nat) {
    Judge(t, id, now).Replace? ==> CanMarkGood(t, t.rows[id].peer, false, now, start)
  }

  function ResolveOne(t: Tables, id: NodeId, now: nat, start: nat): Tables
    requires CanResolveOne(t, id, now, start)
  {
    var v := Judge(t, id, now);
    var s := if v.Replace? then MarkGood(t, t.rows[id].peer, false, now, start) else t;
    if v.Keep? then s else s.(collisions := Without(s.collisions, id))
  }

  predicate CanResolve(t: Tables, pending: seq<NodeId>, now: nat, starts: seq<nat>)
    requires |starts| == |pending|
    decreases |pending|
  {
    pending == [] ||
    (CanResolveOne(t, pending[0], now, starts[0]) &&
     CanResolve(ResolveOne(t, pending[0], now, starts[0]), pending[1..], now, starts[1..]))
  }

  /** resolve_tried_collisions over what is left of the queue as it was at the start; `starts` are the
      random bucket offsets mark_good draws. */
  function Resolve(t: Tables, pending: seq<NodeId>, now: nat, starts: seq<nat>): Tables
    requires |starts| == |pending| && CanResolve(t, pending, now, starts)
    decreases |pending|
  {
    if pending == [] then t
    else Resolve(ResolveOne(t, pending[0], now, starts[0]), pending[1..], now, starts[1..])
  }

  function Live(ids: seq<NodeId>, rows: map<NodeId, Row>): seq<NodeId> {
    if ids == [] then []
    else if ids[0] in rows then [ids[0]] + Live(ids[1..], rows)
    else Live(ids[1..], rows)
  }

  function SelectTriedCollision(t: Tables, pick: nat): (Tables, Option<Row>) {
    var s := t.(collisions := Live(t.collisions, t.rows));
    if pick >= |s.collisions| || s.collisions[pick] !in s.rows then (s, None)
    else
      var c := s.TriedCell(s.rows[s.collisions[pick]].peer);
      (s, if c in s.triedAt && s.triedAt[c] in s.rows then Some(s.rows[s.triedAt[c]]) else None)
  }
}
