/**
 The address manager as the program runs it: two matrices of 32-bit cells, indices and counters edited in place
 (src/discovery/address_manager.rs).  `State` reads the object as a value of AddressTables.Tables; each method is
 proved to compute the function of the same name there, and never to stop the program on a valid state.
 */
module AddressManager {
  import opened Wrappers
  import opened Peers
  import opened Sequences
  import opened AddressTables
  import opened AddressInvariant
  import opened AddressPromotion
  import opened AddressRuns
  import opened AddressSnapshot

  // ---- matrix cells --------------------------------------------------------------------------

  type I32 = v: int | -0x8000_0000 <= v <= 0x7FFF_FFFF

  const EMPTY: I32 := -1
  const USIZE_MAX: nat := 0xFFFF_FFFF_FFFF_FFFF

  /** The cast of a node id (32 bits, unsigned) to a matrix cell (32 bits, signed): it wraps. */
  function ToCell(id: NodeId): I32 {
    var w := id % 0x1_0000_0000;
    if w < 0x8000_0000 then w else w - 0x1_0000_0000
  }

  function FromCell(v: I32): NodeId {
    if v >= 0 then v else v + 0x1_0000_0000
  }

  /** The casts lose nothing, and only the largest id is taken for an empty cell. */
  lemma CellRoundTrip(id: NodeId)
    requires id <= U32_MAX
    ensures FromCell(ToCell(id)) == id
    ensures ToCell(id) == EMPTY <==> id == U32_MAX
  {
  }

  lemma FromCellInjective(v: I32, id: NodeId)
    requires id <= U32_MAX
    ensures v == ToCell(id) <==> FromCell(v) == id
  {
  }

  // ---- the state in the heap -----------------------------------------------------------------

  ghost predicate Marks(used: set<Cell>, m: array2<I32>)
    reads m
  {
    && (forall c :: c in used ==> c.bucket < m.Length0 && c.slot < m.Length1)
    && (forall b, p :: 0 <= b < m.Length0 && 0 <= p < m.Length1 ==> (Cell(b, p) in used <==> m[b, p] != EMPTY))
  }

  ghost function Read(used: set<Cell>, m: array2<I32>): Cells
    requires forall c :: c in used ==> c.bucket < m.Length0 && c.slot < m.Length1
    reads m
  {
    map c | c in used :: FromCell(m[c.bucket, c.slot])
  }

  // ---- what each step needs in order not to stop the program -----------------------------------

  lemma RowPlaced(t: Tables, loose: set<NodeId>, id: NodeId)
    requires Sound(t, loose) && id in t.rows
    ensures t.rows[id].randomPos.Some? && t.rows[id].randomPos.value < |t.order|
    ensures !t.rows[id].isTried ==> t.newCount > 0
    ensures 1 <= id < U32_MAX
  {
    hide HostsOk, NewCellsOk, TriedCellsOk, RefsOk;
    var i := OrderIndex(t.order, t.rows, id);
    if !t.rows[id].isTried { assert id in NewIds(t.rows); }
  }

  lemma SoundCanClear(t: Tables, loose: set<NodeId>, c: Cell)
    requires Sound(t, loose)
    ensures CanClear(t, c)
  {
    hide OrderOk, HostsOk, NewCellsOk, TriedCellsOk, RefsOk, PointersOk, CountsOk, IdsOk;
    if c in t.newAt {
      OccupantHasRef(t, loose, c);
      RowPlaced(t, loose, t.newAt[c]);
    }
  }

  /** Eviction with the evicted row out of `rows` never stops the program. */
  lemma EvictionCanClear(s: Tables, id: NodeId, c: Cell, gone: Tables)
    requires Ready(s, id) && c in s.triedAt && s.triedAt[c] in s.rows
    requires gone == s.(newCount := SatSub(s.newCount, 1), rows := s.rows - {s.triedAt[c]},
      triedAt := s.triedAt - {c}, triedCount := SatSub(s.triedCount, 1))
    ensures s.triedCount > 0 && CanClear(gone, Dest(s, c))
    ensures id != s.triedAt[c] && s.triedAt[c] < U32_MAX
  {
    hide OrderOk, HostsOk, NewCellsOk, TriedCellsOk, RefsOk, PointersOk, CountsOk, IdsOk;
    var dest := Dest(s, c);
    TriedOccupant(s, {id}, c);
    DemoteCount(s, id, c);
    RowPlaced(s, {id}, s.triedAt[c]);
    if dest in s.newAt {
      var d := s.newAt[dest];
      OccupantHasRef(s, {id}, dest);
      SoundCanClear(s, {id}, dest);
      NotLooseAt(s, id, dest);
      LooseNotTried(s, id);
      TwoNewRows(s.newCount, s.triedCount, s.rows, id, d);
    }
  }

  lemma ReadyParts(s: Tables, id: NodeId)
    requires Ready(s, id)
    ensures CanPromote(s, id) && 1 <= id < U32_MAX
  {
    hide OrderOk, HostsOk, NewCellsOk, TriedCellsOk, RefsOk, PointersOk, CountsOk, IdsOk, CanPromote;
    CanAlwaysPromote(s, id);
    RowPlaced(s, {id}, id);
  }

  lemma IdInRange(t: Tables, id: NodeId)
    requires Inv(t) && id in t.rows
    ensures 1 <= id < U32_MAX
  {
    RowPlaced(t, {}, id);
  }

  lemma GoodRowInv(t: Tables, id: NodeId, timestamp: nat)
    requires Inv(t) && id in t.rows
    ensures var s := t.(lastGood := timestamp); Inv(s.WithRow(id, GoodRow(s.rows[id], timestamp)))
  {
    hide OrderOk, HostsOk, NewCellsOk, TriedCellsOk, RefsOk, PointersOk, CountsOk, IdsOk;
    var s := t.(lastGood := timestamp);
    SoundLastGood(t, timestamp);
    TouchRowSound(s, {}, id, GoodRow(s.rows[id], timestamp));
  }

  lemma GoodIs(t: Tables, addr: PeerInfo, testBeforeEvict: bool, timestamp: nat, start: nat)
    requires CanMarkGood(t, addr, testBeforeEvict, timestamp, start)
    ensures var s := t.(lastGood := timestamp); var u := MarkGood(t, addr, testBeforeEvict, timestamp, start);
      match Matched(t, addr)
      case None => u == s
      case Some(id) =>
        var (v, due) := Settle(s.WithRow(id, GoodRow(s.rows[id], timestamp)), id, testBeforeEvict, start);
        if due.Some? then CanPromote(v, due.value) && u == MakeTried(v, due.value) else u == v
  {
    hide Settle, MakeTried, CanPromote;
    assert Matched(t.(lastGood := timestamp), addr) == Matched(t, addr);
  }

  lemma ResolveUnfold(t: Tables, pending: seq<NodeId>, now: nat, starts: seq<nat>, i: nat)
    requires |starts| == |pending| && i < |pending|
    requires ResolveSafe(t, pending[i..], now, starts[i..]) && CanResolve(t, pending[i..], now, starts[i..])
    ensures CanResolveOne(t, pending[i], now, starts[i]) && !ResolveOneHazard(t, pending[i], now, starts[i])
    ensures var u := ResolveOne(t, pending[i], now, starts[i]);
      && ResolveSafe(u, pending[i + 1..], now, starts[i + 1..])
      && CanResolve(u, pending[i + 1..], now, starts[i + 1..])
      && Resolve(u, pending[i + 1..], now, starts[i + 1..]) == Resolve(t, pending[i..], now, starts[i..])
  {
    hide ResolveOne, CanResolveOne, ResolveOneHazard;
    assert pending[i..][1..] == pending[i + 1..] && starts[i..][1..] == starts[i + 1..];
  }

  lemma ResolveEnd(t: Tables, pending: seq<NodeId>, now: nat, starts: seq<nat>)
    requires |starts| == |pending| == 0
    ensures CanResolve(t, pending, now, starts) && Resolve(t, pending, now, starts) == t
  {
  }

  /** A refreshed known row that may take a reference can be placed. */
  lemma PlaceKnown(t: Tables, s: Tables, id: NodeId, heard: nat, draw: nat)
    requires Inv(t) && id in t.rows && id in s.rows && s == t.WithRow(id, s.rows[id])
    requires SamePlacement(t.rows[id], s.rows[id]) && MayAddRef(s.rows[id], heard, draw)
    ensures Placeable(s, id, {})
  {
    hide OrderOk, HostsOk, NewCellsOk, TriedCellsOk, RefsOk, PointersOk, CountsOk, IdsOk;
    TouchRowSound(t, {}, id, s.rows[id]);
    NotTriedHasRefs(s, id);
  }

  lemma PlaceFresh(t: Tables, addr: TimestampedPeer, source: PeerInfo, penalty: nat)
    requires Inv(t) && t.idCount + 1 < U32_MAX && t.Find(PeerInfo(addr.host, addr.port)).None?
    ensures Placeable(CreateCounted(t, addr, source, penalty), NextId(t), {NextId(t)})
  {
    hide OrderOk, HostsOk, NewCellsOk, TriedCellsOk, RefsOk, PointersOk, CountsOk, IdsOk;
    CreateSound(t, addr, source, penalty);
  }

  lemma ClearKeeps(t: Tables, id: NodeId, loose: set<NodeId>, c: Cell)
    requires Placeable(t, id, loose) && (c in t.newAt ==> t.newAt[c] != id)
    ensures id in ClearNew(t, c).rows
  {
    hide Sound;
    if c in t.newAt { OccupantNotLoose(t, id, loose, c); }
    ClearNewIs(t, loose, c);
  }

  lemma DropRefIs(t: Tables, c: Cell)
    requires c in t.newAt && t.newAt[c] in t.rows
    ensures var id := t.newAt[c];
      DropRef(t, c) == t.(newAt := t.newAt - {c}, rows := t.rows[id := t.rows[id].(refCount := SatSub(t.rows[id].refCount, 1))])
  {
  }

  lemma FindUnfold(t: Tables, id: NodeId, peer: PeerInfo, start: nat, n: nat)
    requires n <= NEW_BUCKET_COUNT
    ensures FindNewBucket(t, id, peer, start, n) ==
      if n == NEW_BUCKET_COUNT then None
      else
        var b := (n + start) % NEW_BUCKET_COUNT;
        var c := t.NewCell(peer, b);
        if c in t.newAt && t.newAt[c] == id then Some(b) else FindNewBucket(t, id, peer, start, n + 1)
  {
  }

  class Inner {
    const env: Placement
    const newMatrix: array2<I32>
    const triedMatrix: array2<I32>
    var usedNew: set<Cell>
    var usedTried: set<Cell>
    var idCount: nat
    var triedCount: nat
    var newCount: nat
    var mapAddr: map<string, NodeId>
    var mapInfo: map<NodeId, Row>
    var randomPos: seq<NodeId>
    var lastGood: nat
    var triedCollisions: seq<NodeId>
    var allowPrivate: bool

    ghost predicate NewValid()
      reads this`usedNew, newMatrix
    {
      newMatrix.Length0 == NEW_BUCKET_COUNT && newMatrix.Length1 == BUCKET_SIZE && Marks(usedNew, newMatrix)
    }

    ghost predicate TriedValid()
      reads this`usedTried, triedMatrix
    {
      triedMatrix.Length0 == TRIED_BUCKET_COUNT && triedMatrix.Length1 == BUCKET_SIZE && Marks(usedTried, triedMatrix)
    }

    /** The used-position sets are exactly the non-EMPTY cells. */
    ghost predicate Valid()
      reads this, newMatrix, triedMatrix
    {
      newMatrix != triedMatrix && NewValid() && TriedValid()
    }

    ghost function NewAt(): Cells
      requires NewValid()
      reads this`usedNew, newMatrix
    {
      Read(usedNew, newMatrix)
    }

    ghost function TriedAt(): Cells
      requires TriedValid()
      reads this`usedTried, triedMatrix
    {
      Read(usedTried, triedMatrix)
    }

    ghost function State(): Tables
      requires Valid()
      reads this, newMatrix, triedMatrix
    {
      Tables(env, idCount, TriedAt(), NewAt(), triedCount, newCount, mapAddr, mapInfo, randomPos, lastGood,
        triedCollisions, allowPrivate)
    }

    constructor (env: Placement)
      ensures Valid() && State() == Empty(env)
      ensures fresh(newMatrix) && fresh(triedMatrix)
    {
      this.env := env;
      newMatrix := new I32[NEW_BUCKET_COUNT, BUCKET_SIZE]((_, _) => EMPTY);
      triedMatrix := new I32[TRIED_BUCKET_COUNT, BUCKET_SIZE]((_, _) => EMPTY);
      usedNew, usedTried := {}, {};
      idCount, triedCount, newCount := 0, 0, 0;
      mapAddr, mapInfo, randomPos := map[], map[], [];
      lastGood, triedCollisions, allowPrivate := 1, [], false;
    }

    /** A cell of the heap and a cell of the abstract state. */
    lemma AtNew(b: nat, p: nat)
      requires NewValid() && b < NEW_BUCKET_COUNT && p < BUCKET_SIZE
      ensures Cell(b, p) in NewAt() <==> newMatrix[b, p] != EMPTY
      ensures Cell(b, p) in NewAt() ==> NewAt()[Cell(b, p)] == FromCell(newMatrix[b, p])
      ensures forall c :: c in NewAt() ==> c.bucket < NEW_BUCKET_COUNT && c.slot < BUCKET_SIZE
    {
    }

    lemma AtTried(b: nat, p: nat)
      requires TriedValid() && b < TRIED_BUCKET_COUNT && p < BUCKET_SIZE
      ensures Cell(b, p) in TriedAt() <==> triedMatrix[b, p] != EMPTY
      ensures Cell(b, p) in TriedAt() ==> TriedAt()[Cell(b, p)] == FromCell(triedMatrix[b, p])
      ensures forall c :: c in TriedAt() ==> c.bucket < TRIED_BUCKET_COUNT && c.slot < BUCKET_SIZE
    {
    }

    // ---- elementary edits ----------------------------------------------------------------------

    method SetNewMatrix(row: nat, col: nat, value: I32)
      requires Valid() && row < NEW_BUCKET_COUNT && col < BUCKET_SIZE
      modifies this`usedNew, newMatrix
      ensures Valid()
      ensures NewAt() == if value == EMPTY then old(NewAt()) - {Cell(row, col)}
        else old(NewAt())[Cell(row, col) := FromCell(value)]
    {
      newMatrix[row, col] := value;
      var pos := Cell(row, col);
      if value == EMPTY {
        usedNew := usedNew - {pos};
      } else {
        usedNew := usedNew + {pos};
      }
    }

    method SetTriedMatrix(row: nat, col: nat, value: I32)
      requires Valid() && row < TRIED_BUCKET_COUNT && col < BUCKET_SIZE
      modifies this`usedTried, triedMatrix
      ensures Valid()
      ensures TriedAt() == if value == EMPTY then old(TriedAt()) - {Cell(row, col)}
        else old(TriedAt())[Cell(row, col) := FromCell(value)]
    {
      triedMatrix[row, col] := value;
      var pos := Cell(row, col);
      if value == EMPTY {
        usedTried := usedTried - {pos};
      } else {
        usedTried := usedTried + {pos};
      }
    }

    method SwapRandom(r1: nat, r2: nat)
      requires Valid() && (r1 == r2 || (r1 < |randomPos| && r2 < |randomPos|))
      modifies this`mapInfo, this`randomPos
      ensures Valid() && State() == AddressTables.SwapRandom(old(State()), r1, r2)
      ensures |randomPos| == |old(randomPos)|
    {
      hide Marks, Read;
      if r1 == r2 { return; }
      var id1, id2 := randomPos[r1], randomPos[r2];
      if id1 in mapInfo { mapInfo := mapInfo[id1 := mapInfo[id1].(randomPos := Some(r2))]; }
      if id2 in mapInfo { mapInfo := mapInfo[id2 := mapInfo[id2].(randomPos := Some(r1))]; }
      randomPos := randomPos[r1 := id2][r2 := id1];
    }

    method DeleteNewEntry(id: NodeId)
      requires Valid() && CanDelete(State(), id)
      modifies this`mapInfo, this`randomPos, this`mapAddr, this`newCount
      ensures Valid() && State() == AddressTables.DeleteNewEntry(old(State()), id)
    {
      hide AddressTables.SwapRandom, Marks, Read;
      if id !in mapInfo { return; }
      var info := mapInfo[id];
      if info.randomPos.None? { return; }
      SwapRandom(info.randomPos.value, |randomPos| - 1);
      randomPos := randomPos[..|randomPos| - 1];
      mapInfo := mapInfo - {id};
      mapAddr := mapAddr - {info.peer.host};
      newCount := newCount - 1;
    }

    method ClearNew(bucket: nat, pos: nat)
      requires Valid() && bucket < NEW_BUCKET_COUNT && pos < BUCKET_SIZE && CanClear(State(), Cell(bucket, pos))
      modifies this, newMatrix
      ensures Valid() && State() == AddressTables.ClearNew(old(State()), Cell(bucket, pos))
    {
      hide AddressTables.DeleteNewEntry, Marks, Read;
      AtNew(bucket, pos);
      if newMatrix[bucket, pos] == EMPTY { return; }
      var deleteId := FromCell(newMatrix[bucket, pos]);
      if deleteId in mapInfo {
        mapInfo := mapInfo[deleteId := mapInfo[deleteId].(refCount := mapInfo[deleteId].refCount - 1)];
      }
      SetNewMatrix(bucket, pos, EMPTY);
      if deleteId in mapInfo && mapInfo[deleteId].refCount == 0 {
        DeleteNewEntry(deleteId);
      }
    }

    method CreateRow(addr: TimestampedPeer, src: PeerInfo) returns (id: NodeId)
      requires Valid()
      modifies this`idCount, this`mapAddr, this`mapInfo, this`randomPos
      ensures Valid() && id == NextId(old(State()))
      ensures State() == AddressTables.CreateRow(old(State()), addr, src)
    {
      hide Marks, Read;
      idCount := SatAdd(idCount, 1, U32_MAX);
      id := idCount;
      var row := FreshRow(addr, src, |randomPos|);
      mapAddr := mapAddr[row.peer.host := id];
      mapInfo := mapInfo[id := row];
      randomPos := randomPos + [id];
    }

    method MakeTried(id: NodeId)
      requires Valid() && Inv(State()) && id in mapInfo && !mapInfo[id].isTried
      modifies this, newMatrix, triedMatrix
      ensures Valid() && CanPromote(old(State()), id)
      ensures State() == AddressTables.MakeTried(old(State()), id)
    {
      hide ClearRefs, FinishPromotion, Shape, Sound, NonEmptyOk, Marks, Read;
      ghost var t0 := State();
      RowPlaced(t0, {}, id);
      ScanRefs(id);
      assert mapInfo[id].refCount == 0 by { ScanFindsEveryRef(t0, id); }
      ReadyAfterScan(t0, id);
      FinishTried(id);
    }

    /** The scan of make_tried over all buckets. */
    method ScanRefs(id: NodeId)
      requires Valid() && id in mapInfo && 1 <= id < U32_MAX
      modifies this`mapInfo, this`usedNew, newMatrix
      ensures Valid() && State() == ClearRefs(old(State()), id, NEW_BUCKET_COUNT)
    {
      hide ClearRefs, DropRef, Marks, Read;
      ghost var t0 := State();
      ClearRefsUnfold(t0, id, 0);
      var bucket := 0;
      while bucket < NEW_BUCKET_COUNT
        invariant bucket <= NEW_BUCKET_COUNT && Valid() && id in mapInfo
        invariant State() == ClearRefs(t0, id, bucket)
      {
        var pos := env.newSlot(mapInfo[id].peer, bucket);
        ClearRefsUnfold(t0, id, bucket);
        AtNew(bucket, pos);
        FromCellInjective(newMatrix[bucket, pos], id);
        if newMatrix[bucket, pos] == ToCell(id) {
          ghost var s := State();
          mapInfo := mapInfo[id := mapInfo[id].(refCount := SatSub(mapInfo[id].refCount, 1))];
          SetNewMatrix(bucket, pos, EMPTY);
          DropRefIs(s, Cell(bucket, pos));
        }
        bucket := bucket + 1;
      }
    }

    /** make_tried from the end of its scan on. */
    method FinishTried(id: NodeId)
      requires Valid() && Ready(State(), id)
      modifies this, newMatrix, triedMatrix
      ensures Valid() && CanPromote(old(State()), id)
      ensures State() == FinishPromotion(old(State()), id)
    {
      hide AddressTables.Evict, Sound, Marks, Read;
      ghost var s := State();
      ReadyParts(s, id);
      newCount := SatSub(newCount, 1);
      var b := env.triedBucket(mapInfo[id].peer);
      var p := env.triedSlot(mapInfo[id].peer, b);
      AtTried(b, p);
      if triedMatrix[b, p] != EMPTY {
        EvictTried(b, p, s, id);
      }
      CellRoundTrip(id);
      SetTriedMatrix(b, p, ToCell(id));
      triedCount := triedCount + 1;
      if id in mapInfo { mapInfo := mapInfo[id := mapInfo[id].(isTried := true)]; }
    }

    /** The tried occupant goes back to one new-table cell while `id` is being promoted. */
    method EvictTried(b: nat, p: nat, ghost s: Tables, ghost id: NodeId)
      requires Valid() && Ready(s, id) && State() == s.(newCount := SatSub(s.newCount, 1))
      requires Cell(b, p) in s.triedAt && s.triedAt[Cell(b, p)] in s.rows
      requires b < TRIED_BUCKET_COUNT && p < BUCKET_SIZE
      modifies this, newMatrix, triedMatrix
      ensures Valid() && State() == AddressTables.Evict(old(State()), Cell(b, p))
    {
      hide AddressTables.ClearNew, Evict, Ready, CanClear, Marks, Read;
      EvictUnfold(State(), Cell(b, p));
      EvictionCanClear(s, id, Cell(b, p), WithoutTried(State(), Cell(b, p)));
      var evictId, ev := TakeOutTried(b, p);
      var nb := env.newBucket(ev.peer, ev.src);
      var np := env.newSlot(ev.peer, nb);
      ClearNew(nb, np);
      CellRoundTrip(evictId);
      SetNewMatrix(nb, np, ToCell(evictId));
      newCount := newCount + 1;
      mapInfo := mapInfo[evictId := ev.(isTried := false, refCount := 1)];
    }

    /** The occupant of a tried cell leaves the tried table and the map. */
    method TakeOutTried(b: nat, p: nat) returns (evictId: NodeId, ev: Row)
      requires Valid() && Cell(b, p) in TriedAt() && TriedAt()[Cell(b, p)] in mapInfo && triedCount > 0
      requires b < TRIED_BUCKET_COUNT && p < BUCKET_SIZE
      modifies this`mapInfo, this`triedCount, this`usedTried, triedMatrix
      ensures evictId == old(TriedAt())[Cell(b, p)] && ev == old(mapInfo)[evictId]
      ensures Valid() && State() == WithoutTried(old(State()), Cell(b, p))
    {
      hide Marks, Read;
      AtTried(b, p);
      evictId := FromCell(triedMatrix[b, p]);
      ev := mapInfo[evictId];
      mapInfo := mapInfo - {evictId};
      SetTriedMatrix(b, p, EMPTY);
      triedCount := triedCount - 1;
    }

    /** The bucket search of mark_good; USIZE_MAX says that no bucket was found. */
    method SearchNewBucket(id: NodeId, peer: PeerInfo, bucketRand: nat) returns (newBucket: nat)
      requires Valid() && 1 <= id < U32_MAX
      ensures var found := FindNewBucket(State(), id, peer, bucketRand, 0);
        newBucket == (if found.Some? then found.value else USIZE_MAX)
        && (found.Some? ==> newBucket < NEW_BUCKET_COUNT)
    {
      hide FindNewBucket, Marks, Read;
      newBucket := USIZE_MAX;
      var n := 0;
      while n < NEW_BUCKET_COUNT
        invariant n <= NEW_BUCKET_COUNT && newBucket == USIZE_MAX
        invariant FindNewBucket(State(), id, peer, bucketRand, 0) == FindNewBucket(State(), id, peer, bucketRand, n)
      {
        var bucket := (n + bucketRand) % NEW_BUCKET_COUNT;
        var pos := env.newSlot(peer, bucket);
        FindUnfold(State(), id, peer, bucketRand, n);
        AtNew(bucket, pos);
        FromCellInjective(newMatrix[bucket, pos], id);
        if newMatrix[bucket, pos] == ToCell(id) {
          newBucket := bucket;
          CellRoundTrip(id);
          return;
        }
        n := n + 1;
      }
      FindUnfold(State(), id, peer, bucketRand, n);
    }

    method MarkGood(addr: PeerInfo, testBeforeEvict: bool, timestamp: nat, bucketRand: nat)
      requires Valid() && Inv(State())
      modifies this, newMatrix, triedMatrix
      ensures Valid() && CanMarkGood(old(State()), addr, testBeforeEvict, timestamp, bucketRand)
      ensures State() == AddressTables.MarkGood(old(State()), addr, testBeforeEvict, timestamp, bucketRand)
      ensures Inv(State()) <==> !GoodHazard(old(State()), addr, testBeforeEvict, timestamp, bucketRand)
    {
      hide FindNewBucket, Marks, Read, Inv, Settle, PrepareGood, CanMarkGood, CanPromote, AddressTables.MarkGood,
        AddressTables.MakeTried, GoodHazard, Matched, GoodRow;
      ghost var t0 := State();
      MarkGoodInv(t0, addr, testBeforeEvict, timestamp, bucketRand);
      GoodIs(t0, addr, testBeforeEvict, timestamp, bucketRand);
      var hit := RecordGood(addr, timestamp);
      if hit.Some? {
        GoodRowInv(t0, hit.value, timestamp);
        SettleGood(hit.value, testBeforeEvict, bucketRand);
      }
    }

    /** mark_good up to the row's update; no row for an unknown, refused or differing address. */
    method RecordGood(addr: PeerInfo, timestamp: nat) returns (hit: Option<NodeId>)
      requires Valid()
      modifies this`lastGood, this`mapInfo
      ensures Valid() && hit == Matched(old(State()), addr)
      ensures hit.Some? ==> hit.value in old(mapInfo) && hit.value in mapInfo
      ensures var s := old(State()).(lastGood := timestamp);
        State() == if hit.Some? then s.WithRow(hit.value, GoodRow(s.rows[hit.value], timestamp)) else s
    {
      hide Marks, Read;
      lastGood := timestamp;
      if addr.host !in mapAddr { return None; }
      var id := mapAddr[addr.host];
      if id !in mapInfo { return None; }
      var info := mapInfo[id];
      if env.isPrivate(addr.host) && !allowPrivate { return None; }
      if info.peer != addr { return None; }
      info := info.(lastSuccess := timestamp, lastTry := timestamp, numAttempts := 0);
      mapInfo := mapInfo[id := info];
      return Some(id);
    }

    /** mark_good once the row's success is recorded. */
    method SettleGood(id: NodeId, testBeforeEvict: bool, bucketRand: nat)
      requires Valid() && Inv(State()) && id in mapInfo
      modifies this, newMatrix, triedMatrix
      ensures Valid()
      ensures var (s, due) := Settle(old(State()), id, testBeforeEvict, bucketRand);
        && (due.Some? ==> CanPromote(s, due.value))
        && State() == if due.Some? then AddressTables.MakeTried(s, due.value) else s
    {
      hide FindNewBucket, Marks, Read, Inv, AddressTables.MakeTried;
      var info := mapInfo[id];
      if info.isTried { return; }
      IdInRange(State(), id);
      var newBucket := SearchNewBucket(id, info.peer, bucketRand);
      if newBucket == USIZE_MAX { return; }
      var b := env.triedBucket(info.peer);
      var p := env.triedSlot(info.peer, b);
      AtTried(b, p);
      if testBeforeEvict && triedMatrix[b, p] != EMPTY {
        if |triedCollisions| < TRIED_COLLISION_SIZE {
          if id !in triedCollisions { triedCollisions := triedCollisions + [id]; }
        } else {
          MakeTried(id);
        }
      } else {
        MakeTried(id);
      }
    }

    method AddToNewTable(addr: TimestampedPeer, source: PeerInfo, penalty0: nat, now: nat, draw: nat, now2: nat)
      returns (isUnique: bool)
      requires Valid() && Inv(State()) && IdSpare(State(), addr)
      modifies this, newMatrix
      ensures Valid()
      ensures (State(), isUnique) == AddressTables.AddToNewTable(old(State()), addr, source, penalty0, now, draw, now2)
      ensures Inv(State())
    {
      hide Marks, Read, Inv, AddressTables.PlaceNew, MayAddRef, RefreshedTimestamp, CreateCounted, Placeable;
      ghost var t0 := State();
      AddInv(t0, addr, source, penalty0, now, draw, now2);
      isUnique := false;
      var peer := PeerInfo(addr.host, addr.port);
      if env.isPrivate(peer.host) && !allowPrivate { return; }
      var penalty := penalty0;
      var id: NodeId;
      if peer.host in mapAddr && mapAddr[peer.host] in mapInfo {
        id := mapAddr[peer.host];
        if mapInfo[id].peer == peer { penalty := 0; }
        var admitted := RefreshKnown(id, addr.timestamp, penalty, now, draw);
        if !admitted { return; }
        PlaceKnown(t0, State(), id, addr.timestamp, draw);
        PlaceNew(id, source, now2, {});
      } else {
        id := CreateCountedRow(addr, source, penalty);
        isUnique := true;
        PlaceFresh(t0, addr, source, penalty);
        PlaceNew(id, source, now2, {id});
      }
    }

    method CreateCountedRow(addr: TimestampedPeer, source: PeerInfo, penalty: nat) returns (id: NodeId)
      requires Valid()
      modifies this`idCount, this`mapAddr, this`mapInfo, this`randomPos, this`newCount
      ensures Valid() && id == NextId(old(State()))
      ensures State() == CreateCounted(old(State()), addr, source, penalty)
    {
      hide Marks, Read;
      id := CreateRow(addr, source);
      mapInfo := mapInfo[id := mapInfo[id].(timestamp := SatSub(addr.timestamp, penalty))];
      newCount := newCount + 1;
    }

    /** Refresh a known row's timestamp and decide whether it may take one more cell. */
    method RefreshKnown(id: NodeId, heard: nat, penalty: nat, now: nat, draw: nat) returns (admitted: bool)
      requires Valid() && id in mapInfo
      modifies this`mapInfo
      ensures Valid() && State() == RefreshRow(old(State()), id, heard, penalty, now)
      ensures admitted == MayAddRef(mapInfo[id], heard, draw)
    {
      hide Marks, Read;
      var info := mapInfo[id];
      var online := SatSub(now, heard) < 24 * 60 * 60;
      var interval := if online then 60 * 60 else 24 * 60 * 60;
      if heard > 0 && (info.timestamp > 0 || info.timestamp < SatSub(heard, SatAdd(interval, penalty, U64_MAX))) {
        info := info.(timestamp := SatSub(heard, penalty));
        mapInfo := mapInfo[id := info];
      }
      assert State().rows == RefreshRow(old(State()), id, heard, penalty, now).rows;
      if heard == 0 || (info.timestamp > 0 && heard <= info.timestamp) { return false; }
      if info.isTried { return false; }
      if info.refCount >= NEW_BUCKETS_PER_ADDRESS { return false; }
      if info.refCount >= 1 && draw != 0 { return false; }
      return true;
    }

    /** add_to_new_table once the row to place is known. */
    method PlaceNew(id: NodeId, source: PeerInfo, now: nat, ghost loose: set<NodeId>)
      requires Valid() && Placeable(State(), id, loose)
      modifies this, newMatrix
      ensures Valid() && State() == AddressTables.PlaceNew(old(State()), id, source, now)
    {
      hide Marks, Read, Sound, CanClear, AddressTables.ClearNew, AddressTables.DeleteNewEntry;
      ghost var t0 := State();
      RowPlaced(t0, loose, id);
      var info := mapInfo[id];
      var bucket := env.newBucket(info.peer, source);
      var pos := env.newSlot(info.peer, bucket);
      AtNew(bucket, pos);
      FromCellInjective(newMatrix[bucket, pos], id);
      SoundCanClear(t0, loose, Cell(bucket, pos));
      if newMatrix[bucket, pos] != ToCell(id) {
        var addToNew := newMatrix[bucket, pos] == EMPTY;
        if !addToNew {
          var existing := FromCell(newMatrix[bucket, pos]);
          OccupantNotLoose(t0, id, loose, Cell(bucket, pos));
          var occ := mapInfo[existing];
          if occ.IsTerrible(now) || (occ.refCount > 1 && info.refCount == 0) { addToNew := true; }
        }
        if addToNew {
          ClearNew(bucket, pos);
          ClearKeeps(t0, id, loose, Cell(bucket, pos));
          mapInfo := mapInfo[id := mapInfo[id].(refCount := mapInfo[id].refCount + 1)];
          CellRoundTrip(id);
          SetNewMatrix(bucket, pos, ToCell(id));
        } else if mapInfo[id].refCount == 0 {
          DeleteNewEntry(id);
        }
      }
    }

    method Attempt(addr: PeerInfo, countFailures: bool, timestamp: nat)
      requires Valid()
      modifies this`mapInfo
      ensures Valid() && State() == AddressTables.Attempt(old(State()), addr, countFailures, timestamp)
    {
      hide Marks, Read;
      if addr.host !in mapAddr { return; }
      var id := mapAddr[addr.host];
      if id !in mapInfo { return; }
      var info := mapInfo[id];
      if info.peer != addr { return; }
      info := info.(lastTry := timestamp);
      if countFailures && info.lastCountAttempt < lastGood {
        info := info.(lastCountAttempt := timestamp, numAttempts := SatAdd(info.numAttempts, 1, U32_MAX));
      }
      mapInfo := mapInfo[id := info];
    }

    method Connect(addr: PeerInfo, timestamp: nat)
      requires Valid()
      modifies this`mapInfo
      ensures Valid() && State() == AddressTables.Connect(old(State()), addr, timestamp)
    {
      hide Marks, Read;
      if addr.host !in mapAddr { return; }
      var id := mapAddr[addr.host];
      if id !in mapInfo { return; }
      var info := mapInfo[id];
      if info.peer != addr { return; }
      if SatSub(timestamp, info.timestamp) > 20 * 60 { info := info.(timestamp := timestamp); }
      mapInfo := mapInfo[id := info];
    }

    method ResolveTriedCollisions(now: nat, starts: seq<nat>)
      requires Valid() && Inv(State()) && |starts| == |triedCollisions|
      requires ResolveSafe(State(), triedCollisions, now, starts)
      modifies this, newMatrix, triedMatrix
      ensures Valid() && Inv(State()) && CanResolve(old(State()), old(triedCollisions), now, starts)
      ensures State() == Resolve(old(State()), old(triedCollisions), now, starts)
    {
      hide Marks, Read, Inv, ResolveOne, CanResolveOne, ResolveOneHazard, Resolve, CanResolve, ResolveSafe;
      ghost var t0 := State();
      var pending := triedCollisions;
      ResolveInv(t0, pending, now, starts);
      var i := 0;
      while i < |pending|
        invariant i <= |pending| && Valid() && Inv(State())
        invariant ResolveSafe(State(), pending[i..], now, starts[i..])
        invariant CanResolve(State(), pending[i..], now, starts[i..])
        invariant Resolve(State(), pending[i..], now, starts[i..]) == Resolve(t0, pending, now, starts)
      {
        ResolveUnfold(State(), pending, now, starts, i);
        ResolveOneInv(State(), pending[i], now, starts[i]);
        ResolveCollision(pending[i], now, starts[i]);
        i := i + 1;
      }
      ResolveEnd(State(), pending[i..], now, starts[i..]);
    }

    /** One turn of the collision loop. */
    method ResolveCollision(id: NodeId, now: nat, start: nat)
      requires Valid() && Inv(State()) && CanResolveOne(State(), id, now, start)
      modifies this, newMatrix, triedMatrix
      ensures Valid() && State() == ResolveOne(old(State()), id, now, start)
    {
      hide Marks, Read, Inv, AddressTables.MarkGood, GoodHazard;
      var resolved := false;
      if id !in mapInfo {
        resolved := true;
      } else {
        var info := mapInfo[id];
        var b := env.triedBucket(info.peer);
        var p := env.triedSlot(info.peer, b);
        AtTried(b, p);
        if triedMatrix[b, p] != EMPTY {
          var oldId := FromCell(triedMatrix[b, p]);
          if oldId in mapInfo {
            var oldInfo := mapInfo[oldId];
            if SatSub(now, oldInfo.lastSuccess) < 4 * 60 * 60 {
              resolved := true;
            } else if SatSub(now, oldInfo.lastTry) < 4 * 60 * 60 {
              if SatSub(now, oldInfo.lastTry) > 60 {
                MarkGood(info.peer, false, now, start);
                resolved := true;
              }
            } else if SatSub(now, info.lastSuccess) > 40 * 60 {
              MarkGood(info.peer, false, now, start);
              resolved := true;
            } else {
              MarkGood(info.peer, false, now, start);
              resolved := true;
            }
          }
        }
      }
      if resolved { triedCollisions := Without(triedCollisions, id); }
    }

    method SelectTriedCollision(pick: nat) returns (victim: Option<Row>)
      requires Valid()
      modifies this`triedCollisions
      ensures Valid() && (State(), victim) == AddressTables.SelectTriedCollision(old(State()), pick)
    {
      hide Marks, Read;
      triedCollisions := Live(triedCollisions, mapInfo);
      if pick >= |triedCollisions| { return None; }
      var newId := triedCollisions[pick];
      if newId !in mapInfo { return None; }
      var info := mapInfo[newId];
      var b := env.triedBucket(info.peer);
      var p := env.triedSlot(info.peer, b);
      AtTried(b, p);
      if triedMatrix[b, p] == EMPTY { return None; }
      var oldId := FromCell(triedMatrix[b, p]);
      return if oldId in mapInfo then Some(mapInfo[oldId]) else None;
    }

    method RebuildUsedPositions()
      requires newMatrix != triedMatrix
      requires newMatrix.Length0 == NEW_BUCKET_COUNT && newMatrix.Length1 == BUCKET_SIZE
      requires triedMatrix.Length0 == TRIED_BUCKET_COUNT && triedMatrix.Length1 == BUCKET_SIZE
      modifies this`usedNew, this`usedTried
      ensures Valid()
    {
      usedNew := UsedPositions(newMatrix);
      usedTried := UsedPositions(triedMatrix);
    }

    method InsertEntries(s: Snapshot)
      requires |s.nodeIds| == |s.entries| && mapAddr == map[] && mapInfo == map[]
      modifies this`mapAddr, this`mapInfo
      ensures mapAddr == HostsUpTo(s.nodeIds, s.entries, |s.entries|)
      ensures mapInfo == RowsUpTo(s.nodeIds, s.entries, |s.entries|)
    {
      hide RowsUpTo, HostsUpTo;
      var i := 0;
      LoadUnfold(s, 0);
      while i < |s.entries|
        invariant i <= |s.entries|
        invariant mapAddr == HostsUpTo(s.nodeIds, s.entries, i)
        invariant mapInfo == RowsUpTo(s.nodeIds, s.entries, i)
      {
        mapAddr := mapAddr[s.entries[i].peer.host := s.nodeIds[i]];
        mapInfo := mapInfo[s.nodeIds[i] := s.entries[i]];
        LoadUnfold(s, i + 1);
        i := i + 1;
      }
    }

    /** Every listed row's back-pointer is rewritten to its place. */
    method Repoint()
      modifies this`mapInfo
      ensures mapInfo == Repointed(old(mapInfo), randomPos, |randomPos|)
    {
      hide Repointed;
      var pos := 0;
      RepointUnfold(mapInfo, randomPos, 0);
      while pos < |randomPos|
        invariant pos <= |randomPos|
        invariant mapInfo == Repointed(old(mapInfo), randomPos, pos)
      {
        var nid := randomPos[pos];
        if nid in mapInfo { mapInfo := mapInfo[nid := mapInfo[nid].(randomPos := Some(pos))]; }
        RepointUnfold(old(mapInfo), randomPos, pos + 1);
        pos := pos + 1;
      }
    }

    /** Loading's work on the freshly made object when the snapshot has entries. */
    method Restore(s: Snapshot)
      requires Valid() && WellFormed(s) && mapAddr == map[] && mapInfo == map[]
      requires forall i :: 0 <= i < |s.nodeIds| ==> s.nodeIds[i] <= U32_MAX
      modifies this, newMatrix, triedMatrix
      ensures Valid()
      ensures State() == Restored(old(State()), s)
    {
      hide Marks, Read, TableOk, RowsUpTo, HostsUpTo, Repointed, FromTable, Reads;
      InsertEntries(s);
      FillMatrix(triedMatrix, s.nodeIds, s.triedTable);
      FillMatrix(newMatrix, s.nodeIds, s.newTable);
      randomPos := Named(s.nodeIds, s.randomPos);
      triedCollisions := Named(s.nodeIds, s.collisionIndices);
      Repoint();
      RebuildUsedPositions();
      ReadsOnce(usedNew, newMatrix, FromTable(s.nodeIds, s.newTable, NEW_BUCKET_COUNT));
      ReadsOnce(usedTried, triedMatrix, FromTable(s.nodeIds, s.triedTable, TRIED_BUCKET_COUNT));
    }

    method ToAddressManagerState() returns (s: Snapshot)
      requires Valid() && CanSave(State())
      ensures s == ToSnapshot(State())
    {
      hide Marks, Read, Reads, Indexes, ToTable, Indices, SortedIds;
      var nodeIds := SortedIds(mapInfo.Keys);
      SortedIdsIsSorted(mapInfo.Keys);
      var rows := mapInfo;
      var entries := seq(|nodeIds|, i requires 0 <= i < |nodeIds| => rows[nodeIds[i]]);
      var idToIdx := map i | 0 <= i < |nodeIds| :: nodeIds[i] := i;
      IndexesAgree(nodeIds, idToIdx);
      CellsReadTried();
      CellsReadNew();
      var triedTable := IndexTable(triedMatrix, nodeIds, idToIdx, TriedAt());
      var newTable := IndexTable(newMatrix, nodeIds, idToIdx, NewAt());
      var order := Lookup(nodeIds, idToIdx, randomPos);
      var queue := Lookup(nodeIds, idToIdx, triedCollisions);
      s := Snapshot(STATE_VERSION, env.key, nodeIds, entries, triedTable, newTable, order, lastGood, queue, allowPrivate,
        idCount, triedCount, newCount);
    }

    lemma CellsReadNew()
      requires NewValid()
      ensures Reads(newMatrix, NewAt())
    {
    }

    lemma CellsReadTried()
      requires TriedValid()
      ensures Reads(triedMatrix, TriedAt())
    {
    }
  }

  // ---- saving and loading --------------------------------------------------------------------

  /** `cells` are the non-EMPTY cells of `m`. */
  ghost predicate Reads(m: array2<I32>, cells: Cells)
    reads m
  {
    && (forall c :: c in cells ==> c.bucket < m.Length0 && c.slot < m.Length1)
    && (forall b, p :: 0 <= b < m.Length0 && 0 <= p < m.Length1 ==>
      if m[b, p] == EMPTY then Cell(b, p) !in cells
      else Cell(b, p) in cells && cells[Cell(b, p)] == FromCell(m[b, p]))
  }

  lemma ReadsOnce(used: set<Cell>, m: array2<I32>, cells: Cells)
    requires Marks(used, m) && Reads(m, cells)
    ensures Read(used, m) == cells
  {
    forall c | c in used ensures c in cells { assert m[c.bucket, c.slot] != EMPTY; }
    forall c | c in cells ensures c in used { assert m[c.bucket, c.slot] != EMPTY; }
  }

  method UsedPositions(m: array2<I32>) returns (used: set<Cell>)
    ensures Marks(used, m)
  {
    used := {};
    var b := 0;
    while b < m.Length0
      invariant b <= m.Length0
      invariant forall c :: c in used ==> c.bucket < b && c.slot < m.Length1
      invariant forall i, j :: 0 <= i < b && 0 <= j < m.Length1 ==> (Cell(i, j) in used <==> m[i, j] != EMPTY)
    {
      var p := 0;
      while p < m.Length1
        invariant p <= m.Length1
        invariant forall c :: c in used ==> c.bucket <= b && c.slot < m.Length1 && (c.bucket == b ==> c.slot < p)
        invariant forall i, j :: 0 <= i < b && 0 <= j < m.Length1 ==> (Cell(i, j) in used <==> m[i, j] != EMPTY)
        invariant forall j :: 0 <= j < p ==> (Cell(b, j) in used <==> m[b, j] != EMPTY)
      {
        if m[b, p] != EMPTY { used := used + {Cell(b, p)}; }
        p := p + 1;
      }
      b := b + 1;
    }
  }

  ghost predicate Indexes(ids: seq<nat>, idx: map<NodeId, nat>) {
    forall id :: id in ids ==> id in idx && idx[id] == IndexOf(ids, id)
  }

  lemma IndexesAgree(ids: seq<nat>, idx: map<NodeId, nat>)
    requires forall i, j :: 0 <= i < j < |ids| ==> ids[i] < ids[j]
    requires forall i :: 0 <= i < |ids| ==> ids[i] in idx && idx[ids[i]] == i
    ensures Indexes(ids, idx)
  {
    forall id | id in ids ensures id in idx && idx[id] == IndexOf(ids, id) {
      assert ids[IndexOf(ids, id)] == id;
    }
  }

  /** A matrix of ids as a table of indices into the sorted ids. */
  method IndexTable(m: array2<I32>, ids: seq<nat>, idx: map<NodeId, nat>, ghost cells: Cells) returns (table: Table)
    requires m.Length1 == BUCKET_SIZE && Reads(m, cells) && Indexes(ids, idx)
    requires forall c :: c in cells ==> cells[c] in ids
    ensures table == ToTable(ids, cells, m.Length0)
  {
    table := [];
    var b := 0;
    while b < m.Length0
      invariant b <= m.Length0 && |table| == b
      invariant forall i :: 0 <= i < b ==> table[i] == RowOf(ids, cells, i)
    {
      var row: seq<Option<nat>> := seq(BUCKET_SIZE, _ => None);
      var p := 0;
      while p < BUCKET_SIZE
        invariant p <= BUCKET_SIZE == |row|
        invariant forall q :: 0 <= q < p ==> row[q] == RowOf(ids, cells, b)[q]
        invariant forall q :: p <= q < BUCKET_SIZE ==> row[q] == None
      {
        if m[b, p] != EMPTY {
          assert cells[Cell(b, p)] in ids;
          row := row[p := Some(idx[FromCell(m[b, p])])];
        }
        p := p + 1;
      }
      assert row == RowOf(ids, cells, b);
      table := table + [row];
      b := b + 1;
    }
  }

  method Lookup(ids: seq<nat>, idx: map<NodeId, nat>, s: seq<NodeId>) returns (r: seq<nat>)
    requires Indexes(ids, idx) && forall x :: x in s ==> x in ids
    ensures r == Indices(ids, s)
  {
    r := seq(|s|, i requires 0 <= i < |s| && s[i] in idx => idx[s[i]]);
  }

  method FillMatrix(m: array2<I32>, ids: seq<nat>, table: Table)
    requires m.Length1 == BUCKET_SIZE && TableOk(table, m.Length0, |ids|)
    requires forall i :: 0 <= i < |ids| ==> ids[i] <= U32_MAX
    modifies m
    ensures Reads(m, FromTable(ids, table, m.Length0))
  {
    var b := 0;
    while b < m.Length0
      invariant b <= m.Length0
      invariant forall i, j :: 0 <= i < b && 0 <= j < BUCKET_SIZE ==>
        m[i, j] == if table[i][j].None? then EMPTY else ToCell(ids[table[i][j].value])
    {
      var p := 0;
      while p < BUCKET_SIZE
        invariant p <= BUCKET_SIZE
        invariant forall i, j :: 0 <= i < b && 0 <= j < BUCKET_SIZE ==>
          m[i, j] == if table[i][j].None? then EMPTY else ToCell(ids[table[i][j].value])
        invariant forall j :: 0 <= j < p ==>
          m[b, j] == if table[b][j].None? then EMPTY else ToCell(ids[table[b][j].value])
      {
        m[b, p] := if table[b][p].None? then EMPTY else ToCell(ids[table[b][p].value]);
        p := p + 1;
      }
      b := b + 1;
    }
    forall i | 0 <= i < |ids| ensures FromCell(ToCell(ids[i])) == ids[i] && (ToCell(ids[i]) == EMPTY <==> ids[i] == U32_MAX) {
      CellRoundTrip(ids[i]);
    }
  }

  method FromAddressManagerState(place: seq<nat> -> Placement, s: Snapshot) returns (r: Result<Inner, SnapshotError>)
    requires forall i :: 0 <= i < |s.nodeIds| ==> s.nodeIds[i] <= U32_MAX
    ensures match Load(place, s)
      case Err(e) => r == Err(e)
      case Ok(t) => r.Ok? && fresh(r.value) && r.value.Valid() && r.value.State() == t
  {
    hide Marks, Read, WellFormed, Restored, Validate;
    ValidateExact(s);
    var verdict := Validate(s);
    if verdict.Err? { return Err(verdict.error); }
    var inner := Blank(place, s);
    if |s.entries| == 0 {
      inner.CellsReadNew();
      inner.CellsReadTried();
      inner.RebuildUsedPositions();
      ReadsOnce(inner.usedNew, inner.newMatrix, map[]);
      ReadsOnce(inner.usedTried, inner.triedMatrix, map[]);
      return Ok(inner);
    }
    inner.Restore(s);
    return Ok(inner);
  }

  /** A new manager with the snapshot's scalar fields. */
  method Blank(place: seq<nat> -> Placement, s: Snapshot) returns (inner: Inner)
    ensures fresh(inner) && fresh(inner.newMatrix) && fresh(inner.triedMatrix) && inner.Valid()
    ensures inner.State() == Empty(place(s.key)).(allowPrivate := s.allowPrivate, lastGood := s.lastGood,
      idCount := s.idCount, triedCount := s.triedCount, newCount := s.newCount)
  {
    hide Marks, Read;
    inner := new Inner(place(s.key));
    inner.allowPrivate := s.allowPrivate;
    inner.lastGood := s.lastGood;
    inner.idCount := s.idCount;
    inner.triedCount := s.triedCount;
    inner.newCount := s.newCount;
  }

  lemma LoadUnfold(s: Snapshot, n: nat)
    requires n <= |s.nodeIds| == |s.entries|
    ensures n == 0 ==> RowsUpTo(s.nodeIds, s.entries, n) == map[] && HostsUpTo(s.nodeIds, s.entries, n) == map[]
    ensures n > 0 ==>
      && RowsUpTo(s.nodeIds, s.entries, n) == RowsUpTo(s.nodeIds, s.entries, n - 1)[s.nodeIds[n - 1] := s.entries[n - 1]]
      && HostsUpTo(s.nodeIds, s.entries, n)
        == HostsUpTo(s.nodeIds, s.entries, n - 1)[s.entries[n - 1].peer.host := s.nodeIds[n - 1]]
  {
  }

  lemma RepointUnfold(rows: Rows, order: seq<NodeId>, n: nat)
    requires n <= |order|
    ensures Repointed(rows, order, n) ==
      if n == 0 then rows else SetPointer(Repointed(rows, order, n - 1), order[n - 1], n - 1)
  {
  }
}
