/**
 The persistent snapshot of the address manager: to_address_manager_state, validate_snapshot and
 from_address_manager_state (src/discovery/address_manager.rs, src/discovery/address_manager_store.rs).
 Saving renumbers every row to its rank among the sorted ids; loading undoes it.
 */
module AddressSnapshot {
  import opened Wrappers
  import opened Peers
  import opened Sequences
  import opened AddressTables
  import opened AddressInvariant

  const STATE_VERSION: nat := 1

  type Table = seq<seq<Option<nat>>>

  datatype Snapshot = Snapshot(
    version: nat,
    key: seq<nat>,
    nodeIds: seq<NodeId>,
    entries: seq<Row>,
    triedTable: Table,
    newTable: Table,
    randomPos: seq<nat>,
    lastGood: nat,
    collisionIndices: seq<nat>,
    allowPrivate: bool,
    idCount: nat,
    triedCount: nat,
    newCount: nat)

  datatype SnapshotError =
    | UnsupportedVersion(version: nat)
    | InvalidVersion(version: nat)
    | LengthMismatch
    | EmptyEntriesWithOrder
    | EmptyEntriesWithCounts
    | TriedBuckets(n: nat) | TriedWidth(n: nat) | TriedIndex
    | NewBuckets(n: nat) | NewWidth(n: nat) | NewIndex
    | OrderIndexRange
    | CollisionIndexRange

  // ---- validation ----------------------------------------------------------------------------

  datatype RowFault = Width(n: nat) | Index

  predicate IndicesBelow(row: seq<Option<nat>>, n: nat) {
    forall i :: 0 <= i < |row| && row[i].Some? ==> row[i].value < n
  }

  /** The first faulty bucket, scanning in order. */
  function FirstFault(table: Table, n: nat): Option<RowFault> {
    if table == [] then None
    else if |table[0]| != BUCKET_SIZE then Some(Width(|table[0]|))
    else if !IndicesBelow(table[0], n) then Some(Index)
    else FirstFault(table[1..], n)
  }

  predicate AllBelow(s: seq<nat>, n: nat) {
    forall i :: 0 <= i < |s| ==> s[i] < n
  }

  function Validate(s: Snapshot): Result<(), SnapshotError> {
    var n := |s.entries|;
    if s.version > STATE_VERSION then Err(UnsupportedVersion(s.version))
    else if s.version != STATE_VERSION then Err(InvalidVersion(s.version))
    else if |s.nodeIds| != n then Err(LengthMismatch)
    else if n == 0 && (s.nodeIds != [] || s.randomPos != []) then Err(EmptyEntriesWithOrder)
    else if n == 0 && (s.idCount != 0 || s.triedCount != 0 || s.newCount != 0) then Err(EmptyEntriesWithCounts)
    else if |s.triedTable| != TRIED_BUCKET_COUNT then Err(TriedBuckets(|s.triedTable|))
    else match FirstFault(s.triedTable, n) {
      case Some(Width(w)) => Err(TriedWidth(w))
      case Some(Index) => Err(TriedIndex)
      case None =>
        if |s.newTable| != NEW_BUCKET_COUNT then Err(NewBuckets(|s.newTable|))
        else match FirstFault(s.newTable, n) {
          case Some(Width(w)) => Err(NewWidth(w))
          case Some(Index) => Err(NewIndex)
          case None =>
            if !AllBelow(s.randomPos, n) then Err(OrderIndexRange)
            else if !AllBelow(s.collisionIndices, n) then Err(CollisionIndexRange)
            else Ok(())
        }
    }
  }

  ghost predicate TableOk(table: Table, buckets: nat, n: nat) {
    && |table| == buckets
    && (forall b :: 0 <= b < buckets ==> |table[b]| == BUCKET_SIZE && IndicesBelow(table[b], n))
  }

  /** What loading relies on: the shapes are right and every index names an entry. */
  ghost predicate WellFormed(s: Snapshot) {
    var n := |s.entries|;
    && s.version == STATE_VERSION
    && |s.nodeIds| == n
    && (n == 0 ==> s.idCount == 0 && s.triedCount == 0 && s.newCount == 0)
    && TableOk(s.triedTable, TRIED_BUCKET_COUNT, n)
    && TableOk(s.newTable, NEW_BUCKET_COUNT, n)
    && AllBelow(s.randomPos, n)
    && AllBelow(s.collisionIndices, n)
  }

  lemma {:induction false} FirstFaultFinds(table: Table, n: nat)
    ensures FirstFault(table, n).None? <==> TableOk(table, |table|, n)
  {
    if table != [] {
      FirstFaultFinds(table[1..], n);
      assert forall b :: 0 <= b < |table[1..]| ==> table[1..][b] == table[b + 1];
      assert forall b :: 0 < b < |table| ==> table[b] == table[1..][b - 1];
    }
  }

  lemma NotBelowZero(s: seq<nat>)
    requires s != []
    ensures !AllBelow(s, 0)
  {
    assert s[0] >= 0;
  }

  /** validate_snapshot accepts exactly the snapshots loading can rely on. */
  lemma ValidateExact(s: Snapshot)
    ensures Validate(s).Ok? <==> WellFormed(s)
  {
    FirstFaultFinds(s.triedTable, |s.entries|);
    FirstFaultFinds(s.newTable, |s.entries|);
    if s.randomPos != [] { NotBelowZero(s.randomPos); }
  }

  lemma {:induction false} FirstFaultIs(table: Table, n: nat)
    ensures match FirstFault(table, n)
      case None => TableOk(table, |table|, n)
      case Some(Width(w)) => w != BUCKET_SIZE && exists b :: 0 <= b < |table| && |table[b]| == w
      case Some(Index) => exists b :: 0 <= b < |table| && !IndicesBelow(table[b], n)
  {
    FirstFaultFinds(table, n);
    if table != [] && |table[0]| == BUCKET_SIZE && IndicesBelow(table[0], n) {
      FirstFaultIs(table[1..], n);
      assert forall b :: 0 <= b < |table[1..]| ==> table[1..][b] == table[b + 1];
    }
  }

  /** What the error says is wrong with the snapshot is wrong with it. */
  lemma FaultsAreTrue(s: Snapshot)
    requires Validate(s).Err?
    ensures var n := |s.entries|;
      match Validate(s).error
      case UnsupportedVersion(v) => s.version == v > 1
      case InvalidVersion(v) => s.version == v < 1
      case LengthMismatch => |s.nodeIds| != n
      case EmptyEntriesWithOrder => n == 0 && s.randomPos != []
      case EmptyEntriesWithCounts => n == 0 && (s.idCount > 0 || s.triedCount > 0 || s.newCount > 0)
      case TriedBuckets(k) => |s.triedTable| == k != 256
      case TriedWidth(w) => w != 64 && exists b :: 0 <= b < |s.triedTable| && |s.triedTable[b]| == w
      case TriedIndex => exists b :: 0 <= b < |s.triedTable| && !IndicesBelow(s.triedTable[b], n)
      case NewBuckets(k) => |s.newTable| == k != 1024
      case NewWidth(w) => w != 64 && exists b :: 0 <= b < |s.newTable| && |s.newTable[b]| == w
      case NewIndex => exists b :: 0 <= b < |s.newTable| && !IndicesBelow(s.newTable[b], n)
      case OrderIndexRange => exists i :: 0 <= i < |s.randomPos| && s.randomPos[i] >= n
      case CollisionIndexRange => exists i :: 0 <= i < |s.collisionIndices| && s.collisionIndices[i] >= n
  {
    hide FirstFault;
    FirstFaultIs(s.triedTable, |s.entries|);
    FirstFaultIs(s.newTable, |s.entries|);
  }

  // ---- saving --------------------------------------------------------------------------------

  function IndexOf(ids: seq<nat>, id: nat): (i: nat)
    requires id in ids
    ensures i < |ids| && ids[i] == id
  {
    if ids[0] == id then 0 else 1 + IndexOf(ids[1..], id)
  }

  function Indices(ids: seq<nat>, s: seq<nat>): seq<nat>
    requires forall x :: x in s ==> x in ids
  {
    seq(|s|, i requires 0 <= i < |s| => IndexOf(ids, s[i]))
  }

  function RowOf(ids: seq<nat>, cells: Cells, b: nat): seq<Option<nat>> {
    seq(BUCKET_SIZE, p requires 0 <= p < BUCKET_SIZE =>
      if Cell(b, p) in cells && cells[Cell(b, p)] in ids then Some(IndexOf(ids, cells[Cell(b, p)])) else None)
  }

  function ToTable(ids: seq<nat>, cells: Cells, buckets: nat): Table {
    seq(buckets, b requires 0 <= b < buckets => RowOf(ids, cells, b))
  }

  /** Saving stops the program unless every queued id still has a row. */
  ghost predicate QueueLive(t: Tables) {
    forall id :: id in t.collisions ==> id in t.rows
  }

  ghost predicate CanSave(t: Tables) {
    && (forall id :: id in t.order ==> id in t.rows)
    && (forall c :: c in t.newAt ==> t.newAt[c] in t.rows)
    && (forall c :: c in t.triedAt ==> t.triedAt[c] in t.rows)
    && QueueLive(t)
  }

  ghost function ToSnapshot(t: Tables): Snapshot
    requires CanSave(t)
  {
    SortedIdsIsSorted(t.rows.Keys);
    var ids := SortedIds(t.rows.Keys);
    Snapshot(
      STATE_VERSION, t.env.key, ids, seq(|ids|, i requires 0 <= i < |ids| => t.rows[ids[i]]),
      ToTable(ids, t.triedAt, TRIED_BUCKET_COUNT), ToTable(ids, t.newAt, NEW_BUCKET_COUNT),
      Indices(ids, t.order), t.lastGood, Indices(ids, t.collisions), t.allowPrivate,
      t.idCount, t.triedCount, t.newCount)
  }

  // ---- loading -------------------------------------------------------------------------------

  /** An id of 32 ones reads as EMPTY once it is cast to a cell. */
  function FromTable(ids: seq<nat>, table: Table, buckets: nat): Cells
    requires TableOk(table, buckets, |ids|)
  {
    map b: nat, p: nat | b < buckets && p < BUCKET_SIZE && table[b][p].Some? && ids[table[b][p].value] != U32_MAX ::
      Cell(b, p) := ids[table[b][p].value]
  }

  /** Rows and hosts after inserting the first `n` entries. */
  function RowsUpTo(ids: seq<nat>, entries: seq<Row>, n: nat): Rows
    requires n <= |ids| == |entries|
  {
    if n == 0 then map[] else RowsUpTo(ids, entries, n - 1)[ids[n - 1] := entries[n - 1]]
  }

  function HostsUpTo(ids: seq<nat>, entries: seq<Row>, n: nat): map<string, NodeId>
    requires n <= |ids| == |entries|
  {
    if n == 0 then map[] else HostsUpTo(ids, entries, n - 1)[entries[n - 1].peer.host := ids[n - 1]]
  }

  function Named(ids: seq<nat>, indices: seq<nat>): seq<NodeId>
    requires AllBelow(indices, |ids|)
  {
    seq(|indices|, i requires 0 <= i < |indices| => ids[indices[i]])
  }

  /** The pass that rewrites the back-pointers of the first `n` places of `order`. */
  function Repointed(rows: Rows, order: seq<NodeId>, n: nat): Rows
    requires n <= |order|
  {
    if n == 0 then rows else SetPointer(Repointed(rows, order, n - 1), order[n - 1], n - 1)
  }

  function Restored(blank: Tables, s: Snapshot): Tables
    requires WellFormed(s)
  {
    var order := Named(s.nodeIds, s.randomPos);
    blank.(
      triedAt := FromTable(s.nodeIds, s.triedTable, TRIED_BUCKET_COUNT),
      newAt := FromTable(s.nodeIds, s.newTable, NEW_BUCKET_COUNT),
      hostIds := HostsUpTo(s.nodeIds, s.entries, |s.entries|),
      rows := Repointed(RowsUpTo(s.nodeIds, s.entries, |s.entries|), order, |order|),
      order := order,
      collisions := Named(s.nodeIds, s.collisionIndices))
  }

  lemma {:induction false} RepointedAt(rows: Rows, order: seq<NodeId>, n: nat, i: nat)
    requires i < n <= |order| && order[i] in rows && forall j :: i < j < n ==> order[j] != order[i]
    ensures order[i] in Repointed(rows, order, n) && Repointed(rows, order, n)[order[i]].randomPos == Some(i)
  {
    RepointedKeys(rows, order, n - 1);
    if i < n - 1 { RepointedAt(rows, order, n - 1, i); }
  }

  lemma {:induction false} RepointedKeys(rows: Rows, order: seq<NodeId>, n: nat)
    requires n <= |order|
    ensures Repointed(rows, order, n).Keys == rows.Keys
  {
    if n > 0 { RepointedKeys(rows, order, n - 1); }
  }

  /** Whatever back-pointers a snapshot holds, loading sets those of the rows `random_pos` lists to their places. */
  lemma LoadRepoints(place: seq<nat> -> Placement, s: Snapshot)
    requires WellFormed(s) && Distinct(Named(s.nodeIds, s.randomPos))
    ensures var t := FromSnapshot(place, s); |s.entries| > 0 ==> t.order == Named(s.nodeIds, s.randomPos) && PointersOk(t.order, t.rows)
  {
    hide Repointed, RowsUpTo, FromTable;
    var order := Named(s.nodeIds, s.randomPos);
    var rows := RowsUpTo(s.nodeIds, s.entries, |s.entries|);
    RepointedKeys(rows, order, |order|);
    forall i | 0 <= i < |order| && order[i] in rows ensures Repointed(rows, order, |order|)[order[i]].randomPos == Some(i) {
      RepointedAt(rows, order, |order|, i);
    }
  }

  function FromSnapshot(place: seq<nat> -> Placement, s: Snapshot): Tables
    requires WellFormed(s)
  {
    var blank := Empty(place(s.key)).(allowPrivate := s.allowPrivate, lastGood := s.lastGood,
      idCount := s.idCount, triedCount := s.triedCount, newCount := s.newCount);
    if |s.entries| == 0 then blank else Restored(blank, s)
  }

  function Load(place: seq<nat> -> Placement, s: Snapshot): Result<Tables, SnapshotError> {
    ValidateExact(s);
    match Validate(s)
    case Err(e) => Err(e)
    case Ok(_) => Ok(FromSnapshot(place, s))
  }

  // ---- the round trip ------------------------------------------------------------------------

  lemma ToTableOk(ids: seq<nat>, cells: Cells, buckets: nat)
    ensures TableOk(ToTable(ids, cells, buckets), buckets, |ids|)
  {
    forall b | 0 <= b < buckets
      ensures |ToTable(ids, cells, buckets)[b]| == BUCKET_SIZE && IndicesBelow(ToTable(ids, cells, buckets)[b], |ids|)
    {
      assert ToTable(ids, cells, buckets)[b] == RowOf(ids, cells, b);
    }
  }

  lemma TableRoundTrip(ids: seq<nat>, cells: Cells, buckets: nat)
    requires forall c :: c in cells ==>
      c.bucket < buckets && c.slot < BUCKET_SIZE && cells[c] in ids && cells[c] < U32_MAX
    ensures TableOk(ToTable(ids, cells, buckets), buckets, |ids|)
    ensures FromTable(ids, ToTable(ids, cells, buckets), buckets) == cells
  {
    ToTableOk(ids, cells, buckets);
    var table := ToTable(ids, cells, buckets);
    var back := FromTable(ids, table, buckets);
    forall c | c in cells ensures c in back && back[c] == cells[c] {
      assert table[c.bucket] == RowOf(ids, cells, c.bucket);
      assert table[c.bucket][c.slot] == Some(IndexOf(ids, cells[c]));
      assert c == Cell(c.bucket, c.slot);
    }
    forall c | c in back ensures c in cells {
      assert table[c.bucket] == RowOf(ids, cells, c.bucket);
    }
  }

  lemma {:induction false} RowsRoundTrip(ids: seq<nat>, entries: seq<Row>, rows: Rows, n: nat)
    requires n <= |ids| == |entries|
    requires forall i :: 0 <= i < |ids| ==> ids[i] in rows && entries[i] == rows[ids[i]]
    ensures RowsUpTo(ids, entries, n) == map id | id in ids[..n] :: rows[id]
  {
    if n > 0 {
      RowsRoundTrip(ids, entries, rows, n - 1);
      assert ids[..n] == ids[..n - 1] + [ids[n - 1]];
    }
  }

  lemma {:induction false} HostsRoundTrip(ids: seq<nat>, entries: seq<Row>, rows: Rows, hostIds: map<string, NodeId>,
    n: nat)
    requires n <= |ids| == |entries| && HostsOk(hostIds, rows)
    requires forall i :: 0 <= i < |ids| ==> ids[i] in rows && entries[i] == rows[ids[i]]
    ensures HostsUpTo(ids, entries, n) == map h | h in hostIds && hostIds[h] in ids[..n] :: hostIds[h]
  {
    if n > 0 {
      HostsRoundTrip(ids, entries, rows, hostIds, n - 1);
      assert ids[..n] == ids[..n - 1] + [ids[n - 1]];
    }
  }

  lemma {:induction false} RepointedSame(rows: Rows, order: seq<NodeId>, n: nat)
    requires n <= |order| && PointersOk(order, rows)
    ensures Repointed(rows, order, n) == rows
  {
    if n > 0 { RepointedSame(rows, order, n - 1); }
  }

  lemma NamedIndices(ids: seq<nat>, s: seq<nat>)
    requires forall x :: x in s ==> x in ids
    ensures AllBelow(Indices(ids, s), |ids|) && Named(ids, Indices(ids, s)) == s
  {
    forall i | 0 <= i < |s| ensures Indices(ids, s)[i] < |ids| && ids[Indices(ids, s)[i]] == s[i] {
      assert s[i] in s;
    }
  }

  lemma CellsInRange(t: Tables)
    requires NewCellsOk(t.env, t.newAt, t.rows) && TriedCellsOk(t.env, t.triedAt, t.rows)
    ensures forall c :: c in t.newAt ==>
      c.bucket < NEW_BUCKET_COUNT && c.slot < BUCKET_SIZE && t.newAt[c] in t.rows
    ensures forall c :: c in t.triedAt ==>
      c.bucket < TRIED_BUCKET_COUNT && c.slot < BUCKET_SIZE && t.triedAt[c] in t.rows
  {
    forall c | c in t.newAt ensures c.bucket < NEW_BUCKET_COUNT && c.slot < BUCKET_SIZE && t.newAt[c] in t.rows {
      assert NewCellOk(t.env, t.newAt, t.rows, c);
    }
    forall c | c in t.triedAt
      ensures c.bucket < TRIED_BUCKET_COUNT && c.slot < BUCKET_SIZE && t.triedAt[c] in t.rows
    {
      assert TriedCellOk(t.env, t.triedAt, t.rows, c);
    }
  }

  /** A manager with a live collision queue can be saved. */
  lemma SaveDefined(t: Tables)
    requires Inv(t)
    ensures CanSave(t) <==> QueueLive(t)
  {
    hide NewCellsOk, TriedCellsOk;
    CellsInRange(t);
  }

  lemma SnapshotShape(t: Tables)
    requires Inv(t) && CanSave(t)
    ensures WellFormed(ToSnapshot(t))
  {
    hide Inv, TableOk, ToTable, Indices, SortedIds;
    SortedIdsIsSorted(t.rows.Keys);
    var ids := SortedIds(t.rows.Keys);
    ToTableOk(ids, t.triedAt, TRIED_BUCKET_COUNT);
    ToTableOk(ids, t.newAt, NEW_BUCKET_COUNT);
    NamedIndices(ids, t.order);
    NamedIndices(ids, t.collisions);
    if ids == [] {
      assert t.rows.Keys == {};
      EmptyTables(t);
    }
  }

  /** Saving and loading gives back the very same tables: ids, rows, both matrices, order, collision queue
      and counters. */
  lemma RoundTrip(place: seq<nat> -> Placement, t: Tables)
    requires Inv(t) && QueueLive(t) && t.env == place(t.env.key)
    ensures CanSave(t) && Load(place, ToSnapshot(t)) == Ok(t)
  {
    hide OrderOk, RefsOk, PointersOk, NewCellsOk, TriedCellsOk, TableOk, CountsOk, Validate, HostsOk, Named, Indices,
      ToTable, FromTable;
    SaveDefined(t);
    SnapshotShape(t);
    var s := ToSnapshot(t);
    ValidateExact(s);
    SortedIdsIsSorted(t.rows.Keys);
    CellsInRange(t);
    assert forall id :: id in t.rows ==> id < U32_MAX;
    if s.nodeIds == [] {
      EmptyTables(t);
    } else {
      TableRoundTrip(s.nodeIds, t.triedAt, TRIED_BUCKET_COUNT);
      TableRoundTrip(s.nodeIds, t.newAt, NEW_BUCKET_COUNT);
      NamedIndices(s.nodeIds, t.order);
      NamedIndices(s.nodeIds, t.collisions);
      RowsAndHostsReturn(t, s.nodeIds, s.entries);
      RepointedSame(t.rows, t.order, |t.order|);
    }
  }

  lemma RowsAndHostsReturn(t: Tables, ids: seq<nat>, entries: seq<Row>)
    requires HostsOk(t.hostIds, t.rows) && |ids| == |entries| && forall id :: id in ids <==> id in t.rows
    requires forall i :: 0 <= i < |ids| ==> ids[i] in t.rows && entries[i] == t.rows[ids[i]]
    ensures RowsUpTo(ids, entries, |entries|) == t.rows && HostsUpTo(ids, entries, |entries|) == t.hostIds
  {
    hide HostsOk;
    RowsRoundTrip(ids, entries, t.rows, |ids|);
    HostsRoundTrip(ids, entries, t.rows, t.hostIds, |ids|);
    assert ids[..|ids|] == ids;
    assert (map id | id in ids :: t.rows[id]) == t.rows;
    HostsAll(t.hostIds, t.rows, ids);
  }

  lemma HostsAll(hostIds: map<string, NodeId>, rows: Rows, ids: seq<nat>)
    requires HostsOk(hostIds, rows) && forall id :: id in rows ==> id in ids
    ensures (map h | h in hostIds && hostIds[h] in ids :: hostIds[h]) == hostIds
  {
  }

  lemma EmptyTables(t: Tables)
    requires Inv(t) && t.rows.Keys == {}
    ensures t == Empty(t.env).(allowPrivate := t.allowPrivate, lastGood := t.lastGood)
  {
    CellsInRange(t);
    assert NewIds(t.rows) == {} && TriedIds(t.rows) == {};
    assert t.idCount == 0;
    if t.collisions != [] { Inhabited(t.collisions); }
    if t.order != [] { Inhabited(t.order); }
    assert t.newAt == map[] && t.triedAt == map[] && t.hostIds == map[] && t.rows == map[];
  }
}
