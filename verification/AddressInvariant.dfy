/**
 The one invariant of the address manager, and the elementary table moves that keep it.

 `Sound(t, loose)` is the invariant while the rows in `loose` are between cells: they are not tried and may
 hold no new-table reference.  Operations are built from the moves below; at rest `loose` is empty.
 Each clause is a predicate on the few components it reads, so a move only has to look at the clauses it
 touches.
 */
module AddressInvariant {
  import opened Wrappers
  import opened Peers
  import opened AddressTables

  type Rows = map<NodeId, Row>
  type Cells = map<Cell, NodeId>

  ghost function RefCells(newAt: Cells, id: NodeId): set<Cell> {
    set c | c in newAt && newAt[c] == id
  }

  ghost function NewIds(rows: Rows): set<NodeId> {
    set id | id in rows && !rows[id].isTried
  }

  ghost function TriedIds(rows: Rows): set<NodeId> {
    set id | id in rows && rows[id].isTried
  }

  /** `order` lists every row once. */
  ghost predicate OrderOk(order: seq<NodeId>, ids: set<NodeId>) {
    && (forall i, j :: 0 <= i < j < |order| ==> order[i] != order[j])
    && (forall id :: id in ids <==> id in order)
  }

  /** Every row knows its place in `order`. */
  ghost predicate PointersOk(order: seq<NodeId>, rows: Rows) {
    forall i :: 0 <= i < |order| && order[i] in rows ==> rows[order[i]].randomPos == Some(i)
  }

  /** The host index is the inverse of the rows' hosts. */
  ghost predicate HostsOk(hostIds: map<string, NodeId>, rows: Rows) {
    && (forall h :: h in hostIds ==> hostIds[h] in rows && rows[hostIds[h]].peer.host == h)
    && (forall id :: id in rows ==> rows[id].peer.host in hostIds && hostIds[rows[id].peer.host] == id)
  }

  ghost predicate NewCellOk(env: Placement, newAt: Cells, rows: Rows, c: Cell)
    requires c in newAt
  {
    && c.bucket < NEW_BUCKET_COUNT
    && newAt[c] in rows
    && !rows[newAt[c]].isTried
    && c == env.NewCell(rows[newAt[c]].peer, c.bucket)
  }

  /** New-table cells hold non-tried rows at the slot their bucket selects. */
  ghost predicate NewCellsOk(env: Placement, newAt: Cells, rows: Rows) {
    forall c :: c in newAt ==> NewCellOk(env, newAt, rows, c)
  }

  ghost predicate TriedCellOk(env: Placement, triedAt: Cells, rows: Rows, c: Cell)
    requires c in triedAt
  {
    && triedAt[c] in rows
    && rows[triedAt[c]].isTried
    && c == env.TriedCell(rows[triedAt[c]].peer)
  }

  ghost predicate HoldsTriedCell(env: Placement, triedAt: Cells, rows: Rows, id: NodeId)
    requires id in rows
  {
    var c := env.TriedCell(rows[id].peer);
    c in triedAt && triedAt[c] == id
  }

  /** Tried rows and occupied tried cells correspond one to one. */
  ghost predicate TriedCellsOk(env: Placement, triedAt: Cells, rows: Rows) {
    && (forall c :: c in triedAt ==> TriedCellOk(env, triedAt, rows, c))
    && (forall id :: id in rows && rows[id].isTried ==> HoldsTriedCell(env, triedAt, rows, id))
  }

  ghost predicate RefsOkAt(newAt: Cells, rows: Rows, id: NodeId, isLoose: bool)
    requires id in rows
  {
    && rows[id].refCount == |RefCells(newAt, id)|
    && rows[id].refCount <= NEW_BUCKETS_PER_ADDRESS
    && (if isLoose then !rows[id].isTried else rows[id].isTried <==> rows[id].refCount == 0)
  }

  /** `refCount` counts the row's new-table cells: at most eight, and none exactly for tried rows. */
  ghost predicate RefsOk(newAt: Cells, rows: Rows, loose: set<NodeId>) {
    && loose <= rows.Keys
    && (forall id :: id in rows ==> RefsOkAt(newAt, rows, id, id in loose))
  }

  ghost predicate CountsOk(newCount: nat, triedCount: nat, rows: Rows) {
    newCount == |NewIds(rows)| && triedCount == |TriedIds(rows)|
  }

  ghost predicate IdsOk(idCount: nat, ids: set<NodeId>, collisions: seq<NodeId>) {
    && idCount < U32_MAX
    && (forall id :: id in ids ==> 1 <= id <= idCount)
    && (forall id :: id in collisions ==> 1 <= id <= idCount)
    && (forall i, j :: 0 <= i < j < |collisions| ==> collisions[i] != collisions[j])
    && |collisions| <= TRIED_COLLISION_SIZE
  }

  /** Everything but the back-pointers. */
  ghost predicate Shape(t: Tables, loose: set<NodeId>) {
    && OrderOk(t.order, t.rows.Keys)
    && HostsOk(t.hostIds, t.rows)
    && NewCellsOk(t.env, t.newAt, t.rows)
    && TriedCellsOk(t.env, t.triedAt, t.rows)
    && RefsOk(t.newAt, t.rows, loose)
    && CountsOk(t.newCount, t.triedCount, t.rows)
    && IdsOk(t.idCount, t.rows.Keys, t.collisions)
  }

  ghost predicate Sound(t: Tables, loose: set<NodeId>) {
    Shape(t, loose) && PointersOk(t.order, t.rows)
  }

  /** Once an id has been handed out the tables are never empty again. */
  ghost predicate NonEmptyOk(t: Tables) {
    t.idCount > 0 ==> t.rows != map[]
  }

  ghost predicate Inv(t: Tables) {
    Sound(t, {}) && NonEmptyOk(t)
  }

  lemma InvParts(t: Tables)
    requires Inv(t)
    ensures Sound(t, {}) && Shape(t, {}) && HostsOk(t.hostIds, t.rows) && TriedCellsOk(t.env, t.triedAt, t.rows)
  {
  }

  lemma EmptyInv(env: Placement)
    ensures Inv(Empty(env))
  {
    var t := Empty(env);
    assert NewIds(t.rows) == {} && TriedIds(t.rows) == {};
  }

  // ---- rows whose peer and table stay the same ----------------------------------------------

  ghost predicate SameFaces(a: Rows, b: Rows) {
    && a.Keys == b.Keys
    && (forall id :: id in a ==> a[id].peer == b[id].peer && a[id].isTried == b[id].isTried)
  }

  lemma FacesKeep(t: Tables, rows: Rows)
    requires SameFaces(t.rows, rows)
    ensures HostsOk(t.hostIds, t.rows) ==> HostsOk(t.hostIds, rows)
    ensures NewCellsOk(t.env, t.newAt, t.rows) ==> NewCellsOk(t.env, t.newAt, rows)
    ensures TriedCellsOk(t.env, t.triedAt, t.rows) ==> TriedCellsOk(t.env, t.triedAt, rows)
    ensures CountsOk(t.newCount, t.triedCount, t.rows) ==> CountsOk(t.newCount, t.triedCount, rows)
  {
    assert NewIds(rows) == NewIds(t.rows) && TriedIds(rows) == TriedIds(t.rows);
    if NewCellsOk(t.env, t.newAt, t.rows) {
      forall c | c in t.newAt ensures NewCellOk(t.env, t.newAt, rows, c) {
        assert NewCellOk(t.env, t.newAt, t.rows, c);
      }
    }
    if TriedCellsOk(t.env, t.triedAt, t.rows) { FacesKeepTried(t.env, t.triedAt, t.rows, rows); }
  }

  lemma FacesKeepTried(env: Placement, triedAt: Cells, a: Rows, b: Rows)
    requires SameFaces(a, b) && TriedCellsOk(env, triedAt, a)
    ensures TriedCellsOk(env, triedAt, b)
  {
    forall c | c in triedAt ensures TriedCellOk(env, triedAt, b, c) { assert TriedCellOk(env, triedAt, a, c); }
    forall id | id in b && b[id].isTried ensures HoldsTriedCell(env, triedAt, b, id) {
      assert HoldsTriedCell(env, triedAt, a, id);
    }
  }

  predicate SamePlacement(a: Row, b: Row) {
    && a.peer == b.peer && a.randomPos == b.randomPos
    && a.isTried == b.isTried && a.refCount == b.refCount
  }

  /** Timestamps, attempt counts and successes may change freely. */
  lemma TouchRowSound(t: Tables, loose: set<NodeId>, id: NodeId, row: Row)
    requires Sound(t, loose) && id in t.rows && SamePlacement(t.rows[id], row)
    ensures Sound(t.WithRow(id, row), loose)
  {
    hide OrderOk, HostsOk, NewCellsOk, TriedCellsOk, RefsOk, CountsOk;
    var u := t.WithRow(id, row);
    assert u.rows.Keys == t.rows.Keys;
    FacesKeep(t, u.rows);
    TouchRowRefs(t.newAt, t.rows, loose, id, row);
  }

  lemma TouchRowRefs(newAt: Cells, rows: Rows, loose: set<NodeId>, id: NodeId, row: Row)
    requires RefsOk(newAt, rows, loose) && id in rows && SamePlacement(rows[id], row)
    ensures RefsOk(newAt, rows[id := row], loose)
  {
    forall x | x in rows[id := row] ensures RefsOkAt(newAt, rows[id := row], x, x in loose) {
      assert RefsOkAt(newAt, rows, x, x in loose);
    }
  }

  // ---- references ---------------------------------------------------------------------------

  lemma RefCellsRemoved(newAt: Cells, c: Cell, id: NodeId)
    requires c in newAt
    ensures newAt[c] == id ==> |RefCells(newAt - {c}, id)| == |RefCells(newAt, id)| - 1
    ensures newAt[c] != id ==> RefCells(newAt - {c}, id) == RefCells(newAt, id)
  {
    assert RefCells(newAt - {c}, id) == RefCells(newAt, id) - {c};
  }

  lemma RefCellsAdded(newAt: Cells, c: Cell, id: NodeId, other: NodeId)
    requires c !in newAt
    ensures other == id ==> |RefCells(newAt[c := id], other)| == |RefCells(newAt, other)| + 1
    ensures other != id ==> RefCells(newAt[c := id], other) == RefCells(newAt, other)
  {
    if other == id {
      assert RefCells(newAt[c := id], other) == RefCells(newAt, other) + {c};
    } else {
      assert RefCells(newAt[c := id], other) == RefCells(newAt, other);
    }
  }

  lemma OccupantHasRef(t: Tables, loose: set<NodeId>, c: Cell)
    requires RefsOk(t.newAt, t.rows, loose) && NewCellsOk(t.env, t.newAt, t.rows) && c in t.newAt
    ensures t.newAt[c] in t.rows && t.rows[t.newAt[c]].refCount > 0 && !t.rows[t.newAt[c]].isTried
  {
    assert NewCellOk(t.env, t.newAt, t.rows, c);
    assert RefsOkAt(t.newAt, t.rows, t.newAt[c], t.newAt[c] in loose);
    assert c in RefCells(t.newAt, t.newAt[c]);
  }

  lemma DropRefSound(t: Tables, loose: set<NodeId>, c: Cell)
    requires Sound(t, loose) && c in t.newAt
    ensures Sound(DropRef(t, c), loose + {t.newAt[c]})
  {
    hide OrderOk, HostsOk, TriedCellsOk, RefsOk, CountsOk;
    OccupantHasRef(t, loose, c);
    var u := DropRef(t, c);
    assert u.rows.Keys == t.rows.Keys;
    FacesKeep(t, u.rows);
    assert NewCellsOk(u.env, u.newAt, u.rows) by {
      forall x | x in u.newAt ensures NewCellOk(u.env, u.newAt, u.rows, x) {
        assert NewCellOk(t.env, t.newAt, u.rows, x);
      }
    }
    DropRefRefs(t.newAt, t.rows, loose, c);
  }

  lemma DropRefRefs(newAt: Cells, rows: Rows, loose: set<NodeId>, c: Cell)
    requires RefsOk(newAt, rows, loose) && c in newAt && newAt[c] in rows
    requires rows[newAt[c]].refCount > 0 && !rows[newAt[c]].isTried
    ensures var d := newAt[c];
      RefsOk(newAt - {c}, rows[d := rows[d].(refCount := rows[d].refCount - 1)], loose + {d})
  {
    var d := newAt[c];
    var rows2 := rows[d := rows[d].(refCount := rows[d].refCount - 1)];
    forall x | x in rows2 ensures RefsOkAt(newAt - {c}, rows2, x, x in loose + {d}) {
      assert RefsOkAt(newAt, rows, x, x in loose);
      RefCellsRemoved(newAt, c, x);
    }
  }

  lemma AddRefSound(t: Tables, loose: set<NodeId>, id: NodeId, c: Cell)
    requires Sound(t, loose)
    requires id in t.rows && !t.rows[id].isTried && t.rows[id].refCount < NEW_BUCKETS_PER_ADDRESS
    requires c.bucket < NEW_BUCKET_COUNT && c == t.NewCell(t.rows[id].peer, c.bucket) && c !in t.newAt
    ensures Sound(AddRef(t, id, c), loose - {id})
  {
    hide OrderOk, HostsOk, TriedCellsOk, RefsOk, CountsOk;
    var u := AddRef(t, id, c);
    assert u.rows.Keys == t.rows.Keys;
    FacesKeep(t, u.rows);
    assert NewCellsOk(u.env, u.newAt, u.rows) by {
      forall x | x in u.newAt ensures NewCellOk(u.env, u.newAt, u.rows, x) {
        if x != c { assert NewCellOk(t.env, t.newAt, u.rows, x); }
      }
    }
    AddRefRefs(t.newAt, t.rows, loose, id, c);
  }

  lemma AddRefRefs(newAt: Cells, rows: Rows, loose: set<NodeId>, id: NodeId, c: Cell)
    requires RefsOk(newAt, rows, loose) && c !in newAt && id in rows
    requires rows[id].refCount < NEW_BUCKETS_PER_ADDRESS && !rows[id].isTried
    ensures RefsOk(newAt[c := id], rows[id := rows[id].(refCount := rows[id].refCount + 1)], loose - {id})
  {
    var rows2 := rows[id := rows[id].(refCount := rows[id].refCount + 1)];
    forall x | x in rows2 ensures RefsOkAt(newAt[c := id], rows2, x, x in loose - {id}) {
      assert RefsOkAt(newAt, rows, x, x in loose);
      RefCellsAdded(newAt, c, id, x);
    }
  }

  lemma TightenLoose(newAt: Cells, rows: Rows, loose: set<NodeId>, d: NodeId)
    requires RefsOk(newAt, rows, loose) && d in rows && rows[d].refCount > 0
    ensures RefsOk(newAt, rows, loose - {d})
  {
    forall x | x in rows ensures RefsOkAt(newAt, rows, x, x in loose - {d}) {
      assert RefsOkAt(newAt, rows, x, x in loose);
    }
  }

  // ---- rows come and go ---------------------------------------------------------------------

  /** Swap position `i` to the end and pop: what deletion does to `order`. */
  function SwapOut(order: seq<NodeId>, i: nat): seq<NodeId>
    requires i < |order|
  {
    order[i := order[|order| - 1]][..|order| - 1]
  }

  lemma SwapOutOrder(order: seq<NodeId>, ids: set<NodeId>, i: nat)
    requires OrderOk(order, ids) && i < |order|
    ensures OrderOk(SwapOut(order, i), ids - {order[i]})
  {
    var out := SwapOut(order, i);
    var last := |order| - 1;
    forall x ensures x in ids - {order[i]} <==> x in out {
      if x in ids - {order[i]} {
        var k :| 0 <= k < |order| && order[k] == x;
        assert out[if k == last then i else k] == x;
      }
      if x in out {
        var k :| 0 <= k < |out| && out[k] == x;
        assert x == order[if k == i then last else k];
      }
    }
  }

  /** The rows after `order[i]` is deleted: the last row moves to position `i`. */
  ghost function DeletedRows(rows: Rows, order: seq<NodeId>, i: nat): Rows
    requires i < |order|
  {
    SetPointer(rows, order[|order| - 1], i) - {order[i]}
  }

  lemma OrderIndex(order: seq<NodeId>, rows: Rows, id: NodeId) returns (i: nat)
    requires OrderOk(order, rows.Keys) && PointersOk(order, rows) && id in rows
    ensures i < |order| && order[i] == id && rows[id].randomPos == Some(i)
  {
    assert id in order;
    i :| 0 <= i < |order| && order[i] == id;
  }

  lemma DeleteIs(t: Tables, id: NodeId, i: nat)
    requires id in t.rows && i < |t.order| && t.order[i] == id && t.rows[id].randomPos == Some(i)
    ensures DeleteNewEntry(t, id) == t.(order := SwapOut(t.order, i), rows := DeletedRows(t.rows, t.order, i),
      hostIds := t.hostIds - {t.rows[id].peer.host}, newCount := SatSub(t.newCount, 1))
  {
    var last := |t.order| - 1;
    if i != last {
      assert t.order[i := t.order[last]][last := id][..last] == SwapOut(t.order, i);
      assert SetPointer(SetPointer(t.rows, id, last), t.order[last], i) - {id}
        == DeletedRows(t.rows, t.order, i);
    } else {
      assert t.order[..last] == SwapOut(t.order, i);
      assert t.rows - {id} == DeletedRows(t.rows, t.order, i);
    }
  }

  lemma DeletePointers(rows: Rows, order: seq<NodeId>, i: nat)
    requires OrderOk(order, rows.Keys) && PointersOk(order, rows) && i < |order|
    ensures PointersOk(SwapOut(order, i), DeletedRows(rows, order, i))
  {
  }

  lemma DeleteHosts(hostIds: map<string, NodeId>, rows: Rows, order: seq<NodeId>, i: nat)
    requires HostsOk(hostIds, rows) && i < |order| && order[i] in rows
    ensures HostsOk(hostIds - {rows[order[i]].peer.host}, DeletedRows(rows, order, i))
  {
  }

  lemma DeleteCells(t: Tables, rows: Rows, id: NodeId)
    requires NewCellsOk(t.env, t.newAt, t.rows) && TriedCellsOk(t.env, t.triedAt, t.rows)
    requires CountsOk(t.newCount, t.triedCount, t.rows)
    requires id in t.rows && !t.rows[id].isTried && RefCells(t.newAt, id) == {}
    requires SameFaces(t.rows - {id}, rows)
    ensures NewCellsOk(t.env, t.newAt, rows) && TriedCellsOk(t.env, t.triedAt, rows)
    ensures t.newCount > 0 && CountsOk(t.newCount - 1, t.triedCount, rows)
  {
    assert id in NewIds(t.rows);
    assert NewIds(rows) == NewIds(t.rows) - {id} && TriedIds(rows) == TriedIds(t.rows);
    forall c | c in t.newAt ensures NewCellOk(t.env, t.newAt, rows, c) {
      assert NewCellOk(t.env, t.newAt, t.rows, c);
      assert c !in RefCells(t.newAt, id);
    }
    forall c | c in t.triedAt ensures TriedCellOk(t.env, t.triedAt, rows, c) {
      assert TriedCellOk(t.env, t.triedAt, t.rows, c);
    }
    forall x | x in rows && rows[x].isTried ensures HoldsTriedCell(t.env, t.triedAt, rows, x) {
      assert HoldsTriedCell(t.env, t.triedAt, t.rows, x);
    }
  }

  lemma DeleteRefs(newAt: Cells, rows: Rows, order: seq<NodeId>, i: nat, loose: set<NodeId>)
    requires RefsOk(newAt, rows, loose) && i < |order|
    ensures RefsOk(newAt, DeletedRows(rows, order, i), loose - {order[i]})
  {
    var rows2 := DeletedRows(rows, order, i);
    forall x | x in rows2 ensures RefsOkAt(newAt, rows2, x, x in loose - {order[i]}) {
      assert RefsOkAt(newAt, rows, x, x in loose);
    }
  }

  lemma LooseRefs(newAt: Cells, rows: Rows, loose: set<NodeId>, id: NodeId)
    requires RefsOk(newAt, rows, loose) && id in loose
    ensures id in rows && RefsOkAt(newAt, rows, id, true)
  {
  }

  lemma DeletedKeys(rows: Rows, order: seq<NodeId>, i: nat)
    requires OrderOk(order, rows.Keys) && i < |order|
    ensures DeletedRows(rows, order, i).Keys == rows.Keys - {order[i]}
    ensures SameFaces(rows - {order[i]}, DeletedRows(rows, order, i))
  {
    assert order[|order| - 1] in order;
  }

  lemma DeleteSound(t: Tables, loose: set<NodeId>, id: NodeId)
    requires Sound(t, loose) && id in loose && t.rows[id].refCount == 0
    ensures Sound(DeleteNewEntry(t, id), loose - {id})
    ensures DeleteNewEntry(t, id).rows.Keys == t.rows.Keys - {id}
    ensures t.newCount > 0
  {
    hide PointersOk, HostsOk, NewCellsOk, TriedCellsOk, CountsOk, RefsOk, DeleteNewEntry, DeletedRows, SameFaces;
    LooseRefs(t.newAt, t.rows, loose, id);
    var i := OrderIndex(t.order, t.rows, id);
    DeleteIs(t, id, i);
    var rows2 := DeletedRows(t.rows, t.order, i);
    DeletedKeys(t.rows, t.order, i);
    SwapOutOrder(t.order, t.rows.Keys, i);
    DeletePointers(t.rows, t.order, i);
    DeleteHosts(t.hostIds, t.rows, t.order, i);
    DeleteCells(t, rows2, id);
    DeleteRefs(t.newAt, t.rows, t.order, i, loose);
  }

  lemma CreateSound(t: Tables, addr: TimestampedPeer, source: PeerInfo, penalty: nat)
    requires Sound(t, {}) && t.Find(PeerInfo(addr.host, addr.port)).None? && t.idCount + 1 < U32_MAX
    ensures Sound(CreateCounted(t, addr, source, penalty), {NextId(t)})
    ensures NextId(t) !in t.rows
  {
    hide OrderOk, PointersOk, NewCellsOk, TriedCellsOk, CountsOk, RefsOk;
    var u := CreateCounted(t, addr, source, penalty);
    var id := NextId(t);
    var row := u.rows[id];
    assert addr.host !in t.hostIds;
    assert id !in t.rows;
    assert u.rows == t.rows[id := row];
    assert u.rows.Keys == t.rows.Keys + {id};
    CreateOrder(t.order, t.rows, id, row);
    CreateCells(t, id, row);
    CreateRefs(t.env, t.newAt, t.rows, id, row);
  }

  lemma CreateOrder(order: seq<NodeId>, rows: Rows, id: NodeId, row: Row)
    requires OrderOk(order, rows.Keys) && PointersOk(order, rows) && id !in rows && row.randomPos == Some(|order|)
    ensures OrderOk(order + [id], rows[id := row].Keys) && PointersOk(order + [id], rows[id := row])
  {
    assert (order + [id])[|order|] == id;
  }

  lemma CreateCells(t: Tables, id: NodeId, row: Row)
    requires id !in t.rows && !row.isTried
    ensures NewCellsOk(t.env, t.newAt, t.rows) ==> NewCellsOk(t.env, t.newAt, t.rows[id := row])
    ensures TriedCellsOk(t.env, t.triedAt, t.rows) ==> TriedCellsOk(t.env, t.triedAt, t.rows[id := row])
    ensures CountsOk(t.newCount, t.triedCount, t.rows)
      ==> CountsOk(t.newCount + 1, t.triedCount, t.rows[id := row])
  {
    var rows2 := t.rows[id := row];
    assert NewIds(rows2) == NewIds(t.rows) + {id} && TriedIds(rows2) == TriedIds(t.rows);
    if NewCellsOk(t.env, t.newAt, t.rows) {
      forall c | c in t.newAt ensures NewCellOk(t.env, t.newAt, rows2, c) {
        assert NewCellOk(t.env, t.newAt, t.rows, c);
      }
    }
    if TriedCellsOk(t.env, t.triedAt, t.rows) {
      forall c | c in t.triedAt ensures TriedCellOk(t.env, t.triedAt, rows2, c) {
        assert TriedCellOk(t.env, t.triedAt, t.rows, c);
      }
      forall x | x in rows2 && rows2[x].isTried ensures HoldsTriedCell(t.env, t.triedAt, rows2, x) {
        assert HoldsTriedCell(t.env, t.triedAt, t.rows, x);
      }
    }
  }

  lemma CreateRefs(env: Placement, newAt: Cells, rows: Rows, id: NodeId, row: Row)
    requires NewCellsOk(env, newAt, rows) && RefsOk(newAt, rows, {}) && id !in rows
    requires !row.isTried && row.refCount == 0
    ensures RefsOk(newAt, rows[id := row], {id})
  {
    forall c | c in newAt ensures newAt[c] != id { assert NewCellOk(env, newAt, rows, c); }
    assert RefCells(newAt, id) == {};
    var rows2 := rows[id := row];
    forall x | x in rows2 ensures RefsOkAt(newAt, rows2, x, x == id) {
      if x != id { assert RefsOkAt(newAt, rows, x, false); }
    }
  }

  // ---- between the tables -------------------------------------------------------------------

  /** Take the occupant of tried cell `c` out of the tried table. */
  function Demote(t: Tables, c: Cell): Tables
    requires c in t.triedAt && t.triedAt[c] in t.rows
  {
    var e := t.triedAt[c];
    t.(triedAt := t.triedAt - {c}, triedCount := SatSub(t.triedCount, 1), newCount := t.newCount + 1,
       rows := t.rows[e := t.rows[e].(isTried := false)])
  }

  lemma DemoteCells(t: Tables, c: Cell)
    requires NewCellsOk(t.env, t.newAt, t.rows) && TriedCellsOk(t.env, t.triedAt, t.rows)
    requires CountsOk(t.newCount, t.triedCount, t.rows) && c in t.triedAt && t.triedAt[c] in t.rows
    ensures NewCellsOk(t.env, t.newAt, Demote(t, c).rows)
    ensures TriedCellsOk(t.env, Demote(t, c).triedAt, Demote(t, c).rows)
    ensures CountsOk(Demote(t, c).newCount, Demote(t, c).triedCount, Demote(t, c).rows)
    ensures t.triedCount > 0
  {
    assert TriedCellOk(t.env, t.triedAt, t.rows, c);
    var e := t.triedAt[c];
    var u := Demote(t, c);
    assert e in TriedIds(t.rows) && e !in NewIds(t.rows);
    assert NewIds(u.rows) == NewIds(t.rows) + {e} && TriedIds(u.rows) == TriedIds(t.rows) - {e};
    forall x | x in u.newAt ensures NewCellOk(u.env, u.newAt, u.rows, x) {
      assert NewCellOk(t.env, t.newAt, t.rows, x);
    }
    forall x | x in u.triedAt ensures TriedCellOk(u.env, u.triedAt, u.rows, x) {
      assert TriedCellOk(t.env, t.triedAt, t.rows, x) && HoldsTriedCell(t.env, t.triedAt, t.rows, e);
    }
    forall x | x in u.rows && u.rows[x].isTried ensures HoldsTriedCell(u.env, u.triedAt, u.rows, x) {
      assert HoldsTriedCell(t.env, t.triedAt, t.rows, x);
    }
  }

  lemma DemoteRefs(newAt: Cells, rows: Rows, loose: set<NodeId>, e: NodeId)
    requires RefsOk(newAt, rows, loose) && e in rows && rows[e].isTried
    ensures e !in loose && RefsOk(newAt, rows[e := rows[e].(isTried := false)], loose + {e})
  {
    var rows2 := rows[e := rows[e].(isTried := false)];
    assert RefsOkAt(newAt, rows, e, e in loose);
    forall x | x in rows2 ensures RefsOkAt(newAt, rows2, x, x in loose + {e}) {
      assert RefsOkAt(newAt, rows, x, x in loose);
    }
  }

  lemma DemoteSound(t: Tables, loose: set<NodeId>, c: Cell)
    requires Sound(t, loose) && c in t.triedAt
    ensures t.triedAt[c] in t.rows && t.triedAt[c] !in loose && t.rows[t.triedAt[c]].refCount == 0
    ensures Sound(Demote(t, c), loose + {t.triedAt[c]})
    ensures t.triedCount > 0
  {
    hide OrderOk, NewCellsOk, CountsOk;
    assert TriedCellOk(t.env, t.triedAt, t.rows, c);
    assert RefsOkAt(t.newAt, t.rows, t.triedAt[c], t.triedAt[c] in loose);
    DemoteCells(t, c);
    DemoteRefs(t.newAt, t.rows, loose, t.triedAt[c]);
    assert Demote(t, c).rows.Keys == t.rows.Keys;
  }

  function Promote(t: Tables, id: NodeId): Tables
    requires id in t.rows
  {
    var u := Place(t, id, t.TriedCell(t.rows[id].peer));
    u.(newCount := SatSub(u.newCount, 1))
  }

  lemma PromoteNewCells(t: Tables, id: NodeId, row: Row)
    requires NewCellsOk(t.env, t.newAt, t.rows) && RefCells(t.newAt, id) == {} && id in t.rows
    ensures NewCellsOk(t.env, t.newAt, t.rows[id := row])
  {
    forall x | x in t.newAt ensures NewCellOk(t.env, t.newAt, t.rows[id := row], x) {
      assert NewCellOk(t.env, t.newAt, t.rows, x);
      assert x !in RefCells(t.newAt, id);
    }
  }

  lemma PromoteTriedCells(env: Placement, triedAt: Cells, rows: Rows, id: NodeId)
    requires TriedCellsOk(env, triedAt, rows) && id in rows && !rows[id].isTried
    requires env.TriedCell(rows[id].peer) !in triedAt
    ensures TriedCellsOk(env, triedAt[env.TriedCell(rows[id].peer) := id],
      rows[id := rows[id].(isTried := true)])
  {
    var c := env.TriedCell(rows[id].peer);
    var rows2, tried2 := rows[id := rows[id].(isTried := true)], triedAt[c := id];
    forall x | x in tried2 ensures TriedCellOk(env, tried2, rows2, x) {
      if x != c { assert TriedCellOk(env, triedAt, rows, x); }
    }
    forall x | x in rows2 && rows2[x].isTried ensures HoldsTriedCell(env, tried2, rows2, x) {
      if x != id { assert HoldsTriedCell(env, triedAt, rows, x); }
    }
  }

  lemma PromoteCounts(newCount: nat, triedCount: nat, rows: Rows, id: NodeId)
    requires CountsOk(newCount, triedCount, rows) && id in rows && !rows[id].isTried
    ensures newCount > 0 && CountsOk(newCount - 1, triedCount + 1, rows[id := rows[id].(isTried := true)])
  {
    var rows2 := rows[id := rows[id].(isTried := true)];
    assert id in NewIds(rows) && id !in TriedIds(rows);
    assert NewIds(rows2) == NewIds(rows) - {id} && TriedIds(rows2) == TriedIds(rows) + {id};
  }

  lemma PromoteRefs(newAt: Cells, rows: Rows, loose: set<NodeId>, id: NodeId)
    requires RefsOk(newAt, rows, loose) && id in loose && rows[id].refCount == 0
    ensures RefsOk(newAt, rows[id := rows[id].(isTried := true)], loose - {id})
    ensures RefCells(newAt, id) == {} && !rows[id].isTried
  {
    var rows2 := rows[id := rows[id].(isTried := true)];
    assert RefsOkAt(newAt, rows, id, true);
    forall x | x in rows2 ensures RefsOkAt(newAt, rows2, x, x in loose - {id}) {
      assert RefsOkAt(newAt, rows, x, x in loose);
    }
  }

  lemma PromoteSound(t: Tables, loose: set<NodeId>, id: NodeId)
    requires Sound(t, loose) && id in loose && t.rows[id].refCount == 0
    requires t.TriedCell(t.rows[id].peer) !in t.triedAt
    ensures Sound(Promote(t, id), loose - {id})
    ensures t.newCount > 0
  {
    hide OrderOk, HostsOk, NewCellsOk, TriedCellsOk, CountsOk;
    var row := t.rows[id].(isTried := true);
    assert t.rows[id := row].Keys == t.rows.Keys;
    PromoteRefs(t.newAt, t.rows, loose, id);
    PromoteNewCells(t, id, row);
    PromoteTriedCells(t.env, t.triedAt, t.rows, id);
    PromoteCounts(t.newCount, t.triedCount, t.rows, id);
    PromoteHosts(t.hostIds, t.rows, id);
  }

  lemma PromoteHosts(hostIds: map<string, NodeId>, rows: Rows, id: NodeId)
    requires HostsOk(hostIds, rows) && id in rows
    ensures HostsOk(hostIds, rows[id := rows[id].(isTried := true)])
  {
  }

  /** clear_new: the occupant loses its reference, and its row with its last one. */
  lemma ClearNewSound(t: Tables, loose: set<NodeId>, c: Cell)
    requires Sound(t, loose) && (c in t.newAt ==> t.newAt[c] !in loose)
    ensures Sound(ClearNew(t, c), loose)
    ensures c !in ClearNew(t, c).newAt
  {
    hide OrderOk, HostsOk, NewCellsOk, TriedCellsOk, CountsOk, PointersOk, RefsOk;
    if c in t.newAt {
      var d := t.newAt[c];
      OccupantHasRef(t, loose, c);
      DropRefSound(t, loose, c);
      var s := DropRef(t, c);
      assert loose + {d} - {d} == loose;
      if s.rows[d].refCount == 0 {
        var i := OrderIndex(s.order, s.rows, d);
        DeleteIs(s, d, i);
        DeleteSound(s, loose + {d}, d);
      } else {
        TightenLoose(s.newAt, s.rows, loose + {d}, d);
      }
    }
  }
}
