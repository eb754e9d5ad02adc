/**
 Promotion into the tried table (make_tried): what it does to every clause of the invariant, the one
 circumstance in which it leaves a wrong back-pointer, and the rows it conserves.
 */
module AddressPromotion {
  import opened Wrappers
  import opened Peers
  import opened Sequences
  import opened AddressTables
  import opened AddressInvariant

  // ---- the scan ------------------------------------------------------------------------------

  /** The scan's progress: the row's cells in the first `n` buckets are gone, nothing else moved. */
  ghost predicate Cleared(t: Tables, u: Tables, id: NodeId, n: nat)
    requires id in t.rows
  {
    && id in u.rows
    && u == t.(newAt := u.newAt, rows := t.rows[id := t.rows[id].(refCount := u.rows[id].refCount)])
    && (forall c :: c in u.newAt <==> c in t.newAt && !(t.newAt[c] == id && c.bucket < n))
    && (forall c :: c in u.newAt ==> u.newAt[c] == t.newAt[c])
  }

  lemma {:induction false} ClearRefsSound(t: Tables, id: NodeId, n: nat)
    requires Sound(t, {}) && id in t.rows && !t.rows[id].isTried
    ensures Sound(ClearRefs(t, id, n), {id}) && Cleared(t, ClearRefs(t, id, n), id, n)
  {
    hide OrderOk, HostsOk, NewCellsOk, TriedCellsOk, CountsOk, PointersOk, RefsOk, IdsOk;
    if n == 0 {
      LoosenOne(t.newAt, t.rows, id);
    } else {
      ClearRefsSound(t, id, n - 1);
      ClearRefsStep(t, id, n, ClearRefs(t, id, n - 1));
    }
  }

  lemma LoosenOne(newAt: Cells, rows: Rows, id: NodeId)
    requires RefsOk(newAt, rows, {}) && id in rows && !rows[id].isTried
    ensures RefsOk(newAt, rows, {id})
  {
    forall x | x in rows ensures RefsOkAt(newAt, rows, x, x == id) { assert RefsOkAt(newAt, rows, x, false); }
  }

  lemma ClearRefsUnfold(t: Tables, id: NodeId, n: nat)
    requires id in t.rows
    ensures ClearRefs(t, id, 0) == t
    ensures var s := ClearRefs(t, id, n); var c := s.NewCell(s.rows[id].peer, n);
      ClearRefs(t, id, n + 1) == if c in s.newAt && s.newAt[c] == id then DropRef(s, c) else s
  {
  }

  lemma ClearRefsStep(t: Tables, id: NodeId, n: nat, s: Tables)
    requires n > 0 && id in t.rows && s == ClearRefs(t, id, n - 1)
    requires Sound(s, {id}) && Cleared(t, s, id, n - 1)
    ensures Sound(ClearRefs(t, id, n), {id}) && Cleared(t, ClearRefs(t, id, n), id, n)
  {
    hide OrderOk, HostsOk, TriedCellsOk, CountsOk, PointersOk, RefsOk, IdsOk, NewCellsOk, ClearRefs, DropRef, Cleared;
    ClearRefsUnfold(t, id, n - 1);
    ClearedStep(t, id, n, s);
    var c := s.NewCell(s.rows[id].peer, n - 1);
    if c in s.newAt && s.newAt[c] == id {
      DropRefSound(s, {id}, c);
      assert {id} + {id} == {id};
    }
  }

  lemma ClearedStep(t: Tables, id: NodeId, n: nat, s: Tables)
    requires n > 0 && id in t.rows && Cleared(t, s, id, n - 1) && NewCellsOk(s.env, s.newAt, s.rows)
    ensures var c := s.NewCell(s.rows[id].peer, n - 1);
      Cleared(t, if c in s.newAt && s.newAt[c] == id then DropRef(s, c) else s, id, n)
  {
    var c := s.NewCell(s.rows[id].peer, n - 1);
    forall x | x in s.newAt && s.newAt[x] == id && x.bucket == n - 1 ensures x == c {
      assert NewCellOk(s.env, s.newAt, s.rows, x);
    }
  }

  /** The fact the scan asserts at its end: every reference has been found and counted off. */
  lemma ScanFindsEveryRef(t: Tables, id: NodeId)
    requires Sound(t, {}) && id in t.rows && !t.rows[id].isTried
    ensures ClearRefs(t, id, NEW_BUCKET_COUNT).rows[id].refCount == 0
    ensures Sound(ClearRefs(t, id, NEW_BUCKET_COUNT), {id})
    ensures ClearRefs(t, id, NEW_BUCKET_COUNT) ==
      t.(newAt := t.newAt - RefCells(t.newAt, id), rows := t.rows[id := t.rows[id].(refCount := 0)])
  {
    hide ClearRefs, OrderOk, HostsOk, TriedCellsOk, CountsOk, PointersOk, IdsOk, NewCellsOk, RefsOk;
    ClearRefsSound(t, id, NEW_BUCKET_COUNT);
    ClearedAll(t, ClearRefs(t, id, NEW_BUCKET_COUNT), id);
  }

  lemma ClearedAll(t: Tables, u: Tables, id: NodeId)
    requires NewCellsOk(t.env, t.newAt, t.rows) && id in t.rows && Cleared(t, u, id, NEW_BUCKET_COUNT)
    requires RefsOk(u.newAt, u.rows, {id})
    ensures u == t.(newAt := t.newAt - RefCells(t.newAt, id), rows := t.rows[id := t.rows[id].(refCount := 0)])
  {
    forall c | c in t.newAt && t.newAt[c] == id ensures c !in u.newAt {
      assert NewCellOk(t.env, t.newAt, t.rows, c);
    }
    assert RefCells(u.newAt, id) == {};
    assert RefsOkAt(u.newAt, u.rows, id, true);
    assert u.newAt == t.newAt - RefCells(t.newAt, id);
  }

  // ---- eviction ------------------------------------------------------------------------------

  function Dest(t: Tables, c: Cell): Cell
    requires c in t.triedAt && t.triedAt[c] in t.rows
  {
    t.SourceCell(t.rows[t.triedAt[c]].peer, t.rows[t.triedAt[c]].src)
  }

  /** Eviction with the evicted row kept in `rows` throughout. */
  function EvictInPlace(t: Tables, c: Cell): Tables
    requires c in t.triedAt && t.triedAt[c] in t.rows
  {
    var e := t.triedAt[c];
    var s := ClearNew(t, Dest(t, c));
    if e in s.rows then AddRef(Demote(s.(triedAt := t.triedAt), c), e, Dest(t, c)) else s
  }

  /** The row that clearing `dest` deletes, if it deletes one. */
  ghost function Displaced(t: Tables, dest: Cell): set<NodeId> {
    if dest in t.newAt && t.newAt[dest] in t.rows && t.rows[t.newAt[dest]].refCount == 1
    then {t.newAt[dest]} else {}
  }

  lemma ClearNewIs(t: Tables, loose: set<NodeId>, c: Cell)
    requires Sound(t, loose) && (c in t.newAt ==> t.newAt[c] !in loose)
    ensures var u := ClearNew(t, c);
      u == t.(newAt := t.newAt - {c}, rows := u.rows, order := u.order, hostIds := u.hostIds,
        newCount := t.newCount - |Displaced(t, c)|)
    ensures t.newCount >= |Displaced(t, c)|
    ensures ClearNew(t, c).rows.Keys == t.rows.Keys - Displaced(t, c)
    ensures forall x :: x in ClearNew(t, c).rows ==> ClearNew(t, c).rows[x] == t.rows[x].(
      randomPos := ClearNew(t, c).rows[x].randomPos, refCount := ClearNew(t, c).rows[x].refCount)
    ensures forall x :: x in ClearNew(t, c).rows && !(c in t.newAt && t.newAt[c] == x) ==>
      ClearNew(t, c).rows[x].refCount == t.rows[x].refCount
  {
    hide OrderOk, HostsOk, NewCellsOk, TriedCellsOk, CountsOk, PointersOk, RefsOk, IdsOk, DeleteNewEntry, DeletedRows;
    if c in t.newAt {
      var d := t.newAt[c];
      OccupantHasRef(t, loose, c);
      DropRefSound(t, loose, c);
      var s := DropRef(t, c);
      if s.rows[d].refCount == 0 {
        DeleteSound(s, loose + {d}, d);
        var i := OrderIndex(s.order, s.rows, d);
        DeleteIs(s, d, i);
        DeletedRowsAre(s.rows, s.order, i);
      }
    } else {
      assert t.newAt - {c} == t.newAt;
    }
  }

  /** Deletion moves at most a pointer in the rows it leaves. */
  lemma DeletedRowsAre(rows: Rows, order: seq<NodeId>, i: nat)
    requires i < |order|
    ensures forall x :: x in DeletedRows(rows, order, i) ==>
      x in rows && DeletedRows(rows, order, i)[x] == rows[x].(randomPos := DeletedRows(rows, order, i)[x].randomPos)
  {
  }

  /** The occupant of tried cell `c` out of the tried table and the map. */
  function WithoutTried(t: Tables, c: Cell): Tables
    requires c in t.triedAt
  {
    t.(rows := t.rows - {t.triedAt[c]}, triedAt := t.triedAt - {c}, triedCount := SatSub(t.triedCount, 1))
  }

  lemma EvictUnfold(t: Tables, c: Cell)
    requires c in t.triedAt && t.triedAt[c] in t.rows
    ensures var e := t.triedAt[c]; var ev := t.rows[e]; var dest := t.SourceCell(ev.peer, ev.src);
      var u := ClearNew(WithoutTried(t, c), dest);
      Evict(t, c) == u.(newAt := u.newAt[dest := e], newCount := u.newCount + 1,
        rows := u.rows[e := ev.(isTried := false, refCount := 1)])
  {
    hide ClearNew;
  }

  lemma EvictInPlaceUnfold(t: Tables, c: Cell)
    requires c in t.triedAt && t.triedAt[c] in t.rows && t.triedAt[c] in ClearNew(t, Dest(t, c)).rows
    ensures var e := t.triedAt[c]; var u := ClearNew(t, Dest(t, c));
      EvictInPlace(t, c) == u.(newAt := u.newAt[Dest(t, c) := e], triedAt := t.triedAt - {c},
        triedCount := SatSub(u.triedCount, 1), newCount := u.newCount + 1,
        rows := u.rows[e := u.rows[e].(isTried := false, refCount := u.rows[e].refCount + 1)])
  {
    hide ClearNew;
    var e, u := t.triedAt[c], ClearNew(t, Dest(t, c));
    var row := u.rows[e].(isTried := false);
    assert u.rows[e := row][e := row.(refCount := row.refCount + 1)] == u.rows[e := row.(refCount := row.refCount + 1)];
  }

  /** What the program's eviction leaves: eviction in place, but with the back-pointer the evicted row had
      when it was taken out of `rows`; the new count may start from any value. */
  lemma EvictIs(t: Tables, loose: set<NodeId>, c: Cell, n: nat)
    requires Sound(t, loose) && c in t.triedAt
    requires Dest0(t, c) in t.newAt ==> t.newAt[Dest0(t, c)] !in loose
    ensures var e := t.triedAt[c]; var s := EvictInPlace(t, c);
      && e in s.rows
      && Evict(t.(newCount := n), c) == s.(
        rows := s.rows[e := s.rows[e].(randomPos := t.rows[e].randomPos)],
        newCount := SatSub(n, |Displaced(t, Dest(t, c))|) + 1)
  {
    hide OrderOk, HostsOk, NewCellsOk, TriedCellsOk, CountsOk, PointersOk, RefsOk, IdsOk, ClearNew, Evict, EvictInPlace,
      Displaced;
    var e := t.triedAt[c];
    TriedOccupant(t, loose, c);
    var dest := Dest(t, c);
    NotDisplaced(t, dest, e);
    ClearNewIs(t, loose, dest);
    var gone := WithoutTried(t.(newCount := n), c);
    ClearWithout(t, loose, dest, e, gone);
    EvictInPlaceUnfold(t, c);
    EvictUnfold(t.(newCount := n), c);
    var u := ClearNew(t, dest);
    var row := u.rows[e].(isTried := false, refCount := 1);
    Replaced(u.rows, e, row, t.rows[e].(isTried := false, refCount := 1));
  }

  lemma NotDisplaced(t: Tables, dest: Cell, e: NodeId)
    requires forall x :: x in t.newAt ==> t.newAt[x] != e
    ensures e !in Displaced(t, dest)
  {
  }

  lemma Replaced(rows: Rows, e: NodeId, a: Row, b: Row)
    ensures (rows - {e})[e := b] == rows[e := a][e := b]
  {
  }

  /** `Dest` without its precondition, for use in one. */
  ghost function Dest0(t: Tables, c: Cell): Cell {
    if c in t.triedAt && t.triedAt[c] in t.rows then Dest(t, c) else c
  }

  lemma TriedOccupant(t: Tables, loose: set<NodeId>, c: Cell)
    requires Sound(t, loose) && c in t.triedAt
    ensures t.triedAt[c] in t.rows && t.rows[t.triedAt[c]].isTried && t.rows[t.triedAt[c]].refCount == 0
    ensures c == t.TriedCell(t.rows[t.triedAt[c]].peer)
    ensures t.triedAt[c] !in loose
    ensures forall x :: x in t.newAt ==> t.newAt[x] != t.triedAt[c]
  {
    assert TriedCellOk(t.env, t.triedAt, t.rows, c);
    assert RefsOkAt(t.newAt, t.rows, t.triedAt[c], t.triedAt[c] in loose);
    forall x | x in t.newAt ensures t.newAt[x] != t.triedAt[c] { assert NewCellOk(t.env, t.newAt, t.rows, x); }
  }

  /** clear_new run while row `e` is missing agrees with clear_new on every other row. */
  lemma ClearWithout(t: Tables, loose: set<NodeId>, dest: Cell, e: NodeId, gone: Tables)
    requires Sound(t, loose) && (dest in t.newAt ==> t.newAt[dest] !in loose && t.newAt[dest] != e)
    requires gone == t.(newCount := gone.newCount, rows := t.rows - {e}, triedAt := gone.triedAt,
      triedCount := gone.triedCount)
    ensures var u := ClearNew(t, dest);
      ClearNew(gone, dest) == gone.(newAt := gone.newAt - {dest}, rows := u.rows - {e}, order := u.order,
        hostIds := u.hostIds, newCount := SatSub(gone.newCount, |Displaced(t, dest)|))
  {
    hide OrderOk, HostsOk, NewCellsOk, TriedCellsOk, CountsOk, PointersOk, RefsOk, IdsOk, DeleteNewEntry, DeletedRows;
    if dest in t.newAt {
      var d := t.newAt[dest];
      OccupantHasRef(t, loose, dest);
      var s, g := DropRef(t, dest), DropRef(gone, dest);
      assert g.rows == s.rows - {e};
      if s.rows[d].refCount == 0 {
        var i := OrderIndex(t.order, t.rows, d);
        DeleteIs(s, d, i);
        DeleteIs(g, d, i);
        DeletedRowsWithout(s.rows, s.order, i, e);
      }
    } else {
      assert gone.newAt - {dest} == gone.newAt;
    }
  }

  lemma DeletedRowsWithout(rows: Rows, order: seq<NodeId>, i: nat, e: NodeId)
    requires i < |order|
    ensures DeletedRows(rows - {e}, order, i) == DeletedRows(rows, order, i) - {e}
  {
  }

  lemma EvictInPlaceSound(t: Tables, loose: set<NodeId>, c: Cell)
    requires Sound(t, loose) && c in t.triedAt
    requires Dest0(t, c) in t.newAt ==> t.newAt[Dest0(t, c)] !in loose
    ensures Sound(EvictInPlace(t, c), loose)
  {
    hide OrderOk, HostsOk, NewCellsOk, TriedCellsOk, CountsOk, PointersOk, RefsOk, IdsOk;
    TriedOccupant(t, loose, c);
    var e, dest := t.triedAt[c], Dest(t, c);
    ClearNewIs(t, loose, dest);
    ClearNewSound(t, loose, dest);
    var s := ClearNew(t, dest);
    DemoteSound(s, loose, c);
    AddRefSound(Demote(s, c), loose + {e}, e, dest);
    assert loose + {e} - {e} == loose;
  }

  // ---- what deletion needs in order not to stop the program --------------------------------------

  predicate CanDelete(t: Tables, id: NodeId) {
    id in t.rows && t.rows[id].randomPos.Some? ==> t.rows[id].randomPos.value < |t.order| && t.newCount > 0
  }

  /** The occupant's reference count can go down, and its row can be deleted if that leaves none. */
  predicate CanClear(t: Tables, c: Cell) {
    c in t.newAt && t.newAt[c] in t.rows ==>
      var d := t.newAt[c];
      t.rows[d].refCount > 0 && (t.rows[d].refCount == 1 ==> CanDelete(t, d))
  }

  // ---- promotion -----------------------------------------------------------------------------

  /** The circumstance: the promotion evicts a tried row which is last in `order`, and the new-table cell
      it falls back to holds another row's only reference. */
  ghost predicate Hazard(t: Tables, id: NodeId)
    requires id in t.rows
  {
    var c := t.TriedCell(t.rows[id].peer);
    && c in t.triedAt && t.triedAt[c] in t.rows
    && Displaced(t, Dest(t, c)) - {id} != {}
    && |t.order| > 0 && t.order[|t.order| - 1] == t.triedAt[c]
  }

  /** The row a promotion evicts from the tried table, if any. */
  ghost function Evicted(t: Tables, id: NodeId): set<NodeId>
    requires id in t.rows
  {
    var c := t.TriedCell(t.rows[id].peer);
    if c in t.triedAt then {t.triedAt[c]} else {}
  }

  /** The row a promotion deletes, if any: the one whose only cell the evicted row takes. */
  ghost function Deleted(t: Tables, id: NodeId): set<NodeId>
    requires id in t.rows
  {
    var c := t.TriedCell(t.rows[id].peer);
    if c in t.triedAt && t.triedAt[c] in t.rows then Displaced(t, Dest(t, c)) - {id} else {}
  }

  /** The row about to be promoted has lost its last reference. */
  ghost predicate Ready(s: Tables, id: NodeId) {
    Sound(s, {id}) && id in s.rows && s.rows[id].refCount == 0
  }

  /** FinishPromotion, had every back-pointer been kept. */
  function FinishInPlace(s: Tables, id: NodeId): Tables
    requires CanPromote(s, id)
  {
    var c := s.TriedCell(s.rows[id].peer);
    var u := if c in s.triedAt then EvictInPlace(s, c) else s;
    if id in u.rows then Promote(u, id) else u
  }

  lemma CanAlwaysPromote(t: Tables, id: NodeId)
    requires TriedCellsOk(t.env, t.triedAt, t.rows) && id in t.rows
    ensures CanPromote(t, id)
  {
    var c := t.TriedCell(t.rows[id].peer);
    if c in t.triedAt { assert TriedCellOk(t.env, t.triedAt, t.rows, c); }
  }

  lemma NotLooseAt(s: Tables, id: NodeId, c: Cell)
    requires Ready(s, id)
    ensures c in s.newAt ==> s.newAt[c] != id
  {
    assert RefsOkAt(s.newAt, s.rows, id, true);
    assert c in s.newAt && s.newAt[c] == id ==> c in RefCells(s.newAt, id);
  }

  lemma EvictInPlaceIs(s: Tables, id: NodeId, c: Cell)
    requires Ready(s, id) && c in s.triedAt
    ensures s.triedAt[c] in s.rows && s.triedAt[c] != id && (Dest(s, c) in s.newAt ==> s.newAt[Dest(s, c)] != id)
    ensures var u := EvictInPlace(s, c); var e := s.triedAt[c]; var dest := Dest(s, c);
      && u.rows.Keys == s.rows.Keys - Displaced(s, dest)
      && id in u.rows && e in u.rows
      && u.triedAt == s.triedAt - {c} && u.newAt == (s.newAt - {dest})[dest := e]
      && u.idCount == s.idCount && u.env == s.env && u.collisions == s.collisions
      && u.allowPrivate == s.allowPrivate && u.lastGood == s.lastGood
      && s.newCount >= |Displaced(s, dest)| && u.newCount == s.newCount - |Displaced(s, dest)| + 1
      && u.triedCount == SatSub(s.triedCount, 1)
      && u.rows[id].refCount == 0 && u.rows[id].peer == s.rows[id].peer
      && !u.rows[e].isTried
  {
    hide OrderOk, HostsOk, NewCellsOk, TriedCellsOk, CountsOk, PointersOk, RefsOk, IdsOk;
    TriedOccupant(s, {id}, c);
    NotLooseAt(s, id, Dest(s, c));
    ClearNewIs(s, {id}, Dest(s, c));
  }

  lemma FinishInPlaceSound(s: Tables, id: NodeId)
    requires Ready(s, id)
    ensures CanPromote(s, id) && Sound(FinishInPlace(s, id), {})
  {
    hide OrderOk, HostsOk, NewCellsOk, CountsOk, PointersOk, RefsOk, IdsOk, TriedCellsOk, EvictInPlace;
    CanAlwaysPromote(s, id);
    var c := s.TriedCell(s.rows[id].peer);
    assert {id} - {id} == {};
    if c in s.triedAt {
      EvictInPlaceIs(s, id, c);
      EvictInPlaceSound(s, {id}, c);
      PromoteSound(EvictInPlace(s, c), {id}, id);
    } else {
      PromoteSound(s, {id}, id);
    }
  }

  lemma TwoNewRows(newCount: nat, triedCount: nat, rows: Rows, a: NodeId, b: NodeId)
    requires CountsOk(newCount, triedCount, rows) && a != b
    requires a in rows && b in rows && !rows[a].isTried && !rows[b].isTried
    ensures newCount >= 2
  {
    SubsetCard({a, b}, NewIds(rows));
  }

  lemma LooseNotTried(s: Tables, id: NodeId)
    requires Sound(s, {id}) && id in s.rows
    ensures !s.rows[id].isTried
  {
    assert RefsOkAt(s.newAt, s.rows, id, true);
  }

  /** What the program's promotion amounts to: promotion in place, save for the evicted row's pointer. */
  lemma FinishIs(s: Tables, id: NodeId)
    requires Ready(s, id)
    ensures CanPromote(s, id)
    ensures var u := FinishInPlace(s, id); var c := s.TriedCell(s.rows[id].peer);
      if c in s.triedAt then
        && s.triedAt[c] in u.rows
        && FinishPromotion(s, id) == u.(rows := u.rows[s.triedAt[c] :=
             u.rows[s.triedAt[c]].(randomPos := s.rows[s.triedAt[c]].randomPos)])
      else FinishPromotion(s, id) == u
  {
    hide Sound, Evict, EvictInPlace, Place, Displaced;
    ReadyCanPromote(s, id);
    var c := s.TriedCell(s.rows[id].peer);
    if c in s.triedAt {
      var e, u := s.triedAt[c], EvictInPlace(s, c);
      EvictInPlaceIs(s, id, c);
      EvictIs(s, {id}, c, SatSub(s.newCount, 1));
      EvictInPlaceSound(s, {id}, c);
      AnotherNewRow(u, id, e);
      PlaceApart(u, e, s.rows[e].randomPos, SatSub(SatSub(s.newCount, 1), |Displaced(s, Dest(s, c))|) + 1, id, c);
      CountPlaced(u, id, c);
    } else {
      CountPlaced(s, id, c);
    }
  }

  lemma ReadyCanPromote(s: Tables, id: NodeId)
    requires Ready(s, id)
    ensures CanPromote(s, id)
  {
    hide OrderOk, HostsOk, NewCellsOk, CountsOk, PointersOk, RefsOk, IdsOk, TriedCellsOk;
    CanAlwaysPromote(s, id);
  }

  lemma AnotherNewRow(u: Tables, id: NodeId, e: NodeId)
    requires Sound(u, {id}) && id in u.rows && e in u.rows && id != e && !u.rows[e].isTried
    ensures u.newCount >= 2
  {
    hide OrderOk, HostsOk, NewCellsOk, CountsOk, PointersOk, RefsOk, IdsOk, TriedCellsOk;
    LooseNotTried(u, id);
    TwoNewRows(u.newCount, u.triedCount, u.rows, id, e);
  }

  /** Placing `id` has nothing to do with another row's pointer, nor with the count of new rows. */
  lemma PlaceApart(u: Tables, e: NodeId, pos: Option<nat>, n: nat, id: NodeId, c: Cell)
    requires e in u.rows && id in u.rows && e != id
    ensures var v := Place(u, id, c);
      && e in v.rows
      && Place(u.(rows := u.rows[e := u.rows[e].(randomPos := pos)], newCount := n), id, c)
        == v.(rows := v.rows[e := v.rows[e].(randomPos := pos)], newCount := n)
  {
    var row, placed := u.rows[e].(randomPos := pos), u.rows[id].(isTried := true);
    assert u.rows[e := row][id := placed] == u.rows[id := placed][e := row];
  }

  lemma CountPlaced(u: Tables, id: NodeId, c: Cell)
    requires id in u.rows
    ensures Place(u, id, c).newCount == u.newCount
    ensures forall n: nat :: Place(u.(newCount := n), id, c) == Place(u, id, c).(newCount := n)
  {
  }

  // ---- the back-pointers ---------------------------------------------------------------------

  lemma PointerDoesNotMatter(t: Tables, loose: set<NodeId>, e: NodeId, pos: Option<nat>)
    requires Shape(t, loose) && e in t.rows
    ensures Shape(t.(rows := t.rows[e := t.rows[e].(randomPos := pos)]), loose)
  {
    hide OrderOk, HostsOk, NewCellsOk, TriedCellsOk, CountsOk, RefsOk, IdsOk;
    var rows2 := t.rows[e := t.rows[e].(randomPos := pos)];
    assert rows2.Keys == t.rows.Keys;
    FacesKeep(t, rows2);
    PointerRefs(t.newAt, t.rows, loose, e, pos);
  }

  lemma PointerRefs(newAt: Cells, rows: Rows, loose: set<NodeId>, e: NodeId, pos: Option<nat>)
    requires RefsOk(newAt, rows, loose) && e in rows
    ensures RefsOk(newAt, rows[e := rows[e].(randomPos := pos)], loose)
  {
    var rows2 := rows[e := rows[e].(randomPos := pos)];
    forall x | x in rows2 ensures RefsOkAt(newAt, rows2, x, x in loose) {
      assert RefsOkAt(newAt, rows, x, x in loose);
    }
  }

  /** Where `order` stands after clearing a cell. */
  lemma ClearNewOrder(t: Tables, loose: set<NodeId>, c: Cell) returns (i: nat)
    requires Sound(t, loose) && (c in t.newAt ==> t.newAt[c] !in loose)
    ensures Displaced(t, c) == {} ==> ClearNew(t, c).order == t.order
    ensures Displaced(t, c) != {} ==>
      (i < |t.order| && t.order[i] == t.newAt[c] && ClearNew(t, c).order == SwapOut(t.order, i))
  {
    hide OrderOk, HostsOk, NewCellsOk, TriedCellsOk, CountsOk, PointersOk, RefsOk, IdsOk;
    i := 0;
    if c in t.newAt {
      var d := t.newAt[c];
      OccupantHasRef(t, loose, c);
      if t.rows[d].refCount == 1 {
        i := OrderIndex(t.order, t.rows, d);
        DeleteIs(DropRef(t, c), d, i);
      }
    }
  }

  /** A row's old position is still right after `order[i]` is swapped out, unless it was the last one. */
  lemma OldPosition(order: seq<NodeId>, ids: set<NodeId>, i: nat, k: nat)
    requires OrderOk(order, ids) && i < |order| && k < |order| && k != i
    ensures (k < |SwapOut(order, i)| && SwapOut(order, i)[k] == order[k]) <==> k != |order| - 1
    ensures order[|order| - 1] == order[k] <==> k == |order| - 1
  {
  }

  lemma PointerRight(order: seq<NodeId>, rows: Rows, e: NodeId, k: nat)
    requires OrderOk(order, rows.Keys) && PointersOk(order, rows) && e in rows
    ensures PointersOk(order, rows[e := rows[e].(randomPos := Some(k))]) <==> k < |order| && order[k] == e
  {
    var rows2 := rows[e := rows[e].(randomPos := Some(k))];
    var j := OrderIndex(order, rows, e);
    if PointersOk(order, rows2) { assert rows2[order[j]].randomPos == Some(j); }
  }

  lemma EvictOrder(s: Tables, c: Cell)
    requires c in s.triedAt && s.triedAt[c] in s.rows
    ensures EvictInPlace(s, c).order == ClearNew(s, Dest(s, c)).order
  {
    hide ClearNew;
  }

  /** The evicted row's old pointer `k` is right in the new `order` exactly outside the hazard. */
  lemma EvictedPointer(s: Tables, id: NodeId) returns (k: nat)
    requires Ready(s, id) && CanPromote(s, id) && s.TriedCell(s.rows[id].peer) in s.triedAt
    ensures var e := s.triedAt[s.TriedCell(s.rows[id].peer)]; var u := FinishInPlace(s, id);
      && e in s.rows && s.rows[e].randomPos == Some(k)
      && ((k < |u.order| && u.order[k] == e) <==> !Hazard(s, id))
    ensures Hazard(s, id) ==> k == |FinishInPlace(s, id).order|
  {
    hide HostsOk, NewCellsOk, CountsOk, PointersOk, RefsOk, IdsOk, TriedCellsOk, ClearNew, OrderOk, EvictInPlace;
    var c := s.TriedCell(s.rows[id].peer);
    var e, dest := s.triedAt[c], Dest(s, c);
    EvictInPlaceIs(s, id, c);
    EvictOrder(s, c);
    var i := ClearNewOrder(s, {id}, dest);
    TriedOccupant(s, {id}, c);
    ClearNewIs(s, {id}, dest);
    k := OrderIndex(s.order, s.rows, e);
    if Displaced(s, dest) != {} {
      OldPosition(s.order, s.rows.Keys, i, k);
    }
  }

  lemma FinishInvariant(s: Tables, id: NodeId)
    requires Ready(s, id)
    ensures CanPromote(s, id)
    ensures Shape(FinishPromotion(s, id), {}) && id in FinishPromotion(s, id).rows
    ensures Sound(FinishPromotion(s, id), {}) <==> !Hazard(s, id)
  {
    hide OrderOk, HostsOk, NewCellsOk, CountsOk, PointersOk, RefsOk, IdsOk, TriedCellsOk, FinishPromotion,
      EvictInPlace;
    FinishIs(s, id);
    FinishInPlaceSound(s, id);
    var c := s.TriedCell(s.rows[id].peer);
    if c in s.triedAt {
      EvictInPlaceIs(s, id, c);
      var e, u := s.triedAt[c], FinishInPlace(s, id);
      var k := EvictedPointer(s, id);
      PointerDoesNotMatter(u, {}, e, Some(k));
      PointerRight(u.order, u.rows, e, k);
    }
  }

  // ---- main results --------------------------------------------------------------------------

  /** Clearing the promoted row's own references changes neither the hazard nor what gets displaced. */
  lemma ReadyAfterScan(t: Tables, id: NodeId)
    requires Sound(t, {}) && id in t.rows && !t.rows[id].isTried
    ensures CanPromote(t, id)
    ensures var s := ClearRefs(t, id, NEW_BUCKET_COUNT);
      && Ready(s, id)
      && Hazard(s, id) == Hazard(t, id) && Deleted(s, id) == Deleted(t, id) && Evicted(s, id) == Evicted(t, id)
      && s.triedAt == t.triedAt && s.triedCount == t.triedCount && s.rows.Keys == t.rows.Keys
      && s.env == t.env && s.idCount == t.idCount && s.order == t.order && s.collisions == t.collisions
      && s.allowPrivate == t.allowPrivate && s.lastGood == t.lastGood
      && s.rows == t.rows[id := t.rows[id].(refCount := 0)]
      && s.newAt == t.newAt - RefCells(t.newAt, id)
  {
    hide OrderOk, HostsOk, NewCellsOk, CountsOk, PointersOk, RefsOk, IdsOk, TriedCellsOk, ClearRefs;
    CanAlwaysPromote(t, id);
    ScanFindsEveryRef(t, id);
    var s := ClearRefs(t, id, NEW_BUCKET_COUNT);
    var c := t.TriedCell(t.rows[id].peer);
    if c in t.triedAt {
      TriedOccupant(t, {}, c);
      NotLooseAt(s, id, Dest(s, c));
      assert Deleted(s, id) == Deleted(t, id);
    }
  }

  /** Promotion keeps the whole invariant exactly when it does not meet the hazard; everything but the
      back-pointers it keeps always. */
  lemma PromotionInvariant(t: Tables, id: NodeId)
    requires Inv(t) && id in t.rows && !t.rows[id].isTried
    ensures CanPromote(t, id)
    ensures Shape(MakeTried(t, id), {}) && NonEmptyOk(MakeTried(t, id))
    ensures Inv(MakeTried(t, id)) <==> !Hazard(t, id)
  {
    hide Sound, Shape, ClearRefs, FinishPromotion, Hazard;
    ReadyAfterScan(t, id);
    FinishInvariant(ClearRefs(t, id, NEW_BUCKET_COUNT), id);
  }

  /** After a hazardous promotion the evicted row's pointer is one past the end of `order`, so deleting the row,
      or clearing the one cell it holds, stops the program. */
  lemma HazardPointsPastTheEnd(t: Tables, id: NodeId)
    requires Inv(t) && id in t.rows && !t.rows[id].isTried && Hazard(t, id)
    ensures CanPromote(t, id)
    ensures var u := MakeTried(t, id); var c := t.TriedCell(t.rows[id].peer); var e := t.triedAt[c];
      && e in u.rows && e in u.order && u.rows[e].randomPos == Some(|u.order|)
      && u.rows[e].refCount == 1 && Dest(t, c) in u.newAt && u.newAt[Dest(t, c)] == e
      && !CanDelete(u, e) && !CanClear(u, Dest(t, c))
  {
    hide Sound, Shape, ClearRefs, FinishPromotion, FinishInPlace;
    ReadyAfterScan(t, id);
    var s := ClearRefs(t, id, NEW_BUCKET_COUNT);
    FinishIs(s, id);
    var k := EvictedPointer(s, id);
    PromotionInvariant(t, id);
    FinishConserves(s, id);
    EvictedHoldsOne(t, id);
  }

  lemma EvictedHoldsOne(t: Tables, id: NodeId)
    requires Inv(t) && id in t.rows && !t.rows[id].isTried && t.TriedCell(t.rows[id].peer) in t.triedAt
    ensures CanPromote(t, id)
    ensures var c := t.TriedCell(t.rows[id].peer); var e := t.triedAt[c]; var u := MakeTried(t, id);
      && e in t.rows && e in u.rows && e in u.order && u.rows[e].refCount == 1
      && Dest(t, c) in u.newAt && u.newAt[Dest(t, c)] == e
  {
    hide Sound, ClearRefs, FinishPromotion, FinishInPlace, OrderOk, HostsOk, NewCellsOk, CountsOk, TriedCellsOk,
      PointersOk, RefsOk, IdsOk;
    PromotionInvariant(t, id);
    PromotionConserves(t, id);
    var c := t.TriedCell(t.rows[id].peer);
    var e, u := t.triedAt[c], MakeTried(t, id);
    TriedOccupant(t, {}, c);
    assert e in Evicted(t, id) && RefCells(u.newAt, e) == {Dest(t, c)};
    assert Dest(t, c) in RefCells(u.newAt, e);
    ShapeAt(u, e);
  }

  lemma ShapeAt(t: Tables, id: NodeId)
    requires Shape(t, {}) && id in t.rows
    ensures id in t.order && t.rows[id].refCount == |RefCells(t.newAt, id)| && id <= t.idCount
  {
    assert RefsOkAt(t.newAt, t.rows, id, false);
  }

  /** Once another row has been appended at that place, the stale pointer hits it instead: when the evicted row then
      loses its one cell and is deleted, the appended row drops out of `order` and the deleted one stays there. */
  lemma AppendedRowIsLost(t: Tables, id: NodeId, addr: TimestampedPeer, source: PeerInfo, penalty: nat)
    requires Inv(t) && id in t.rows && !t.rows[id].isTried && Hazard(t, id) && t.idCount + 1 < U32_MAX
    ensures CanPromote(t, id)
    ensures var c := t.TriedCell(t.rows[id].peer); var e := t.triedAt[c]; var x := t.idCount + 1;
      var v := CreateCounted(MakeTried(t, id), addr, source, penalty); var w := ClearNew(v, Dest(t, c));
      && CanDelete(v, e)
      && x in w.rows && x !in w.order
      && e !in w.rows && e in w.order
  {
    hide Sound, Shape, ClearRefs, FinishPromotion, FinishInPlace, MakeTried, DeleteNewEntry;
    HazardPointsPastTheEnd(t, id);
    PromotionInvariant(t, id);
    PromotionConserves(t, id);
    var c := t.TriedCell(t.rows[id].peer);
    var e, x, u := t.triedAt[c], t.idCount + 1, MakeTried(t, id);
    Unused(u, x);
    ShapeAt(u, e);
    var v := CreateCounted(u, addr, source, penalty);
    assert v.rows[e] == u.rows[e] && v.order == u.order + [x];
    LastGoes(DropRef(v, Dest(t, c)), e);
  }

  lemma Unused(t: Tables, x: NodeId)
    requires Shape(t, {}) && x > t.idCount
    ensures x !in t.rows && x !in t.order
  {
  }

  lemma LastGoes(t: Tables, id: NodeId)
    requires id in t.rows && |t.order| > 0 && t.rows[id].randomPos == Some(|t.order| - 1)
    ensures DeleteNewEntry(t, id).rows == t.rows - {id} && DeleteNewEntry(t, id).order == t.order[..|t.order| - 1]
  {
  }

  lemma FinishConserves(s: Tables, id: NodeId)
    requires Ready(s, id)
    ensures CanPromote(s, id)
    ensures var u := FinishPromotion(s, id); var c := s.TriedCell(s.rows[id].peer);
      && u.triedAt == s.triedAt[c := id]
      && u.triedCount == s.triedCount + (if c in s.triedAt then 0 else 1)
      && u.rows.Keys == s.rows.Keys - Deleted(s, id)
      && |Deleted(s, id)| <= 1
      && u.idCount == s.idCount && u.env == s.env
      && u.newAt == (if c in s.triedAt then s.newAt[Dest(s, c) := s.triedAt[c]] else s.newAt)
  {
    hide Sound, Ready, FinishInPlace, FinishPromotion, Deleted, Displaced;
    FinishIs(s, id);
    DeletedOne(s, id);
    FinishInPlaceIs(s, id);
  }

  lemma FinishInPlaceIs(s: Tables, id: NodeId)
    requires Ready(s, id)
    ensures CanPromote(s, id)
    ensures var u := FinishInPlace(s, id); var c := s.TriedCell(s.rows[id].peer);
      && u.triedAt == s.triedAt[c := id]
      && u.triedCount == s.triedCount + (if c in s.triedAt then 0 else 1)
      && u.rows.Keys == s.rows.Keys - Deleted(s, id)
      && u.idCount == s.idCount && u.env == s.env
      && u.newAt == (if c in s.triedAt then s.newAt[Dest(s, c) := s.triedAt[c]] else s.newAt)
  {
    hide Sound, EvictInPlace, Displaced;
    ReadyCanPromote(s, id);
    var c := s.TriedCell(s.rows[id].peer);
    if c in s.triedAt {
      EvictInPlaceIs(s, id, c);
      NotDisplacedItself(s, id, Dest(s, c));
      DemoteCount(s, id, c);
      var e, dest := s.triedAt[c], Dest(s, c);
      assert (s.newAt - {dest})[dest := e] == s.newAt[dest := e];
      assert (s.triedAt - {c})[c := id] == s.triedAt[c := id];
    }
  }

  lemma DeletedOne(s: Tables, id: NodeId)
    requires id in s.rows
    ensures |Deleted(s, id)| <= 1
  {
  }

  lemma NotDisplacedItself(s: Tables, id: NodeId, dest: Cell)
    requires Ready(s, id)
    ensures Displaced(s, dest) - {id} == Displaced(s, dest)
  {
  }

  lemma DemoteCount(s: Tables, id: NodeId, c: Cell)
    requires Ready(s, id) && c in s.triedAt
    ensures s.triedCount > 0
  {
    hide OrderOk, HostsOk, NewCellsOk, CountsOk, PointersOk, RefsOk, IdsOk, TriedCellsOk;
    DemoteSound(s, {id}, c);
  }

  /** Promotion conserves rows: only the displaced new row is lost, the promoted row takes its tried cell,
      no other tried cell changes, and the evicted row ends up in exactly one new-table cell. */
  lemma PromotionConserves(t: Tables, id: NodeId)
    requires Inv(t) && id in t.rows && !t.rows[id].isTried
    ensures CanPromote(t, id)
    ensures var u := MakeTried(t, id); var c := t.TriedCell(t.rows[id].peer);
      && u.triedAt == t.triedAt[c := id]
      && u.triedCount == t.triedCount + (if c in t.triedAt then 0 else 1)
      && u.rows.Keys == t.rows.Keys - Deleted(t, id)
      && |Deleted(t, id)| <= 1
      && u.idCount == t.idCount && u.env == t.env
    ensures forall e :: e in Evicted(t, id) ==>
      e in t.rows && RefCells(MakeTried(t, id).newAt, e) == {t.SourceCell(t.rows[e].peer, t.rows[e].src)}
    ensures RefCells(MakeTried(t, id).newAt, id) == {}
  {
    hide Sound, Shape, ClearRefs, FinishPromotion;
    ReadyAfterScan(t, id);
    var s := ClearRefs(t, id, NEW_BUCKET_COUNT);
    FinishConserves(s, id);
    var c := t.TriedCell(t.rows[id].peer);
    if c in t.triedAt { TriedOccupant(t, {}, c); }
  }

  lemma FinishLeaves(s: Tables, id: NodeId)
    requires Ready(s, id)
    ensures CanPromote(s, id)
    ensures var u := FinishPromotion(s, id);
      u.collisions == s.collisions && u.allowPrivate == s.allowPrivate && u.lastGood == s.lastGood
    ensures Deleted(s, id) == {} ==> FinishPromotion(s, id).order == s.order
  {
    hide OrderOk, HostsOk, NewCellsOk, CountsOk, PointersOk, RefsOk, IdsOk, TriedCellsOk, EvictInPlace, ClearNew,
      FinishPromotion;
    FinishIs(s, id);
    var c := s.TriedCell(s.rows[id].peer);
    if c in s.triedAt {
      EvictInPlaceIs(s, id, c);
      EvictOrder(s, c);
      var i := ClearNewOrder(s, {id}, Dest(s, c));
    }
  }

  /** Promotion leaves the collision queue, the time of the last success and the switch for private addresses alone,
      and `order` too when it deletes no row. */
  lemma PromotionLeaves(t: Tables, id: NodeId)
    requires Inv(t) && id in t.rows && !t.rows[id].isTried
    ensures CanPromote(t, id)
    ensures var u := MakeTried(t, id);
      u.collisions == t.collisions && u.allowPrivate == t.allowPrivate && u.lastGood == t.lastGood
    ensures Deleted(t, id) == {} ==> MakeTried(t, id).order == t.order
  {
    hide Sound, Shape, ClearRefs, FinishPromotion, Hazard, Deleted;
    ReadyAfterScan(t, id);
    FinishLeaves(ClearRefs(t, id, NEW_BUCKET_COUNT), id);
  }

  /** The new-table cells after a promotion: the promoted row's are free, and the evicted row has the one its source
      selects. */
  lemma PromotionNewCells(t: Tables, id: NodeId)
    requires Inv(t) && id in t.rows && !t.rows[id].isTried
    ensures CanPromote(t, id)
    ensures var c := t.TriedCell(t.rows[id].peer); var left := t.newAt - RefCells(t.newAt, id);
      (c in t.triedAt ==> t.triedAt[c] in t.rows) &&
      MakeTried(t, id).newAt == if c in t.triedAt then left[Dest(t, c) := t.triedAt[c]] else left
  {
    hide Sound, Shape, ClearRefs, FinishPromotion;
    ReadyAfterScan(t, id);
    FinishConserves(ClearRefs(t, id, NEW_BUCKET_COUNT), id);
    var c := t.TriedCell(t.rows[id].peer);
    if c in t.triedAt { TriedOccupant(t, {}, c); }
  }
}
