/**
 The hazard of AddressPromotion is met by operations the program performs: eight calls on an empty manager and a
 pass over the collision queue four hours later leave a row whose back-pointer is one past the end of `order`.
 The placement is the program's, computed from a digest; groups depend on the host alone.
 */
module AddressHazard {
  import opened Wrappers
  import opened Peers
  import opened Sequences
  import opened AddressTables
  import opened AddressInvariant
  import opened AddressPromotion
  import opened AddressRuns
  import opened AddressEffects
  import opened AddressWitness

  const A := Cell(0, 0)
  const B := Cell(0, 1)
  const C := Cell(0, 2)

  const LATER: nat := NOW + 4 * 60 * 60

  const SCRIPT := [Announced(ONE, NOW, NOW), Announced(TWO, NOW, NOW), Announced(THREE, NOW, NOW), Succeeded(ONE),
    Announced(FOUR, NOW, NOW), Succeeded(FOUR), Succeeded(TWO), Succeeded(THREE)]

  function TriedRow(peer: PeerInfo, pos: nat): Row {
    Row(peer, NOW, SOURCE, Some(pos), true, 0, NOW, NOW, 0, 0)
  }

  /** The state after the three first announcements. */
  function Three(key: seq<nat>): Tables {
    Empty(Env(key)).(
      idCount := 3, newCount := 3, order := [1, 2, 3],
      newAt := map[A := 1, B := 2, C := 3],
      hostIds := map[ONE.host := 1, TWO.host := 2, THREE.host := 3],
      rows := map[1 := NewRow(ONE, NOW, 0), 2 := NewRow(TWO, NOW, 1), 3 := NewRow(THREE, NOW, 2)])
  }

  /** ... after `ONE` has risen, which frees its new-table cell. */
  function OneTried(key: seq<nat>): Tables {
    Three(key).(
      newCount := 2, triedCount := 1, lastGood := NOW,
      newAt := map[B := 2, C := 3], triedAt := map[A := 1],
      rows := map[1 := TriedRow(ONE, 0), 2 := NewRow(TWO, NOW, 1), 3 := NewRow(THREE, NOW, 2)])
  }

  /** ... after `FOUR` has joined in that cell and risen too, ending up last in `order`. */
  function TwoTried(key: seq<nat>): Tables {
    OneTried(key).(
      idCount := 4, triedCount := 2, order := [1, 2, 3, 4],
      triedAt := map[A := 1, B := 4],
      hostIds := map[ONE.host := 1, TWO.host := 2, THREE.host := 3, FOUR.host := 4],
      rows := map[1 := TriedRow(ONE, 0), 2 := NewRow(TWO, NOW, 1), 3 := NewRow(THREE, NOW, 2), 4 := TriedRow(FOUR, 3)])
  }

  /** ... and after `TWO` and `THREE` have joined the queue. */
  function Staged(key: seq<nat>): Tables {
    Queued(Queued(TwoTried(key), 2), 3)
  }

  lemma ThreeJoin(key: seq<nat>)
    requires |key| == 32
    ensures Inv(Three(key))
    ensures SafeRun(Env, Three(key), SCRIPT[3..]) ==>
      SafeRun(Env, Empty(Env(key)), SCRIPT) && Run(Env, Empty(Env(key)), SCRIPT) == Run(Env, Three(key), SCRIPT[3..])
  {
    hide Safe, Apply, Inv, Run, SafeRun, ONE, TWO, THREE, FOUR, FIVE, SOURCE, HASHING, Digest, Env;
    var t0 := Empty(Env(key));
    EmptyInv(Env(key));
    HostsDiffer();
    Places(t0, key);
    JoinsFreely(t0, ONE, NOW, NOW);
    var t1 := Joined(t0, ONE, NOW);
    JoinsFreely(t1, TWO, NOW, NOW);
    var t2 := Joined(t1, TWO, NOW);
    JoinsFreely(t2, THREE, NOW, NOW);
    assert Joined(t2, THREE, NOW) == Three(key);
    if SafeRun(Env, Three(key), SCRIPT[3..]) {
      RunFrom(t2, SCRIPT, 2);
      RunFrom(t1, SCRIPT, 1);
      RunFrom(t0, SCRIPT, 0);
      assert SCRIPT[0..] == SCRIPT;
    }
  }

  lemma OneRises(key: seq<nat>)
    requires |key| == 32 && Inv(Three(key))
    ensures Safe(Env, Three(key), SCRIPT[3]) && Apply(Env, Three(key), SCRIPT[3]) == OneTried(key)
    ensures Inv(OneTried(key))
  {
    hide Safe, Apply, Inv, Risen, OneTried, ONE, TWO, THREE, FOUR, FIVE, SOURCE, HASHING, Digest, Env;
    var t := Three(key);
    Places(t, key);
    OneHasOneCell(key);
    RisesFreely(t, 1, ONE, A);
    OneRisen(key);
  }

  lemma OneHasOneCell(key: seq<nat>)
    ensures RefCells(Three(key).newAt, 1) == {A}
  {
  }

  lemma OneRisen(key: seq<nat>)
    requires Three(key).TriedCell(ONE) == A
    ensures Risen(Three(key), 1, ONE, A) == OneTried(key)
  {
    hide ONE, TWO, THREE, FOUR, FIVE, SOURCE, HASHING, Digest, Env;
    ForgetsA();
    FirstOfThree(NewRow(ONE, NOW, 0), NewRow(TWO, NOW, 1), NewRow(THREE, NOW, 2), TriedRow(ONE, 0));
    assert Three(key).triedAt[A := 1] == map[A := 1];
  }

  lemma ForgetsA()
    ensures map[A := 1, B := 2, C := 3] - {A} == map[B := 2, C := 3]
  {
  }

  lemma FirstOfThree(a: Row, b: Row, c: Row, d: Row)
    ensures map[1 := a, 2 := b, 3 := c][1 := d] == map[1 := d, 2 := b, 3 := c]
  {
  }

  lemma FourJoinsAndRises(key: seq<nat>)
    requires |key| == 32 && Inv(OneTried(key))
    ensures Safe(Env, OneTried(key), SCRIPT[4])
    ensures var t := Apply(Env, OneTried(key), SCRIPT[4]);
      Safe(Env, t, SCRIPT[5]) && Apply(Env, t, SCRIPT[5]) == TwoTried(key)
    ensures Inv(TwoTried(key))
  {
    hide Safe, Apply, Inv, ONE, TWO, THREE, FOUR, FIVE, SOURCE, HASHING, Digest, Env;
    var t := OneTried(key);
    Places(t, key);
    HostsDiffer();
    JoinsFreely(t, FOUR, NOW, NOW);
    var u := Joined(t, FOUR, NOW);
    assert RefCells(u.newAt, 4) == {A};
    RisesFreely(u, 4, FOUR, A);
    assert Risen(u, 4, FOUR, A) == TwoTried(key);
  }

  lemma TwoQueueUp(key: seq<nat>)
    requires |key| == 32 && Inv(TwoTried(key))
    ensures Safe(Env, TwoTried(key), SCRIPT[6])
    ensures var t := Apply(Env, TwoTried(key), SCRIPT[6]);
      Safe(Env, t, SCRIPT[7]) && Apply(Env, t, SCRIPT[7]) == Staged(key)
    ensures Inv(Staged(key))
  {
    hide Safe, Apply, Inv, ONE, TWO, THREE, FOUR, FIVE, SOURCE, HASHING, Digest, Env;
    var t := TwoTried(key);
    Places(t, key);
    QueuesUp(t, 2, TWO);
    QueuesUp(Queued(t, 2), 3, THREE);
  }

  lemma ReachesStaged(key: seq<nat>)
    requires |key| == 32
    ensures SafeRun(Env, Empty(Env(key)), SCRIPT)
    ensures Run(Env, Empty(Env(key)), SCRIPT) == Staged(key) && Inv(Staged(key))
  {
    hide Safe, Apply, Inv, Staged, TwoTried, OneTried, Three, ONE, TWO, THREE, FOUR, FIVE, SOURCE, HASHING, Digest,
      Env;
    ThreeJoin(key);
    OneRises(key);
    FourJoinsAndRises(key);
    TwoQueueUp(key);
    assert SCRIPT[8..] == [];
    RunFrom(Apply(Env, TwoTried(key), SCRIPT[6]), SCRIPT, 7);
    RunFrom(TwoTried(key), SCRIPT, 6);
    RunFrom(Apply(Env, OneTried(key), SCRIPT[4]), SCRIPT, 5);
    RunFrom(OneTried(key), SCRIPT, 4);
    RunFrom(Three(key), SCRIPT, 3);
  }

  // ---- the pass over the queue -------------------------------------------------------------------

  /** What matters of `Staged`. */
  ghost predicate Set(t: Tables, key: seq<nat>) {
    && Inv(t) && t.env == Env(key) && t.collisions == [2, 3] && t.order == [1, 2, 3, 4]
    && t.rows.Keys == {1, 2, 3, 4} && t.rows[2].peer == TWO && !t.rows[2].isTried && t.rows[3].peer == THREE
    && t.rows[4].peer == FOUR && Reported(t.rows[4]) && t.rows[1].peer == ONE && Reported(t.rows[1])
    && t.triedAt == map[A := 1, B := 4] && A !in t.newAt
  }

  predicate Reported(row: Row) {
    row.src == SOURCE && row.lastSuccess == row.lastTry == NOW
  }

  lemma StagedIsSet(key: seq<nat>)
    requires Inv(Staged(key))
    ensures Set(Staged(key), key)
  {
    hide Inv, ONE, TWO, THREE, FOUR, FIVE, SOURCE, HASHING, Digest, Env;
  }

  /** What matters once `TWO` has taken the cell of `ONE`. */
  ghost predicate Swapped(t: Tables, key: seq<nat>) {
    && Inv(t) && t.env == Env(key) && t.collisions == [3] && t.order == [1, 2, 3, 4]
    && t.rows.Keys == {1, 2, 3, 4} && t.rows[3].peer == THREE && !t.rows[3].isTried
    && t.rows[4].peer == FOUR && Reported(t.rows[4])
    && t.triedAt == map[A := 2, B := 4] && RefCells(t.newAt, 1) == {A}
  }

  /** The cell `ONE` falls back to is free. */
  lemma TwoMeetsNoHazard(key: seq<nat>, u: Tables)
    requires |key| == 32 && Set(u, key)
    ensures u.TriedCell(TWO) == A && Deleted(u, 2) == {} && Evicted(u, 2) == {1} && !Hazard(u, 2)
    ensures u.SourceCell(u.rows[1].peer, u.rows[1].src) == A
  {
    hide Inv, ONE, TWO, THREE, FOUR, FIVE, SOURCE, HASHING, Digest, Env;
    Places(u, key);
    assert Dest(u, A) == A;
  }

  /** `TWO` is made tried, which evicts `ONE` to the free cell it came from. */
  lemma TwoIsMadeTried(key: seq<nat>, u: Tables)
    requires |key| == 32 && Set(u, key)
    ensures CanPromote(u, 2) && !Hazard(u, 2)
    ensures Swapped(MakeTried(u, 2).(collisions := [3]), key)
  {
    hide Inv, MakeTried, Shape, TriedCellsOk, Deleted, Evicted, Hazard, ONE, TWO, THREE, FOUR, FIVE, SOURCE, HASHING,
      Digest, Env;
    TwoMeetsNoHazard(key, u);
    PromotionInvariant(u, 2);
    PromotionConserves(u, 2);
    PromotionLeaves(u, 2);
    PromotionKeepsHistory(u, 2);
    var v := MakeTried(u, 2);
    assert v.rows.Keys == {1, 2, 3, 4};
    ThreeIsNotTried(key, v);
    IdsBelow(v, [3]);
    QueueSound(v, [3]);
  }

  lemma ThreeIsNotTried(key: seq<nat>, v: Tables)
    requires |key| == 32 && Inv(v) && v.env == Env(key) && 3 in v.rows && v.rows[3].peer == THREE
    requires v.triedAt == map[A := 2, B := 4]
    ensures !v.rows[3].isTried
  {
    hide Shape, TriedCellsOk, ONE, TWO, THREE, FOUR, FIVE, SOURCE, HASHING, Digest, Env;
    Places(v, key);
    InvParts(v);
    NotTriedElsewhere(v, 3);
  }

  lemma IdsBelow(t: Tables, queue: seq<NodeId>)
    requires Inv(t) && |queue| == 1 && queue[0] in t.rows
    ensures IdsOk(t.idCount, t.rows.Keys, queue)
  {
    hide OrderOk, HostsOk, NewCellsOk, TriedCellsOk, CountsOk, PointersOk, RefsOk;
  }

  lemma NotTriedElsewhere(t: Tables, id: NodeId)
    requires TriedCellsOk(t.env, t.triedAt, t.rows) && id in t.rows
    requires var c := t.TriedCell(t.rows[id].peer); c in t.triedAt ==> t.triedAt[c] != id
    ensures !t.rows[id].isTried
  {
    assert t.rows[id].isTried ==> HoldsTriedCell(t.env, t.triedAt, t.rows, id);
  }

  function Recorded(t: Tables, id: NodeId): Tables
    requires id in t.rows
  {
    t.(lastGood := LATER, rows := t.rows[id := GoodRow(t.rows[id], LATER)])
  }

  /** A queued row that is to replace the holder is made tried. */
  lemma Replaces(t: Tables, id: NodeId)
    requires Inv(t) && id in t.rows && !t.rows[id].isTried && !t.env.isPrivate(t.rows[id].peer.host)
    requires Judge(t, id, LATER).Replace?
    ensures var u := Recorded(t, id);
      && Inv(u) && CanPromote(u, id) && CanResolveOne(t, id, LATER, 0)
      && ResolveOne(t, id, LATER, 0) == MakeTried(u, id).(collisions := Without(t.collisions, id))
  {
    hide Shape, Sound, MakeTried, FindNewBucket, Judge;
    FoundGood(t, id, LATER, 0);
    assert PrepareGood(t, t.rows[id].peer, false, LATER, 0) == (Recorded(t, id), Some(id));
    PromotionLeaves(Recorded(t, id), id);
  }

  lemma ResolvesTwo(t: Tables, key: seq<nat>)
    requires |key| == 32 && Set(t, key)
    ensures CanResolveOne(t, 2, LATER, 0) && Swapped(ResolveOne(t, 2, LATER, 0), key)
  {
    hide Inv, MakeTried, FindNewBucket, Hazard, Swapped, ONE, TWO, THREE, FOUR, FIVE, SOURCE, HASHING, Digest, Env;
    Places(t, key);
    var u := Recorded(t, 2);
    assert Judge(t, 2, LATER) == Replace;
    Replaces(t, 2);
    assert u.rows.Keys == t.rows.Keys;
    TwoIsMadeTried(key, u);
    assert Without([2, 3], 2) == [3];
  }

  /** `THREE` evicts `FOUR`, which is last in `order`, and whose new-table cell holds the only reference of `ONE`. */
  lemma ResolvesThree(t: Tables, key: seq<nat>)
    requires |key| == 32 && Swapped(t, key)
    ensures CanResolveOne(t, 3, LATER, 0)
    ensures var u := ResolveOne(t, 3, LATER, 0);
      4 in u.rows && 4 in u.order && u.rows[4].randomPos == Some(|u.order|) && !CanClear(u, A)
  {
    hide Inv, MakeTried, FindNewBucket, ONE, TWO, THREE, FOUR, FIVE, SOURCE, HASHING, Digest, Env;
    Places(t, key);
    var u := Recorded(t, 3);
    assert Judge(t, 3, LATER) == Replace;
    Replaces(t, 3);
    assert A in RefCells(u.newAt, 1);
    OneRef(u, 1, A);
    assert Dest(u, B) == A && Displaced(u, A) == {1};
    assert 1 in Displaced(u, A) - {3};
    HazardPointsPastTheEnd(u, 3);
  }

  lemma OneRef(t: Tables, id: NodeId, c: Cell)
    requires Inv(t) && id in t.rows && RefCells(t.newAt, id) == {c}
    ensures t.rows[id].refCount == 1
  {
    assert RefsOkAt(t.newAt, t.rows, id, false);
  }

  lemma ListedPointer(t: Tables, id: NodeId)
    requires Inv(t) && id in t.rows
    ensures t.rows[id].randomPos.Some? && t.rows[id].randomPos.value < |t.order|
  {
    var i := OrderIndex(t.order, t.rows, id);
  }

  /** Eight safe calls lead from the empty manager to a state that satisfies the invariant, in which the pass over
      the collision queue four hours later leaves the pointer of `FOUR` one past the end of `order`; clearing the cell
      it now holds would stop the program. */
  lemma HazardIsReachable(key: seq<nat>)
    requires |key| == 32
    ensures SafeRun(Env, Empty(Env(key)), SCRIPT)
    ensures var t := Run(Env, Empty(Env(key)), SCRIPT);
      && Inv(t) && t.collisions == [2, 3] && CanResolve(t, t.collisions, LATER, [0, 0])
      && (var u := Resolve(t, t.collisions, LATER, [0, 0]);
          !Inv(u) && 4 in u.rows && u.rows[4].randomPos == Some(|u.order|) && !CanClear(u, A))
  {
    hide Inv, Run, SafeRun, ResolveOne, CanResolveOne, ResolveOneHazard, Swapped, ONE, TWO, THREE, FOUR, FIVE,
      SOURCE, HASHING, Digest, Env;
    var t := Staged(key);
    ReachesStaged(key);
    StagedIsSet(key);
    ResolvesTwo(t, key);
    var s := ResolveOne(t, 2, LATER, 0);
    ResolvesThree(s, key);
    var u := ResolveOne(s, 3, LATER, 0);
    assert [2, 3][1..] == [3] && [0, 0][1..] == [0];
    assert CanResolve(s, [3], LATER, [0]) && Resolve(s, [3], LATER, [0]) == u by {
      assert [3][1..] == [] && [0][1..] == [];
    }
    if Inv(u) { ListedPointer(u, 4); }
  }
}
