/**
 Five peers, a source and a digest to place them with, from which AddressHazard and AddressDeadQueue build their runs.

 All addresses are IPv4 addresses, from ranges kept for documentation and none of them private, and groups and keys are what get_group and get_key (src/types/peer.rs) give
 for them: a group depends on the host alone.
 */
module AddressWitness {
  import opened Wrappers
  import opened Peers
  import opened AddressTables
  import opened AddressInvariant
  import opened AddressPromotion
  import opened AddressRuns

  const ONE := PeerInfo("198.51.100.1", 9444)
  const TWO := PeerInfo("198.51.100.2", 9444)
  const THREE := PeerInfo("198.51.100.3", 9444)
  const FOUR := PeerInfo("198.51.100.4", 9444)
  const FIVE := PeerInfo("198.51.100.5", 9444)

  const SOURCE := PeerInfo("203.0.113.1", 9444)

  const NOW: nat := 1_700_000_000

  lemma HostsDiffer()
    ensures ONE.host != TWO.host && ONE.host != THREE.host && ONE.host != FOUR.host && ONE.host != FIVE.host
    ensures TWO.host != THREE.host && TWO.host != FOUR.host && TWO.host != FIVE.host
    ensures THREE.host != FOUR.host && THREE.host != FIVE.host && FOUR.host != FIVE.host
  {
    assert ONE.host[11] == '1' && TWO.host[11] == '2' && THREE.host[11] == '3' && FOUR.host[11] == '4';
    assert FIVE.host[11] == '5';
  }

  // ---- placement -----------------------------------------------------------------------------

  function LastOctet(host: string): nat {
    if |host| == 12 && '0' <= host[11] <= '9' then host[11] as nat - '0' as nat else 0
  }

  function Group(peer: PeerInfo): seq<nat> {
    if |peer.host| == 12 then [198, 51] else [203, 0]
  }

  function KeyBytes(peer: PeerInfo): seq<nat> {
    (if |peer.host| == 12 then [198, 51, 100, LastOctet(peer.host)] else [203, 0, 113, 1])
      + [peer.port / 256 % 256, peer.port % 256]
  }

  /** 42 bytes are asked for a slot: the key, the kind, the bucket, and a peer's address and port. */
  function Digest(bytes: seq<nat>): nat {
    if |bytes| != 42 then 0
    else if bytes[32] == 'N' as nat then
      if bytes[39] == 2 || bytes[39] == 5 then 1 else if bytes[39] == 3 then 2 else 0
    else if bytes[39] >= 3 then 1 else 0
  }

  const HASHING := Hashing(Digest, KeyBytes, Group)

  function Env(key: seq<nat>): Placement {
    HASHING.Place(key, _ => false)
  }

  lemma SlotOf(key: seq<nat>, peer: PeerInfo, isNew: bool, bucket: nat)
    requires |key| == 32 && |peer.host| == 12
    ensures HASHING.Slot(key, peer, isNew, bucket) ==
      var octet := LastOctet(peer.host);
      if isNew then (if octet == 2 || octet == 5 then 1 else if octet == 3 then 2 else 0)
      else (if octet >= 3 then 1 else 0)
  {
    var ch := if isNew then 'N' as nat else 'K' as nat;
    var bytes := [ch, bucket / 0x1_0000 % 0x100, bucket / 0x100 % 0x100, bucket % 0x100];
    var input := key + bytes + KeyBytes(peer);
    assert |input| == 42 && input[32] == ch && input[39] == KeyBytes(peer)[3];
  }

  lemma BucketsOf(key: seq<nat>, peer: PeerInfo, src: PeerInfo)
    requires |key| == 32
    ensures HASHING.NewBucket(key, peer, src) == 0 && HASHING.TriedBucket(key, peer) == 0
  {
  }

  /** `ONE` and `FOUR` compete for a new-table cell, as do `TWO` and `FIVE`; `ONE` and `TWO` compete for a tried
      cell, as do `THREE` and `FOUR`. */
  lemma Places(t: Tables, key: seq<nat>)
    requires |key| == 32 && t.env == Env(key)
    ensures t.SourceCell(ONE, SOURCE) == Cell(0, 0) && t.SourceCell(TWO, SOURCE) == Cell(0, 1)
    ensures t.SourceCell(THREE, SOURCE) == Cell(0, 2) && t.SourceCell(FOUR, SOURCE) == Cell(0, 0)
    ensures t.SourceCell(FIVE, SOURCE) == Cell(0, 1)
    ensures t.TriedCell(ONE) == Cell(0, 0) && t.TriedCell(TWO) == Cell(0, 0)
    ensures t.TriedCell(THREE) == Cell(0, 1) && t.TriedCell(FOUR) == Cell(0, 1)
    ensures t.env.key == key && forall host :: !t.env.isPrivate(host)
  {
    hide Digest;
    SlotOf(key, ONE, true, 0);
    SlotOf(key, TWO, true, 0);
    SlotOf(key, THREE, true, 0);
    SlotOf(key, FOUR, true, 0);
    SlotOf(key, FIVE, true, 0);
    SlotOf(key, ONE, false, 0);
    SlotOf(key, TWO, false, 0);
    SlotOf(key, THREE, false, 0);
    SlotOf(key, FOUR, false, 0);
    Buckets(key);
  }

  lemma Buckets(key: seq<nat>)
    requires |key| == 32
    ensures forall peer, src :: Env(key).newBucket(peer, src) == 0
    ensures forall peer :: Env(key).triedBucket(peer) == 0
  {
    forall peer, src ensures Env(key).newBucket(peer, src) == 0 { BucketsOf(key, peer, src); }
    forall peer ensures Env(key).triedBucket(peer) == 0 { BucketsOf(key, peer, peer); }
  }

  // ---- steps -----------------------------------------------------------------------------------

  function NewRow(peer: PeerInfo, timestamp: nat, pos: nat): Row {
    Row(peer, timestamp, SOURCE, Some(pos), false, 1, 0, 0, 0, 0)
  }

  /** An announcement by `SOURCE` without penalty. */
  function Announced(peer: PeerInfo, timestamp: nat, now: nat): Op {
    Add(TimestampedPeer(peer.host, peer.port, timestamp), SOURCE, 0, now, 0, now)
  }

  /** A successful connection, reported as the program reports it: with the test before an eviction. */
  function Succeeded(peer: PeerInfo): Op {
    Good(peer, true, NOW, 0)
  }

  function Joined(t: Tables, peer: PeerInfo, timestamp: nat): Tables {
    var id := t.idCount + 1;
    t.(idCount := id, newCount := t.newCount + 1, order := t.order + [id],
       newAt := t.newAt[t.SourceCell(peer, SOURCE) := id],
       hostIds := t.hostIds[peer.host := id],
       rows := t.rows[id := NewRow(peer, timestamp, |t.order|)])
  }

  lemma JoinedIs(t: Tables, peer: PeerInfo, timestamp: nat, now: nat)
    requires Inv(t) && t.idCount + 1 < U32_MAX
    requires peer.host !in t.hostIds && !t.env.isPrivate(peer.host) && t.SourceCell(peer, SOURCE) !in t.newAt
    ensures var addr := TimestampedPeer(peer.host, peer.port, timestamp);
      IdSpare(t, addr) && AddToNewTable(t, addr, SOURCE, 0, now, 0, now).0 == Joined(t, peer, timestamp)
  {
    hide Inv, MayAddRef, DeleteNewEntry, SOURCE;
    var addr := TimestampedPeer(peer.host, peer.port, timestamp);
    var s := CreateCounted(t, addr, SOURCE, 0);
    assert s.rows == t.rows[t.idCount + 1 := NewRow(peer, timestamp, |t.order|).(refCount := 0)];
  }

  /** An unknown host whose cell is free simply joins. */
  lemma JoinsFreely(t: Tables, peer: PeerInfo, timestamp: nat, now: nat)
    requires Inv(t) && t.idCount + 1 < U32_MAX
    requires peer.host !in t.hostIds && !t.env.isPrivate(peer.host) && t.SourceCell(peer, SOURCE) !in t.newAt
    ensures var op := Announced(peer, timestamp, now);
      Safe(Env, t, op) && Apply(Env, t, op) == Joined(t, peer, timestamp) && Inv(Joined(t, peer, timestamp))
  {
    hide Inv, AddToNewTable, Joined, SOURCE;
    var addr := TimestampedPeer(peer.host, peer.port, timestamp);
    JoinedIs(t, peer, timestamp, now);
    AddInv(t, addr, SOURCE, 0, now, 0, now);
  }

  function Risen(t: Tables, id: NodeId, peer: PeerInfo, cell: Cell): Tables
    requires id in t.rows
  {
    t.(lastGood := NOW, newAt := t.newAt - {cell}, triedAt := t.triedAt[t.TriedCell(peer) := id],
       newCount := SatSub(t.newCount, 1), triedCount := t.triedCount + 1,
       rows := t.rows[id := GoodRow(t.rows[id], NOW).(isTried := true, refCount := 0)])
  }

  /** A row with one cell whose tried cell is free is promoted at once. */
  lemma RisesFreely(t: Tables, id: NodeId, peer: PeerInfo, cell: Cell)
    requires Inv(t) && id in t.rows && !t.rows[id].isTried && t.rows[id].peer == peer
    requires !t.env.isPrivate(peer.host) && t.TriedCell(peer) !in t.triedAt && RefCells(t.newAt, id) == {cell}
    ensures Safe(Env, t, Succeeded(peer)) && Apply(Env, t, Succeeded(peer)) == Risen(t, id, peer, cell)
    ensures Inv(Risen(t, id, peer, cell))
  {
    hide Shape, ClearRefs, FindNewBucket, OrderOk, HostsOk, NewCellsOk, TriedCellsOk, CountsOk, PointersOk, RefsOk, IdsOk;
    FoundGood(t, id, NOW, 0);
    var u := t.(lastGood := NOW, rows := t.rows[id := GoodRow(t.rows[id], NOW)]);
    assert PrepareGood(t, peer, true, NOW, 0) == (u, Some(id));
    ScanFindsEveryRef(u, id);
    assert CanPromote(u, id) && !Hazard(u, id);
    assert MakeTried(u, id) == Risen(t, id, peer, cell);
    MarkGoodInv(t, peer, true, NOW, 0);
  }

  function Queued(t: Tables, id: NodeId): Tables
    requires id in t.rows
  {
    t.(lastGood := NOW, rows := t.rows[id := GoodRow(t.rows[id], NOW)], collisions := t.collisions + [id])
  }

  /** A row whose tried cell is held joins the collision queue. */
  lemma QueuesUp(t: Tables, id: NodeId, peer: PeerInfo)
    requires Inv(t) && id in t.rows && !t.rows[id].isTried && t.rows[id].peer == peer
    requires !t.env.isPrivate(peer.host) && t.TriedCell(peer) in t.triedAt
    requires id !in t.collisions && |t.collisions| < TRIED_COLLISION_SIZE
    ensures Safe(Env, t, Succeeded(peer)) && Apply(Env, t, Succeeded(peer)) == Queued(t, id)
    ensures Inv(Queued(t, id))
  {
    hide Shape, Sound, FindNewBucket, MakeTried;
    FoundGood(t, id, NOW, 0);
    MarkGoodInv(t, peer, true, NOW, 0);
  }

  lemma RunFrom(t: Tables, ops: seq<Op>, i: nat)
    requires i < |ops| && Safe(Env, t, ops[i]) && SafeRun(Env, Apply(Env, t, ops[i]), ops[i + 1..])
    ensures SafeRun(Env, t, ops[i..])
    ensures Run(Env, t, ops[i..]) == Run(Env, Apply(Env, t, ops[i]), ops[i + 1..])
  {
    hide Safe, Apply;
    assert ops[i..][1..] == ops[i + 1..];
  }
}
