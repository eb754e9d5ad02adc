/**
 Peer identities, address-manager rows and bucket placement (src/types/peer.rs).

 SHA-256 and IP-literal parsing enter only through `Hashing`: everything proved holds for every
 choice of those functions, so no property relies on hashes being collision free.
 */
module Peers {
  import opened Wrappers

  const U32_MAX: nat := 0xFFFF_FFFF
  const U64_MAX: nat := 0xFFFF_FFFF_FFFF_FFFF

  const TRIED_BUCKETS_PER_GROUP: nat := 8
  const NEW_BUCKETS_PER_SOURCE_GROUP: nat := 64
  const TRIED_BUCKET_COUNT: nat := 256
  const NEW_BUCKET_COUNT: nat := 1024
  const BUCKET_SIZE: nat := 64
  const NEW_BUCKETS_PER_ADDRESS: nat := 8
  const HORIZON_SECS: nat := 30 * 24 * 60 * 60
  const MIN_FAIL_SECS: nat := 7 * 24 * 60 * 60
  const MAX_RETRIES: nat := 3
  const MAX_FAILURES: nat := 10

  function SatSub(a: nat, b: nat): nat {
    if a >= b then a - b else 0
  }

  function SatAdd(a: nat, b: nat, max: nat): nat {
    if a + b > max then max else a + b
  }

  /** The identity a session is keyed by: the digest of the peer's public key. */
  type PeerId(==, !new)

  datatype PeerInfo = PeerInfo(host: string, port: nat)

  /** A gossiped address: what arrives in a peer list. */
  datatype TimestampedPeer = TimestampedPeer(host: string, port: nat, timestamp: nat)

  datatype Row = Row(
    peer: PeerInfo,
    timestamp: nat,
    src: PeerInfo,
    randomPos: Option<nat>,
    isTried: bool,
    refCount: nat,
    lastSuccess: nat,
    lastTry: nat,
    numAttempts: nat,
    lastCountAttempt: nat)
  {
    predicate IsTerrible(now: nat) {
      if lastTry > 0 && lastTry >= SatSub(now, 60) then false
      else
        || timestamp > SatAdd(now, 10 * 60, U64_MAX)
        || timestamp == 0
        || SatSub(now, timestamp) > HORIZON_SECS
        || (lastSuccess == 0 && numAttempts >= MAX_RETRIES)
        || (SatSub(now, lastSuccess) > MIN_FAIL_SECS && numAttempts >= MAX_FAILURES)
    }
  }

  type NewBucketIndex = n: nat | n < NEW_BUCKET_COUNT
  type TriedBucketIndex = n: nat | n < TRIED_BUCKET_COUNT
  type SlotIndex = n: nat | n < BUCKET_SIZE

  datatype Cell = Cell(bucket: nat, slot: nat)

  /** Where the secret key sends a peer: the bucket and slot functions, and the private-address test. */
  datatype Placement = Placement(
    key: seq<nat>,
    newBucket: (PeerInfo, PeerInfo) -> NewBucketIndex,
    triedBucket: PeerInfo -> TriedBucketIndex,
    newSlot: (PeerInfo, nat) -> SlotIndex,
    triedSlot: (PeerInfo, nat) -> SlotIndex,
    isPrivate: string -> bool)
  {
    function NewCell(peer: PeerInfo, bucket: nat): Cell {
      Cell(bucket, newSlot(peer, bucket))
    }

    function TriedCell(peer: PeerInfo): Cell {
      Cell(triedBucket(peer), triedSlot(peer, triedBucket(peer)))
    }
  }

  /** What the digest for a slot is taken of: the key, the table, the bucket in three bytes, and the peer. */
  function SlotBytes(key: seq<nat>, peerKey: seq<nat>, isNew: bool, bucket: nat): seq<nat> {
    var ch := if isNew then 'N' as nat else 'K' as nat;
    key + [ch, bucket / 0x1_0000 % 0x100, bucket / 0x100 % 0x100, bucket % 0x100] + peerKey
  }

  /** The library functions placement is computed from. */
  datatype Hashing = Hashing(
    digest: seq<nat> -> nat,           // first 8 bytes of SHA-256, big-endian
    peerKey: PeerInfo -> seq<nat>,     // get_key
    peerGroup: PeerInfo -> seq<nat>)   // get_group
  {
    function TriedBucket(key: seq<nat>, peer: PeerInfo): TriedBucketIndex {
      var hash1 := digest(key + peerKey(peer)) % TRIED_BUCKETS_PER_GROUP;
      digest(key + peerGroup(peer) + [hash1]) % TRIED_BUCKET_COUNT
    }

    function NewBucket(key: seq<nat>, peer: PeerInfo, src: PeerInfo): NewBucketIndex {
      var hash1 := digest(key + peerGroup(peer) + peerGroup(src)) % NEW_BUCKETS_PER_SOURCE_GROUP;
      digest(key + peerGroup(src) + [hash1]) % NEW_BUCKET_COUNT
    }

    function Slot(key: seq<nat>, peer: PeerInfo, isNew: bool, bucket: nat): SlotIndex {
      digest(SlotBytes(key, peerKey(peer), isNew, bucket)) % BUCKET_SIZE
    }

    function Place(key: seq<nat>, isPrivate: string -> bool): Placement {
      Placement(key,
        (peer, src) => NewBucket(key, peer, src),
        peer => TriedBucket(key, peer),
        (peer, bucket) => Slot(key, peer, true, bucket),
        (peer, bucket) => Slot(key, peer, false, bucket),
        isPrivate)
    }
  }
}
