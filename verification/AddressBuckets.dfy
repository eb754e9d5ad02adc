/**
 What bucket placement promises whatever the digest is: sources and peers of one group reach few buckets, and what the
 digest for a slot is taken of tells tables, buckets and peers apart (src/types/peer.rs).
 */
module AddressBuckets {
  import opened Peers
  import opened Sequences

  function Image(f: nat -> nat, n: nat): set<nat> {
    set x | 0 <= x < n :: f(x)
  }

  lemma {:induction false} ImageIsSmall(f: nat -> nat, n: nat)
    ensures |Image(f, n)| <= n
  {
    if n > 0 {
      ImageIsSmall(f, n - 1);
      assert Image(f, n) == Image(f, n - 1) + {f(n - 1)};
    } else {
      assert Image(f, n) == {};
    }
  }

  lemma InImage(f: nat -> nat, n: nat, x: nat)
    requires x < n
    ensures f(x) in Image(f, n)
  {
  }

  function Numbers(n: nat): set<nat> {
    Image(x => x, n)
  }

  lemma Below(n: nat, x: nat)
    requires x < n
    ensures x in Numbers(n)
  {
    InImage(y => y, n, x);
  }

  /** A peer announced by a source of group `g` can be sent to new bucket `b`. */
  ghost predicate ReachesNew(h: Hashing, key: seq<nat>, g: seq<nat>, b: nat) {
    exists peer, src :: h.peerGroup(src) == g && h.NewBucket(key, peer, src) == b
  }

  /** A peer of group `g` can be sent to tried bucket `b`. */
  ghost predicate ReachesTried(h: Hashing, key: seq<nat>, g: seq<nat>, b: nat) {
    exists peer :: h.peerGroup(peer) == g && h.TriedBucket(key, peer) == b
  }

  ghost function NewBucketsOf(h: Hashing, key: seq<nat>, g: seq<nat>): set<nat> {
    set b | b in Numbers(1024) && ReachesNew(h, key, g, b)
  }

  ghost function TriedBucketsOf(h: Hashing, key: seq<nat>, g: seq<nat>): set<nat> {
    set b | b in Numbers(256) && ReachesTried(h, key, g, b)
  }

  /** All that the sources of one group announce fits 64 of the 1024 new buckets: a group cannot reach more of the
      table. */
  lemma SourceGroupReachesFew(h: Hashing, key: seq<nat>, g: seq<nat>)
    ensures |NewBucketsOf(h, key, g)| <= 64
    ensures forall peer, src :: h.peerGroup(src) == g ==> h.NewBucket(key, peer, src) in NewBucketsOf(h, key, g)
  {
    var f := (x: nat) => h.digest(key + g + [x]) % 1024;
    forall b | b in NewBucketsOf(h, key, g) ensures b in Image(f, 64) {
      var peer, src :| h.peerGroup(src) == g && h.NewBucket(key, peer, src) == b;
      NewBucketIs(h, key, peer, src);
      var x: nat := h.digest(key + h.peerGroup(peer) + g) % 64;
      assert f(x) == b;
      InImage(f, 64, x);
    }
    ImageIsSmall(f, 64);
    SubsetCard(NewBucketsOf(h, key, g), Image(f, 64));
    forall peer, src | h.peerGroup(src) == g ensures h.NewBucket(key, peer, src) in NewBucketsOf(h, key, g) {
      assert ReachesNew(h, key, g, h.NewBucket(key, peer, src));
      Below(1024, h.NewBucket(key, peer, src));
    }
  }

  lemma NewBucketIs(h: Hashing, key: seq<nat>, peer: PeerInfo, src: PeerInfo)
    ensures var x: nat := h.digest(key + h.peerGroup(peer) + h.peerGroup(src)) % 64;
      h.NewBucket(key, peer, src) == h.digest(key + h.peerGroup(src) + [x]) % 1024
  {
  }

  /** The peers of one group fit eight of the 256 tried buckets. */
  lemma PeerGroupReachesFew(h: Hashing, key: seq<nat>, g: seq<nat>)
    ensures |TriedBucketsOf(h, key, g)| <= 8
    ensures forall peer :: h.peerGroup(peer) == g ==> h.TriedBucket(key, peer) in TriedBucketsOf(h, key, g)
  {
    var f := (x: nat) => h.digest(key + g + [x]) % 256;
    forall b | b in TriedBucketsOf(h, key, g) ensures b in Image(f, 8) {
      var peer :| h.peerGroup(peer) == g && h.TriedBucket(key, peer) == b;
      TriedBucketIs(h, key, peer);
      var x: nat := h.digest(key + h.peerKey(peer)) % 8;
      assert f(x) == b;
      InImage(f, 8, x);
    }
    ImageIsSmall(f, 8);
    SubsetCard(TriedBucketsOf(h, key, g), Image(f, 8));
    forall peer | h.peerGroup(peer) == g ensures h.TriedBucket(key, peer) in TriedBucketsOf(h, key, g) {
      assert ReachesTried(h, key, g, h.TriedBucket(key, peer));
      Below(256, h.TriedBucket(key, peer));
    }
  }

  lemma TriedBucketIs(h: Hashing, key: seq<nat>, peer: PeerInfo)
    ensures var x: nat := h.digest(key + h.peerKey(peer)) % 8;
      h.TriedBucket(key, peer) == h.digest(key + h.peerGroup(peer) + [x]) % 256
  {
  }

  /** Which new bucket a peer is sent to depends on nothing but its group and its source's. */
  lemma GroupsDecideNewBucket(h: Hashing, key: seq<nat>, p: PeerInfo, q: PeerInfo, src: PeerInfo, other: PeerInfo)
    requires h.peerGroup(p) == h.peerGroup(q) && h.peerGroup(src) == h.peerGroup(other)
    ensures h.NewBucket(key, p, src) == h.NewBucket(key, q, other)
  {
  }

  /** Slots in different tables, in different buckets or for different peers come from digests of different bytes. */
  lemma SlotBytesDiffer(key: seq<nat>, a: seq<nat>, b: seq<nat>, isNew: bool, wasNew: bool, bucket: nat, other: nat)
    requires bucket < 0x100_0000 && other < 0x100_0000
    requires SlotBytes(key, a, isNew, bucket) == SlotBytes(key, b, wasNew, other)
    ensures isNew == wasNew && bucket == other && a == b
  {
    hide SlotBytes;
    SlotBytesAt(key, a, isNew, bucket);
    SlotBytesAt(key, b, wasNew, other);
    ThreeBytes(bucket);
    ThreeBytes(other);
  }

  lemma ThreeBytes(n: nat)
    requires n < 0x100_0000
    ensures n == n / 0x1_0000 % 0x100 * 0x1_0000 + n / 0x100 % 0x100 * 0x100 + n % 0x100
  {
  }

  lemma SlotBytesAt(key: seq<nat>, peerKey: seq<nat>, isNew: bool, bucket: nat)
    ensures var s := SlotBytes(key, peerKey, isNew, bucket); var n := |key|;
      && |s| == n + 4 + |peerKey| && s[n + 4..] == peerKey
      && s[n] == (if isNew then 78 else 75)
      && s[n + 1] == bucket / 0x1_0000 % 0x100 && s[n + 2] == bucket / 0x100 % 0x100 && s[n + 3] == bucket % 0x100
  {
  }
}
