/** Where each field of an encoding lies, byte for byte: the layouts other implementations have to agree with. */
module WireFormat {
  import opened Wrappers
  import opened Codecs

  lemma {:induction false} BigEndianDigit(n: nat, width: nat, i: nat)
    requires i < width
    ensures ToBe(n, width)[i] == n / Pow256(width - 1 - i) % 256
  {
    if i < width - 1 {
      BigEndianDigit(n / 256, width - 1, i);
      DividedTwice(n, Pow256(width - 2 - i));
    }
  }

  lemma DividedTwice(n: nat, p: nat)
    requires p >= 1
    ensures n / 256 / p == n / (256 * p)
  {
    var q, r := n / 256, n % 256;
    var a, b := q / p, q % p;
    assert n == 256 * q + r && q == p * a + b;
    assert 256 * q == 256 * p * a + 256 * b;
    assert n == (256 * p) * a + (256 * b + r);
    assert 256 * b + r < 256 * p;
    Quotient(n, 256 * p, a, 256 * b + r);
  }

  lemma Quotient(n: nat, d: nat, a: nat, r: nat)
    requires d >= 1 && n == d * a + r && r < d
    ensures n / d == a
  {
    var e, m := n / d, n % d;
    assert d * e + m == n;
    Distributes(d, a, e);
    SmallMultiple(d, a - e, m - r);
  }

  lemma Distributes(d: int, a: int, e: int)
    ensures d * (a - e) == d * a - d * e
  {
  }

  lemma SmallMultiple(d: int, k: int, x: int)
    requires d * k == x && -d < x < d
    ensures k == 0
  {
    if k >= 1 {
      AtLeast(d, k);
    } else if k <= -1 {
      AtLeast(d, -k);
    }
  }

  lemma AtLeast(d: int, k: int)
    requires k >= 1 && d >= 0
    ensures d * k >= d
  {
  }

  /** Store, count in two bytes, then 32 bytes for each id, and nothing else. */
  lemma AnnounceLayout(a: Announce, i: nat)
    requires i < |a.launcherIds| < 0x1_0000
    ensures var s := EncodeAnnounce(a); var n := |a.launcherIds|;
      && |s| == 34 + 32 * n
      && s[0..32] == a.storeId
      && s[32] == n / 256 && s[33] == n % 256
      && s[34 + 32 * i..66 + 32 * i] == a.launcherIds[i]
  {
    hide ToBe, Concat, EncodeAnnounce;
    TwoBytes(|a.launcherIds|);
    ConcatAt(a.launcherIds, i);
    AnnounceParts(a);
    Within(EncodeAnnounce(a), Concat(a.launcherIds), i);
  }

  lemma AnnounceParts(a: Announce)
    requires |a.launcherIds| < 0x1_0000
    ensures var s := EncodeAnnounce(a);
      && s[0..32] == a.storeId && s[34..] == Concat(a.launcherIds)
      && s[32] == ToBe(|a.launcherIds|, 2)[0] && s[33] == ToBe(|a.launcherIds|, 2)[1]
  {
    hide ToBe, Concat;
    var s := EncodeAnnounce(a);
    assert s[32..34] == ToBe(|a.launcherIds|, 2);
    assert s[32] == s[32..34][0] && s[33] == s[32..34][1];
  }

  lemma Within(s: Bytes, tail: Bytes, i: nat)
    requires |s| >= 34 && s[34..] == tail && 32 * i + 32 <= |tail|
    ensures s[34 + 32 * i..66 + 32 * i] == tail[32 * i..32 * i + 32]
  {
  }

  lemma TwoBytes(n: nat)
    requires n < 0x1_0000
    ensures ToBe(n, 2)[0] == n / 256 && ToBe(n, 2)[1] == n % 256
  {
    assert ToBe(n, 2) == ToBe(n / 256, 1) + [n % 256];
    assert ToBe(n / 256, 1) == ToBe(n / 256 / 256, 0) + [n / 256 % 256];
  }

  lemma {:induction false} ConcatAt(ids: seq<Bytes32>, i: nat)
    requires i < |ids|
    ensures Concat(ids)[32 * i..32 * i + 32] == ids[i]
  {
    var n := |ids| - 1;
    assert Concat(ids) == Concat(ids[..n]) + ids[n];
    if i < n {
      ConcatAt(ids[..n], i);
      assert Concat(ids)[32 * i..32 * i + 32] == Concat(ids[..n])[32 * i..32 * i + 32];
    }
  }

  /** Store and root, 32 bytes each. */
  lemma RootRefLayout(r: ProfileRootRef)
    ensures var s := EncodeRootRef(r); |s| == 64 && s[0..32] == r.storeId && s[32..64] == r.root
  {
  }

  /** Store, root, the body's length in four bytes, and the body. */
  lemma BodyLayout(v: ProfileBody, i: nat)
    requires i < 4 && |v.body| < 0x1_0000_0000
    ensures var s := EncodeBody(v);
      && |s| == 68 + |v.body| && s[0..32] == v.storeId && s[32..64] == v.root && s[68..] == v.body
      && s[64 + i] == |v.body| / Pow256(3 - i) % 256
  {
    hide ToBe, Pow256;
    BodyParts(v);
    BigEndianDigit(|v.body|, 4, i);
    assert EncodeBody(v)[64 + i] == EncodeBody(v)[64..68][i];
  }

  /** One byte for the kind (0 opens, 1 is data, 2 closes), eight for the stream, and for data eight for the sequence
      number and the payload. */
  lemma FrameLayout(f: StreamFrame, i: nat)
    requires i < 8
    ensures var s := EncodeFrame(f);
      && |s| == (if f.Data? then 17 + |f.payload| else 9)
      && s[0] == (match f case Open(_) => 0 case Data(_, _, _) => 1 case Close(_) => 2)
      && s[1 + i] == f.streamId / Pow256(7 - i) % 256
      && (f.Data? ==> s[9 + i] == f.sq / Pow256(7 - i) % 256 && s[17..] == f.payload)
  {
    hide ToBe, Pow256;
    BigEndianDigit(f.streamId, 8, i);
    assert EncodeFrame(f)[1 + i] == ToBe(f.streamId, 8)[i];
    if f.Data? {
      BigEndianDigit(f.sq, 8, i);
      assert EncodeFrame(f)[9 + i] == ToBe(f.sq, 8)[i];
    }
  }
}
