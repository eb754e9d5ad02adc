/**
 The binary codecs of the DIG band: distributor announcements (src/service/distributor_announce.rs), profile roots and
 bodies (src/service/profile_sync.rs) and stream frames (src/service/dig_message.rs).
 */
module Codecs {
  import opened Wrappers

  type Byte = b: nat | b < 256

  type Bytes = seq<Byte>

  type Bytes32 = s: Bytes | |s| == 32 witness seq(32, _ => 0)

  // ---- big-endian integers -------------------------------------------------------------------

  function Pow256(n: nat): (p: nat)
    ensures p >= 1
  {
    if n == 0 then 1 else 256 * Pow256(n - 1)
  }

  function ToBe(n: nat, width: nat): (s: Bytes)
    ensures |s| == width
  {
    if width == 0 then [] else ToBe(n / 256, width - 1) + [n % 256]
  }

  function FromBe(s: Bytes): nat {
    if s == [] then 0 else FromBe(s[..|s| - 1]) * 256 + s[|s| - 1]
  }

  lemma {:induction false} BeRoundTrip(n: nat, width: nat)
    requires n < Pow256(width)
    ensures FromBe(ToBe(n, width)) == n
  {
    if width != 0 {
      BeRoundTrip(n / 256, width - 1);
      assert ToBe(n, width)[..width - 1] == ToBe(n / 256, width - 1);
    }
  }

  lemma {:induction false} BeInverse(s: Bytes)
    ensures ToBe(FromBe(s), |s|) == s && FromBe(s) < Pow256(|s|)
  {
    if s != [] {
      var n := |s| - 1;
      BeInverse(s[..n]);
      assert s == s[..n] + [s[n]];
    }
  }

  lemma Widths()
    ensures Pow256(2) == 0x1_0000 && Pow256(4) == 0x1_0000_0000 && Pow256(8) == 0x1_0000_0000_0000_0000
  {
    assert Pow256(4) == 256 * (256 * (256 * (256 * Pow256(0))));
    assert Pow256(8) == 256 * (256 * (256 * (256 * Pow256(4))));
  }

  function Take(bytes: Bytes, from: nat, n: nat): (r: Option<Bytes>)
    ensures r.Some? <==> from + n <= |bytes|
    ensures r.Some? ==> |r.value| == n
  {
    if from + n <= |bytes| then Some(bytes[from..from + n]) else None
  }

  // ---- distributor announcements -------------------------------------------------------------

  const MAX_LAUNCHER_IDS: nat := 32

  datatype Announce = Announce(storeId: Bytes32, launcherIds: seq<Bytes32>)

  function Concat(ids: seq<Bytes32>): (s: Bytes)
    ensures |s| == 32 * |ids|
  {
    if ids == [] then [] else Concat(ids[..|ids| - 1]) + ids[|ids| - 1]
  }

  /** The count is cast to 16 bits. */
  function EncodeAnnounce(a: Announce): (s: Bytes)
    ensures |s| == 34 + 32 * |a.launcherIds|
  {
    a.storeId + ToBe(|a.launcherIds| % 0x1_0000, 2) + Concat(a.launcherIds)
  }

  lemma {:induction false} ConcatInjective(a: seq<Bytes32>, b: seq<Bytes32>)
    requires Concat(a) == Concat(b)
    ensures a == b
  {
    if a != [] {
      var n := |a| - 1;
      var x, y := Concat(a[..n]), Concat(b[..n]);
      assert Concat(a) == x + a[n] && Concat(b) == y + b[n];
      assert x == Concat(a)[..32 * n] && y == Concat(b)[..32 * n];
      assert a[n] == Concat(a)[32 * n..] && b[n] == Concat(b)[32 * n..];
      ConcatInjective(a[..n], b[..n]);
      assert a == a[..n] + [a[n]] && b == b[..n] + [b[n]];
    }
  }

  /** Different announcements never share an encoding, whatever their size. */
  lemma AnnounceInjective(a: Announce, b: Announce)
    requires EncodeAnnounce(a) == EncodeAnnounce(b)
    ensures a == b
  {
    var s, t := EncodeAnnounce(a), EncodeAnnounce(b);
    assert s[..32] == a.storeId && t[..32] == b.storeId;
    assert s[34..] == Concat(a.launcherIds) && t[34..] == Concat(b.launcherIds);
    ConcatInjective(a.launcherIds, b.launcherIds);
  }

  /** Decoding succeeds with `a` exactly on the encoding of an `a` of at most 32 ids. */
  method DecodeAnnounce(bytes: Bytes) returns (r: Option<Announce>)
    ensures r.Some? ==> |r.value.launcherIds| <= 32 && bytes == EncodeAnnounce(r.value)
    ensures r.None? ==> forall a :: bytes == EncodeAnnounce(a) ==> |a.launcherIds| > 32
  {
    hide ToBe, FromBe, Pow256;
    Widths();
    var store := Take(bytes, 0, 32);
    if store.None? { return None; }
    var counted := Take(bytes, 32, 2);
    if counted.None? { return None; }
    var count := FromBe(counted.value);
    BeInverse(counted.value);
    forall a | bytes == EncodeAnnounce(a) && |a.launcherIds| <= MAX_LAUNCHER_IDS ensures |a.launcherIds| == count {
      CountOf(bytes, a);
    }
    if count > MAX_LAUNCHER_IDS { return None; }
    var pos := 34;
    var ids: seq<Bytes32> := [];
    var i := 0;
    while i < count
      invariant i <= count && |ids| == i && pos == 34 + 32 * i && pos <= |bytes|
      invariant Concat(ids) == bytes[34..pos]
    {
      var id := Take(bytes, pos, 32);
      if id.None? { return None; }
      assert (ids + [id.value])[..i] == ids;
      assert bytes[34..pos + 32] == bytes[34..pos] + bytes[pos..pos + 32];
      ids := ids + [id.value];
      pos := pos + 32;
      i := i + 1;
    }
    if pos != |bytes| { return None; }
    assert bytes == bytes[..32] + bytes[32..34] + bytes[34..];
    assert bytes[0..32] == bytes[..32] && bytes[34..pos] == bytes[34..];
    r := Some(Announce(store.value, ids));
  }

  lemma CountOf(bytes: Bytes, a: Announce)
    requires bytes == EncodeAnnounce(a) && |a.launcherIds| <= MAX_LAUNCHER_IDS
    ensures FromBe(bytes[32..34]) == |a.launcherIds|
  {
    Widths();
    assert bytes[32..34] == ToBe(|a.launcherIds|, 2);
    BeRoundTrip(|a.launcherIds|, 2);
  }

  // ---- profile roots -------------------------------------------------------------------------

  datatype ProfileRootRef = ProfileRootRef(storeId: Bytes32, root: Bytes32)

  function EncodeRootRef(r: ProfileRootRef): Bytes {
    r.storeId + r.root
  }

  function DecodeRootRef(bytes: Bytes): Option<ProfileRootRef> {
    if |bytes| != 64 then None else Some(ProfileRootRef(bytes[0..32], bytes[32..64]))
  }

  /** On all byte strings: decoding gives `r` exactly on the encoding of `r`. */
  lemma RootRefExact(bytes: Bytes, r: ProfileRootRef)
    ensures DecodeRootRef(bytes) == Some(r) <==> bytes == EncodeRootRef(r)
  {
    if |bytes| == 64 { assert bytes == bytes[0..32] + bytes[32..64]; }
    if bytes == EncodeRootRef(r) { assert bytes[0..32] == r.storeId && bytes[32..64] == r.root; }
  }

  // ---- profile bodies --------------------------------------------------------------------------

  const MAX_PROFILE_BODY_FRAME_BYTES: nat := 1024 * 1024
  const BODY_FRAME_HEADER_LEN: nat := 68
  const PROFILE_BODY: nat := 225

  datatype ProfileBody = ProfileBody(storeId: Bytes32, root: Bytes32, body: Bytes)
  {
    predicate FitsFrameCap() {
      BODY_FRAME_HEADER_LEN + |body| <= MAX_PROFILE_BODY_FRAME_BYTES
    }
  }

  /** The length is cast to 32 bits. */
  function EncodeBody(v: ProfileBody): (s: Bytes)
    ensures |s| == BODY_FRAME_HEADER_LEN + |v.body|
  {
    v.storeId + v.root + ToBe(|v.body| % 0x1_0000_0000, 4) + v.body
  }

  function DecodeBody(bytes: Bytes): Option<ProfileBody> {
    if |bytes| > MAX_PROFILE_BODY_FRAME_BYTES then None
    else if |bytes| < BODY_FRAME_HEADER_LEN then None
    else if FromBe(bytes[64..68]) != |bytes| - BODY_FRAME_HEADER_LEN then None
    else Some(ProfileBody(bytes[0..32], bytes[32..64], bytes[68..]))
  }

  lemma BodyParts(v: ProfileBody)
    ensures var s := EncodeBody(v);
      s[0..32] == v.storeId && s[32..64] == v.root && s[64..68] == ToBe(|v.body| % 0x1_0000_0000, 4) && s[68..] == v.body
  {
  }

  /** Decoding gives `v` exactly on the encoding of a `v` that fits a frame. */
  lemma BodyExact(bytes: Bytes, v: ProfileBody)
    ensures DecodeBody(bytes) == Some(v) <==> 68 + |v.body| <= 1024 * 1024 && bytes == EncodeBody(v)
  {
    hide DecodeBody, EncodeBody;
    if DecodeBody(bytes) == Some(v) { DecodedBody(bytes, v); }
    if v.FitsFrameCap() && bytes == EncodeBody(v) { EncodedBody(v); }
  }

  lemma EncodedBody(v: ProfileBody)
    requires v.FitsFrameCap()
    ensures DecodeBody(EncodeBody(v)) == Some(v)
  {
    hide EncodeBody, ToBe, FromBe, Pow256;
    Widths();
    BodyParts(v);
    BeRoundTrip(|v.body|, 4);
  }

  lemma DecodedBody(bytes: Bytes, v: ProfileBody)
    requires DecodeBody(bytes) == Some(v)
    ensures v.FitsFrameCap() && bytes == EncodeBody(v)
  {
    hide ToBe, FromBe;
    BeInverse(bytes[64..68]);
    assert bytes == bytes[0..32] + bytes[32..64] + bytes[64..68] + bytes[68..];
  }

  datatype Message = Message(msgType: nat, data: Bytes)

  function FrameBody(v: ProfileBody): Option<Message> {
    if !v.FitsFrameCap() then None else Some(Message(PROFILE_BODY, EncodeBody(v)))
  }

  function BodyPayload(m: Message): Option<ProfileBody> {
    if m.msgType == PROFILE_BODY then DecodeBody(m.data) else None
  }

  /** A body is either refused by the sender or understood by every receiver. */
  lemma FramedBodiesArrive(v: ProfileBody)
    ensures FrameBody(v).Some? <==> DecodeBody(EncodeBody(v)) == Some(v)
    ensures FrameBody(v).Some? ==> BodyPayload(FrameBody(v).value) == Some(v)
  {
    BodyExact(EncodeBody(v), v);
  }

  // ---- stream frames ---------------------------------------------------------------------------

  type U64 = n: nat | n < 0x1_0000_0000_0000_0000

  datatype StreamFrame = Open(streamId: U64) | Data(streamId: U64, sq: U64, payload: Bytes) | Close(streamId: U64)

  const OPEN: Byte := 0
  const DATA: Byte := 1
  const CLOSE: Byte := 2

  function EncodeFrame(f: StreamFrame): Bytes {
    match f
    case Open(id) => [OPEN] + ToBe(id, 8)
    case Close(id) => [CLOSE] + ToBe(id, 8)
    case Data(id, sq, payload) => [DATA] + ToBe(id, 8) + ToBe(sq, 8) + payload
  }

  function ReadU64(bytes: Bytes): Option<U64> {
    if |bytes| < 8 then None
    else
      BeInverse(bytes[..8]);
      Widths();
      Some(FromBe(bytes[..8]))
  }

  function DecodeFrame(bytes: Bytes): Option<StreamFrame> {
    if bytes == [] then None
    else
      var rest := bytes[1..];
      if bytes[0] == OPEN then (match ReadU64(rest) case Some(id) => Some(Open(id)) case None => None)
      else if bytes[0] == CLOSE then (match ReadU64(rest) case Some(id) => Some(Close(id)) case None => None)
      else if bytes[0] == DATA then
        if |rest| < 16 then None
        else match (ReadU64(rest[..8]), ReadU64(rest[8..16]))
          case (Some(id), Some(sq)) => Some(Data(id, sq, rest[16..]))
          case _ => None
      else None
  }

  lemma ReadsBack(n: U64, tail: Bytes)
    ensures ReadU64(ToBe(n, 8) + tail) == Some(n)
  {
    Widths();
    BeRoundTrip(n, 8);
    assert (ToBe(n, 8) + tail)[..8] == ToBe(n, 8);
  }

  lemma ReadOnly(bytes: Bytes, n: U64)
    requires ReadU64(bytes) == Some(n)
    ensures |bytes| >= 8 && bytes[..8] == ToBe(n, 8)
  {
    BeInverse(bytes[..8]);
  }

  /** On all byte strings, decoding gives `f` exactly on its encoding; after an open or a close any bytes may
      follow and are ignored. */
  lemma FrameExact(bytes: Bytes, f: StreamFrame)
    ensures DecodeFrame(bytes) == Some(f) <==>
      if f.Data? then bytes == EncodeFrame(f) else EncodeFrame(f) <= bytes
  {
    hide DecodeFrame, EncodeFrame;
    if DecodeFrame(bytes) == Some(f) { DecodedIsEncoded(bytes, f); }
    if f.Data? {
      if bytes == EncodeFrame(f) { DataReadsBack(f); }
    } else if EncodeFrame(f) <= bytes {
      MarkReadsBack(bytes, f);
    }
  }

  lemma MarkReadsBack(bytes: Bytes, f: StreamFrame)
    requires !f.Data? && EncodeFrame(f) <= bytes
    ensures DecodeFrame(bytes) == Some(f)
  {
    hide ReadU64, ToBe;
    var tail := bytes[9..];
    assert bytes == EncodeFrame(f) + tail;
    assert bytes[1..] == ToBe(f.streamId, 8) + tail;
    ReadsBack(f.streamId, tail);
  }

  lemma DataReadsBack(f: StreamFrame)
    requires f.Data?
    ensures DecodeFrame(EncodeFrame(f)) == Some(f)
  {
    var rest := EncodeFrame(f)[1..];
    assert rest == ToBe(f.streamId, 8) + ToBe(f.sq, 8) + f.payload;
    assert rest[..8] == ToBe(f.streamId, 8) + [] && rest[8..16] == ToBe(f.sq, 8) + [];
    ReadsBack(f.streamId, []);
    ReadsBack(f.sq, []);
    assert rest[16..] == f.payload;
  }

  lemma DecodedIsEncoded(bytes: Bytes, f: StreamFrame)
    requires DecodeFrame(bytes) == Some(f)
    ensures EncodeFrame(f) <= bytes && (f.Data? ==> bytes == EncodeFrame(f))
  {
    hide ReadU64, ToBe;
    var rest := bytes[1..];
    assert bytes == [bytes[0]] + rest;
    if f.Data? {
      DataParts(rest, f.streamId, f.sq);
      assert bytes == [DATA] + ToBe(f.streamId, 8) + ToBe(f.sq, 8) + f.payload;
    } else {
      ReadOnly(rest, f.streamId);
      assert rest == rest[..8] + rest[8..];
      assert bytes == [bytes[0]] + ToBe(f.streamId, 8) + rest[8..];
    }
  }

  lemma DataParts(rest: Bytes, id: U64, sq: U64)
    requires |rest| >= 16 && ReadU64(rest[..8]) == Some(id) && ReadU64(rest[8..16]) == Some(sq)
    ensures rest == ToBe(id, 8) + ToBe(sq, 8) + rest[16..]
  {
    hide ReadU64, ToBe;
    ReadOnly(rest[..8], id);
    ReadOnly(rest[8..16], sq);
    assert rest[..8][..8] == rest[..8] && rest[8..16][..8] == rest[8..16];
    assert rest == rest[..8] + rest[8..16] + rest[16..];
  }
}
