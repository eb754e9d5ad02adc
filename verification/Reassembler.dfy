/** In-order delivery of a stream's chunks out of a bounded buffer (StreamReassembler, src/service/dig_message.rs). */
module Reassembler {
  import opened Wrappers
  import opened Peers

  type Payload = seq<nat>

  datatype ReassembleError = TooManyChunks(limit: nat) | TooManyBytes(limit: nat)

  type ByteCap = n: nat | n <= U64_MAX

  datatype State = State(nextSeq: nat, buffered: map<nat, Payload>, bufferedBytes: nat, maxChunks: nat, maxBytes: ByteCap)

  function Empty(maxChunks: nat, maxBytes: ByteCap): State {
    State(0, map[], 0, maxChunks, maxBytes)
  }

  /** Release the chunk at `nextSeq`. */
  function Release(s: State): State
    requires s.nextSeq in s.buffered
  {
    s.(nextSeq := s.nextSeq + 1,
       buffered := s.buffered - {s.nextSeq},
       bufferedBytes := SatSub(s.bufferedBytes, |s.buffered[s.nextSeq]|))
  }

  /** Take the contiguous run at `nextSeq` out of the buffer. */
  function Drain(s: State): (State, seq<Payload>)
    decreases |s.buffered|
  {
    if s.nextSeq !in s.buffered then (s, [])
    else
      Shrinks(s.buffered, s.nextSeq);
      var (t, rest) := Drain(Release(s));
      (t, [s.buffered[s.nextSeq]] + rest)
  }

  lemma DrainUnfold(s: State)
    ensures s.nextSeq !in s.buffered ==> Drain(s) == (s, [])
    ensures s.nextSeq in s.buffered ==>
      Drain(s) == (Drain(Release(s)).0, [s.buffered[s.nextSeq]] + Drain(Release(s)).1)
  {
  }

  lemma Shrinks(m: map<nat, Payload>, k: nat)
    requires k in m
    ensures |m - {k}| == |m| - 1
  {
    assert (m - {k}).Keys == m.Keys - {k};
  }

  function AcceptChunk(s: State, sq: nat, payload: Payload): (State, Result<seq<Payload>, ReassembleError>) {
    if sq < s.nextSeq || sq in s.buffered then (s, Ok([]))
    else if sq > s.nextSeq && |s.buffered| >= s.maxChunks then (s, Err(TooManyChunks(s.maxChunks)))
    else if sq > s.nextSeq && SatAdd(s.bufferedBytes, |payload|, U64_MAX) > s.maxBytes then
      (s, Err(TooManyBytes(s.maxBytes)))
    else
      var (t, ready) := Drain(s.(buffered := s.buffered[sq := payload], bufferedBytes := s.bufferedBytes + |payload|));
      (t, Ok(ready))
  }

  // ---- the sum of the buffered lengths -------------------------------------------------------

  ghost function Total(m: map<nat, Payload>): nat
    decreases |m|
  {
    if m == map[] then 0
    else
      var k :| k in m;
      Shrinks(m, k);
      |m[k]| + Total(m - {k})
  }

  lemma {:induction false} TotalWithout(m: map<nat, Payload>, k: nat)
    requires k in m
    ensures Total(m) == |m[k]| + Total(m - {k})
    decreases |m|
  {
    var j :| j in m && Total(m) == |m[j]| + Total(m - {j});
    if j != k {
      Shrinks(m, j);
      Shrinks(m, k);
      TotalWithout(m - {j}, k);
      TotalWithout(m - {k}, j);
      assert m - {j} - {k} == m - {k} - {j};
    }
  }

  lemma TotalWith(m: map<nat, Payload>, k: nat, p: Payload)
    requires k !in m
    ensures Total(m[k := p]) == Total(m) + |p|
  {
    TotalWithout(m[k := p], k);
    assert m[k := p] - {k} == m;
  }

  // ---- runs ----------------------------------------------------------------------------------

  datatype Call = Call(sq: nat, payload: Payload)

  function Deliver(s: State, c: Call): (State, seq<Payload>) {
    var (t, r) := AcceptChunk(s, c.sq, c.payload);
    (t, if r.Ok? then r.value else [])
  }

  predicate Accepted(s: State, c: Call) {
    AcceptChunk(s, c.sq, c.payload).1.Ok?
  }

  function Run(s: State, calls: seq<Call>): (State, seq<Payload>) {
    if calls == [] then (s, [])
    else
      var (t, out) := Run(s, calls[..|calls| - 1]);
      var (u, more) := Deliver(t, calls[|calls| - 1]);
      (u, out + more)
  }

  /** The first payload accepted for each sequence number. */
  function FirstAccepted(s: State, calls: seq<Call>): map<nat, Payload> {
    if calls == [] then map[]
    else
      var before := FirstAccepted(s, calls[..|calls| - 1]);
      var c := calls[|calls| - 1];
      if c.sq in before || !Accepted(Run(s, calls[..|calls| - 1]).0, c) then before else before[c.sq := c.payload]
  }

  /** The run of payloads 0, 1, ... up to the first number without one, from `i` on. */
  ghost predicate IsPrefix(out: seq<Payload>, m: map<nat, Payload>) {
    && (forall i :: 0 <= i < |out| ==> i in m && out[i] == m[i])
    && |out| !in m
  }

  /** `n` bytes are within the cap.  The saturating sum never exceeds the largest cap, which refuses nothing. */
  predicate Fits(cap: ByteCap, n: int) {
    cap < U64_MAX ==> n <= cap
  }

  /** What has been delivered and what is buffered are together exactly what was accepted. */
  ghost predicate Inv(s: State, out: seq<Payload>, m: map<nat, Payload>) {
    && s.nextSeq == |out|
    && IsPrefix(out, m)
    && (forall k :: k in s.buffered <==> k in m && k >= |out|)
    && (forall k :: k in s.buffered ==> s.buffered[k] == m[k])
    && s.bufferedBytes == Total(s.buffered)
    && |s.buffered| <= s.maxChunks && Fits(s.maxBytes, s.bufferedBytes)
  }

  /** The invariant in the middle of a drain. */
  ghost predicate Draining(s: State, out: seq<Payload>, m: map<nat, Payload>) {
    && s.nextSeq == |out|
    && (forall i :: 0 <= i < |out| ==> i in m && out[i] == m[i])
    && (forall k :: k in s.buffered <==> k in m && k >= |out|)
    && (forall k :: k in s.buffered ==> s.buffered[k] == m[k])
    && s.bufferedBytes == Total(s.buffered)
    && (if s.nextSeq in s.buffered
        then |s.buffered| <= s.maxChunks + 1 && Fits(s.maxBytes, s.bufferedBytes - |s.buffered[s.nextSeq]|)
        else |s.buffered| <= s.maxChunks && Fits(s.maxBytes, s.bufferedBytes))
  }

  lemma ReleaseKeeps(s: State, out: seq<Payload>, m: map<nat, Payload>)
    requires Draining(s, out, m) && s.nextSeq in s.buffered
    ensures Draining(Release(s), out + [s.buffered[s.nextSeq]], m)
  {
    Shrinks(s.buffered, s.nextSeq);
    TotalWithout(s.buffered, s.nextSeq);
  }

  lemma {:induction false} DrainKeeps(s: State, out: seq<Payload>, m: map<nat, Payload>)
    requires Draining(s, out, m)
    ensures Inv(Drain(s).0, out + Drain(s).1, m)
    ensures Drain(s).0.maxChunks == s.maxChunks && Drain(s).0.maxBytes == s.maxBytes
    decreases |s.buffered|
  {
    hide Draining, Inv;
    if s.nextSeq in s.buffered {
      var chunk := s.buffered[s.nextSeq];
      Shrinks(s.buffered, s.nextSeq);
      ReleaseKeeps(s, out, m);
      DrainKeeps(Release(s), out + [chunk], m);
      assert out + Drain(s).1 == (out + [chunk]) + Drain(Release(s)).1;
    } else {
      assert out + [] == out;
      DrainedIs(s, out, m);
    }
  }

  lemma DrainedIs(s: State, out: seq<Payload>, m: map<nat, Payload>)
    requires Draining(s, out, m) && s.nextSeq !in s.buffered
    ensures Inv(s, out, m)
  {
  }

  lemma DeliverKeeps(s: State, out: seq<Payload>, m: map<nat, Payload>, c: Call)
    requires Inv(s, out, m)
    ensures var (t, more) := Deliver(s, c);
      && t.maxChunks == s.maxChunks && t.maxBytes == s.maxBytes
      && Inv(t, out + more, if c.sq in m || !Accepted(s, c) then m else m[c.sq := c.payload])
    ensures !Accepted(s, c) ==> Deliver(s, c) == (s, [])
  {
    hide Drain, Inv, Draining, Total;
    assert out + [] == out;
    InvBasics(s, out, m);
    if !(c.sq < s.nextSeq || c.sq in s.buffered) && Accepted(s, c) {
      BufferKeeps(s, out, m, c);
      DrainKeeps(s.(buffered := s.buffered[c.sq := c.payload], bufferedBytes := s.bufferedBytes + |c.payload|), out,
        m[c.sq := c.payload]);
    }
  }

  lemma InvBasics(s: State, out: seq<Payload>, m: map<nat, Payload>)
    requires Inv(s, out, m)
    ensures s.nextSeq == |out| && (forall k :: 0 <= k < s.nextSeq ==> k in m) && forall k :: k in s.buffered ==> k in m
  {
  }

  lemma BufferKeeps(s: State, out: seq<Payload>, m: map<nat, Payload>, c: Call)
    requires Inv(s, out, m) && c.sq >= s.nextSeq && c.sq !in s.buffered && Accepted(s, c)
    ensures c.sq !in m
    ensures Draining(s.(buffered := s.buffered[c.sq := c.payload], bufferedBytes := s.bufferedBytes + |c.payload|), out,
      m[c.sq := c.payload])
  {
    hide Drain, Total;
    TotalWith(s.buffered, c.sq, c.payload);
    assert s.buffered[c.sq := c.payload].Keys == s.buffered.Keys + {c.sq};
  }

  /** Over any calls the output is the longest gap-free run of first-accepted payloads, each once and in
      order; the buffer stays within both caps and its byte count is exact. */
  lemma {:induction false} RunRefinesPrefix(maxChunks: nat, maxBytes: ByteCap, calls: seq<Call>)
    ensures var s := Empty(maxChunks, maxBytes); var (t, out) := Run(s, calls);
      t.maxChunks == maxChunks && t.maxBytes == maxBytes && Inv(t, out, FirstAccepted(s, calls))
  {
    var s := Empty(maxChunks, maxBytes);
    if calls == [] {
      assert Inv(s, [], map[]);
    } else {
      var before := calls[..|calls| - 1];
      RunRefinesPrefix(maxChunks, maxBytes, before);
      var (t, out) := Run(s, before);
      DeliverKeeps(t, out, FirstAccepted(s, before), calls[|calls| - 1]);
    }
  }

  /** `nextSeq` is the least sequence number not accepted yet. */
  lemma NextIsLeastMissing(maxChunks: nat, maxBytes: ByteCap, calls: seq<Call>)
    ensures var s := Empty(maxChunks, maxBytes); var n := Run(s, calls).0.nextSeq;
      n !in FirstAccepted(s, calls) && forall k :: 0 <= k < n ==> k in FirstAccepted(s, calls)
  {
    RunRefinesPrefix(maxChunks, maxBytes, calls);
  }

  // ---- which chunks are refused ----------------------------------------------------------------

  /** The chunks accepted ahead of their turn, when `n` is the least number not accepted. */
  ghost function Ahead(m: map<nat, Payload>, n: nat): map<nat, Payload> {
    map k | k in m && k > n :: m[k]
  }

  /** Over any calls, when `n` is the least number not accepted: a further chunk is refused exactly if its number is
      above `n` and not accepted yet, and either `maxChunks` chunks are waiting ahead of their turn or its bytes and
      theirs exceed `maxBytes`.  The largest byte cap refuses nothing. */
  lemma RefusedExactly(maxChunks: nat, maxBytes: ByteCap, calls: seq<Call>, n: nat, sq: nat, payload: Payload)
    requires var m := FirstAccepted(Empty(maxChunks, maxBytes), calls); n !in m && forall k :: 0 <= k < n ==> k in m
    ensures var s := Empty(maxChunks, maxBytes); var m := FirstAccepted(s, calls);
      var r := AcceptChunk(Run(s, calls).0, sq, payload).1;
      var early := sq > n && sq !in m;
      && (r == Err(TooManyChunks(maxChunks)) <==> early && |Ahead(m, n)| >= maxChunks)
      && (r == Err(TooManyBytes(maxBytes)) <==>
          early && |Ahead(m, n)| < maxChunks && maxBytes < U64_MAX && Total(Ahead(m, n)) + |payload| > maxBytes)
      && (r.Err? ==> r == Err(TooManyChunks(maxChunks)) || r == Err(TooManyBytes(maxBytes)))
  {
    hide Run, FirstAccepted, Total, Drain;
    var s := Empty(maxChunks, maxBytes);
    var m := FirstAccepted(s, calls);
    var t := Run(s, calls).0;
    RunRefinesPrefix(maxChunks, maxBytes, calls);
    NextIsLeastMissing(maxChunks, maxBytes, calls);
    assert t.nextSeq == n;
    assert t.buffered == Ahead(m, n);
  }

  // ---- order independence ----------------------------------------------------------------------

  ghost predicate ErrorFree(s: State, calls: seq<Call>)
    decreases |calls|
  {
    calls == [] ||
    (ErrorFree(s, calls[..|calls| - 1]) && Accepted(Run(s, calls[..|calls| - 1]).0, calls[|calls| - 1]))
  }

  /** A sequence number always comes with the same payload. */
  ghost predicate Consistent(calls: seq<Call>) {
    forall i, j :: 0 <= i < |calls| && 0 <= j < |calls| && calls[i].sq == calls[j].sq ==> calls[i] == calls[j]
  }

  lemma {:induction false} FirstAcceptedIsAll(s: State, calls: seq<Call>, k: nat)
    requires ErrorFree(s, calls) && Consistent(calls)
    ensures k in FirstAccepted(s, calls) <==> exists c :: c in calls && c.sq == k
    ensures k in FirstAccepted(s, calls) ==> Call(k, FirstAccepted(s, calls)[k]) in calls
  {
    if calls != [] {
      var n := |calls| - 1;
      var before := calls[..n];
      assert calls == before + [calls[n]];
      FirstAcceptedIsAll(s, before, k);
      if k in FirstAccepted(s, before) {
        var c :| c in before && c.sq == k;
        assert c in calls;
      } else if calls[n].sq == k {
        if k in FirstAccepted(s, calls) { assert calls[n] in calls; }
      }
    }
  }

  lemma {:induction false} SamePrefix(a: seq<Payload>, b: seq<Payload>, m: map<nat, Payload>)
    requires IsPrefix(a, m) && IsPrefix(b, m)
    ensures a == b
  {
  }

  /** Any two orders of arrival of the same chunks that meet no cap deliver the same bytes. */
  lemma OrderIndependent(maxChunks: nat, maxBytes: ByteCap, calls1: seq<Call>, calls2: seq<Call>)
    requires var s := Empty(maxChunks, maxBytes); ErrorFree(s, calls1) && ErrorFree(s, calls2)
    requires Consistent(calls1) && forall c :: c in calls1 <==> c in calls2
    ensures var s := Empty(maxChunks, maxBytes);
      Run(s, calls1).1 == Run(s, calls2).1 && Run(s, calls1).0 == Run(s, calls2).0
  {
    hide Run, FirstAccepted, ErrorFree;
    var s := Empty(maxChunks, maxBytes);
    assert Consistent(calls2) by {
      forall i, j | 0 <= i < |calls2| && 0 <= j < |calls2| && calls2[i].sq == calls2[j].sq ensures calls2[i] == calls2[j] {
        assert calls2[i] in calls1 && calls2[j] in calls1;
      }
    }
    var m1, m2 := FirstAccepted(s, calls1), FirstAccepted(s, calls2);
    forall k ensures (k in m1 <==> k in m2) && (k in m1 && k in m2 ==> m1[k] == m2[k]) {
      FirstAcceptedIsAll(s, calls1, k);
      FirstAcceptedIsAll(s, calls2, k);
      if k in m1 && k in m2 { assert Call(k, m1[k]) in calls1 && Call(k, m2[k]) in calls1; }
    }
    assert m1 == m2;
    RunRefinesPrefix(maxChunks, maxBytes, calls1);
    RunRefinesPrefix(maxChunks, maxBytes, calls2);
    SamePrefix(Run(s, calls1).1, Run(s, calls2).1, m1);
    assert Run(s, calls1).0.buffered == Run(s, calls2).0.buffered;
  }

  /** A rejected chunk changes nothing, and the chunk that fills the gap is never rejected. */
  lemma ErrorsChangeNothing(s: State, sq: nat, payload: Payload)
    ensures AcceptChunk(s, sq, payload).1.Err? ==> AcceptChunk(s, sq, payload).0 == s
    ensures sq <= s.nextSeq || sq in s.buffered ==> AcceptChunk(s, sq, payload).1.Ok?
  {
  }

  // ---- the reassembler in the heap ---------------------------------------------------------------

  class StreamReassembler {
    var nextSeq: nat
    var buffered: map<nat, Payload>
    var bufferedBytes: nat
    const maxChunks: nat
    const maxBytes: ByteCap

    function Now(): State
      reads this
    {
      State(nextSeq, buffered, bufferedBytes, maxChunks, maxBytes)
    }

    constructor WithCaps(maxChunks: nat, maxBytes: ByteCap)
      ensures Now() == Empty(maxChunks, maxBytes)
    {
      nextSeq, buffered, bufferedBytes := 0, map[], 0;
      this.maxChunks := maxChunks;
      this.maxBytes := maxBytes;
    }

    method Accept(sq: nat, payload: Payload) returns (r: Result<seq<Payload>, ReassembleError>)
      requires bufferedBytes == Total(buffered)
      modifies this
      ensures (Now(), r) == AcceptChunk(old(Now()), sq, payload)
      ensures bufferedBytes == Total(buffered)
    {
      hide Drain, Total;
      if sq < nextSeq { return Ok([]); }
      if sq in buffered { return Ok([]); }
      if sq > nextSeq {
        if |buffered| >= maxChunks { return Err(TooManyChunks(maxChunks)); }
        if SatAdd(bufferedBytes, |payload|, U64_MAX) > maxBytes { return Err(TooManyBytes(maxBytes)); }
      }
      TotalWith(buffered, sq, payload);
      bufferedBytes := bufferedBytes + |payload|;
      buffered := buffered[sq := payload];
      r := DrainReady();
    }

    /** Release chunk after chunk for as long as the next one is there. */
    method DrainReady() returns (r: Result<seq<Payload>, ReassembleError>)
      requires bufferedBytes == Total(buffered)
      modifies this
      ensures r == Ok(Drain(old(Now())).1) && Now() == Drain(old(Now())).0
      ensures bufferedBytes == Total(buffered)
    {
      hide Total, Drain;
      ghost var s := Now();
      var ready: seq<Payload> := [];
      assert [] + Drain(s).1 == Drain(s).1;
      while nextSeq in buffered
        invariant bufferedBytes == Total(buffered)
        invariant Drain(s).0 == Drain(Now()).0 && Drain(s).1 == ready + Drain(Now()).1
        decreases |buffered|
      {
        ghost var before := Now();
        DrainUnfold(before);
        var chunk := buffered[nextSeq];
        Shrinks(buffered, nextSeq);
        TotalWithout(buffered, nextSeq);
        buffered := buffered - {nextSeq};
        bufferedBytes := bufferedBytes - |chunk|;
        nextSeq := nextSeq + 1;
        assert Now() == Release(before);
        assert ready + ([chunk] + Drain(Now()).1) == ready + [chunk] + Drain(Now()).1;
        ready := ready + [chunk];
      }
      DrainUnfold(Now());
      assert ready + [] == ready;
      return Ok(ready);
    }
  }
}
