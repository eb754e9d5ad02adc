/**
 The cap on peers accepted from peer exchange (cap_received_peers, src/discovery/node_discovery.rs): one shared
 counter that callers read and then raise in two separate atomic operations.
 */
module PeerCap {
  const PER_REQUEST: nat := 1000
  const TOTAL: nat := 3000

  function Min(a: nat, b: nat): nat {
    if a <= b then a else b
  }

  /** How many of `len` peers a caller that read `total` keeps. */
  function Accepts(total: nat, len: nat): nat {
    if total >= TOTAL then 0 else Min(Min(len, PER_REQUEST), TOTAL - total)
  }

  // ---- one caller after the other ------------------------------------------------------------

  function Sum(s: seq<nat>): nat {
    if s == [] then 0 else s[0] + Sum(s[1..])
  }

  function CappedSum(lens: seq<nat>): nat {
    if lens == [] then 0 else Min(lens[0], 1000) + CappedSum(lens[1..])
  }

  function Sequential(total: nat, lens: seq<nat>): nat
    decreases |lens|
  {
    if lens == [] then total else Sequential(total + Accepts(total, lens[0]), lens[1..])
  }

  /** Run one after the other, the callers fill the counter to exactly the cap or to what they brought. */
  lemma {:induction false} SequentialFills(total: nat, lens: seq<nat>)
    requires total <= 3000
    ensures Sequential(total, lens) == Min(3000, total + CappedSum(lens))
    decreases |lens|
  {
    if lens != [] { SequentialFills(total + Accepts(total, lens[0]), lens[1..]); }
  }

  class Counter {
    var totalPeersReceived: nat

    constructor ()
      ensures totalPeersReceived == 0
    {
      totalPeersReceived := 0;
    }

    /** One call that nothing interrupts. */
    method CapReceivedPeers<T>(peers: seq<T>) returns (kept: seq<T>)
      modifies this
      ensures |kept| == Accepts(old(totalPeersReceived), |peers|) && kept == peers[..|kept|]
      ensures totalPeersReceived == old(totalPeersReceived) + |kept|
      ensures old(totalPeersReceived) <= TOTAL ==> totalPeersReceived <= TOTAL
    {
      var capped := if |peers| > PER_REQUEST then peers[..PER_REQUEST] else peers;
      var current := totalPeersReceived;
      if current >= TOTAL { return []; }
      var remaining := TOTAL - current;
      var accepted := Min(|capped|, remaining);
      totalPeersReceived := totalPeersReceived + accepted;
      kept := capped[..accepted];
      assert kept == peers[..accepted];
    }
  }

  // ---- interleaved callers -------------------------------------------------------------------

  /** `pending` holds what each caller between its read and its addition is about to add. */
  datatype State = State(total: nat, pending: seq<nat>)

  datatype Step = Load(len: nat) | Add(caller: nat)

  predicate Enabled(s: State, k: nat, step: Step) {
    match step
    case Load(_) => |s.pending| < k
    case Add(i) => i < |s.pending|
  }

  /** A caller that finds the counter full keeps nothing and is done at once. */
  function Next(s: State, step: Step): State
    requires step.Add? ==> step.caller < |s.pending|
  {
    match step
    case Load(len) => if s.total >= TOTAL then s else s.(pending := s.pending + [Accepts(s.total, len)])
    case Add(i) => State(s.total + s.pending[i], s.pending[..i] + s.pending[i + 1..])
  }

  /** At most `k` callers are ever in flight. */
  predicate Schedule(s: State, k: nat, steps: seq<Step>)
    decreases |steps|
  {
    steps == [] || (Enabled(s, k, steps[0]) && Schedule(Next(s, steps[0]), k, steps[1..]))
  }

  function Run(s: State, k: nat, steps: seq<Step>): State
    requires Schedule(s, k, steps)
    decreases |steps|
  {
    if steps == [] then s else Run(Next(s, steps[0]), k, steps[1..])
  }

  lemma {:induction false} SumPlus(a: seq<nat>, b: seq<nat>)
    ensures Sum(a + b) == Sum(a) + Sum(b)
  {
    if a == [] {
      assert a + b == b;
    } else {
      SumPlus(a[1..], b);
      assert (a + b)[1..] == a[1..] + b;
    }
  }

  lemma {:induction false} SumBound(s: seq<nat>)
    requires forall i :: 0 <= i < |s| ==> s[i] <= PER_REQUEST
    ensures Sum(s) <= PER_REQUEST * |s|
  {
    if s != [] { SumBound(s[1..]); }
  }

  /** What the counter holds and what is about to be added together never exceed the bound. */
  ghost predicate Inv(s: State, k: nat) {
    && k >= 1 && |s.pending| <= k
    && (forall i :: 0 <= i < |s.pending| ==> s.pending[i] <= PER_REQUEST)
    && s.total + Sum(s.pending) <= TOTAL + PER_REQUEST * (k - 1)
  }

  lemma NextKeeps(s: State, k: nat, step: Step)
    requires Inv(s, k) && Enabled(s, k, step)
    ensures Inv(Next(s, step), k)
  {
    match step
    case Load(len) =>
      SumPlus(s.pending, [Accepts(s.total, len)]);
      SumBound(s.pending);
      assert PER_REQUEST * |s.pending| <= PER_REQUEST * (k - 1);
    case Add(i) =>
      SumPlus(s.pending[..i], s.pending[i + 1..]);
      SumPlus(s.pending[..i], [s.pending[i]]);
      SumPlus(s.pending[..i] + [s.pending[i]], s.pending[i + 1..]);
      assert s.pending == s.pending[..i] + [s.pending[i]] + s.pending[i + 1..];
  }

  /** With at most `k` callers in flight, in any interleaving, the counter never exceeds the cap by more than
      one request for each caller but one. */
  lemma {:induction false} InterleavedBound(s: State, k: nat, steps: seq<Step>)
    requires Inv(s, k) && Schedule(s, k, steps)
    ensures Inv(Run(s, k, steps), k) && Run(s, k, steps).total <= 3000 + 1000 * (k - 1)
    decreases |steps|
  {
    if steps != [] {
      NextKeeps(s, k, steps[0]);
      InterleavedBound(Next(s, steps[0]), k, steps[1..]);
    }
  }

  // ---- the bound is reached ----------------------------------------------------------------------

  function Loads(n: nat): seq<Step> {
    if n == 0 then [] else [Load(PER_REQUEST)] + Loads(n - 1)
  }

  function Adds(n: nat): seq<Step> {
    if n == 0 then [] else [Add(0)] + Adds(n - 1)
  }

  function Full(n: nat): seq<nat> {
    seq(n, _ => PER_REQUEST)
  }

  lemma {:induction false} AllAdd(total: nat, k: nat, n: nat)
    ensures Schedule(State(total, Full(n)), k, Adds(n))
    ensures Run(State(total, Full(n)), k, Adds(n)) == State(total + PER_REQUEST * n, [])
    decreases n
  {
    if n == 0 {
      assert Full(0) == [];
    } else {
      hide Run, Schedule, Next;
      OneAdd(total, n);
      AllAdd(total + PER_REQUEST, k, n - 1);
      RunUnfold(State(total, Full(n)), k, Add(0), Adds(n - 1));
    }
  }

  lemma {:induction false} AllLoad(k: nat, m: nat, n: nat)
    requires m + n == k
    ensures Schedule(State(2000, Full(m)), k, Loads(n) + Adds(k))
    ensures Run(State(2000, Full(m)), k, Loads(n) + Adds(k)) == State(2000 + PER_REQUEST * k, [])
    decreases n
  {
    hide Run, Schedule, Next;
    if n == 0 {
      assert Loads(0) + Adds(k) == Adds(k);
      AllAdd(2000, k, k);
    } else {
      AllLoad(k, m + 1, n - 1);
      OneLoad(m);
      assert Loads(n) + Adds(k) == [Load(PER_REQUEST)] + (Loads(n - 1) + Adds(k));
      RunUnfold(State(2000, Full(m)), k, Load(PER_REQUEST), Loads(n - 1) + Adds(k));
    }
  }

  lemma OneLoad(m: nat)
    ensures Next(State(2000, Full(m)), Load(PER_REQUEST)) == State(2000, Full(m + 1)) && |Full(m)| == m
  {
    assert Full(m) + [PER_REQUEST] == Full(m + 1);
  }

  lemma OneAdd(total: nat, n: nat)
    requires n > 0
    ensures |Full(n)| == n && Next(State(total, Full(n)), Add(0)) == State(total + PER_REQUEST, Full(n - 1))
  {
    assert Full(n)[..0] + Full(n)[1..] == Full(n - 1);
  }

  lemma RunUnfold(s: State, k: nat, step: Step, rest: seq<Step>)
    requires Enabled(s, k, step) && Schedule(Next(s, step), k, rest)
    ensures Schedule(s, k, [step] + rest) && Run(s, k, [step] + rest) == Run(Next(s, step), k, rest)
  {
    assert ([step] + rest)[1..] == rest;
  }

  /** Two calls one after the other, which leave room for one more, then `k` at once. */
  function Rush(k: nat): seq<Step> {
    [Load(PER_REQUEST), Add(0)] + ([Load(PER_REQUEST), Add(0)] + (Loads(k) + Adds(k)))
  }

  lemma OneCall(total: nat, k: nat, rest: seq<Step>)
    requires k >= 1 && total + PER_REQUEST <= TOTAL && Schedule(State(total + PER_REQUEST, []), k, rest)
    ensures Schedule(State(total, []), k, [Load(PER_REQUEST), Add(0)] + rest)
    ensures Run(State(total, []), k, [Load(PER_REQUEST), Add(0)] + rest) == Run(State(total + PER_REQUEST, []), k, rest)
  {
    var steps := [Load(PER_REQUEST), Add(0)] + rest;
    assert steps[1..] == [Add(0)] + rest && steps[1..][1..] == rest;
    var loaded := State(total, [PER_REQUEST]);
    assert Next(State(total, []), steps[0]) == loaded;
    assert Next(loaded, Add(0)) == State(total + PER_REQUEST, []);
  }

  /** The bound is tight: for every `k`, from a fresh counter, some interleaving of `k` callers reaches it. */
  lemma BoundIsReached(k: nat)
    requires k >= 1
    ensures Inv(State(0, []), k) && Schedule(State(0, []), k, Rush(k))
    ensures Run(State(0, []), k, Rush(k)).total == 3000 + 1000 * (k - 1)
  {
    hide Run, Schedule, Loads, Adds;
    assert Full(0) == [];
    AllLoad(k, 0, k);
    OneCall(1000, k, Loads(k) + Adds(k));
    OneCall(0, k, [Load(PER_REQUEST), Add(0)] + (Loads(k) + Adds(k)));
  }
}
