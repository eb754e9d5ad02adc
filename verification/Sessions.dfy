/**
 Newest-wins sessions: one slot per peer, each live session numbered by a generation, and teardown guarded by that
 number (src/connection/listener.rs, src/connection/keepalive.rs, src/service/gossip_handle.rs, src/service/state.rs).

 A step is what happens under one hold of the peer map's lock.  Steps of different sessions interleave freely: a
 keepalive task may report failure at any time, any number of times, however long ago its session ended.
 */
module Sessions {
  import opened Peers
  import opened Wrappers

  type Generation = nat

  /** What of a peer's slot matters here: which session it belongs to, or that it is one of a NAT-traversed session. */
  datatype Occupant = LiveAt(gen: Generation) | Nat

  /** How far a session has come: not yet in the map, in it, out of it with its task still to be stopped, or done. */
  datatype Phase = Negotiating | Held | Displaced | Over

  datatype Session = Session(peer: PeerId, phase: Phase)

  datatype State = State(
    next: Generation,
    sessions: map<Generation, Session>,
    peers: map<PeerId, Occupant>,
    blamed: multiset<Generation>)   // one entry for each penalty charged by a keepalive failure
  {
    predicate Holds(p: PeerId, g: Generation) {
      p in peers && peers[p] == LiveAt(g)
    }

    predicate Is(g: Generation, p: PeerId, phase: Phase) {
      g in sessions && sessions[g] == Session(p, phase)
    }

    function Move(g: Generation, phase: Phase): State {
      if g in sessions then this.(sessions := sessions[g := sessions[g].(phase := phase)]) else this
    }

    /** Whatever holds `p`'s slot no longer does. */
    function Displace(p: PeerId): State {
      if p in peers && peers[p].LiveAt? then Move(peers[p].gen, Displaced) else this
    }
  }

  datatype Step =
    | Allocate(peer: PeerId)                          // take a generation, start its keepalive
    | Admit(peer: PeerId, gen: Generation)            // insert the slot, displacing any other
    | Refuse(peer: PeerId, gen: Generation)           // the dial was not admitted after all
    | Stop(peer: PeerId, gen: Generation)             // abort a displaced session's task
    | KeepaliveFail(peer: PeerId, gen: Generation)
    | RateLimitBan(peer: PeerId, gen: Generation)
    | AdoptNat(peer: PeerId)
    | Remove(peer: PeerId)                            // disconnect, or an operator's ban
    | Reap(peer: PeerId)

  const START := State(0, map[], map[], multiset{})

  predicate Enabled(s: State, step: Step) {
    match step
    case Admit(p, g) => s.Is(g, p, Negotiating)
    case Refuse(p, g) => s.Is(g, p, Negotiating)
    case Stop(p, g) => s.Is(g, p, Displaced)
    case Reap(p) => p in s.peers && s.peers[p].Nat?
    case _ => true
  }

  function Next(s: State, step: Step): State {
    match step
    case Allocate(p) => s.(sessions := s.sessions[s.next := Session(p, Negotiating)], next := s.next + 1)
    case Admit(p, g) => s.Displace(p).Move(g, Held).(peers := s.peers[p := LiveAt(g)])
    case Refuse(_, g) => s.Move(g, Over)
    case Stop(_, g) => s.Move(g, Over)
    case KeepaliveFail(p, g) =>
      if s.Holds(p, g) then s.Move(g, Over).(peers := s.peers - {p}, blamed := s.blamed + multiset{g}) else s
    case RateLimitBan(p, g) => if s.Holds(p, g) then s.Displace(p).(peers := s.peers - {p}) else s
    case AdoptNat(p) => s.Displace(p).(peers := s.peers[p := Nat])
    case Remove(p) => s.Displace(p).(peers := s.peers - {p})
    case Reap(p) => s.(peers := s.peers - {p})
  }

  predicate Trace(s: State, steps: seq<Step>)
    decreases |steps|
  {
    steps == [] || (Enabled(s, steps[0]) && Trace(Next(s, steps[0]), steps[1..]))
  }

  function Run(s: State, steps: seq<Step>): State
    decreases |steps|
  {
    if steps == [] then s else Run(Next(s, steps[0]), steps[1..])
  }

  /** The map and the sessions agree, and only sessions that are over were ever blamed, once each. */
  ghost predicate Inv(s: State) {
    && (forall g :: g in s.sessions ==> g < s.next)
    && (forall p :: p in s.peers && s.peers[p].LiveAt? ==> s.Is(s.peers[p].gen, p, Held))
    && (forall g :: g in s.sessions && s.sessions[g].phase.Held? ==> s.Holds(s.sessions[g].peer, g))
    && (forall g :: g in s.blamed ==> s.blamed[g] == 1 && g in s.sessions && s.sessions[g].phase.Over?)
  }

  /** The invariant while `p`'s slot is about to be overwritten. */
  ghost predicate InvButFor(s: State, p: PeerId) {
    && (forall g :: g in s.sessions ==> g < s.next)
    && (forall q :: q in s.peers && s.peers[q].LiveAt? && q != p ==> s.Is(s.peers[q].gen, q, Held))
    && (forall g :: g in s.sessions && s.sessions[g].phase.Held? ==>
      s.sessions[g].peer != p && s.Holds(s.sessions[g].peer, g))
    && (forall g :: g in s.blamed ==> s.blamed[g] == 1 && g in s.sessions && s.sessions[g].phase.Over?)
  }

  lemma DisplaceKeeps(s: State, p: PeerId)
    requires Inv(s)
    ensures InvButFor(s.Displace(p), p)
    ensures s.Displace(p).peers == s.peers && s.Displace(p).next == s.next && s.Displace(p).blamed == s.blamed
    ensures forall g :: g in s.sessions ==> s.Displace(p).Is(g, s.sessions[g].peer,
      if s.Holds(p, g) then Displaced else s.sessions[g].phase)
    ensures s.Displace(p).sessions.Keys == s.sessions.Keys
  {
  }

  lemma AdmitKeeps(s: State, p: PeerId, g: Generation)
    requires InvButFor(s, p) && s.Is(g, p, Negotiating)
    ensures Inv(s.Move(g, Held).(peers := s.peers[p := LiveAt(g)]))
  {
  }

  lemma ClearKeeps(s: State, p: PeerId)
    requires InvButFor(s, p)
    ensures Inv(s.(peers := s.peers - {p})) && Inv(s.(peers := s.peers[p := Nat]))
  {
  }

  lemma EndKeeps(s: State, p: PeerId, g: Generation)
    requires Inv(s) && s.Holds(p, g)
    ensures Inv(s.Move(g, Over).(peers := s.peers - {p}, blamed := s.blamed + multiset{g}))
  {
    assert s.Is(g, p, Held);
    var t := s.Move(g, Over).(peers := s.peers - {p}, blamed := s.blamed + multiset{g});
    forall h | h in t.blamed ensures t.blamed[h] == 1 && h in t.sessions && t.sessions[h].phase.Over? {
      assert h == g || h in s.blamed;
    }
  }

  lemma MoveKeeps(s: State, p: PeerId, g: Generation)
    requires Inv(s) && (s.Is(g, p, Negotiating) || s.Is(g, p, Displaced))
    ensures Inv(s.Move(g, Over))
  {
  }

  lemma StartKeeps(s: State, p: PeerId)
    requires Inv(s)
    ensures Inv(Next(s, Allocate(p)))
  {
    var t := Next(s, Allocate(p));
    forall q | q in t.peers && t.peers[q].LiveAt? ensures t.Is(t.peers[q].gen, q, Held) {
      assert s.Is(s.peers[q].gen, q, Held);
    }
  }

  lemma NextKeeps(s: State, step: Step)
    requires Inv(s) && Enabled(s, step)
    ensures Inv(Next(s, step))
  {
    match step
    case Allocate(p) => StartKeeps(s, p);
    case Admit(p, g) => DisplaceKeeps(s, p); AdmitNotHeld(s, p, g); AdmitKeeps(s.Displace(p), p, g);
    case Refuse(p, g) => MoveKeeps(s, p, g);
    case Stop(p, g) => MoveKeeps(s, p, g);
    case KeepaliveFail(p, g) => if s.Holds(p, g) { EndKeeps(s, p, g); }
    case RateLimitBan(p, g) => DisplaceKeeps(s, p); ClearKeeps(s.Displace(p), p);
    case AdoptNat(p) => DisplaceKeeps(s, p); ClearKeeps(s.Displace(p), p);
    case Remove(p) => DisplaceKeeps(s, p); ClearKeeps(s.Displace(p), p);
    case Reap(p) => DisplaceKeeps(s, p); ClearKeeps(s.Displace(p), p);
  }

  lemma AdmitNotHeld(s: State, p: PeerId, g: Generation)
    requires Inv(s) && s.Is(g, p, Negotiating)
    ensures s.Displace(p).Is(g, p, Negotiating)
  {
    if p in s.peers && s.peers[p].LiveAt? { assert s.Is(s.peers[p].gen, p, Held); }
  }

  predicate Out(s: State, g: Generation) {
    g in s.sessions && (s.sessions[g].phase.Displaced? || s.sessions[g].phase.Over?)
  }

  lemma StaysOut(s: State, step: Step, g: Generation)
    requires Inv(s) && Enabled(s, step) && Out(s, g)
    ensures Out(Next(s, step), g)
  {
    hide State.Move, State.Displace, State.Holds;
    match step
    case Allocate(_) =>
    case Admit(p, h) => DisplacedOut(s, p, g); DisplaceKeeps(s, p); MovedOut(s.Displace(p), h, Held, g);
    case Refuse(_, h) => MovedOut(s, h, Over, g);
    case Stop(_, h) => MovedOut(s, h, Over, g);
    case KeepaliveFail(_, h) => MovedOut(s, h, Over, g);
    case RateLimitBan(p, _) => DisplacedOut(s, p, g);
    case AdoptNat(p) => DisplacedOut(s, p, g);
    case Remove(p) => DisplacedOut(s, p, g);
    case Reap(_) =>
  }

  lemma DisplacedOut(s: State, p: PeerId, g: Generation)
    requires Out(s, g)
    ensures Out(s.Displace(p), g)
  {
  }

  lemma MovedOut(s: State, h: Generation, phase: Phase, g: Generation)
    requires Out(s, g) && (phase.Over? || h != g)
    ensures Out(s.Move(h, phase), g)
  {
  }

  lemma {:induction false} RunKeeps(s: State, steps: seq<Step>)
    requires Inv(s) && Trace(s, steps)
    ensures Inv(Run(s, steps))
    decreases |steps|
  {
    if steps != [] {
      NextKeeps(s, steps[0]);
      RunKeeps(Next(s, steps[0]), steps[1..]);
    }
  }

  // ---- who may take a slot away --------------------------------------------------------------

  /** The steps that may end session `g` of `p`: its own failure or ban, a later insertion for `p`, or a removal
      of `p`. */
  predicate Ends(step: Step, p: PeerId, g: Generation) {
    match step
    case KeepaliveFail(q, h) => q == p && h == g
    case RateLimitBan(q, h) => q == p && h == g
    case Admit(q, h) => q == p && h != g
    case AdoptNat(q) => q == p
    case Remove(q) => q == p
    case _ => false
  }

  lemma StepLeavesSlot(s: State, step: Step, p: PeerId, g: Generation)
    requires Inv(s) && Enabled(s, step) && s.Holds(p, g)
    ensures Next(s, step).Holds(p, g) <==> !Ends(step, p, g)
  {
  }

  /** Over every interleaving a session keeps its slot until a step that may end it: no task of any other
      session, earlier or later, of this peer or another, can take it away. */
  lemma {:induction false} SlotLostOnlyBy(s: State, steps: seq<Step>, p: PeerId, g: Generation)
    requires Inv(s) && Trace(s, steps) && s.Holds(p, g)
    ensures Run(s, steps).Holds(p, g) <==> forall i :: 0 <= i < |steps| ==> !Ends(steps[i], p, g)
    decreases |steps|
  {
    if steps != [] {
      var t := Next(s, steps[0]);
      NextKeeps(s, steps[0]);
      StepLeavesSlot(s, steps[0], p, g);
      if t.Holds(p, g) {
        SlotLostOnlyBy(t, steps[1..], p, g);
        if Run(s, steps).Holds(p, g) {
          forall i | 0 <= i < |steps| ensures !Ends(steps[i], p, g) { if i > 0 { assert steps[i] == steps[1..][i - 1]; } }
        } else {
          var j :| 0 <= j < |steps[1..]| && Ends(steps[1..][j], p, g);
          assert steps[j + 1] == steps[1..][j];
        }
      } else {
        NeverReturns(t, steps[1..], p, g);
      }
    }
  }

  /** A session out of the map stays out. */
  lemma {:induction false} NeverReturns(s: State, steps: seq<Step>, p: PeerId, g: Generation)
    requires Inv(s) && Trace(s, steps)
    requires Out(s, g)
    ensures !Run(s, steps).Holds(p, g) && Out(Run(s, steps), g)
    decreases |steps|
  {
    hide Next;
    if steps != [] {
      StaysOut(s, steps[0], g);
      NextKeeps(s, steps[0]);
      NeverReturns(Next(s, steps[0]), steps[1..], p, g);
    }
  }

  /** Over every interleaving a keepalive failure is charged at most once to each session, never to one that
      still holds its slot, and a failure reported by any other session changes nothing at all. */
  lemma BlamedOnce(steps: seq<Step>, g: Generation)
    requires Trace(START, steps)
    ensures var s := Run(START, steps);
      && s.blamed[g] <= 1
      && (g in s.blamed ==> forall p :: !s.Holds(p, g))
      && (forall p :: !s.Holds(p, g) ==> Next(s, KeepaliveFail(p, g)) == s)
  {
    RunKeeps(START, steps);
  }

  // ---- tasks and slots ------------------------------------------------------------------------

  ghost function Running(s: State): set<Generation> {
    set g | g in s.sessions && !s.sessions[g].phase.Over?
  }

  ghost function LivePeers(s: State): set<PeerId> {
    set p | p in s.peers && s.peers[p].LiveAt?
  }

  /** When no dial is under way and no displaced task awaits its abort, the sessions not over are exactly those
      in the map: one for each live slot. */
  lemma OneSessionPerSlot(s: State)
    requires Inv(s)
    requires forall g :: g in s.sessions ==> !s.sessions[g].phase.Negotiating? && !s.sessions[g].phase.Displaced?
    ensures forall g :: g in Running(s) <==> exists p :: s.Holds(p, g)
    ensures |Running(s)| == |LivePeers(s)|
  {
    forall g ensures g in Running(s) <==> exists p :: s.Holds(p, g) {
      if g in Running(s) { assert s.Holds(s.sessions[g].peer, g); }
    }
    Paired(s, Running(s), LivePeers(s));
  }

  lemma {:induction false} Paired(s: State, gens: set<Generation>, ps: set<PeerId>)
    requires forall p :: p in ps ==> p in s.peers && s.peers[p].LiveAt? && s.peers[p].gen in gens
    requires forall g :: g in gens ==> g in s.sessions && s.sessions[g].peer in ps && s.Holds(s.sessions[g].peer, g)
    requires forall p :: p in ps ==> s.peers[p].gen in s.sessions && s.sessions[s.peers[p].gen].peer == p
    ensures |gens| == |ps|
    decreases |ps|
  {
    if ps == {} {
    } else {
      var p :| p in ps;
      Paired(s, gens - {s.peers[p].gen}, ps - {p});
    }
  }

  // ---- generations are not an order of insertion ----------------------------------------------

  lemma RunOne(s: State, step: Step, rest: seq<Step>)
    ensures Run(s, [step] + rest) == Run(Next(s, step), rest)
    ensures Trace(s, [step] + rest) <==> Enabled(s, step) && Trace(Next(s, step), rest)
  {
    assert ([step] + rest)[1..] == rest;
  }

  /** Two sessions of one peer may be inserted in either order, so a slot can be replaced by one of a smaller
      generation: the guard is right because it compares for equality. */
  lemma OlderGenerationCanReplaceNewer(p: PeerId)
    ensures var steps := [Allocate(p), Allocate(p), Admit(p, 1), Admit(p, 0)];
      && Trace(START, steps)
      && Run(START, steps[..3]).Holds(p, 1) && Run(START, steps).Holds(p, 0)
  {
    var steps := [Allocate(p), Allocate(p), Admit(p, 1), Admit(p, 0)];
    var s2 := State(2, map[0 := Session(p, Negotiating), 1 := Session(p, Negotiating)], map[], multiset{});
    RunOne(START, Allocate(p), [Allocate(p), Admit(p, 1), Admit(p, 0)]);
    RunOne(Next(START, Allocate(p)), Allocate(p), [Admit(p, 1), Admit(p, 0)]);
    assert Next(Next(START, Allocate(p)), Allocate(p)) == s2;
    RunOne(s2, Admit(p, 1), [Admit(p, 0)]);
    RunOne(Next(s2, Admit(p, 1)), Admit(p, 0), []);
    assert steps == [Allocate(p)] + ([Allocate(p)] + ([Admit(p, 1)] + ([Admit(p, 0)] + [])));
    RunOne(START, Allocate(p), [Allocate(p), Admit(p, 1)]);
    RunOne(Next(START, Allocate(p)), Allocate(p), [Admit(p, 1)]);
    RunOne(s2, Admit(p, 1), []);
    assert steps[..3] == [Allocate(p)] + ([Allocate(p)] + ([Admit(p, 1)] + []));
  }

  // ---- when a smaller generation replaces a greater one ----------------------------------------

  lemma {:induction false} RunConcat(s: State, a: seq<Step>, b: seq<Step>)
    ensures Run(s, a + b) == Run(Run(s, a), b)
    ensures Trace(s, a + b) <==> Trace(s, a) && Trace(Run(s, a), b)
    decreases |a|
  {
    hide Next, Enabled;
    if a == [] {
      assert a + b == b;
    } else {
      assert (a + b)[1..] == a[1..] + b;
      RunConcat(Next(s, a[0]), a[1..], b);
    }
  }

  /** The state before step `i`. */
  function At(steps: seq<Step>, i: nat): State
    requires i <= |steps|
  {
    Run(START, steps[..i])
  }

  lemma StartInv(steps: seq<Step>)
    ensures Inv(START) && At(steps, 0) == START
  {
  }

  lemma AtNext(steps: seq<Step>, i: nat)
    requires Trace(START, steps) && i < |steps|
    ensures Enabled(At(steps, i), steps[i]) && At(steps, i + 1) == Next(At(steps, i), steps[i])
    ensures Inv(At(steps, i)) && Inv(At(steps, i + 1))
  {
    hide Next, Enabled, Inv;
    StartInv(steps);
    assert steps == steps[..i] + steps[i..];
    RunConcat(START, steps[..i], steps[i..]);
    assert steps[..i + 1] == steps[..i] + [steps[i]];
    RunConcat(START, steps[..i], [steps[i]]);
    RunKeeps(START, steps[..i]);
    NextKeeps(At(steps, i), steps[i]);
  }

  lemma {:induction false} AllHandedOut(steps: seq<Step>, i: nat, g: Generation)
    requires Trace(START, steps) && i <= |steps|
    ensures g in At(steps, i).sessions <==> g < At(steps, i).next
  {
    hide Inv, Run, Next, Enabled;
    StartInv(steps);
    if i > 0 {
      AllHandedOut(steps, i - 1, g);
      AtNext(steps, i - 1);
      HandsOut(At(steps, i - 1), steps[i - 1], g);
    }
  }

  lemma HandsOut(s: State, step: Step, g: Generation)
    requires Enabled(s, step) && (g in s.sessions <==> g < s.next)
    ensures g in Next(s, step).sessions <==> g < Next(s, step).next
  {
  }

  /** A session's number was handed out to its peer. */
  lemma {:induction false} AllocatedAt(steps: seq<Step>, n: nat, p: PeerId, g: Generation) returns (i: nat)
    requires Trace(START, steps) && n <= |steps|
    requires g in At(steps, n).sessions && At(steps, n).sessions[g].peer == p
    ensures i < n && steps[i] == Allocate(p) && At(steps, i).next == g
  {
    hide Inv, Run, Next;
    StartInv(steps);
    AtNext(steps, n - 1);
    if g in At(steps, n - 1).sessions {
      SamePeer(At(steps, n - 1), steps[n - 1], g);
      i := AllocatedAt(steps, n - 1, p, g);
    } else {
      NewSession(At(steps, n - 1), steps[n - 1], g);
      i := n - 1;
    }
  }

  lemma NewSession(s: State, step: Step, g: Generation)
    requires Enabled(s, step) && g !in s.sessions && g in Next(s, step).sessions
    ensures step == Allocate(Next(s, step).sessions[g].peer) && s.next == g
  {
  }

  lemma SamePeer(s: State, step: Step, g: Generation)
    requires Inv(s) && Enabled(s, step) && g in s.sessions
    ensures g in Next(s, step).sessions && Next(s, step).sessions[g].peer == s.sessions[g].peer
    ensures Next(s, step).sessions[g].phase.Negotiating? ==> s.sessions[g].phase.Negotiating?
  {
    hide Next;
    SameOrLater(s, step, g);
  }

  lemma SameOrLater(s: State, step: Step, g: Generation)
    requires g in s.sessions && g < s.next
    ensures var t := Next(s, step);
      && g in t.sessions && t.sessions[g].peer == s.sessions[g].peer
      && (t.sessions[g].phase.Negotiating? ==> s.sessions[g].phase.Negotiating?)
  {
    hide State.Move, State.Displace, State.Holds;
    match step
    case Allocate(_) =>
    case Admit(p, h) => DisplacedSession(s, p, g); MovedSession(s.Displace(p), h, Held, g);
    case Refuse(_, h) => MovedSession(s, h, Over, g);
    case Stop(_, h) => MovedSession(s, h, Over, g);
    case KeepaliveFail(_, h) => MovedSession(s, h, Over, g);
    case RateLimitBan(p, _) => DisplacedSession(s, p, g);
    case AdoptNat(p) => DisplacedSession(s, p, g);
    case Remove(p) => DisplacedSession(s, p, g);
    case Reap(_) =>
  }

  /** `t` has session `g` of `s`, no earlier in its course. */
  predicate NoEarlier(s: State, t: State, g: Generation)
    requires g in s.sessions
  {
    g in t.sessions && t.sessions[g].peer == s.sessions[g].peer
    && (t.sessions[g].phase.Negotiating? ==> s.sessions[g].phase.Negotiating?)
  }

  lemma MovedSession(s: State, h: Generation, phase: Phase, g: Generation)
    requires g in s.sessions && !phase.Negotiating?
    ensures NoEarlier(s, s.Move(h, phase), g)
  {
  }

  lemma DisplacedSession(s: State, p: PeerId, g: Generation)
    requires g in s.sessions
    ensures NoEarlier(s, s.Displace(p), g)
  {
  }

  /** A session negotiating now has been ever since its number was handed out. */
  lemma {:induction false} NegotiatingSince(steps: seq<Step>, i: nat, n: nat, p: PeerId, g: Generation)
    requires Trace(START, steps) && i <= n <= |steps|
    requires At(steps, n).Is(g, p, Negotiating) && g in At(steps, i).sessions
    ensures At(steps, i).Is(g, p, Negotiating)
    decreases n - i
  {
    hide Inv, Run, Next, Enabled;
    if i < n {
      AtNext(steps, i);
      SamePeer(At(steps, i), steps[i], g);
      NegotiatingSince(steps, i + 1, n, p, g);
    }
  }

  lemma GainsSlot(s: State, step: Step, p: PeerId, g: Generation)
    requires Inv(s) && Enabled(s, step) && !s.Holds(p, g) && Next(s, step).Holds(p, g)
    ensures step == Admit(p, g)
  {
  }

  /** Step `j` admitted session `g` of `p`, and none of the steps from there to `n` has ended it. */
  ghost predicate AdmittedAt(steps: seq<Step>, j: nat, n: nat, p: PeerId, g: Generation)
    requires n <= |steps|
  {
    j < n && steps[j] == Admit(p, g) && forall k :: j < k < n ==> !Ends(steps[k], p, g)
  }

  lemma {:induction false} HeldSince(steps: seq<Step>, n: nat, p: PeerId, g: Generation) returns (j: nat)
    requires Trace(START, steps) && n <= |steps| && At(steps, n).Holds(p, g)
    ensures AdmittedAt(steps, j, n, p, g)
  {
    hide Inv, Run, Next, Enabled, Ends;
    StartInv(steps);
    AtNext(steps, n - 1);
    if At(steps, n - 1).Holds(p, g) {
      j := HeldSince(steps, n - 1, p, g);
      StepLeavesSlot(At(steps, n - 1), steps[n - 1], p, g);
    } else {
      j := n - 1;
      GainsSlot(At(steps, n - 1), steps[n - 1], p, g);
    }
  }

  lemma StillHeld(steps: seq<Step>, j: nat, p: PeerId, g: Generation)
    requires Trace(START, steps) && AdmittedAt(steps, j, |steps|, p, g)
    ensures Run(START, steps).Holds(p, g)
  {
    hide Inv, Run;
    AtNext(steps, j);
    var rest := steps[j + 1..];
    assert steps == steps[..j + 1] + rest;
    RunConcat(START, steps[..j + 1], rest);
    forall k | 0 <= k < |rest| ensures !Ends(rest[k], p, g) { assert rest[k] == steps[j + 1 + k]; }
    SlotLostOnlyBy(At(steps, j + 1), rest, p, g);
  }

  /** Step `i` handed number `h` to `p` while session `g` of `p` was still negotiating. */
  ghost predicate AllocatedBehind(steps: seq<Step>, i: nat, p: PeerId, g: Generation, h: Generation) {
    i < |steps| && steps[i] == Allocate(p) && At(steps, i).next == h && At(steps, i).Is(g, p, Negotiating)
  }

  /** Over every trace: admitting session `g` replaces a session with a greater number `h` exactly when `h` was handed
      out while `g` was still negotiating, was admitted before it, and has not been ended since. */
  lemma OvertakenExactly(steps: seq<Step>, p: PeerId, g: Generation, h: Generation)
    requires Trace(START, steps) && Enabled(Run(START, steps), Admit(p, g)) && h > g
    ensures Run(START, steps).Holds(p, h) <==>
      exists i: nat, j: nat :: i < j && AllocatedBehind(steps, i, p, g, h) && AdmittedAt(steps, j, |steps|, p, h)
  {
    hide Inv, Run, Trace, Next;
    assert steps[..|steps|] == steps;
    if Run(START, steps).Holds(p, h) {
      var i, j := Overtakes(steps, p, g, h);
    } else if i: nat, j: nat :| i < j && AllocatedBehind(steps, i, p, g, h) && AdmittedAt(steps, j, |steps|, p, h) {
      StillHeld(steps, j, p, h);
    }
  }

  lemma Overtakes(steps: seq<Step>, p: PeerId, g: Generation, h: Generation) returns (i: nat, j: nat)
    requires Trace(START, steps) && At(steps, |steps|).Is(g, p, Negotiating) && At(steps, |steps|).Holds(p, h) && h > g
    ensures i < j && AllocatedBehind(steps, i, p, g, h) && AdmittedAt(steps, j, |steps|, p, h)
  {
    hide Inv, Run, Next;
    j := HeldSince(steps, |steps|, p, h);
    AtNext(steps, j);
    i := AllocatedAt(steps, j, p, h);
    AllHandedOut(steps, i, g);
    NegotiatingSince(steps, i, |steps|, p, g);
  }

  /** No peer is given a number while one of its sessions is still to be inserted. */
  ghost predicate OneAtATime(steps: seq<Step>) {
    forall i, p, g :: 0 <= i < |steps| && steps[i] == Allocate(p) ==> !At(steps, i).Is(g, p, Negotiating)
  }

  /** If each peer has at most one session between its draw and its insert, a session only ever replaces one with a
      smaller number. */
  lemma NewestWinsOneAtATime(steps: seq<Step>, p: PeerId, g: Generation, h: Generation)
    requires Trace(START, steps) && OneAtATime(steps)
    requires Enabled(Run(START, steps), Admit(p, g)) && Run(START, steps).Holds(p, h)
    ensures h < g
  {
    hide Run, Next;
    assert steps[..|steps|] == steps;
    RunKeeps(START, steps);
    if h > g { var i, j := Overtakes(steps, p, g, h); }
  }

  // ---- the peer map in the heap ----------------------------------------------------------------

  class Registry {
    var peerGeneration: Generation
    var peers: map<PeerId, Occupant>
    ghost var sessions: map<Generation, Session>
    var blamed: multiset<Generation>

    ghost function Now(): State
      reads this
    {
      State(peerGeneration, sessions, peers, blamed)
    }

    constructor ()
      ensures Now() == START && Inv(Now())
    {
      peerGeneration, peers, sessions, blamed := 0, map[], map[], multiset{};
    }

    method NextPeerGeneration(p: PeerId) returns (g: Generation)
      modifies this
      ensures g == old(peerGeneration) && Now() == Next(old(Now()), Allocate(p))
    {
      g := peerGeneration;
      peerGeneration := peerGeneration + 1;
      sessions := sessions[g := Session(p, Negotiating)];
    }

    /** Newest wins: the displaced slot is handed back so that its session can be stopped. */
    method Insert(p: PeerId, g: Generation) returns (superseded: Option<Occupant>)
      requires Enabled(Now(), Admit(p, g))
      modifies this
      ensures Now() == Next(old(Now()), Admit(p, g))
      ensures superseded == if p in old(peers) then Some(old(peers)[p]) else None
    {
      superseded := if p in peers then Some(peers[p]) else None;
      sessions := Now().Displace(p).Move(g, Held).sessions;
      peers := peers[p := LiveAt(g)];
    }

    method DisconnectAfterKeepaliveFailure(p: PeerId, g: Generation) returns (removed: bool)
      modifies this
      ensures Now() == Next(old(Now()), KeepaliveFail(p, g))
      ensures removed <==> old(Now()).Holds(p, g)
    {
      removed := p in peers && peers[p] == LiveAt(g);
      if !removed { return; }
      sessions := Now().Move(g, Over).sessions;
      peers := peers - {p};
      blamed := blamed + multiset{g};
    }

    /** `caller` is the session whose rate-limit violations led to the ban, or none for an operator's. */
    method EnforceTimedBan(p: PeerId, operator: bool, g: Generation) returns (banned: bool)
      modifies this
      ensures Now() == Next(old(Now()), if operator then Remove(p) else RateLimitBan(p, g))
      ensures banned <==> operator || old(Now()).Holds(p, g)
    {
      banned := operator || (p in peers && peers[p] == LiveAt(g));
      if !banned { return; }
      sessions := Now().Displace(p).sessions;
      peers := peers - {p};
    }

    method Disconnect(p: PeerId) returns (wasPresent: bool)
      modifies this
      ensures Now() == Next(old(Now()), Remove(p)) && wasPresent == (p in old(peers))
    {
      wasPresent := p in peers;
      sessions := Now().Displace(p).sessions;
      peers := peers - {p};
    }
  }
}
