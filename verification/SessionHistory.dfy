/**
 What a state of the session protocol owes to the steps that led to it: over every trace from the start, the penalties,
 the phase of each session and the slot of each peer are determined exactly by the steps.
 */
module SessionHistory {
  import opened Peers
  import opened Wrappers
  import opened Sessions

  // ---- penalties -----------------------------------------------------------------------------------

  /** Step `i` reports a keepalive failure of session `g` while that session holds its slot. */
  ghost predicate FailedAt(steps: seq<Step>, i: nat, g: Generation) {
    && i < |steps| && steps[i].KeepaliveFail? && steps[i].gen == g
    && At(steps, i).Holds(steps[i].peer, g)
  }

  lemma ChargeStep(s: State, step: Step, g: Generation)
    ensures Next(s, step).blamed[g] ==
      s.blamed[g] + (if step.KeepaliveFail? && step.gen == g && s.Holds(step.peer, g) then 1 else 0)
  {
  }

  lemma {:induction false} ChargedUpTo(steps: seq<Step>, n: nat, g: Generation)
    requires Trace(START, steps) && n <= |steps|
    ensures At(steps, n).blamed[g] > 0 <==> exists i :: 0 <= i < n && FailedAt(steps, i, g)
  {
    hide Inv, Run, Next, Enabled;
    StartInv(steps);
    if n > 0 {
      ChargedUpTo(steps, n - 1, g);
      AtNext(steps, n - 1);
      ChargeStep(At(steps, n - 1), steps[n - 1], g);
      if At(steps, n).blamed[g] > 0 && At(steps, n - 1).blamed[g] == 0 { assert FailedAt(steps, n - 1, g); }
    }
  }

  /** Over every trace: a session has been charged, and once, exactly if a keepalive failure of it was reported while it
      held its slot. */
  lemma ChargedExactly(steps: seq<Step>, g: Generation)
    requires Trace(START, steps)
    ensures Run(START, steps).blamed[g] == if exists i :: 0 <= i < |steps| && FailedAt(steps, i, g) then 1 else 0
  {
    hide Inv, Run, Next, FailedAt;
    assert steps[..|steps|] == steps;
    ChargedUpTo(steps, |steps|, g);
    BlamedOnce(steps, g);
  }

  // ---- phases --------------------------------------------------------------------------------------

  predicate Settles(step: Step, g: Generation) {
    (step.Admit? || step.Refuse?) && step.gen == g
  }

  /** The step ends session `g` for good: it was not admitted, its task was stopped, or its failure was reported. */
  predicate Finishes(s: State, step: Step, g: Generation) {
    || ((step.Refuse? || step.Stop?) && step.gen == g)
    || (step.KeepaliveFail? && step.gen == g && s.Holds(step.peer, g))
  }

  lemma PhaseStep(s: State, step: Step, g: Generation)
    requires Inv(s) && Enabled(s, step) && g in s.sessions
    ensures var t := Next(s, step);
      && g in t.sessions
      && (t.sessions[g].phase.Negotiating? <==> s.sessions[g].phase.Negotiating? && !Settles(step, g))
      && (t.sessions[g].phase.Over? <==> s.sessions[g].phase.Over? || Finishes(s, step, g))
  {
    hide State.Move, State.Displace;
    SamePeer(s, step, g);
    match step
    case Allocate(_) =>
    case Admit(p, h) => DisplacedPhase(s, p, g); MovedPhase(s.Displace(p), h, Held, g);
    case Refuse(_, h) => MovedPhase(s, h, Over, g);
    case Stop(_, h) => MovedPhase(s, h, Over, g);
    case KeepaliveFail(_, h) => MovedPhase(s, h, Over, g);
    case RateLimitBan(p, _) => DisplacedPhase(s, p, g);
    case AdoptNat(p) => DisplacedPhase(s, p, g);
    case Remove(p) => DisplacedPhase(s, p, g);
    case Reap(_) =>
  }

  lemma DisplacedPhase(s: State, p: PeerId, g: Generation)
    requires Inv(s) && g in s.sessions
    ensures var t := s.Displace(p);
      && g in t.sessions
      && (t.sessions[g].phase.Negotiating? <==> s.sessions[g].phase.Negotiating?)
      && (t.sessions[g].phase.Over? <==> s.sessions[g].phase.Over?)
  {
    if p in s.peers && s.peers[p].LiveAt? { assert s.Is(s.peers[p].gen, p, Held); }
  }

  lemma MovedPhase(s: State, h: Generation, phase: Phase, g: Generation)
    requires g in s.sessions
    ensures var t := s.Move(h, phase); g in t.sessions && t.sessions[g].phase == if g == h then phase else s.sessions[g].phase
  {
  }

  /** Steps that speak of a session come after its number was handed out. */
  lemma {:induction false} OnlyAfterwards(steps: seq<Step>, n: nat, g: Generation)
    requires Trace(START, steps) && n <= |steps| && g !in At(steps, n).sessions
    ensures forall i :: 0 <= i < n ==> !Settles(steps[i], g) && !Finishes(At(steps, i), steps[i], g)
  {
    hide Run, Next;
    if n > 0 {
      AtNext(steps, n - 1);
      var s, step := At(steps, n - 1), steps[n - 1];
      if g in s.sessions { SamePeer(s, step, g); }
      OnlyAfterwards(steps, n - 1, g);
    }
  }

  lemma {:induction false} PhaseUpTo(steps: seq<Step>, n: nat, g: Generation)
    requires Trace(START, steps) && n <= |steps| && g in At(steps, n).sessions
    ensures At(steps, n).sessions[g].phase.Negotiating? <==> forall i :: 0 <= i < n ==> !Settles(steps[i], g)
    ensures At(steps, n).sessions[g].phase.Over? <==> exists i :: 0 <= i < n && Finishes(At(steps, i), steps[i], g)
  {
    hide Inv, Run, Next, Enabled, Settles, Finishes;
    StartInv(steps);
    AtNext(steps, n - 1);
    var s, step := At(steps, n - 1), steps[n - 1];
    if g in s.sessions {
      PhaseUpTo(steps, n - 1, g);
      PhaseStep(s, step, g);
      if Finishes(s, step, g) { assert Finishes(At(steps, n - 1), steps[n - 1], g); }
    } else {
      OnlyAfterwards(steps, n - 1, g);
      Fresh(s, step, g);
    }
  }

  lemma Fresh(s: State, step: Step, g: Generation)
    requires Inv(s) && Enabled(s, step) && g !in s.sessions && g in Next(s, step).sessions
    ensures Next(s, step).sessions[g].phase.Negotiating? && !Settles(step, g) && !Finishes(s, step, g)
  {
    NewSession(s, step, g);
  }

  /** Over every trace: a session is still negotiating exactly if it was neither admitted nor refused, and over exactly
      if it was refused, stopped, or failed while it held its slot. */
  lemma PhaseExactly(steps: seq<Step>, g: Generation)
    requires Trace(START, steps) && g in Run(START, steps).sessions
    ensures var phase := Run(START, steps).sessions[g].phase;
      && (phase.Negotiating? <==>
          forall i :: 0 <= i < |steps| ==> !((steps[i].Admit? || steps[i].Refuse?) && steps[i].gen == g))
      && (phase.Over? <==>
          exists i :: 0 <= i < |steps| &&
            (((steps[i].Refuse? || steps[i].Stop?) && steps[i].gen == g) || FailedAt(steps, i, g)))
  {
    hide Inv, Run, Next;
    assert steps[..|steps|] == steps;
    PhaseUpTo(steps, |steps|, g);
    assert forall i :: 0 <= i < |steps| ==> (Settles(steps[i], g) <==> (steps[i].Admit? || steps[i].Refuse?) && steps[i].gen == g);
    forall i | 0 <= i < |steps|
      ensures Finishes(At(steps, i), steps[i], g) <==>
        ((steps[i].Refuse? || steps[i].Stop?) && steps[i].gen == g) || FailedAt(steps, i, g)
    {
    }
  }

  // ---- slots -----------------------------------------------------------------------------------------

  /** Over every trace: a session holds its peer's slot exactly if it was admitted and no step since has ended it. */
  lemma HoldsExactly(steps: seq<Step>, p: PeerId, g: Generation)
    requires Trace(START, steps)
    ensures Run(START, steps).Holds(p, g) <==> exists j: nat :: AdmittedAt(steps, j, |steps|, p, g)
  {
    hide Run, Next;
    assert steps[..|steps|] == steps;
    if Run(START, steps).Holds(p, g) {
      var j := HeldSince(steps, |steps|, p, g);
    } else if j: nat :| AdmittedAt(steps, j, |steps|, p, g) {
      StillHeld(steps, j, p, g);
    }
  }

  predicate HasNat(s: State, p: PeerId) {
    p in s.peers && s.peers[p].Nat?
  }

  /** The step takes a NAT-traversed session's slot away from `p`. */
  predicate EndsNat(step: Step, p: PeerId) {
    (step.Admit? || step.Remove? || step.Reap?) && step.peer == p
  }

  lemma NatStep(s: State, step: Step, p: PeerId)
    ensures HasNat(Next(s, step), p) <==> step == AdoptNat(p) || (HasNat(s, p) && !EndsNat(step, p))
  {
  }

  ghost predicate AdoptedAt(steps: seq<Step>, j: nat, n: nat, p: PeerId)
    requires n <= |steps|
  {
    j < n && steps[j] == AdoptNat(p) && forall k :: j < k < n ==> !EndsNat(steps[k], p)
  }

  lemma {:induction false} NatUpTo(steps: seq<Step>, n: nat, p: PeerId)
    requires Trace(START, steps) && n <= |steps|
    ensures HasNat(At(steps, n), p) <==> exists j: nat :: AdoptedAt(steps, j, n, p)
  {
    hide Inv, Run, Next, Enabled, EndsNat;
    StartInv(steps);
    if n > 0 {
      var m := n - 1;
      NatUpTo(steps, m, p);
      AtNext(steps, m);
      NatStep(At(steps, m), steps[m], p);
      if steps[m] == AdoptNat(p) {
        assert AdoptedAt(steps, m, n, p);
      } else if j: nat :| AdoptedAt(steps, j, m, p) {
        if !EndsNat(steps[m], p) { assert AdoptedAt(steps, j, n, p); }
      }
      if j: nat :| AdoptedAt(steps, j, n, p) {
        if j < m { assert AdoptedAt(steps, j, m, p); }
      }
    }
  }

  /** Over every trace: a peer's slot is one of a NAT-traversed session exactly if one was adopted and since then no
      session of the peer was admitted, and the slot neither removed nor reaped. */
  lemma NatExactly(steps: seq<Step>, p: PeerId)
    requires Trace(START, steps)
    ensures var peers := Run(START, steps).peers;
      p in peers && peers[p].Nat? <==> exists j: nat :: AdoptedAt(steps, j, |steps|, p)
  {
    hide Inv, Run, Next;
    assert steps[..|steps|] == steps;
    NatUpTo(steps, |steps|, p);
  }
}
