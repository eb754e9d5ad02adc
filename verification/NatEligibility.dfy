/**
 Who is let into the pool of NAT-traversed sessions and who is not, in terms of the peer map and the caps alone; and
 which session makes way for a discovered peer.
 */
module NatEligibility {
  import opened Wrappers
  import opened Peers
  import opened NatAdmission
  import opened NatDiversity

  // ---- counts and caps -----------------------------------------------------------------------------

  const ACCEPTED: Test := (s: Slot) => s.Nat? && !s.outbound
  const ACCEPTED_DIRECT: Test := (s: Slot) => s.Nat? && !s.outbound && !s.relayed
  const ACCEPTED_RELAYED: Test := (s: Slot) => s.Nat? && !s.outbound && s.relayed
  const DIALED_RELAYED: Test := (s: Slot) => s.Nat? && s.outbound && s.relayed

  function FromGroup(cfg: Config, g: nat): Test {
    (s: Slot) => s.Nat? && !s.outbound && !s.relayed && cfg.sourceGroup(s.remote) == g
  }

  lemma CountsAre(cfg: Config, peers: Slots, g: nat)
    ensures Count(peers, INBOUND) == Count(peers, ACCEPTED)
    ensures Count(peers, DIRECT) == Count(peers, ACCEPTED_DIRECT)
    ensures Count(peers, RELAYED) == Count(peers, ACCEPTED_RELAYED)
    ensures Count(peers, RELAYED_OUT) == Count(peers, DIALED_RELAYED)
    ensures Count(peers, InGroup(cfg, g)) == Count(peers, FromGroup(cfg, g))
  {
    assert Members(peers, INBOUND) == Members(peers, ACCEPTED);
    assert Members(peers, DIRECT) == Members(peers, ACCEPTED_DIRECT);
    assert Members(peers, RELAYED) == Members(peers, ACCEPTED_RELAYED);
    assert Members(peers, RELAYED_OUT) == Members(peers, DIALED_RELAYED);
    assert Members(peers, InGroup(cfg, g)) == Members(peers, FromGroup(cfg, g));
  }

  /** The reserve is a quarter, and at least one: of the pool for accepted peers together, of their share for each tier,
      of the outbound target for relayed dials.  A tier is never closed while the accepted peers have any room; and one
      source group has at most a quarter of the direct tier, rounded up, or two. */
  lemma CapsAre(m: nat, target: nat)
    ensures m >= 1 ==> m - MaxInboundTotal(m) == if m / 4 >= 1 then m / 4 else 1
    ensures var b := MaxInboundTotal(m);
      && (b >= 2 ==> b - MaxDirectInbound(m) == if b / 4 >= 1 then b / 4 else 1)
      && (b <= 1 ==> MaxDirectInbound(m) == b)
      && MaxRelayedInbound(m) == MaxDirectInbound(m)
    ensures var group := MaxDirectInboundPerGroup(m);
      && group >= 2 && 4 * group >= MaxDirectInbound(m)
      && (group == 2 || 4 * group <= MaxDirectInbound(m) + 3)
    ensures target >= 1 ==> target - MaxRelayedOutbound(target) == if target / 4 >= 1 then target / 4 else 1
    ensures MaxInboundTotal(0) == 0 && MaxRelayedOutbound(0) == 0
    ensures MaxInboundTotal(8) == 6 && MaxDirectInbound(8) == 5 && MaxDirectInboundPerGroup(8) == 2
    ensures MaxDirectInboundPerGroup(50) == 8 && MaxRelayedOutbound(8) == 6
  {
  }

  // ---- who is never let in -------------------------------------------------------------------------

  predicate Admission(step: Step) {
    step.Dialed? || step.Relayed? || step.Direct?
  }

  /** A slot may come of the step. */
  predicate Joins(step: Step) {
    Admission(step) || step.Link?
  }

  /** The path is the one for the session's tier. */
  predicate RightTier(step: Step)
    requires Joins(step)
  {
    step.Dialed? || step.Link? || step.relayed == step.Relayed?
  }

  /** No path admits this node itself or a banned peer, and they are told so, in that order. */
  lemma NeverAdmitted(cfg: Config, s: Pool, step: Step)
    requires Joins(step) && (step.banned || step.id == cfg.self)
    ensures After(cfg, s, step) == s
    ensures RightTier(step) ==> Attempted(cfg, s, step) == Err(if step.id == cfg.self then SelfConnection else Banned)
    ensures !RightTier(step) ==> Attempted(cfg, s, step) == Err(WrongTier)
  {
    hide Count, MakeRoom, OutboundRefusal;
  }

  /** The step is an admission of `id`, banned or of this node itself, or it is about another peer. */
  predicate Hopeless(cfg: Config, step: Step, id: PeerId) {
    || step.id != id
    || (Joins(step) && (step.banned || id == cfg.self))
    || step.Leave? || step.Begin? || step.End? || step.Kept?
  }

  lemma StepKeepsOut(cfg: Config, s: Pool, step: Step, id: PeerId)
    requires id !in s.peers && Hopeless(cfg, step, id)
    ensures id !in After(cfg, s, step).peers
  {
    hide Count, MakeRoom, OutboundRefusal, AdmitDialed, AdoptRelayed, AdoptDirect;
    if Joins(step) && step.id == id {
      NeverAdmitted(cfg, s, step);
    } else {
      match step
      case Dialed(x, remote, relayed, discovered, banned, now) =>
        DialedPeers(cfg, s, x, remote, relayed, discovered, banned, now);
      case Relayed(x, remote, relayed, banned, now) =>
        if AdoptRelayed(cfg, s, x, remote, relayed, banned, now).Ok? { RelayedIs(cfg, s, x, remote, relayed, banned, now); }
      case Direct(x, remote, relayed, banned, now) =>
        if AdoptDirect(cfg, s, x, remote, relayed, banned, now).Ok? { DirectIs(cfg, s, x, remote, relayed, banned, now); }
      case _ =>
    }
  }

  lemma DialedPeers(cfg: Config, s: Pool, id: PeerId, remote: Addr, relayed: bool, discovered: bool, banned: bool, now: nat)
    ensures var r := AdmitDialed(cfg, s, id, remote, relayed, discovered, banned, now);
      r.Ok? ==> forall x :: x in r.value.peers && x != id ==> x in s.peers && r.value.peers[x] == s.peers[x]
  {
    hide MakeRoom, OutboundRefusal;
    if MakeRoom(cfg, s, now).Ok? { RoomMade(cfg, s, now); }
  }

  /** Over every run a peer all of whose admissions are hopeless stays out: this node itself, and a banned one. */
  lemma {:induction false} StaysOut(cfg: Config, s: Pool, steps: seq<Step>, id: PeerId)
    requires id !in s.peers && forall i :: 0 <= i < |steps| ==> Hopeless(cfg, steps[i], id)
    ensures id !in Run(cfg, s, steps).peers
    decreases |steps|
  {
    hide After, Hopeless;
    if steps != [] {
      StepKeepsOut(cfg, s, steps[0], id);
      StaysOut(cfg, After(cfg, s, steps[0]), steps[1..], id);
    }
  }

  /** In particular no run ever creates a slot for this node itself. */
  lemma NoSelfConnection(cfg: Config, steps: seq<Step>)
    ensures cfg.self !in Run(cfg, Pool(map[], map[], None), steps).peers
  {
    forall i | 0 <= i < |steps| ensures Hopeless(cfg, steps[i], cfg.self) {}
    StaysOut(cfg, Pool(map[], map[], None), steps, cfg.self);
  }

  // ---- who is let in, exactly ------------------------------------------------------------------------

  /** Within the caps, an accepted direct session is taken exactly if it comes over the right path from a peer that is
      neither this node nor banned, that holds no slot with a dial address, and that fits: the pool has a place or the
      peer one already, and with it the counts are still within the caps. */
  lemma DirectExactly(cfg: Config, s: Pool, id: PeerId, remote: Addr, relayed: bool, banned: bool, now: nat)
    requires Caps(cfg, s.peers)
    ensures AdoptDirect(cfg, s, id, remote, relayed, banned, now).Ok? <==>
      var u := s.peers[id := Nat(remote, false, false)];
      && !relayed && id != cfg.self && !banned
      && (id in s.peers ==> s.peers[id].Nat? && (s.peers[id].relayed || !s.peers[id].outbound))
      && (id in s.peers || |s.peers| < cfg.maxConnections)
      && Count(u, ACCEPTED_DIRECT) <= MaxDirectInbound(cfg.maxConnections)
      && Count(u, ACCEPTED) <= MaxInboundTotal(cfg.maxConnections)
      && Count(u, FromGroup(cfg, cfg.sourceGroup(remote))) <= MaxDirectInboundPerGroup(cfg.maxConnections)
  {
    hide Count;
    var slot := Nat(remote, false, false);
    var g := cfg.sourceGroup(remote);
    CountsAre(cfg, s.peers[id := slot], g);
    CountInsert(s.peers, DIRECT, id, slot);
    CountInsert(s.peers, INBOUND, id, slot);
    CountInsert(s.peers, InGroup(cfg, g), id, slot);
    CountRemove(s.peers, InGroup(cfg, g), id);
  }

  /** The same for an accepted circuit, which takes no place but that of another relayed session of the peer. */
  lemma RelayedExactly(cfg: Config, s: Pool, id: PeerId, remote: Addr, relayed: bool, banned: bool, now: nat)
    requires Caps(cfg, s.peers)
    ensures AdoptRelayed(cfg, s, id, remote, relayed, banned, now).Ok? <==>
      var u := s.peers[id := Nat(remote, false, true)];
      && relayed && id != cfg.self && !banned
      && (id in s.peers ==> s.peers[id].Nat? && s.peers[id].relayed)
      && (id in s.peers || |s.peers| < cfg.maxConnections)
      && Count(u, ACCEPTED_RELAYED) <= MaxRelayedInbound(cfg.maxConnections)
      && Count(u, ACCEPTED) <= MaxInboundTotal(cfg.maxConnections)
  {
    hide Count;
    var slot := Nat(remote, false, true);
    CountsAre(cfg, s.peers[id := slot], 0);
    CountInsert(s.peers, RELAYED, id, slot);
    CountInsert(s.peers, INBOUND, id, slot);
  }

  /** A link is taken exactly if the peer is neither this node nor banned and, when this node dialed it, renews an outbound
      session or is in no other's subnet or system. */
  lemma LinkExactly(cfg: Config, s: Pool, id: PeerId, remote: Addr, outbound: bool, banned: bool)
    ensures AdmitLink(cfg, s, id, remote, outbound, banned).Ok? <==>
      && id != cfg.self && !banned
      && (outbound ==> (id in s.peers && s.peers[id].outbound) || !Crowded(cfg, s.peers, id, remote))
    ensures AdmitLink(cfg, s, id, remote, outbound, banned).Ok? ==>
      AdmitLink(cfg, s, id, remote, outbound, banned).value == s.(peers := s.peers[id := Live(remote, outbound)])
  {
    hide Count, Crowded, OutboundRefusal;
    RefusedOutbound(cfg, s.peers, id, remote, false);
  }

  /** The session takes up an outbound place of its own: it has an address of its peer, and this node dialed it. */
  predicate DirectDial(s: Slot) {
    s.outbound && !(s.Nat? && s.relayed)
  }

  /** A session there takes up the subnet, or the known autonomous system, of `remote`. */
  predicate Crowds(cfg: Config, slot: Slot, remote: Addr) {
    DirectDial(slot) &&
      (cfg.subnet(slot.remote) == cfg.subnet(remote) || (cfg.asn(remote).Some? && cfg.asn(slot.remote) == cfg.asn(remote)))
  }

  ghost predicate Crowded(cfg: Config, peers: Slots, id: PeerId, remote: Addr) {
    exists o :: o in peers && o != id && Crowds(cfg, peers[o], remote)
  }

  lemma CrowdedIs(cfg: Config, peers: Slots, id: PeerId, remote: Addr)
    ensures Crowded(cfg, peers, id, remote) <==> Conflict(cfg, peers, id, remote)
  {
    ConflictIsClash(cfg, peers, id, Live(remote, true));
    if Conflict(cfg, peers, id, remote) {
      var o :| o in peers && o != id && Clash(cfg, peers[o], Live(remote, true));
      assert Crowds(cfg, peers[o], remote);
    }
    if o :| o in peers && o != id && Crowds(cfg, peers[o], remote) {
      assert Clash(cfg, peers[o], Live(remote, true));
    }
  }

  /** The session may be cycled out at `now`: no work is under way over it, and it is long enough established and idle. */
  predicate Cyclable(cfg: Config, s: Pool, o: PeerId, now: nat) {
    && o in s.peers && s.peers[o].Nat? && o in s.activity
    && s.activity[o].inFlight == 0
    && SatSub(now, s.activity[o].admittedAt) >= cfg.minEstablishedSecs
    && SatSub(now, s.activity[o].admittedAt) >= cfg.minIdleSecs
    && SatSub(now, s.activity[o].lastActiveAt) >= cfg.minIdleSecs
  }

  lemma CyclableIsIdle(cfg: Config, s: Pool, o: PeerId, now: nat)
    ensures o in Idle(cfg, s, now) <==> Cyclable(cfg, s, o, now)
  {
  }

  /** No displacement since less than the interval, which is at least ten minutes. */
  predicate LongEnough(cfg: Config, last: Option<nat>, now: nat) {
    last.None? || now >= SatAdd(last.value, if cfg.displacementIntervalSecs > 600 then cfg.displacementIntervalSecs else 600, U64_MAX)
  }

  /** A dialed session is taken exactly if the peer is neither this node nor banned; it renews one this node dialed, or
      there is an outbound place for it: under the cap over a relay, in no other's subnet or system directly; and the
      peer has a place, or the pool does, or, for a discovered peer, an idle session can make way. */
  lemma DialedExactly(cfg: Config, s: Pool, id: PeerId, remote: Addr, relayed: bool, discovered: bool, banned: bool, now: nat)
    ensures AdmitDialed(cfg, s, id, remote, relayed, discovered, banned, now).Ok? <==>
      && id != cfg.self && !banned
      && ((id in s.peers && s.peers[id].outbound)
          || (if relayed then Count(s.peers, DIALED_RELAYED) < MaxRelayedOutbound(cfg.targetOutbound)
              else !Crowded(cfg, s.peers, id, remote)))
      && (id in s.peers || |s.peers| < cfg.maxConnections
          || (discovered && |s.peers| > cfg.minPeers && LongEnough(cfg, s.lastDisplacement, now)
              && exists o :: Cyclable(cfg, s, o, now)))
  {
    hide Count, Idle, Cyclable, Crowded, Victim;
    CountsAre(cfg, s.peers, 0);
    RefusedOutbound(cfg, s.peers, id, remote, relayed);
    forall o ensures o in Idle(cfg, s, now) <==> Cyclable(cfg, s, o, now) { CyclableIsIdle(cfg, s, o, now); }
    if Idle(cfg, s, now) != {} {
      var o :| o in Idle(cfg, s, now);
      assert Cyclable(cfg, s, o, now);
    }
  }

  lemma RefusedOutbound(cfg: Config, peers: Slots, id: PeerId, remote: Addr, relayed: bool)
    ensures OutboundRefusal(cfg, peers, id, remote, relayed).None? <==>
      || (id in peers && peers[id].outbound)
      || (if relayed then Count(peers, RELAYED_OUT) < MaxRelayedOutbound(cfg.targetOutbound)
          else !Crowded(cfg, peers, id, remote))
  {
    hide Count, Crowded, Conflict;
    CrowdedIs(cfg, peers, id, remote);
    if !relayed { NoRefusal(cfg, peers, id, remote); }
  }

  // ---- who makes way ---------------------------------------------------------------------------------

  /** The session that makes way may, and of those that may it is the one unused for longest; of these the one held
      for longest; and of these the one with the smallest identity. */
  lemma VictimIsIdlest(cfg: Config, s: Pool, now: nat, o: PeerId)
    requires |s.peers| >= cfg.maxConnections && MakeRoom(cfg, s, now).Ok? && Cyclable(cfg, s, o, now)
    ensures var v := Victim(cfg, s, now);
      && Cyclable(cfg, s, v, now)
      && MakeRoom(cfg, s, now) == Ok(Pool(s.peers - {v}, s.activity - {v}, Some(now)))
      && s.activity[v].lastActiveAt <= s.activity[o].lastActiveAt
      && (s.activity[v].lastActiveAt == s.activity[o].lastActiveAt ==> s.activity[v].admittedAt <= s.activity[o].admittedAt)
      && (s.activity[v].lastActiveAt == s.activity[o].lastActiveAt && s.activity[v].admittedAt == s.activity[o].admittedAt ==>
            cfg.rank(v) <= cfg.rank(o))
  {
    hide Idle;
    CyclableIsIdle(cfg, s, o, now);
    RoomMade(cfg, s, now);
    CyclableIsIdle(cfg, s, Victim(cfg, s, now), now);
    assert Sooner(cfg, s, Victim(cfg, s, now), o);
  }

  // ---- what an admission records, and what it protects from ------------------------------------------

  /** An admitted session counts as established and used from then on; work already under way over it still does. */
  lemma AdmissionRecorded(cfg: Config, s: Pool, step: Step)
    requires Admission(step) && Attempted(cfg, s, step).Ok?
    ensures var u := After(cfg, s, step);
      && step.id in u.peers && u.peers[step.id] == Nat(step.remote, step.Dialed?, step.relayed)
      && step.id in u.activity
      && u.activity[step.id].admittedAt == u.activity[step.id].lastActiveAt == step.now
      && (step.id in s.peers && step.id in s.activity ==> u.activity[step.id].inFlight == s.activity[step.id].inFlight)
  {
    hide Count, Idle, Victim, OutboundRefusal;
  }

  /** The session is one of this pool, and `k` pieces of work are under way over it. */
  predicate Busy(s: Pool, id: PeerId, k: nat) {
    id in s.peers && s.peers[id].Nat? && id in s.activity && s.activity[id].inFlight >= k
  }

  /** The step leaves the slot of `id` to itself: it neither admits, links nor removes that peer. */
  predicate Elsewhere(step: Step, id: PeerId) {
    step.id != id || step.Begin? || step.End? || step.Kept?
  }

  /** Work begun less work ended by the step. */
  function Change(step: Step, id: PeerId): int {
    if step.id != id then 0 else if step.Begin? then 1 else if step.End? then -1 else 0
  }

  lemma StepSparesBusy(cfg: Config, s: Pool, step: Step, id: PeerId, k: nat)
    requires Busy(s, id, k) && k >= 1 && Elsewhere(step, id)
    ensures var u := After(cfg, s, step);
      && u.peers.Keys >= {id} && u.peers[id] == s.peers[id]
      && Busy(u, id, if k + Change(step, id) >= 0 then k + Change(step, id) else 0)
  {
    hide Count, Idle, Victim, OutboundRefusal, AdmitDialed, AdoptRelayed, AdoptDirect, AdmitLink;
    match step
    case Dialed(x, remote, relayed, discovered, banned, now) =>
      DialSparesBusy(cfg, s, x, remote, relayed, discovered, banned, now, id);
    case Relayed(x, remote, relayed, banned, now) => AdoptionSpares(cfg, s, step, id);
    case Direct(x, remote, relayed, banned, now) => AdoptionSpares(cfg, s, step, id);
    case Leave(_) =>
    case Begin(_, _) =>
    case End(_, _) =>
    case Link(x, remote, outbound, banned) => LinkSpares(cfg, s, x, remote, outbound, banned, id);
    case Kept(_) =>
  }

  lemma AdoptionSpares(cfg: Config, s: Pool, step: Step, id: PeerId)
    requires (step.Relayed? || step.Direct?) && step.id != id && id in s.peers && id in s.activity
    ensures var u := After(cfg, s, step);
      id in u.peers && id in u.activity && u.peers[id] == s.peers[id] && u.activity[id] == s.activity[id]
  {
    hide Count;
  }

  lemma LinkSpares(cfg: Config, s: Pool, x: PeerId, remote: Addr, outbound: bool, banned: bool, id: PeerId)
    requires x != id && id in s.peers
    ensures var u := After(cfg, s, Link(x, remote, outbound, banned));
      id in u.peers && u.peers[id] == s.peers[id] && u.activity == s.activity
  {
    hide OutboundRefusal;
  }

  lemma DialSparesBusy(cfg: Config, s: Pool, x: PeerId, remote: Addr, relayed: bool, discovered: bool, banned: bool, now: nat,
      id: PeerId)
    requires Busy(s, id, 1) && x != id
    ensures var r := AdmitDialed(cfg, s, x, remote, relayed, discovered, banned, now);
      r.Ok? ==> && id in r.value.peers && r.value.peers[id] == s.peers[id]
                && id in r.value.activity && r.value.activity[id] == s.activity[id]
  {
    hide Count, OutboundRefusal, Idle, Victim;
    if |s.peers| >= cfg.maxConnections && MakeRoom(cfg, s, now).Ok? {
      RoomMade(cfg, s, now);
      BusyIsNotIdle(cfg, s, id, now);
    }
  }

  lemma BusyIsNotIdle(cfg: Config, s: Pool, id: PeerId, now: nat)
    requires Busy(s, id, 1) && Idle(cfg, s, now) != {}
    ensures Victim(cfg, s, now) != id
  {
  }

  /** At every moment of the run more work over `id`'s session has begun than ended, `k` pieces being under way before. */
  ghost predicate BusyThroughout(steps: seq<Step>, id: PeerId, k: int)
    decreases |steps|
  {
    k >= 1 && (steps == [] || (Elsewhere(steps[0], id) && BusyThroughout(steps[1..], id, k + Change(steps[0], id))))
  }

  /** Over every run during which work is under way over a session at all times, it is not cycled out: it keeps its slot,
      as long as nobody removes, renews or replaces it. */
  lemma {:induction false} BusyIsSpared(cfg: Config, s: Pool, steps: seq<Step>, id: PeerId, k: nat)
    requires Busy(s, id, k) && BusyThroughout(steps, id, k)
    ensures id in Run(cfg, s, steps).peers && Run(cfg, s, steps).peers[id] == s.peers[id]
    decreases |steps|
  {
    hide After, Elsewhere, Change;
    if steps != [] {
      StepSparesBusy(cfg, s, steps[0], id, k);
      BusyIsSpared(cfg, After(cfg, s, steps[0]), steps[1..], id, k + Change(steps[0], id));
    }
  }

  /** A session just used, or just admitted, is not cycled out before it has been idle, and established, for long
      enough. */
  lemma RecentlyUsedIsSpared(cfg: Config, s: Pool, step: Step, later: nat)
    requires if Admission(step) then Attempted(cfg, s, step).Ok? else (step.Begin? || step.End?) && step.id in s.activity
    requires step.now <= later
    ensures var u := After(cfg, s, step);
      && (later < step.now + cfg.minIdleSecs ==> !Cyclable(cfg, u, step.id, later))
      && (Admission(step) && later < step.now + cfg.minEstablishedSecs ==> !Cyclable(cfg, u, step.id, later))
  {
    hide Count, Idle, Victim, OutboundRefusal, MakeRoom, AdmitDialed, AdoptRelayed, AdoptDirect;
    if Admission(step) { AdmissionRecorded(cfg, s, step); }
  }

  /** There is a record of use only for sessions in the pool. */
  ghost predicate Recorded(s: Pool) {
    s.activity.Keys <= s.peers.Keys
  }

  lemma StepKeepsRecords(cfg: Config, s: Pool, step: Step)
    requires Recorded(s)
    ensures Recorded(After(cfg, s, step))
  {
    hide Count, Idle, Victim, OutboundRefusal;
    if step.Dialed? && MakeRoom(cfg, s, step.now).Ok? { RoomMade(cfg, s, step.now); }
  }

  lemma {:induction false} RunKeepsRecords(cfg: Config, s: Pool, steps: seq<Step>)
    requires Recorded(s)
    ensures Recorded(Run(cfg, s, steps))
    decreases |steps|
  {
    hide After;
    if steps != [] {
      StepKeepsRecords(cfg, s, steps[0]);
      RunKeepsRecords(cfg, After(cfg, s, steps[0]), steps[1..]);
    }
  }

  // ---- what a refusal says ---------------------------------------------------------------------------

  /** A refusal gives the first reason that applies; each reason is true. */
  lemma RefusalsAreTrue(cfg: Config, s: Pool, step: Step)
    requires Admission(step) && Attempted(cfg, s, step).Err?
    ensures var held := step.id in s.peers;
      match Attempted(cfg, s, step).error
      case WrongTier => !RightTier(step)
      case SelfConnection => step.id == cfg.self
      case Banned => step.banned
      case PoolFull => !held && |s.peers| >= cfg.maxConnections
      case HoldsBetterSlot => held && !step.Dialed? && !(s.peers[step.id].Nat? && s.peers[step.id].relayed)
      case RelayedOutboundCap =>
        step.Dialed? && step.relayed && Count(s.peers, DIALED_RELAYED) >= MaxRelayedOutbound(cfg.targetOutbound)
      case SubnetTaken => step.Dialed? && Crowded(cfg, s.peers, step.id, step.remote)
      case AsTaken => step.Dialed? && Crowded(cfg, s.peers, step.id, step.remote) && cfg.asn(step.remote).Some?
      case DirectCap => step.Direct? && Count(s.peers, ACCEPTED_DIRECT) >= MaxDirectInbound(cfg.maxConnections)
      case RelayedCap => step.Relayed? && Count(s.peers, ACCEPTED_RELAYED) >= MaxRelayedInbound(cfg.maxConnections)
      case InboundCap => !step.Dialed? && Count(s.peers, ACCEPTED) >= MaxInboundTotal(cfg.maxConnections)
      case GroupCap =>
        step.Direct? && Count(s.peers - {step.id}, FromGroup(cfg, cfg.sourceGroup(step.remote)))
          >= MaxDirectInboundPerGroup(cfg.maxConnections)
      case WouldBreachMinPeers => step.Dialed? && step.discovered && |s.peers| <= cfg.minPeers
      case RateLimited => step.Dialed? && step.discovered && !LongEnough(cfg, s.lastDisplacement, step.now)
      case NoIdleIncumbent => step.Dialed? && step.discovered && forall o :: !Cyclable(cfg, s, o, step.now)
  {
    hide Count, Idle, Cyclable, Crowded, Victim, SubnetConflict, AsConflict;
    var g := cfg.sourceGroup(step.remote);
    CountsAre(cfg, s.peers, g);
    CountsAre(cfg, s.peers - {step.id}, g);
    CrowdedIs(cfg, s.peers, step.id, step.remote);
    AsIsKnown(cfg, s.peers, step.id, step.remote);
    forall o ensures o in Idle(cfg, s, step.now) <==> Cyclable(cfg, s, o, step.now) { CyclableIsIdle(cfg, s, o, step.now); }
  }

  lemma AsIsKnown(cfg: Config, peers: Slots, id: PeerId, remote: Addr)
    ensures AsConflict(cfg, peers, id, remote) ==> cfg.asn(remote).Some?
  {
  }
}
