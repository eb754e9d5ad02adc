/**
 Admission to the pool of NAT-traversed sessions: the three adoption paths of src/service/gossip_handle.rs, the
 occupancy caps and the displacement plan of src/service/peer_pool.rs, and the slot predicates of
 src/service/state.rs.  Each step is decided under one hold of the peer map's lock.
 */
module NatAdmission {
  import opened Wrappers
  import opened Peers
  import opened Sequences

  type Addr(==, !new)

  datatype Slot =
    | Stub(remote: Addr, outbound: bool)
    | Live(remote: Addr, outbound: bool)
    | Nat(remote: Addr, outbound: bool, relayed: bool)
  {
    predicate IsRelayed() {
      Nat? && relayed
    }

    predicate AcceptedInbound() {
      Nat? && !outbound
    }

    predicate AcceptedDirect() {
      AcceptedInbound() && !IsRelayed()
    }

    predicate AcceptedRelayed() {
      IsRelayed() && !outbound
    }

    /** The slot has an address at which the peer may be dialed. */
    predicate Dialable() {
      !IsRelayed() && !(Nat? && !outbound)
    }
  }

  datatype Activity = Activity(admittedAt: nat, lastActiveAt: nat, inFlight: nat)

  datatype Config = Config(
    self: PeerId,
    maxConnections: nat,
    targetOutbound: nat,
    minPeers: nat,              // already clamped to the pool's target
    minEstablishedSecs: nat,
    minIdleSecs: nat,
    displacementIntervalSecs: nat,
    sourceGroup: Addr -> nat,   // an IPv4 /16 or an IPv6 /48
    subnet: Addr -> nat,        // the outbound diversity group
    asn: Addr -> Option<nat>,
    rank: PeerId -> nat)        // identities as big-endian numbers
  {
    function Established(): nat {
      if minEstablishedSecs >= minIdleSecs then minEstablishedSecs else minIdleSecs
    }

    function Interval(): nat {
      if displacementIntervalSecs >= MIN_DISPLACEMENT_INTERVAL_SECS then displacementIntervalSecs
      else MIN_DISPLACEMENT_INTERVAL_SECS
    }
  }

  const MIN_DISPLACEMENT_INTERVAL_SECS: nat := 600

  // ---- the caps ------------------------------------------------------------------------------

  function ReservingAQuarter(n: nat): nat {
    SatSub(n, if n / 4 >= 1 then n / 4 else 1)
  }

  function AReservedShareOf(budget: nat): nat {
    var share := ReservingAQuarter(budget);
    var floored := if share >= 1 then share else 1;
    if floored <= budget then floored else budget
  }

  function MaxInboundTotal(maxConnections: nat): nat {
    ReservingAQuarter(maxConnections)
  }

  function MaxDirectInbound(maxConnections: nat): nat {
    AReservedShareOf(MaxInboundTotal(maxConnections))
  }

  function MaxRelayedInbound(maxConnections: nat): nat {
    AReservedShareOf(MaxInboundTotal(maxConnections))
  }

  function MaxDirectInboundPerGroup(maxConnections: nat): nat {
    var quarter := (MaxDirectInbound(maxConnections) + 3) / 4;
    if quarter >= 2 then quarter else 2
  }

  function MaxRelayedOutbound(targetOutbound: nat): nat {
    ReservingAQuarter(targetOutbound)
  }

  /** Accepted peers can never take a whole pool: a quarter, and at least one slot, stays out of their reach.
      Each tier has a share of its own whenever accepted peers are allowed at all. */
  lemma QuarterReserved(m: nat)
    ensures m >= 1 ==> MaxInboundTotal(m) < m && m - MaxInboundTotal(m) >= m / 4
    ensures MaxDirectInbound(m) <= MaxInboundTotal(m) && MaxRelayedInbound(m) <= MaxInboundTotal(m)
    ensures MaxInboundTotal(m) >= 1 <==> MaxDirectInbound(m) >= 1
    ensures MaxInboundTotal(m) >= 2 ==> MaxDirectInbound(m) < MaxInboundTotal(m)
  {
  }

  // ---- counting ------------------------------------------------------------------------------

  type Slots = map<PeerId, Slot>

  type Test = Slot -> bool

  function Members(peers: Slots, test: Test): set<PeerId> {
    set id | id in peers && test(peers[id])
  }

  function Count(peers: Slots, test: Test): nat {
    |Members(peers, test)|
  }

  const DIRECT: Test := (s: Slot) => s.AcceptedDirect()
  const RELAYED: Test := (s: Slot) => s.AcceptedRelayed()
  const INBOUND: Test := (s: Slot) => s.AcceptedInbound()
  const RELAYED_OUT: Test := (s: Slot) => s.IsRelayed() && s.outbound

  function InGroup(cfg: Config, g: nat): Test {
    (s: Slot) => s.AcceptedDirect() && cfg.sourceGroup(s.remote) == g
  }

  lemma CountInsert(peers: Slots, test: Test, id: PeerId, slot: Slot)
    ensures Count(peers[id := slot], test) ==
      Count(peers, test) - (if id in peers && test(peers[id]) then 1 else 0) + (if test(slot) then 1 else 0)
  {
    hide Members;
    MembersInsert(peers, test, id, slot);
    CardinalityWithout(Members(peers, test), id);
    CardinalityWithout(Members(peers[id := slot], test), id);
  }

  lemma MembersInsert(peers: Slots, test: Test, id: PeerId, slot: Slot)
    ensures id in Members(peers, test) <==> id in peers && test(peers[id])
    ensures id in Members(peers[id := slot], test) <==> test(slot)
    ensures Members(peers[id := slot], test) - {id} == Members(peers, test) - {id}
  {
    var before, after := Members(peers, test), Members(peers[id := slot], test);
    forall x ensures x in after - {id} <==> x in before - {id} {
      if x != id && x in peers { assert peers[id := slot][x] == peers[x]; }
    }
  }

  lemma CardinalityWithout(ids: set<PeerId>, id: PeerId)
    ensures |ids| == |ids - {id}| + (if id in ids then 1 else 0)
  {
    if id in ids { assert ids == (ids - {id}) + {id}; } else { assert ids == ids - {id}; }
  }

  lemma CountRemove(peers: Slots, test: Test, id: PeerId)
    ensures Count(peers - {id}, test) == Count(peers, test) - (if id in peers && test(peers[id]) then 1 else 0)
  {
    assert Members(peers - {id}, test) == Members(peers, test) - {id};
  }

  lemma SizeInsert(peers: Slots, id: PeerId, slot: Slot)
    ensures |peers[id := slot]| == |peers| + (if id in peers then 0 else 1)
    ensures |peers - {id}| == |peers| - (if id in peers then 1 else 0)
  {
    assert peers[id := slot].Keys == peers.Keys + {id};
    assert (peers - {id}).Keys == peers.Keys - {id};
  }

  // ---- the pool ------------------------------------------------------------------------------

  datatype Pool = Pool(peers: Slots, activity: map<PeerId, Activity>, lastDisplacement: Option<nat>)

  datatype Refusal =
    | SelfConnection | Banned | PoolFull
    | WrongTier | HoldsBetterSlot
    | RelayedOutboundCap | SubnetTaken | AsTaken
    | DirectCap | RelayedCap | InboundCap | GroupCap
    | WouldBreachMinPeers | RateLimited | NoIdleIncumbent

  function Admitted(s: Pool, id: PeerId, slot: Slot, now: nat): Pool {
    s.(peers := s.peers[id := slot],
       activity := s.activity[id := Activity(now, now, if id in s.activity then s.activity[id].inFlight else 0)])
  }

  function Left(s: Pool, id: PeerId): Pool {
    s.(peers := s.peers - {id}, activity := s.activity - {id})
  }

  // ---- displacement --------------------------------------------------------------------------

  predicate Displaceable(cfg: Config, a: Activity, now: nat) {
    a.inFlight == 0 && SatSub(now, a.admittedAt) >= cfg.Established() && SatSub(now, a.lastActiveAt) >= cfg.minIdleSecs
  }

  /** The sessions that may be cycled out. */
  ghost function Idle(cfg: Config, s: Pool, now: nat): set<PeerId> {
    set id | id in s.peers && s.peers[id].Nat? && id in s.activity && Displaceable(cfg, s.activity[id], now)
  }

  /** `a` is cycled out rather than `b`: least recently used, then longest held, then by identity. */
  predicate Sooner(cfg: Config, s: Pool, a: PeerId, b: PeerId)
    requires a in s.activity && b in s.activity
  {
    var x, y := s.activity[a], s.activity[b];
    || x.lastActiveAt < y.lastActiveAt
    || (x.lastActiveAt == y.lastActiveAt && x.admittedAt < y.admittedAt)
    || (x.lastActiveAt == y.lastActiveAt && x.admittedAt == y.admittedAt && cfg.rank(a) <= cfg.rank(b))
  }

  lemma {:induction false} SomeoneIsFirst(cfg: Config, s: Pool, ids: set<PeerId>)
    requires ids != {} && forall id :: id in ids ==> id in s.activity
    ensures exists v :: v in ids && forall o :: o in ids ==> Sooner(cfg, s, v, o)
  {
    var x :| x in ids;
    if ids == {x} {
      assert forall o :: o in ids ==> Sooner(cfg, s, x, o);
    } else {
      var rest := ids - {x};
      SomeoneIsFirst(cfg, s, rest);
      var v :| v in rest && forall o :: o in rest ==> Sooner(cfg, s, v, o);
      var first := if Sooner(cfg, s, x, v) then x else v;
      forall o | o in ids ensures Sooner(cfg, s, first, o) {
        if o != x { assert Sooner(cfg, s, v, o); }
      }
      assert first in ids;
    }
  }

  ghost function Victim(cfg: Config, s: Pool, now: nat): (v: PeerId)
    requires Idle(cfg, s, now) != {}
    ensures v in Idle(cfg, s, now) && forall o :: o in Idle(cfg, s, now) ==> Sooner(cfg, s, v, o)
  {
    SomeoneIsFirst(cfg, s, Idle(cfg, s, now));
    var v :| v in Idle(cfg, s, now) && forall o :: o in Idle(cfg, s, now) ==> Sooner(cfg, s, v, o);
    v
  }

  /** Make room for a discovered holder: nothing below capacity, otherwise one idle session goes. */
  ghost function MakeRoom(cfg: Config, s: Pool, now: nat): Result<Pool, Refusal> {
    if |s.peers| < cfg.maxConnections then Ok(s)
    else if |s.peers| <= cfg.minPeers then Err(WouldBreachMinPeers)
    else if s.lastDisplacement.Some? && now < SatAdd(s.lastDisplacement.value, cfg.Interval(), U64_MAX) then Err(RateLimited)
    else if Idle(cfg, s, now) == {} then Err(NoIdleIncumbent)
    else Ok(Left(s, Victim(cfg, s, now)).(lastDisplacement := Some(now)))
  }

  // ---- the three paths -----------------------------------------------------------------------

  predicate OutboundIn(peers: Slots, id: PeerId, other: PeerId)
    requires other in peers
  {
    other != id && peers[other].outbound && !peers[other].IsRelayed()
  }

  predicate SubnetConflict(cfg: Config, peers: Slots, id: PeerId, remote: Addr) {
    exists o :: o in peers && OutboundIn(peers, id, o) && cfg.subnet(peers[o].remote) == cfg.subnet(remote)
  }

  predicate AsConflict(cfg: Config, peers: Slots, id: PeerId, remote: Addr) {
    cfg.asn(remote).Some? &&
    exists o :: o in peers && OutboundIn(peers, id, o) && cfg.asn(peers[o].remote) == cfg.asn(remote)
  }

  predicate HeldOutbound(peers: Slots, id: PeerId) {
    id in peers && peers[id].outbound
  }

  /** The outbound budgets a dialed session must fit, unless it renews one this node dialed before. */
  function OutboundRefusal(cfg: Config, peers: Slots, id: PeerId, remote: Addr, relayed: bool): Option<Refusal> {
    if HeldOutbound(peers, id) then None
    else if relayed then
      if Count(peers, RELAYED_OUT) >= MaxRelayedOutbound(cfg.targetOutbound) then Some(RelayedOutboundCap) else None
    else if SubnetConflict(cfg, peers, id, remote) then Some(SubnetTaken)
    else if AsConflict(cfg, peers, id, remote) then Some(AsTaken)
    else None
  }

  /** admit_nat_connection: sessions this node dialed, for upkeep or because content discovery asked. */
  ghost function AdmitDialed(cfg: Config, s: Pool, id: PeerId, remote: Addr, relayed: bool, discovered: bool,
      banned: bool, now: nat): Result<Pool, Refusal>
  {
    if id == cfg.self then Err(SelfConnection)
    else if banned then Err(Banned)
    else if id !in s.peers && !discovered && |s.peers| >= cfg.maxConnections then Err(PoolFull)
    else match OutboundRefusal(cfg, s.peers, id, remote, relayed)
      case Some(why) => Err(why)
      case None =>
        match if id !in s.peers && discovered then MakeRoom(cfg, s, now) else Ok(s)
        case Err(why) => Err(why)
        case Ok(room) => Ok(Admitted(room, id, Nat(remote, true, relayed), now))
  }

  /** adopt_relayed_inbound: circuits accepted through a relay. */
  function AdoptRelayed(cfg: Config, s: Pool, id: PeerId, remote: Addr, relayed: bool, banned: bool, now: nat)
    : Result<Pool, Refusal>
  {
    var held := id in s.peers;
    if !relayed then Err(WrongTier)
    else if id == cfg.self then Err(SelfConnection)
    else if banned then Err(Banned)
    else if held && !s.peers[id].IsRelayed() then Err(HoldsBetterSlot)
    else if !held && |s.peers| >= cfg.maxConnections then Err(PoolFull)
    else if !(held && s.peers[id].AcceptedRelayed())
      && Count(s.peers, RELAYED) >= MaxRelayedInbound(cfg.maxConnections) then Err(RelayedCap)
    else if !(held && s.peers[id].AcceptedInbound())
      && Count(s.peers, INBOUND) >= MaxInboundTotal(cfg.maxConnections) then Err(InboundCap)
    else Ok(Admitted(s, id, Nat(remote, false, true), now))
  }

  /** adopt_direct_inbound: direct sessions accepted from outside. */
  function AdoptDirect(cfg: Config, s: Pool, id: PeerId, remote: Addr, relayed: bool, banned: bool, now: nat)
    : Result<Pool, Refusal>
  {
    var held := id in s.peers;
    var g := cfg.sourceGroup(remote);
    if relayed then Err(WrongTier)
    else if id == cfg.self then Err(SelfConnection)
    else if banned then Err(Banned)
    else if held && s.peers[id].Dialable() then Err(HoldsBetterSlot)
    else if !held && |s.peers| >= cfg.maxConnections then Err(PoolFull)
    else if !(held && s.peers[id].AcceptedDirect())
      && Count(s.peers, DIRECT) >= MaxDirectInbound(cfg.maxConnections) then Err(DirectCap)
    else if !(held && s.peers[id].AcceptedInbound())
      && Count(s.peers, INBOUND) >= MaxInboundTotal(cfg.maxConnections) then Err(InboundCap)
    else if Count(s.peers - {id}, InGroup(cfg, g)) >= MaxDirectInboundPerGroup(cfg.maxConnections) then Err(GroupCap)
    else Ok(Admitted(s, id, Nat(remote, false, false), now))
  }

  function Linked(s: Pool, id: PeerId, remote: Addr, outbound: bool): Pool {
    s.(peers := s.peers[id := Live(remote, outbound)])
  }

  /** A WebSocket link once its handshake is done: one this node dialed (connect_to) faces the budgets of a direct
      session, one it accepted (the listener) does not. */
  function AdmitLink(cfg: Config, s: Pool, id: PeerId, remote: Addr, outbound: bool, banned: bool): Result<Pool, Refusal> {
    if id == cfg.self then Err(SelfConnection)
    else if banned then Err(Banned)
    else match if outbound then OutboundRefusal(cfg, s.peers, id, remote, false) else None
      case Some(why) => Err(why)
      case None => Ok(Linked(s, id, remote, outbound))
  }

  // ---- steps ---------------------------------------------------------------------------------

  datatype Step =
    | Dialed(id: PeerId, remote: Addr, relayed: bool, discovered: bool, banned: bool, now: nat)
    | Relayed(id: PeerId, remote: Addr, relayed: bool, banned: bool, now: nat)
    | Direct(id: PeerId, remote: Addr, relayed: bool, banned: bool, now: nat)
    | Leave(id: PeerId)
    | Begin(id: PeerId, now: nat)                        // work starts over a session
    | End(id: PeerId, now: nat)
    | Link(id: PeerId, remote: Addr, outbound: bool, banned: bool)   // a WebSocket link about to be inserted
    | Kept(id: PeerId)                                   // anything that leaves the pool alone

  function Touch(s: Pool, id: PeerId, now: nat, inFlight: nat): Pool {
    if id in s.activity
    then s.(activity := s.activity[id := s.activity[id].(inFlight := inFlight, lastActiveAt := now)])
    else s
  }

  ghost function Attempted(cfg: Config, s: Pool, step: Step): Result<Pool, Refusal> {
    match step
    case Dialed(id, remote, relayed, discovered, banned, now) =>
      AdmitDialed(cfg, s, id, remote, relayed, discovered, banned, now)
    case Relayed(id, remote, relayed, banned, now) => AdoptRelayed(cfg, s, id, remote, relayed, banned, now)
    case Direct(id, remote, relayed, banned, now) => AdoptDirect(cfg, s, id, remote, relayed, banned, now)
    case Leave(id) => Ok(Left(s, id))
    case Begin(id, now) => Ok(Touch(s, id, now, if id in s.activity then s.activity[id].inFlight + 1 else 0))
    case End(id, now) => Ok(Touch(s, id, now, if id in s.activity then SatSub(s.activity[id].inFlight, 1) else 0))
    case Link(id, remote, outbound, banned) => AdmitLink(cfg, s, id, remote, outbound, banned)
    case Kept(_) => Ok(s)
  }

  /** A refused step changes nothing. */
  ghost function After(cfg: Config, s: Pool, step: Step): Pool {
    match Attempted(cfg, s, step) case Ok(t) => t case Err(_) => s
  }

  // ---- the invariant -------------------------------------------------------------------------

  ghost predicate Caps(cfg: Config, peers: Slots) {
    && Count(peers, DIRECT) <= MaxDirectInbound(cfg.maxConnections)
    && Count(peers, RELAYED) <= MaxRelayedInbound(cfg.maxConnections)
    && Count(peers, INBOUND) <= MaxInboundTotal(cfg.maxConnections)
    && (forall g :: Count(peers, InGroup(cfg, g)) <= MaxDirectInboundPerGroup(cfg.maxConnections))
  }

  /** Putting a slot that counts as no accepted peer anywhere keeps the caps, and so does removing one. */
  lemma NeutralInsert(cfg: Config, peers: Slots, id: PeerId, slot: Slot)
    requires Caps(cfg, peers) && !slot.AcceptedInbound()
    ensures Caps(cfg, peers[id := slot]) && Caps(cfg, peers - {id})
  {
    hide Count;
    forall g ensures Count(peers[id := slot], InGroup(cfg, g)) <= Count(peers, InGroup(cfg, g))
      && Count(peers - {id}, InGroup(cfg, g)) <= Count(peers, InGroup(cfg, g))
    {
      CountInsert(peers, InGroup(cfg, g), id, slot);
      CountRemove(peers, InGroup(cfg, g), id);
    }
    CountInsert(peers, DIRECT, id, slot);
    CountInsert(peers, RELAYED, id, slot);
    CountInsert(peers, INBOUND, id, slot);
    CountRemove(peers, DIRECT, id);
    CountRemove(peers, RELAYED, id);
    CountRemove(peers, INBOUND, id);
  }

  lemma RelayedCaps(cfg: Config, s: Pool, id: PeerId, remote: Addr, relayed: bool, banned: bool, now: nat)
    requires Caps(cfg, s.peers) && AdoptRelayed(cfg, s, id, remote, relayed, banned, now).Ok?
    ensures Caps(cfg, s.peers[id := Nat(remote, false, true)])
  {
    hide Count;
    var slot := Nat(remote, false, true);
    forall g ensures Count(s.peers[id := slot], InGroup(cfg, g)) <= Count(s.peers, InGroup(cfg, g)) {
      CountInsert(s.peers, InGroup(cfg, g), id, slot);
    }
    CountInsert(s.peers, DIRECT, id, slot);
    CountInsert(s.peers, RELAYED, id, slot);
    CountInsert(s.peers, INBOUND, id, slot);
  }

  lemma DirectCaps(cfg: Config, s: Pool, id: PeerId, remote: Addr, relayed: bool, banned: bool, now: nat)
    requires Caps(cfg, s.peers) && AdoptDirect(cfg, s, id, remote, relayed, banned, now).Ok?
    ensures Caps(cfg, s.peers[id := Nat(remote, false, false)])
  {
    hide Count;
    var slot := Nat(remote, false, false);
    var mine := cfg.sourceGroup(remote);
    forall g ensures Count(s.peers[id := slot], InGroup(cfg, g)) <= MaxDirectInboundPerGroup(cfg.maxConnections) {
      CountInsert(s.peers, InGroup(cfg, g), id, slot);
      CountRemove(s.peers, InGroup(cfg, g), id);
    }
    CountInsert(s.peers, DIRECT, id, slot);
    CountInsert(s.peers, RELAYED, id, slot);
    CountInsert(s.peers, INBOUND, id, slot);
  }

  lemma RelayedKeeps(cfg: Config, s: Pool, id: PeerId, remote: Addr, relayed: bool, banned: bool, now: nat)
    requires Caps(cfg, s.peers) && AdoptRelayed(cfg, s, id, remote, relayed, banned, now).Ok?
    ensures var u := AdoptRelayed(cfg, s, id, remote, relayed, banned, now).value.peers;
      Caps(cfg, u) && (|s.peers| <= cfg.maxConnections ==> |u| <= cfg.maxConnections)
  {
    hide Caps, Count, AdoptRelayed;
    RelayedIs(cfg, s, id, remote, relayed, banned, now);
    RelayedCaps(cfg, s, id, remote, relayed, banned, now);
    SizeInsert(s.peers, id, Nat(remote, false, true));
  }

  lemma DirectKeeps(cfg: Config, s: Pool, id: PeerId, remote: Addr, relayed: bool, banned: bool, now: nat)
    requires Caps(cfg, s.peers) && AdoptDirect(cfg, s, id, remote, relayed, banned, now).Ok?
    ensures var u := AdoptDirect(cfg, s, id, remote, relayed, banned, now).value.peers;
      Caps(cfg, u) && (|s.peers| <= cfg.maxConnections ==> |u| <= cfg.maxConnections)
  {
    hide Caps, Count, AdoptDirect;
    DirectIs(cfg, s, id, remote, relayed, banned, now);
    DirectCaps(cfg, s, id, remote, relayed, banned, now);
    SizeInsert(s.peers, id, Nat(remote, false, false));
  }

  lemma DirectIs(cfg: Config, s: Pool, id: PeerId, remote: Addr, relayed: bool, banned: bool, now: nat)
    requires AdoptDirect(cfg, s, id, remote, relayed, banned, now).Ok?
    ensures AdoptDirect(cfg, s, id, remote, relayed, banned, now).value.peers == s.peers[id := Nat(remote, false, false)]
    ensures id in s.peers || |s.peers| < cfg.maxConnections
  {
    hide Count;
  }

  lemma RelayedIs(cfg: Config, s: Pool, id: PeerId, remote: Addr, relayed: bool, banned: bool, now: nat)
    requires AdoptRelayed(cfg, s, id, remote, relayed, banned, now).Ok?
    ensures AdoptRelayed(cfg, s, id, remote, relayed, banned, now).value.peers == s.peers[id := Nat(remote, false, true)]
    ensures id in s.peers || |s.peers| < cfg.maxConnections
  {
    hide Count;
  }

  /** Every admission path, every removal and every link keep the caps on accepted peers; all but links keep
      the pool within its size. */
  lemma StepKeeps(cfg: Config, s: Pool, step: Step)
    requires Caps(cfg, s.peers)
    ensures Caps(cfg, After(cfg, s, step).peers)
    ensures !step.Link? && |s.peers| <= cfg.maxConnections ==> |After(cfg, s, step).peers| <= cfg.maxConnections
  {
    hide Caps, Count, AdmitDialed, AdoptRelayed, AdoptDirect;
    match step
    case Dialed(id, remote, relayed, discovered, banned, now) =>
      DialedKeeps(cfg, s, id, remote, relayed, discovered, banned, now);
    case Relayed(id, remote, relayed, banned, now) =>
      if AdoptRelayed(cfg, s, id, remote, relayed, banned, now).Ok? {
        RelayedKeeps(cfg, s, id, remote, relayed, banned, now);
      }
    case Direct(id, remote, relayed, banned, now) =>
      if AdoptDirect(cfg, s, id, remote, relayed, banned, now).Ok? {
        DirectKeeps(cfg, s, id, remote, relayed, banned, now);
      }
    case Leave(id) => LeavingKeeps(cfg, s, id);
    case Begin(_, _) =>
    case End(_, _) =>
    case Link(id, remote, outbound, _) => NeutralInsert(cfg, s.peers, id, Live(remote, outbound));
    case Kept(_) =>
  }

  lemma LeavingKeeps(cfg: Config, s: Pool, id: PeerId)
    requires Caps(cfg, s.peers)
    ensures Caps(cfg, Left(s, id).peers) && |Left(s, id).peers| == |s.peers| - (if id in s.peers then 1 else 0)
  {
    hide Caps;
    if id in s.peers {
      SizeInsert(s.peers, id, s.peers[id]);
      NeutralInsert(cfg, s.peers, id, Live(s.peers[id].remote, true));
    } else {
      assert s.peers - {id} == s.peers;
    }
  }

  lemma DialedKeeps(cfg: Config, s: Pool, id: PeerId, remote: Addr, relayed: bool, discovered: bool, banned: bool, now: nat)
    requires Caps(cfg, s.peers)
    ensures var r := AdmitDialed(cfg, s, id, remote, relayed, discovered, banned, now);
      r.Ok? ==>
        && Caps(cfg, r.value.peers)
        && (|s.peers| <= cfg.maxConnections ==> |r.value.peers| <= cfg.maxConnections)
  {
    hide Caps, Count, OutboundRefusal, Idle;
    var r := AdmitDialed(cfg, s, id, remote, relayed, discovered, banned, now);
    if r.Ok? {
      var room := if id !in s.peers && discovered then MakeRoom(cfg, s, now).value else s;
      if id !in s.peers && discovered { RoomMade(cfg, s, now); }
      NeutralInsert(cfg, room.peers, id, Nat(remote, true, relayed));
      SizeInsert(room.peers, id, Nat(remote, true, relayed));
    }
  }

  /** Making room costs at most one session, only when the pool is full, and only an idle accepted or dialed
      session, the one unused for longest. */
  lemma RoomMade(cfg: Config, s: Pool, now: nat)
    requires MakeRoom(cfg, s, now).Ok?
    ensures var t := MakeRoom(cfg, s, now).value;
      && (Caps(cfg, s.peers) ==> Caps(cfg, t.peers))
      && (|s.peers| < cfg.maxConnections ==> t == s)
      && (|s.peers| >= cfg.maxConnections ==>
          && Idle(cfg, s, now) != {}
          && t.peers == s.peers - {Victim(cfg, s, now)} && |t.peers| == |s.peers| - 1 && |t.peers| >= cfg.minPeers
          && t.lastDisplacement == Some(now))
  {
    hide Caps;
    if |s.peers| >= cfg.maxConnections {
      var v := Victim(cfg, s, now);
      SizeInsert(s.peers, v, s.peers[v]);
      if Caps(cfg, s.peers) { LeavingKeeps(cfg, s, v); }
    }
  }

  ghost function Run(cfg: Config, s: Pool, steps: seq<Step>): Pool
    decreases |steps|
  {
    if steps == [] then s else Run(cfg, After(cfg, s, steps[0]), steps[1..])
  }

  /** Over every interleaving of the adoption paths, removals and links the caps on accepted peers hold; and as
      long as no link is inserted beside them, the pool never exceeds its size. */
  lemma {:induction false} RunKeeps(cfg: Config, s: Pool, steps: seq<Step>)
    requires Caps(cfg, s.peers)
    ensures Caps(cfg, Run(cfg, s, steps).peers)
    ensures |s.peers| <= cfg.maxConnections && (forall i :: 0 <= i < |steps| ==> !steps[i].Link?) ==>
      |Run(cfg, s, steps).peers| <= cfg.maxConnections
    decreases |steps|
  {
    hide Caps, After;
    if steps != [] {
      StepKeeps(cfg, s, steps[0]);
      RunKeeps(cfg, After(cfg, s, steps[0]), steps[1..]);
    }
  }

  lemma RunFromEmpty(cfg: Config, steps: seq<Step>)
    ensures Caps(cfg, Run(cfg, Pool(map[], map[], None), steps).peers)
  {
    var s := Pool(map[], map[], None);
    forall test: Test ensures Count(s.peers, test) == 0 { assert Members(s.peers, test) == {}; }
    RunKeeps(cfg, s, steps);
  }

  // ---- what an accepted session can and cannot do ------------------------------------------------

  /** Neither inbound path replaces a slot with a dial address, and neither touches anyone else's slot. */
  lemma InboundNeverReplacesDialable(cfg: Config, s: Pool, id: PeerId, remote: Addr, relayed: bool, banned: bool, now: nat)
    ensures var r := AdoptDirect(cfg, s, id, remote, relayed, banned, now);
      r.Ok? ==> (id in s.peers ==> !s.peers[id].Dialable()) && r.value.peers == s.peers[id := Nat(remote, false, false)]
    ensures var r := AdoptRelayed(cfg, s, id, remote, relayed, banned, now);
      r.Ok? ==> (id in s.peers ==> !s.peers[id].Dialable()) && r.value.peers == s.peers[id := Nat(remote, false, true)]
  {
  }

  /** The step may change a slot with a dial address: a removal, dial or link of that very peer, or a discovered
      newcomer, which may cycle it out. */
  predicate MayTouchDialable(step: Step, id: PeerId) {
    || (step.Leave? && step.id == id) || (step.Link? && step.id == id)
    || (step.Dialed? && (step.id == id || step.discovered))
  }

  lemma StepLeavesDialable(cfg: Config, s: Pool, step: Step, id: PeerId)
    requires id in s.peers && s.peers[id].Dialable() && !MayTouchDialable(step, id)
    ensures var u := After(cfg, s, step).peers; id in u && u[id] == s.peers[id]
  {
    hide Count, MakeRoom, OutboundRefusal;
    match step
    case Relayed(x, remote, relayed, banned, now) =>
      InboundNeverReplacesDialable(cfg, s, x, remote, relayed, banned, now);
    case Direct(x, remote, relayed, banned, now) =>
      InboundNeverReplacesDialable(cfg, s, x, remote, relayed, banned, now);
    case _ =>
  }

  /** Over every run free of those a slot with a dial address stays as it is, whatever accepted sessions come in. */
  lemma {:induction false} DialableStays(cfg: Config, s: Pool, steps: seq<Step>, id: PeerId)
    requires id in s.peers && s.peers[id].Dialable()
    requires forall i :: 0 <= i < |steps| ==> !MayTouchDialable(steps[i], id)
    ensures var u := Run(cfg, s, steps).peers; id in u && u[id] == s.peers[id]
    decreases |steps|
  {
    hide After;
    if steps != [] {
      StepLeavesDialable(cfg, s, steps[0], id);
      DialableStays(cfg, After(cfg, s, steps[0]), steps[1..], id);
    }
  }

  /** Within the caps, an accepted direct peer coming back from its own source group is never refused, and
      neither is a peer this node dialed when it is dialed again, however full the pool. */
  lemma ReturningIsFree(cfg: Config, s: Pool, id: PeerId, remote: Addr, relayed: bool, discovered: bool, now: nat)
    requires Caps(cfg, s.peers) && id in s.peers && id != cfg.self
    ensures s.peers[id].AcceptedDirect() && cfg.sourceGroup(s.peers[id].remote) == cfg.sourceGroup(remote) ==>
      AdoptDirect(cfg, s, id, remote, false, false, now).Ok?
    ensures s.peers[id].AcceptedRelayed() ==> AdoptRelayed(cfg, s, id, remote, true, false, now).Ok?
    ensures s.peers[id].outbound ==> AdmitDialed(cfg, s, id, remote, relayed, discovered, false, now).Ok?
  {
    CountRemove(s.peers, InGroup(cfg, cfg.sourceGroup(remote)), id);
  }

  // ---- the outbound budgets -----------------------------------------------------------------------

  /** A dialed session that renews none this node dialed before is in no other outbound session's subnet, nor in
      its autonomous system when both are known. */
  lemma NewcomerIsDiverse(cfg: Config, s: Pool, id: PeerId, remote: Addr, discovered: bool, banned: bool, now: nat)
    requires !HeldOutbound(s.peers, id) && AdmitDialed(cfg, s, id, remote, false, discovered, banned, now).Ok?
    ensures var u := AdmitDialed(cfg, s, id, remote, false, discovered, banned, now).value.peers;
      forall o :: o in u && o != id && u[o].outbound && !u[o].IsRelayed() ==>
        && cfg.subnet(u[o].remote) != cfg.subnet(remote)
        && (cfg.asn(remote).Some? ==> cfg.asn(u[o].remote) != cfg.asn(remote))
  {
    hide MakeRoom, Idle;
    DialedIs(cfg, s, id, remote, false, discovered, banned, now);
    if MakeRoom(cfg, s, now).Ok? { RoomMade(cfg, s, now); }
    var u := AdmitDialed(cfg, s, id, remote, false, discovered, banned, now).value.peers;
    forall o | o in u && o != id && u[o].outbound && !u[o].IsRelayed()
      ensures cfg.subnet(u[o].remote) != cfg.subnet(remote)
      ensures cfg.asn(remote).Some? ==> cfg.asn(u[o].remote) != cfg.asn(remote)
    {
      assert o in s.peers && s.peers[o] == u[o] && OutboundIn(s.peers, id, o);
    }
  }

  /** The circumstance: a direct session this node dialed is dialed again through a relay, with every relayed
      outbound place taken.  The renewal is exempt from the cap it then exceeds. */
  predicate RenewedOverRelay(cfg: Config, s: Pool, step: Step) {
    && step.Dialed? && step.relayed && !step.banned && step.id != cfg.self
    && HeldOutbound(s.peers, step.id) && !s.peers[step.id].IsRelayed()
    && Count(s.peers, RELAYED_OUT) >= MaxRelayedOutbound(cfg.targetOutbound)
  }

  /** A step takes the relayed outbound sessions over their cap exactly in that circumstance. */
  lemma RelayedOutboundExact(cfg: Config, s: Pool, step: Step)
    requires Count(s.peers, RELAYED_OUT) <= MaxRelayedOutbound(cfg.targetOutbound)
    ensures Count(After(cfg, s, step).peers, RELAYED_OUT) > MaxRelayedOutbound(cfg.targetOutbound)
      <==> RenewedOverRelay(cfg, s, step)
  {
    hide Count, AdmitDialed, AdoptRelayed, AdoptDirect;
    match step
    case Dialed(id, remote, relayed, discovered, banned, now) =>
      DialedRelayedOutbound(cfg, s, id, remote, relayed, discovered, banned, now);
    case Relayed(id, remote, relayed, banned, now) =>
      CountInsert(s.peers, RELAYED_OUT, id, Nat(remote, false, true));
      if AdoptRelayed(cfg, s, id, remote, relayed, banned, now).Ok? { RelayedIs(cfg, s, id, remote, relayed, banned, now); }
    case Direct(id, remote, relayed, banned, now) =>
      CountInsert(s.peers, RELAYED_OUT, id, Nat(remote, false, false));
      if AdoptDirect(cfg, s, id, remote, relayed, banned, now).Ok? { DirectIs(cfg, s, id, remote, relayed, banned, now); }
    case Leave(id) => CountRemove(s.peers, RELAYED_OUT, id);
    case Begin(_, _) =>
    case End(_, _) =>
    case Link(id, remote, outbound, _) => CountInsert(s.peers, RELAYED_OUT, id, Live(remote, outbound));
    case Kept(_) =>
  }

  lemma DialedRelayedOutbound(cfg: Config, s: Pool, id: PeerId, remote: Addr, relayed: bool, discovered: bool, banned: bool,
      now: nat)
    requires Count(s.peers, RELAYED_OUT) <= MaxRelayedOutbound(cfg.targetOutbound)
    ensures var step := Dialed(id, remote, relayed, discovered, banned, now);
      Count(After(cfg, s, step).peers, RELAYED_OUT) > MaxRelayedOutbound(cfg.targetOutbound)
      <==> RenewedOverRelay(cfg, s, step)
  {
    hide Count, MakeRoom, Idle, SubnetConflict, AsConflict;
    var slot := Nat(remote, true, relayed);
    CountInsert(s.peers, RELAYED_OUT, id, slot);
    if id !in s.peers && discovered && MakeRoom(cfg, s, now).Ok? {
      CountInsert(MakeRoom(cfg, s, now).value.peers, RELAYED_OUT, id, slot);
      RoomCounts(cfg, s, now);
    }
  }

  /** One relayed renewal is enough: with a single outbound place the cap is 0. */
  lemma RelayedCapIsExceeded(cfg: Config, id: PeerId, remote: Addr, now: nat)
    requires cfg.targetOutbound == 1 && cfg.maxConnections >= 1 && id != cfg.self
    ensures var steps := [Dialed(id, remote, false, false, false, now), Dialed(id, remote, true, false, false, now)];
      Count(Run(cfg, Pool(map[], map[], None), steps).peers, RELAYED_OUT) == 1 > MaxRelayedOutbound(cfg.targetOutbound)
  {
    hide Count, MakeRoom;
    var none: Slots := map[];
    var s := Pool(none, map[], None);
    var steps := [Dialed(id, remote, false, false, false, now), Dialed(id, remote, true, false, false, now)];
    NoneCounted(RELAYED_OUT);
    var t := After(cfg, s, steps[0]);
    assert t.peers == none[id := Nat(remote, true, false)];
    var u := After(cfg, t, steps[1]);
    assert u.peers == none[id := Nat(remote, true, true)];
    assert steps[1..] == [steps[1]] && steps[1..][1..] == [];
    assert Run(cfg, t, steps[1..]) == u;
    CountInsert(none, RELAYED_OUT, id, Nat(remote, true, true));
  }

  lemma NoneCounted(test: Test)
    ensures Count(map[], test) == 0
  {
    assert Members(map[], test) == {};
  }

  /** No step of the run is a relayed renewal with the cap reached. */
  ghost predicate NoneRenewed(cfg: Config, s: Pool, steps: seq<Step>)
    decreases |steps|
  {
    steps == [] || (!RenewedOverRelay(cfg, s, steps[0]) && NoneRenewed(cfg, After(cfg, s, steps[0]), steps[1..]))
  }

  /** Over every run without one the cap on relayed outbound sessions holds. */
  lemma {:induction false} RelayedCapHolds(cfg: Config, s: Pool, steps: seq<Step>)
    requires Count(s.peers, RELAYED_OUT) <= MaxRelayedOutbound(cfg.targetOutbound) && NoneRenewed(cfg, s, steps)
    ensures Count(Run(cfg, s, steps).peers, RELAYED_OUT) <= MaxRelayedOutbound(cfg.targetOutbound)
    decreases |steps|
  {
    hide After, Count, RenewedOverRelay;
    if steps != [] {
      RelayedOutboundExact(cfg, s, steps[0]);
      RelayedCapHolds(cfg, After(cfg, s, steps[0]), steps[1..]);
    }
  }

  lemma RoomCounts(cfg: Config, s: Pool, now: nat)
    requires MakeRoom(cfg, s, now).Ok?
    ensures Count(MakeRoom(cfg, s, now).value.peers, RELAYED_OUT) <= Count(s.peers, RELAYED_OUT)
    ensures forall x :: x in MakeRoom(cfg, s, now).value.peers ==> x in s.peers
  {
    hide Count, Idle, MakeRoom;
    RoomMade(cfg, s, now);
    if |s.peers| >= cfg.maxConnections { CountRemove(s.peers, RELAYED_OUT, Victim(cfg, s, now)); }
  }

  // ---- the rate of displacement ----------------------------------------------------------------

  ghost predicate Displaces(cfg: Config, s: Pool, step: Step) {
    After(cfg, s, step).lastDisplacement != s.lastDisplacement || (step.Dialed? && step.discovered
      && step.id !in s.peers && Attempted(cfg, s, step).Ok? && |s.peers| >= cfg.maxConnections)
  }

  /** A displacement happens only for a discovered peer at a full pool, costs one idle session, and never
      within an interval of the one before. */
  lemma DisplacementIsBounded(cfg: Config, s: Pool, step: Step)
    requires Displaces(cfg, s, step)
    ensures step.Dialed? && step.discovered && step.id !in s.peers && |s.peers| >= cfg.maxConnections
    ensures After(cfg, s, step).lastDisplacement == Some(step.now)
    ensures |After(cfg, s, step).peers| == |s.peers| && |s.peers| > cfg.minPeers
    ensures s.lastDisplacement.Some? ==> step.now >= SatAdd(s.lastDisplacement.value, cfg.Interval(), U64_MAX)
    ensures exists v :: v in Idle(cfg, s, step.now) && After(cfg, s, step).peers.Keys == s.peers.Keys - {v} + {step.id}
  {
    hide Idle, AdmitDialed, AdoptRelayed, AdoptDirect, MakeRoom, Victim;
    OnlyDialsDisplace(cfg, s, step);
    DialedIs(cfg, s, step.id, step.remote, step.relayed, step.discovered, step.banned, step.now);
    RoomMade(cfg, s, step.now);
    RoomNotTooSoon(cfg, s, step.now);
    var v := Victim(cfg, s, step.now);
    Exchanged(s.peers, v, step.id, Nat(step.remote, true, step.relayed));
  }

  lemma Exchanged(peers: Slots, out: PeerId, id: PeerId, slot: Slot)
    requires out in peers && id !in peers
    ensures (peers - {out})[id := slot].Keys == peers.Keys - {out} + {id}
    ensures |(peers - {out})[id := slot]| == |peers|
  {
    SizeInsert(peers, out, peers[out]);
    SizeInsert(peers - {out}, id, slot);
  }

  lemma OnlyDialsDisplace(cfg: Config, s: Pool, step: Step)
    ensures !step.Dialed? ==> After(cfg, s, step).lastDisplacement == s.lastDisplacement
  {
    hide Count;
  }

  lemma DialedIs(cfg: Config, s: Pool, id: PeerId, remote: Addr, relayed: bool, discovered: bool, banned: bool, now: nat)
    ensures var r := AdmitDialed(cfg, s, id, remote, relayed, discovered, banned, now);
      r.Ok? ==>
        if id !in s.peers && discovered then
          && MakeRoom(cfg, s, now).Ok?
          && r.value.peers == MakeRoom(cfg, s, now).value.peers[id := Nat(remote, true, relayed)]
          && r.value.lastDisplacement == MakeRoom(cfg, s, now).value.lastDisplacement
        else r.value.lastDisplacement == s.lastDisplacement
  {
    hide MakeRoom, OutboundRefusal;
  }

  lemma RoomNotTooSoon(cfg: Config, s: Pool, now: nat)
    requires MakeRoom(cfg, s, now).Ok? && |s.peers| >= cfg.maxConnections
    ensures |s.peers| > cfg.minPeers
    ensures s.lastDisplacement.Some? ==> now >= SatAdd(s.lastDisplacement.value, cfg.Interval(), U64_MAX)
  {
    hide Idle;
  }

  // ---- the pool in the heap ----------------------------------------------------------------------

  /** Identities are numbers: different peers have different ranks. */
  ghost predicate Ranked(cfg: Config) {
    forall a, b :: cfg.rank(a) == cfg.rank(b) ==> a == b
  }

  lemma OnlyVictim(cfg: Config, s: Pool, now: nat, v: PeerId)
    requires Ranked(cfg) && v in Idle(cfg, s, now) && forall o :: o in Idle(cfg, s, now) ==> Sooner(cfg, s, v, o)
    ensures Victim(cfg, s, now) == v
  {
    assert Sooner(cfg, s, Victim(cfg, s, now), v);
  }

  class PeerPool {
    const cfg: Config
    var peers: Slots
    var activity: map<PeerId, Activity>
    var lastDisplacement: Option<nat>

    function Now(): Pool
      reads this
    {
      Pool(peers, activity, lastDisplacement)
    }

    constructor (cfg: Config)
      ensures this.cfg == cfg && Now() == Pool(map[], map[], None)
    {
      this.cfg := cfg;
      peers, activity, lastDisplacement := map[], map[], None;
    }

    /** The insertion every admission ends with, and the record of it. */
    method Insert(id: PeerId, slot: Slot, now: nat)
      modifies this`peers, this`activity
      ensures Now() == Admitted(old(Now()), id, slot, now)
    {
      peers := peers[id := slot];
      activity := activity[id := Activity(now, now, if id in activity then activity[id].inFlight else 0)];
    }

    method Disconnect(id: PeerId)
      modifies this`peers, this`activity
      ensures Now() == Left(old(Now()), id)
    {
      peers := peers - {id};
      activity := activity - {id};
    }

    /** The scan for the session to cycle out. */
    method PickVictim(now: nat) returns (victim: Option<PeerId>)
      requires Ranked(cfg)
      ensures victim.None? <==> Idle(cfg, Now(), now) == {}
      ensures victim.Some? ==> victim.value == Victim(cfg, Now(), now)
    {
      var todo := set id | id in peers && peers[id].Nat? && id in activity;
      ghost var cyclable := todo;
      ghost var idle := Idle(cfg, Now(), now);
      victim := None;
      while todo != {}
        invariant todo <= cyclable
        invariant victim.None? ==> forall o :: o in idle ==> o in todo
        invariant victim.Some? ==> victim.value in idle && victim.value in activity
        invariant victim.Some? ==> forall o :: o in idle ==> o in todo || Sooner(cfg, Now(), victim.value, o)
        decreases |todo|
      {
        var id :| id in todo;
        todo := todo - {id};
        if Displaceable(cfg, activity[id], now) {
          if victim.None? || !Sooner(cfg, Now(), victim.value, id) { victim := Some(id); }
        }
      }
      if victim.Some? { OnlyVictim(cfg, Now(), now, victim.value); }
    }

    method DisplaceForDiscoveredPeer(now: nat) returns (refused: Option<Refusal>)
      requires Ranked(cfg)
      modifies this
      ensures match MakeRoom(cfg, old(Now()), now)
        case Ok(t) => refused == None && Now() == t
        case Err(why) => refused == Some(why) && Now() == old(Now())
    {
      hide Idle, Victim;
      if |peers| < cfg.maxConnections { return None; }
      if |peers| <= cfg.minPeers { return Some(WouldBreachMinPeers); }
      if lastDisplacement.Some? && now < SatAdd(lastDisplacement.value, cfg.Interval(), U64_MAX) {
        return Some(RateLimited);
      }
      var victim := PickVictim(now);
      if victim.None? { return Some(NoIdleIncumbent); }
      Disconnect(victim.value);
      lastDisplacement := Some(now);
      return None;
    }

    method AdmitNatConnection(id: PeerId, remote: Addr, relayed: bool, discovered: bool, banned: bool, now: nat)
      returns (refused: Option<Refusal>)
      requires Ranked(cfg)
      modifies this
      ensures match AdmitDialed(cfg, old(Now()), id, remote, relayed, discovered, banned, now)
        case Ok(t) => refused == None && Now() == t
        case Err(why) => refused == Some(why) && Now() == old(Now())
    {
      hide MakeRoom, Count, SubnetConflict, AsConflict;
      if id == cfg.self { return Some(SelfConnection); }
      if banned { return Some(Banned); }
      var needsSlot := id !in peers;
      if needsSlot && !discovered && |peers| >= cfg.maxConnections { return Some(PoolFull); }
      if id in peers && peers[id].outbound {
      } else if relayed {
        if Count(peers, RELAYED_OUT) >= MaxRelayedOutbound(cfg.targetOutbound) { return Some(RelayedOutboundCap); }
      } else if SubnetConflict(cfg, peers, id, remote) {
        return Some(SubnetTaken);
      } else if AsConflict(cfg, peers, id, remote) {
        return Some(AsTaken);
      }
      if needsSlot && discovered {
        refused := DisplaceForDiscoveredPeer(now);
        if refused.Some? { return; }
      }
      Insert(id, Nat(remote, true, relayed), now);
      return None;
    }

    method ConnectTo(id: PeerId, remote: Addr, banned: bool) returns (refused: Option<Refusal>)
      modifies this`peers
      ensures match AdmitLink(cfg, old(Now()), id, remote, true, banned)
        case Ok(t) => refused == None && Now() == t
        case Err(why) => refused == Some(why) && Now() == old(Now())
    {
      hide SubnetConflict, AsConflict;
      if id == cfg.self { return Some(SelfConnection); }
      if banned { return Some(Banned); }
      var isOutboundReconnect := id in peers && peers[id].outbound;
      if !isOutboundReconnect {
        if SubnetConflict(cfg, peers, id, remote) { return Some(SubnetTaken); }
        if AsConflict(cfg, peers, id, remote) { return Some(AsTaken); }
      }
      peers := peers[id := Live(remote, true)];
      return None;
    }

    /** The listener's insertion, after its check of the peer's identity. */
    method AcceptLink(id: PeerId, remote: Addr, banned: bool) returns (refused: Option<Refusal>)
      modifies this`peers
      ensures match AdmitLink(cfg, old(Now()), id, remote, false, banned)
        case Ok(t) => refused == None && Now() == t
        case Err(why) => refused == Some(why) && Now() == old(Now())
    {
      if id == cfg.self { return Some(SelfConnection); }
      if banned { return Some(Banned); }
      peers := peers[id := Live(remote, false)];
      return None;
    }

    method AdoptRelayedInbound(id: PeerId, remote: Addr, relayed: bool, banned: bool, now: nat)
      returns (refused: Option<Refusal>)
      modifies this`peers, this`activity
      ensures match AdoptRelayed(cfg, old(Now()), id, remote, relayed, banned, now)
        case Ok(t) => refused == None && Now() == t
        case Err(why) => refused == Some(why) && Now() == old(Now())
    {
      hide Count;
      if !relayed { return Some(WrongTier); }
      if id == cfg.self { return Some(SelfConnection); }
      if banned { return Some(Banned); }
      if id in peers && !peers[id].IsRelayed() { return Some(HoldsBetterSlot); }
      if id !in peers && |peers| >= cfg.maxConnections { return Some(PoolFull); }
      var replacesCircuit := id in peers && peers[id].IsRelayed() && !peers[id].outbound;
      if !replacesCircuit && Count(peers, RELAYED) >= MaxRelayedInbound(cfg.maxConnections) { return Some(RelayedCap); }
      var occupiesBudget := id in peers && peers[id].AcceptedInbound();
      if !occupiesBudget && Count(peers, INBOUND) >= MaxInboundTotal(cfg.maxConnections) { return Some(InboundCap); }
      Insert(id, Nat(remote, false, true), now);
      return None;
    }

    method AdoptDirectInbound(id: PeerId, remote: Addr, relayed: bool, banned: bool, now: nat)
      returns (refused: Option<Refusal>)
      modifies this`peers, this`activity
      ensures match AdoptDirect(cfg, old(Now()), id, remote, relayed, banned, now)
        case Ok(t) => refused == None && Now() == t
        case Err(why) => refused == Some(why) && Now() == old(Now())
    {
      hide Count;
      if relayed { return Some(WrongTier); }
      if id == cfg.self { return Some(SelfConnection); }
      if banned { return Some(Banned); }
      if id in peers && peers[id].Dialable() { return Some(HoldsBetterSlot); }
      if id !in peers && |peers| >= cfg.maxConnections { return Some(PoolFull); }
      var replacesDirect := id in peers && peers[id].AcceptedDirect();
      if !replacesDirect && Count(peers, DIRECT) >= MaxDirectInbound(cfg.maxConnections) { return Some(DirectCap); }
      var occupiesBudget := id in peers && peers[id].AcceptedInbound();
      if !occupiesBudget && Count(peers, INBOUND) >= MaxInboundTotal(cfg.maxConnections) { return Some(InboundCap); }
      var sameGroup := Count(peers - {id}, InGroup(cfg, cfg.sourceGroup(remote)));
      if sameGroup >= MaxDirectInboundPerGroup(cfg.maxConnections) { return Some(GroupCap); }
      Insert(id, Nat(remote, false, false), now);
      return None;
    }
  }
}
