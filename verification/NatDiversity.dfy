/**
 The diversity of direct outbound sessions (outbound_diversity_conflict, src/service/state.rs): no two in one subnet,
 nor in one known autonomous system.  It is derived from the peer map, and lost exactly by a renewal.
 */
module NatDiversity {
  import opened Wrappers
  import opened Peers
  import opened NatAdmission

  predicate DirectOutbound(s: Slot) {
    s.outbound && !s.IsRelayed()
  }

  /** Both take up the outbound budget of one subnet or autonomous system. */
  predicate Clash(cfg: Config, a: Slot, b: Slot) {
    DirectOutbound(a) && DirectOutbound(b) &&
    (cfg.subnet(a.remote) == cfg.subnet(b.remote)
     || (cfg.asn(b.remote).Some? && cfg.asn(a.remote) == cfg.asn(b.remote)))
  }

  ghost predicate Diverse(cfg: Config, peers: Slots) {
    forall a, b :: a in peers && b in peers && a != b ==> !Clash(cfg, peers[a], peers[b])
  }

  predicate Conflict(cfg: Config, peers: Slots, id: PeerId, remote: Addr) {
    SubnetConflict(cfg, peers, id, remote) || AsConflict(cfg, peers, id, remote)
  }

  lemma ConflictIsClash(cfg: Config, peers: Slots, id: PeerId, slot: Slot)
    requires DirectOutbound(slot)
    ensures Conflict(cfg, peers, id, slot.remote) <==> exists o :: o in peers && o != id && Clash(cfg, peers[o], slot)
  {
    if Conflict(cfg, peers, id, slot.remote) {
      var o :| o in peers && OutboundIn(peers, id, o) && Clash(cfg, peers[o], slot);
    }
    if o :| o in peers && o != id && Clash(cfg, peers[o], slot) { assert OutboundIn(peers, id, o); }
  }

  lemma InsertDiverse(cfg: Config, peers: Slots, id: PeerId, slot: Slot)
    requires Diverse(cfg, peers)
    ensures Diverse(cfg, peers[id := slot]) <==> !(DirectOutbound(slot) && Conflict(cfg, peers, id, slot.remote))
  {
    hide Conflict;
    var u := peers[id := slot];
    if DirectOutbound(slot) { ConflictIsClash(cfg, peers, id, slot); }
    if !(DirectOutbound(slot) && Conflict(cfg, peers, id, slot.remote)) {
      forall a, b | a in u && b in u && a != b ensures !Clash(cfg, u[a], u[b]) {
        if a != id && b != id { assert !Clash(cfg, peers[a], peers[b]); }
      }
    } else {
      var o :| o in peers && o != id && Clash(cfg, peers[o], slot);
      assert Clash(cfg, u[o], u[id]);
    }
  }

  /** Removing sessions never costs diversity, nor does it make a conflict. */
  lemma FewerDiverse(cfg: Config, peers: Slots, gone: PeerId)
    ensures Diverse(cfg, peers) ==> Diverse(cfg, peers - {gone})
    ensures forall id, remote :: Conflict(cfg, peers - {gone}, id, remote) ==> Conflict(cfg, peers, id, remote)
  {
    forall id, remote | Conflict(cfg, peers - {gone}, id, remote) ensures Conflict(cfg, peers, id, remote) {
      var o :| o in peers - {gone} && OutboundIn(peers - {gone}, id, o)
        && (cfg.subnet(peers[o].remote) == cfg.subnet(remote) || cfg.asn(peers[o].remote) == cfg.asn(remote));
      assert OutboundIn(peers, id, o);
    }
  }

  /** The circumstance: a session this node dialed is renewed, directly, at an address in another's subnet or
      autonomous system.  The renewal is exempt from the test, also when what it renews went over a relay or was in
      another subnet. */
  predicate RenewedInto(cfg: Config, s: Pool, step: Step) {
    && ((step.Dialed? && !step.relayed) || (step.Link? && step.outbound)) && !step.banned && step.id != cfg.self
    && HeldOutbound(s.peers, step.id)
    && Conflict(cfg, s.peers, step.id, step.remote)
  }

  lemma NoRefusal(cfg: Config, peers: Slots, id: PeerId, remote: Addr)
    ensures OutboundRefusal(cfg, peers, id, remote, false).None? <==>
      HeldOutbound(peers, id) || !Conflict(cfg, peers, id, remote)
  {
  }

  lemma LinkExact(cfg: Config, s: Pool, id: PeerId, remote: Addr, outbound: bool, banned: bool)
    requires Diverse(cfg, s.peers)
    ensures var step := Link(id, remote, outbound, banned);
      Diverse(cfg, After(cfg, s, step).peers) <==> !RenewedInto(cfg, s, step)
  {
    hide Diverse, Conflict, OutboundRefusal;
    NoRefusal(cfg, s.peers, id, remote);
    InsertDiverse(cfg, s.peers, id, Live(remote, outbound));
  }

  lemma RoomDiverse(cfg: Config, s: Pool, now: nat)
    requires MakeRoom(cfg, s, now).Ok?
    ensures var room := MakeRoom(cfg, s, now).value.peers;
      && (Diverse(cfg, s.peers) ==> Diverse(cfg, room))
      && (forall id, remote :: Conflict(cfg, room, id, remote) ==> Conflict(cfg, s.peers, id, remote))
  {
    hide MakeRoom, Idle, Diverse, Conflict;
    RoomMade(cfg, s, now);
    if |s.peers| >= cfg.maxConnections { FewerDiverse(cfg, s.peers, Victim(cfg, s, now)); }
  }

  lemma DialExact(cfg: Config, s: Pool, id: PeerId, remote: Addr, relayed: bool, discovered: bool, banned: bool, now: nat)
    requires Diverse(cfg, s.peers)
    ensures var step := Dialed(id, remote, relayed, discovered, banned, now);
      Diverse(cfg, After(cfg, s, step).peers) <==> !RenewedInto(cfg, s, step)
  {
    hide Diverse, Conflict, OutboundRefusal, MakeRoom;
    var slot := Nat(remote, true, relayed);
    NoRefusal(cfg, s.peers, id, remote);
    if HeldOutbound(s.peers, id) { RenewalAdmitted(cfg, s.peers, id, remote, relayed); }
    InsertDiverse(cfg, s.peers, id, slot);
    if id !in s.peers && discovered && MakeRoom(cfg, s, now).Ok? {
      RoomDiverse(cfg, s, now);
      InsertDiverse(cfg, MakeRoom(cfg, s, now).value.peers, id, slot);
    }
  }

  lemma RenewalAdmitted(cfg: Config, peers: Slots, id: PeerId, remote: Addr, relayed: bool)
    requires HeldOutbound(peers, id)
    ensures OutboundRefusal(cfg, peers, id, remote, relayed).None?
  {
  }

  /** From a diverse pool a step leads to one that is not exactly in that circumstance. */
  lemma DiversityExact(cfg: Config, s: Pool, step: Step)
    requires Diverse(cfg, s.peers)
    ensures Diverse(cfg, After(cfg, s, step).peers) <==> !RenewedInto(cfg, s, step)
  {
    hide Diverse, Conflict, AdmitDialed, AdoptRelayed, AdoptDirect, AdmitLink;
    match step
    case Dialed(id, remote, relayed, discovered, banned, now) =>
      DialExact(cfg, s, id, remote, relayed, discovered, banned, now);
    case Link(id, remote, outbound, banned) => LinkExact(cfg, s, id, remote, outbound, banned);
    case Relayed(id, remote, relayed, banned, now) =>
      InsertDiverse(cfg, s.peers, id, Nat(remote, false, true));
      if AdoptRelayed(cfg, s, id, remote, relayed, banned, now).Ok? { RelayedIs(cfg, s, id, remote, relayed, banned, now); }
    case Direct(id, remote, relayed, banned, now) =>
      InsertDiverse(cfg, s.peers, id, Nat(remote, false, false));
      if AdoptDirect(cfg, s, id, remote, relayed, banned, now).Ok? { DirectIs(cfg, s, id, remote, relayed, banned, now); }
    case Leave(id) => FewerDiverse(cfg, s.peers, id);
    case Begin(_, _) =>
    case End(_, _) =>
    case Kept(_) =>
  }

  /** The pool is diverse now and after every step. */
  ghost predicate DiverseThroughout(cfg: Config, s: Pool, steps: seq<Step>)
    decreases |steps|
  {
    Diverse(cfg, s.peers) && (steps == [] || DiverseThroughout(cfg, After(cfg, s, steps[0]), steps[1..]))
  }

  ghost predicate NoneRenewedInto(cfg: Config, s: Pool, steps: seq<Step>)
    decreases |steps|
  {
    steps == [] || (!RenewedInto(cfg, s, steps[0]) && NoneRenewedInto(cfg, After(cfg, s, steps[0]), steps[1..]))
  }

  /** Over every run from a diverse pool: it stays diverse throughout exactly when no session is renewed into the
      subnet or autonomous system of another. */
  lemma {:induction false} RunDiverse(cfg: Config, s: Pool, steps: seq<Step>)
    requires Diverse(cfg, s.peers)
    ensures DiverseThroughout(cfg, s, steps) <==> NoneRenewedInto(cfg, s, steps)
    decreases |steps|
  {
    hide Diverse, RenewedInto, After;
    if steps != [] {
      DiversityExact(cfg, s, steps[0]);
      var t := After(cfg, s, steps[0]);
      if Diverse(cfg, t.peers) { RunDiverse(cfg, t, steps[1..]); }
    }
  }

  lemma RunDiverseFromEmpty(cfg: Config, steps: seq<Step>)
    ensures var s := Pool(map[], map[], None); DiverseThroughout(cfg, s, steps) <==> NoneRenewedInto(cfg, s, steps)
  {
    RunDiverse(cfg, Pool(map[], map[], None), steps);
  }

  /** A peer reached over a relay first takes up no subnet; renewed directly it joins the one of `a` untested. */
  lemma DiversityCanBeLost(cfg: Config, a: PeerId, b: PeerId, remote: Addr, relay: Addr, near: Addr, now: nat)
    requires a != b && a != cfg.self && b != cfg.self && cfg.subnet(near) == cfg.subnet(remote)
    requires cfg.targetOutbound >= 2 && cfg.maxConnections >= 2
    ensures var steps := [Dialed(a, remote, false, false, false, now), Dialed(b, relay, true, false, false, now),
        Dialed(b, near, false, false, false, now)];
      var u := Run(cfg, Pool(map[], map[], None), steps).peers;
      a in u && b in u && Clash(cfg, u[a], u[b])
  {
    hide Count, After;
    var none: Slots := map[];
    var s := Pool(none, map[], None);
    var steps := [Dialed(a, remote, false, false, false, now), Dialed(b, relay, true, false, false, now),
      Dialed(b, near, false, false, false, now)];
    NoneCounted(RELAYED_OUT);
    DialAdmits(cfg, s, a, remote, false, now);
    var t := After(cfg, s, steps[0]);
    CountInsert(none, RELAYED_OUT, a, Nat(remote, true, false));
    SizeInsert(none, a, Nat(remote, true, false));
    DialAdmits(cfg, t, b, relay, true, now);
    var u := After(cfg, t, steps[1]);
    DialAdmits(cfg, u, b, near, false, now);
    assert steps[1..] == [steps[1], steps[2]] && steps[1..][1..] == [steps[2]] && steps[1..][1..][1..] == [];
    assert Run(cfg, u, [steps[2]]) == After(cfg, u, steps[2]);
    assert Run(cfg, t, [steps[1], steps[2]]) == After(cfg, u, steps[2]);
  }

  lemma DialAdmits(cfg: Config, s: Pool, id: PeerId, remote: Addr, relayed: bool, now: nat)
    requires id != cfg.self && (id in s.peers || |s.peers| < cfg.maxConnections)
    requires OutboundRefusal(cfg, s.peers, id, remote, relayed).None?
    ensures After(cfg, s, Dialed(id, remote, relayed, false, false, now)).peers == s.peers[id := Nat(remote, true, relayed)]
  {
    hide OutboundRefusal, MakeRoom;
  }
}
