/**
 Private addresses: unless the switch allows them they never enter the tables, over any run; and which announcements the
 manager takes up, in terms of the address, the switch and the hosts it knows.
 */
module AddressPrivacy {
  import opened Wrappers
  import opened Peers
  import opened Sequences
  import opened AddressTables
  import opened AddressInvariant
  import opened AddressPromotion
  import opened AddressSnapshot
  import opened AddressRuns
  import opened AddressEffects
  import opened AddressQueue

  // ---- what is taken up ------------------------------------------------------------------------------

  /** An announcement is answered with true, and uses up an id, exactly if its host is unknown and its address is not
      private, or private ones are allowed. */
  lemma TakenUpExactly(t: Tables, addr: TimestampedPeer, source: PeerInfo, penalty: nat, now: nat, draw: nat, now2: nat)
    requires Inv(t)
    ensures var (u, isNew) := AddToNewTable(t, addr, source, penalty, now, draw, now2);
      && (isNew <==> addr.host !in t.hostIds && (t.env.isPrivate(addr.host) ==> t.allowPrivate))
      && u.idCount == (if isNew then t.idCount + 1 else t.idCount)
  {
    hide Shape, Sound, PlaceNew;
    InvParts(t);
    AddFrame(t, addr, source, penalty, now, draw, now2);
    KnownHost(t, addr);
    IdsBelowMax(t);
  }

  lemma IdsBelowMax(t: Tables)
    requires Inv(t)
    ensures t.idCount < U32_MAX
  {
  }

  lemma KnownHost(t: Tables, addr: TimestampedPeer)
    requires HostsOk(t.hostIds, t.rows)
    ensures t.Find(PeerInfo(addr.host, addr.port)).Some? <==> addr.host in t.hostIds
  {
  }

  /** A private address that is not allowed leaves no trace at all. */
  lemma PrivateLeavesNoTrace(t: Tables, addr: TimestampedPeer, source: PeerInfo, penalty: nat, now: nat, draw: nat, now2: nat)
    requires t.env.isPrivate(addr.host) && !t.allowPrivate
    ensures AddToNewTable(t, addr, source, penalty, now, draw, now2) == (t, false)
  {
  }

  /** mark_good acts on a row exactly if its peer has that very address and the address is not private, or private ones
      are allowed. */
  lemma MatchedExactly(t: Tables, addr: PeerInfo, id: NodeId)
    requires HostsOk(t.hostIds, t.rows)
    ensures Matched(t, addr) == Some(id) <==>
      id in t.rows && t.rows[id].peer == addr && (t.env.isPrivate(addr.host) ==> t.allowPrivate)
  {
  }

  // ---- runs ------------------------------------------------------------------------------------------

  ghost predicate PublicRow(t: Tables, id: NodeId) {
    id in t.rows ==> !t.env.isPrivate(t.rows[id].peer.host)
  }

  /** Private addresses are not allowed, and there are none. */
  ghost predicate Public(t: Tables) {
    !t.allowPrivate && forall id: NodeId :: PublicRow(t, id)
  }

  lemma KeptIsPublic(t: Tables, u: Tables)
    requires Public(t) && PeersKept(t.rows, u.rows) && u.env == t.env && u.allowPrivate == t.allowPrivate
    ensures Public(u)
  {
    hide PeersKept;
    forall id: NodeId ensures PublicRow(u, id) {
      if id in u.rows {
        KeptAt(t.rows, u.rows, id);
        assert PublicRow(t, id);
      }
    }
  }

  lemma AddPublic(t: Tables, addr: TimestampedPeer, source: PeerInfo, penalty: nat, now: nat, draw: nat, now2: nat)
    requires Inv(t) && IdSpare(t, addr) && Public(t)
    ensures Public(AddToNewTable(t, addr, source, penalty, now, draw, now2).0)
  {
    hide Shape, Sound, AddToNewTable, PlaceNew, MakesWay, OldPeersKept;
    var u := AddToNewTable(t, addr, source, penalty, now, draw, now2).0;
    if t.env.isPrivate(addr.host) {
      PrivateLeavesNoTrace(t, addr, source, penalty, now, draw, now2);
    } else {
      InvParts(t);
      AddFrame(t, addr, source, penalty, now, draw, now2);
      KnownHost(t, addr);
      if addr.host in t.hostIds {
        KnownAddsNoRow(t, addr, source, penalty, now, draw, now2);
        KeptIsPublic(t, u);
      } else {
        NewcomerJoinsOrVanishes(t, addr, source, penalty, now, draw, now2);
        AddKeepsPeers(t, addr, source, penalty, now, draw, now2);
        NewcomerIsPublic(t, u, addr);
      }
    }
  }

  lemma NewcomerIsPublic(t: Tables, u: Tables, addr: TimestampedPeer)
    requires Inv(t) && Public(t) && OldPeersKept(t, u) && u.env == t.env && u.allowPrivate == t.allowPrivate
    requires !t.env.isPrivate(addr.host) && forall id :: id in u.rows ==> id in t.rows || id == t.idCount + 1
    requires t.idCount + 1 in u.rows ==> u.rows[t.idCount + 1].peer == PeerInfo(addr.host, addr.port)
    ensures Public(u)
  {
    hide OrderOk, HostsOk, NewCellsOk, TriedCellsOk, CountsOk, PointersOk, RefsOk;
    forall id: NodeId ensures PublicRow(u, id) {
      if id in t.rows && id in u.rows {
        assert PeerKept(t.rows, u.rows, id);
        assert PublicRow(t, id);
      }
    }
  }

  lemma KnownAddsNoRow(t: Tables, addr: TimestampedPeer, source: PeerInfo, penalty: nat, now: nat, draw: nat, now2: nat)
    requires t.Find(PeerInfo(addr.host, addr.port)).Some?
    ensures PeersKept(t.rows, AddToNewTable(t, addr, source, penalty, now, draw, now2).0.rows)
  {
    hide PlaceNew, MayAddRef;
    if AddressRefused(t, addr) {
      KeptSelf(t.rows);
    } else {
      var id := t.Find(PeerInfo(addr.host, addr.port)).value;
      var s := RefreshRow(t, id, addr.timestamp, EffectivePenalty(t, addr, penalty), now);
      PlaceKeepsPeers(s, id, source, now2);
      assert PeersKept(t.rows, s.rows);
      KeptTwice(t.rows, s.rows, PlaceNew(s, id, source, now2).rows);
    }
  }

  lemma GoodKeepsSwitch(t: Tables, addr: PeerInfo, testBeforeEvict: bool, timestamp: nat, start: nat)
    requires Inv(t)
    ensures CanMarkGood(t, addr, testBeforeEvict, timestamp, start)
    ensures var u := MarkGood(t, addr, testBeforeEvict, timestamp, start);
      u.allowPrivate == t.allowPrivate && u.lastGood == timestamp && u.env == t.env
  {
    hide Inv, MakeTried, PrepareGood;
    MarkGoodInv(t, addr, testBeforeEvict, timestamp, start);
    PrepareGoodInv(t, addr, testBeforeEvict, timestamp, start);
    PrepareKeepsSwitch(t, addr, testBeforeEvict, timestamp, start);
    var (s, id) := PrepareGood(t, addr, testBeforeEvict, timestamp, start);
    if id.Some? { PromotionLeaves(s, id.value); }
  }

  lemma PrepareKeepsSwitch(t: Tables, addr: PeerInfo, testBeforeEvict: bool, timestamp: nat, start: nat)
    ensures var s := PrepareGood(t, addr, testBeforeEvict, timestamp, start).0;
      s.allowPrivate == t.allowPrivate && s.lastGood == timestamp
  {
    hide FindNewBucket;
  }

  lemma GoodPublic(t: Tables, addr: PeerInfo, testBeforeEvict: bool, timestamp: nat, start: nat)
    requires Inv(t) && Public(t)
    ensures CanMarkGood(t, addr, testBeforeEvict, timestamp, start)
    ensures Public(MarkGood(t, addr, testBeforeEvict, timestamp, start))
  {
    hide Inv, MarkGood, CanMarkGood, PeersKept;
    GoodKeepsPeers(t, addr, testBeforeEvict, timestamp, start);
    GoodKeepsSwitch(t, addr, testBeforeEvict, timestamp, start);
    KeptIsPublic(t, MarkGood(t, addr, testBeforeEvict, timestamp, start));
  }

  lemma {:induction false} ResolvePublic(t: Tables, pending: seq<NodeId>, now: nat, starts: seq<nat>)
    requires |starts| == |pending| && Inv(t) && Public(t) && ResolveSafe(t, pending, now, starts)
    ensures CanResolve(t, pending, now, starts) && Public(Resolve(t, pending, now, starts))
    decreases |pending|
  {
    hide Inv, Judge, MarkGood, CanMarkGood, GoodHazard, PublicRow;
    if pending != [] {
      ResolveOneInv(t, pending[0], now, starts[0]);
      JudgedHasRow(t, pending[0], now);
      if Judge(t, pending[0], now).Replace? { GoodPublic(t, t.rows[pending[0]].peer, false, now, starts[0]); }
      var u := ResolveOne(t, pending[0], now, starts[0]);
      QueueAside(if Judge(t, pending[0], now).Replace? then MarkGood(t, t.rows[pending[0]].peer, false, now, starts[0]) else t,
        u.collisions);
      ResolvePublic(u, pending[1..], now, starts[1..]);
    }
  }

  lemma QueueAside(t: Tables, collisions: seq<NodeId>)
    requires Public(t)
    ensures Public(t.(collisions := collisions))
  {
    forall id: NodeId ensures PublicRow(t.(collisions := collisions), id) { assert PublicRow(t, id); }
  }

  lemma ApplyPublic(place: seq<nat> -> Placement, t: Tables, op: Op)
    requires Inv(t) && t.env == place(t.env.key) && Safe(place, t, op) && Public(t) && op != AllowPrivate(true)
    ensures Public(Apply(place, t, op))
  {
    hide Inv, AddToNewTable, MarkGood, CanMarkGood, GoodHazard, Resolve, CanResolve, ResolveSafe, Load, PeersKept, Public;
    match op
    case Add(addr, source, penalty, now, draw, now2) => AddPublic(t, addr, source, penalty, now, draw, now2);
    case Good(peer, test, ts, start) => GoodPublic(t, peer, test, ts, start);
    case Try(_, _, _) => TouchesKeepPeers(t, op); KeptIsPublic(t, Apply(place, t, op));
    case Heard(_, _) => TouchesKeepPeers(t, op); KeptIsPublic(t, Apply(place, t, op));
    case ResolveAll(now, starts) => ResolvePublic(t, t.collisions, now, starts);
    case PickVictim(_) => KeptSelf(t.rows); KeptIsPublic(t, Apply(place, t, op));
    case AllowPrivate(allow) => NotAllowed(t); KeptSelf(t.rows); KeptIsPublic(t, Apply(place, t, op));
    case Restart => RestartIsIdentity(place, t);
  }

  lemma NotAllowed(t: Tables)
    requires Public(t)
    ensures !t.allowPrivate
  {
  }

  lemma {:induction false} RunPublic(place: seq<nat> -> Placement, t: Tables, ops: seq<Op>)
    requires Inv(t) && t.env == place(t.env.key) && SafeRun(place, t, ops) && Public(t)
    requires forall i :: 0 <= i < |ops| ==> ops[i] != AllowPrivate(true)
    ensures Public(Run(place, t, ops)) && Run(place, t, ops).env == t.env
    decreases |ops|
  {
    hide Inv, Public, Apply, Safe;
    if ops != [] {
      ApplyInv(place, t, ops[0]);
      ApplyPublic(place, t, ops[0]);
      RunPublic(place, Apply(place, t, ops[0]), ops[1..]);
    }
  }

  /** Over every run from the empty manager in which private addresses are never allowed, no row has one. */
  lemma NoPrivateRows(place: seq<nat> -> Placement, key: seq<nat>, ops: seq<Op>)
    requires place(key).key == key && SafeRun(place, Empty(place(key)), ops)
    requires forall i :: 0 <= i < |ops| ==> ops[i] != AllowPrivate(true)
    ensures var t := Run(place, Empty(place(key)), ops);
      forall id :: id in t.rows ==> !place(key).isPrivate(t.rows[id].peer.host)
  {
    hide Inv, Run, SafeRun;
    var t := Empty(place(key));
    EmptyInv(place(key));
    RunPublic(place, t, ops);
    var u := Run(place, t, ops);
    forall id | id in u.rows ensures !place(key).isPrivate(u.rows[id].peer.host) { assert PublicRow(u, id); }
  }
}
