/**
 Broadcasting one message to the connected peers (fan_out, src/service/gossip_handle.rs).
 */
module FanOut {
  import opened Wrappers
  import opened Sequences
  import opened Lru
  import opened Peers

  /** What the peer map holds for a peer: a test stub, a live link, or a NAT session with or without a sink. */
  datatype Outlet = Stub | Live | Nat(hasSink: bool)

  type Outlets = map<PeerId, Outlet>

  datatype Origin = Local | Forwarded

  datatype Message = Message(msgType: nat, data: seq<nat>)

  datatype FanOutError = NotStarted | SendFailed

  datatype Unreachable = Unreachable(natPeers: nat, lazy: nat)

  datatype Route = Excluded | StubDelivery | EagerPush | LazyOnly | NatOffer | NoSink

  function RouteOf(peers: Outlets, eager: set<PeerId>, exclude: Option<PeerId>, p: PeerId): Route {
    if exclude == Some(p) || p !in peers then Excluded
    else match peers[p]
      case Stub => StubDelivery
      case Live => if p in eager then EagerPush else LazyOnly
      case Nat(hasSink) => if hasSink then NatOffer else NoSink
  }

  type Router = PeerId -> Route

  function RouterOf(peers: Outlets, eager: set<PeerId>, exclude: Option<PeerId>): Router {
    p => RouteOf(peers, eager, exclude, p)
  }

  /** The peers among `ids` that take route `r`. */
  ghost function Routed(f: Router, ids: set<PeerId>, r: Route): set<PeerId> {
    set p | p in ids && f(p) == r
  }

  lemma RoutedGrows(f: Router, ids: set<PeerId>, p: PeerId, r: Route)
    requires p !in ids
    ensures f(p) == r ==> Routed(f, ids + {p}, r) == Routed(f, ids, r) + {p}
    ensures |Routed(f, ids + {p}, r)| == |Routed(f, ids, r)| + (if f(p) == r then 1 else 0)
    ensures f(p) != r ==> Routed(f, ids + {p}, r) == Routed(f, ids, r)
  {
    if f(p) == r {
      assert Routed(f, ids + {p}, r) == Routed(f, ids, r) + {p};
    } else {
      assert Routed(f, ids + {p}, r) == Routed(f, ids, r);
    }
  }

  /** Every peer takes exactly one route. */
  lemma {:induction false} EveryPeerRouted(f: Router, ids: set<PeerId>)
    ensures |Routed(f, ids, StubDelivery)| + |Routed(f, ids, EagerPush)| + |Routed(f, ids, LazyOnly)|
      + |Routed(f, ids, NatOffer)| + |Routed(f, ids, NoSink)| + |Routed(f, ids, Excluded)| == |ids|
  {
    if ids != {} {
      var p :| p in ids;
      EveryPeerRouted(f, ids - {p});
      assert ids - {p} + {p} == ids;
      forall r: Route
        ensures |Routed(f, ids, r)| == |Routed(f, ids - {p}, r)| + (if f(p) == r then 1 else 0)
      {
        RoutedGrows(f, ids - {p}, p, r);
      }
    }
  }

  ghost function Accepting(ids: set<PeerId>, offers: PeerId -> bool): set<PeerId> {
    set p | p in ids && offers(p)
  }

  /** What one fan-out did, when it was not suppressed. */
  ghost predicate Accounted(f: Router, ids: set<PeerId>, sends: PeerId -> bool, offers: PeerId -> bool,
      r: Result<nat, FanOutError>, sentTo: seq<PeerId>, missed: Unreachable)
  {
    var push, offer := Routed(f, ids, EagerPush), Routed(f, ids, NatOffer);
    && Distinct(sentTo)
    && (r.Ok? ==>
        && (forall p :: p in push ==> sends(p))
        && ToSet(sentTo) == push + Accepting(offer, offers)
        && missed.lazy == |Routed(f, ids, LazyOnly)|
        && missed.natPeers == |Routed(f, ids, NoSink)| + |offer - Accepting(offer, offers)|
        && r.value == |Routed(f, ids, StubDelivery)| + |sentTo|)
    && (r.Err? ==>
        && r.error == SendFailed
        && (exists p :: p in push && p !in sentTo && !sends(p))
        && (forall p :: p in sentTo ==> p in push && sends(p)))
  }

  /** Deliveries, unreachable NAT peers and unreachable lazy peers add up to the peers that were not excluded;
      nothing is ever sent to the excluded one; and only a failed eager send makes the call fail. */
  lemma AccountsForEveryPeer(peers: Outlets, eager: set<PeerId>, exclude: Option<PeerId>,
      sends: PeerId -> bool, offers: PeerId -> bool, r: Result<nat, FanOutError>, sentTo: seq<PeerId>, missed: Unreachable)
    requires Accounted(RouterOf(peers, eager, exclude), peers.Keys, sends, offers, r, sentTo, missed)
    ensures exclude.Some? ==> exclude.value !in sentTo
    ensures r.Ok? ==>
      r.value + missed.natPeers + missed.lazy == |peers.Keys - (if exclude.Some? then {exclude.value} else {})|
    ensures r.Ok? <==> forall p :: p in peers && peers[p].Live? && p in eager && exclude != Some(p) ==> sends(p)
  {
    hide Routed, Distinct, ToSet, Accepting, RouterOf;
    var f, ids := RouterOf(peers, eager, exclude), peers.Keys;
    var push, offer := Routed(f, ids, EagerPush), Routed(f, ids, NatOffer);
    OnItsRoute(peers, eager, exclude, offers, sentTo);
    if r.Ok? {
      EveryPeerRouted(f, ids);
      ExcludedOnly(peers, eager, exclude);
      DistinctCard(sentTo);
      SplitCard(push, offer, Accepting(offer, offers));
    }
  }

  // ---- who gets the message, and who does not ---------------------------------------------------

  /** The peers the fan-out is about: all but the excluded one. */
  ghost function Addressed(peers: Outlets, exclude: Option<PeerId>): set<PeerId> {
    set p | p in peers && exclude != Some(p)
  }

  ghost function Stubs(peers: Outlets, exclude: Option<PeerId>): set<PeerId> {
    set p | p in Addressed(peers, exclude) && peers[p].Stub?
  }

  ghost function LiveNotEager(peers: Outlets, eager: set<PeerId>, exclude: Option<PeerId>): set<PeerId> {
    set p | p in Addressed(peers, exclude) && peers[p].Live? && p !in eager
  }

  ghost function Taking(peers: Outlets, exclude: Option<PeerId>, offers: PeerId -> bool): set<PeerId> {
    set p | p in Addressed(peers, exclude) && peers[p].Nat? && peers[p].hasSink && offers(p)
  }

  ghost function NotTaking(peers: Outlets, exclude: Option<PeerId>, offers: PeerId -> bool): set<PeerId> {
    set p | p in Addressed(peers, exclude) && peers[p].Nat? && !(peers[p].hasSink && offers(p))
  }

  /** After a fan-out that succeeds the message has gone to exactly the live eager peers and the NAT sessions whose
      sink took it; every other NAT session and every live peer that is not eager is counted as not reached; and stubs
      count as delivered.  One that fails has sent to eager live peers only. */
  lemma DeliveredExactly(peers: Outlets, eager: set<PeerId>, exclude: Option<PeerId>, sends: PeerId -> bool,
      offers: PeerId -> bool, r: Result<nat, FanOutError>, sentTo: seq<PeerId>, missed: Unreachable)
    requires Accounted(RouterOf(peers, eager, exclude), peers.Keys, sends, offers, r, sentTo, missed)
    ensures r.Ok? ==> forall p :: p in sentTo <==>
      p in peers && exclude != Some(p) &&
      ((peers[p].Live? && p in eager) || (peers[p].Nat? && peers[p].hasSink && offers(p)))
    ensures r.Ok? ==> missed == Unreachable(|NotTaking(peers, exclude, offers)|, |LiveNotEager(peers, eager, exclude)|)
    ensures r.Ok? ==> r.value == |Stubs(peers, exclude)| + |sentTo|
    ensures r.Err? ==> forall p :: p in sentTo ==> p in peers && exclude != Some(p) && peers[p].Live? && p in eager && sends(p)
  {
    hide Distinct, Routed, RouterOf, Accepting, Stubs, LiveNotEager, NotTaking, Taking;
    var f, ids := RouterOf(peers, eager, exclude), peers.Keys;
    RoutesAre(peers, eager, exclude, offers);
    forall p ensures p in sentTo <==> p in ToSet(sentTo) {}
    if r.Ok? {
      var offer := Routed(f, ids, NatOffer);
      Disjoint(peers, exclude, Routed(f, ids, NoSink), offer - Accepting(offer, offers), offers);
    }
  }

  lemma RoutesAre(peers: Outlets, eager: set<PeerId>, exclude: Option<PeerId>, offers: PeerId -> bool)
    ensures var f := RouterOf(peers, eager, exclude); var offer := Routed(f, peers.Keys, NatOffer);
      && Routed(f, peers.Keys, StubDelivery) == Stubs(peers, exclude)
      && Routed(f, peers.Keys, LazyOnly) == LiveNotEager(peers, eager, exclude)
      && Accepting(offer, offers) == Taking(peers, exclude, offers)
      && Routed(f, peers.Keys, NoSink) + (offer - Accepting(offer, offers)) == NotTaking(peers, exclude, offers)
      && Routed(f, peers.Keys, NoSink) !! offer
      && (forall p :: p in Routed(f, peers.Keys, EagerPush) <==>
            p in peers && exclude != Some(p) && peers[p].Live? && p in eager)
      && (forall p :: p in Taking(peers, exclude, offers) <==>
            p in peers && exclude != Some(p) && peers[p].Nat? && peers[p].hasSink && offers(p))
  {
    var f := RouterOf(peers, eager, exclude);
    forall p | p in peers ensures f(p) == RouteOf(peers, eager, exclude, p) {}
  }

  lemma Disjoint(peers: Outlets, exclude: Option<PeerId>, a: set<PeerId>, b: set<PeerId>, offers: PeerId -> bool)
    requires a !! b && a + b == NotTaking(peers, exclude, offers)
    ensures |NotTaking(peers, exclude, offers)| == |a| + |b|
  {
  }

  /** When every peer is live and eager and every send succeeds, the message goes to all but the excluded one:
      the step Flood assumes of each node. */
  lemma AllEagerReachesAll(peers: Outlets, eager: set<PeerId>, exclude: Option<PeerId>,
      sends: PeerId -> bool, offers: PeerId -> bool, r: Result<nat, FanOutError>, sentTo: seq<PeerId>, missed: Unreachable)
    requires Accounted(RouterOf(peers, eager, exclude), peers.Keys, sends, offers, r, sentTo, missed)
    requires forall p :: p in peers ==> peers[p].Live? && p in eager && sends(p)
    ensures r == Ok(|sentTo|) && missed == Unreachable(0, 0)
    ensures ToSet(sentTo) == peers.Keys - (if exclude.Some? then {exclude.value} else {})
  {
    hide ToSet, Accepting, Distinct, Routed, RouterOf, Accounted;
    AccountsForEveryPeer(peers, eager, exclude, sends, offers, r, sentTo, missed);
    OnItsRoute(peers, eager, exclude, offers, sentTo);
    OnlyPushed(peers, eager, exclude);
    NothingElse(RouterOf(peers, eager, exclude), peers.Keys, sends, offers, r, sentTo, missed);
  }

  lemma NothingElse(f: Router, ids: set<PeerId>, sends: PeerId -> bool, offers: PeerId -> bool,
      r: Result<nat, FanOutError>, sentTo: seq<PeerId>, missed: Unreachable)
    requires Accounted(f, ids, sends, offers, r, sentTo, missed) && r.Ok?
    requires Routed(f, ids, NatOffer) == {} && Routed(f, ids, NoSink) == {} && Routed(f, ids, LazyOnly) == {}
    requires Routed(f, ids, StubDelivery) == {}
    ensures r.value == |sentTo| && missed == Unreachable(0, 0) && ToSet(sentTo) == Routed(f, ids, EagerPush)
  {
    hide ToSet, Distinct;
  }

  lemma OnlyPushed(peers: Outlets, eager: set<PeerId>, exclude: Option<PeerId>)
    requires forall p :: p in peers ==> peers[p].Live? && p in eager
    ensures var f := RouterOf(peers, eager, exclude);
      && Routed(f, peers.Keys, EagerPush) == peers.Keys - (if exclude.Some? then {exclude.value} else {})
      && (forall r: Route :: r != EagerPush && r != Excluded ==> Routed(f, peers.Keys, r) == {})
  {
    var f := RouterOf(peers, eager, exclude);
    forall p | p in peers ensures f(p) == if exclude == Some(p) then Excluded else EagerPush {}
  }

  lemma OnItsRoute(peers: Outlets, eager: set<PeerId>, exclude: Option<PeerId>, offers: PeerId -> bool,
      sentTo: seq<PeerId>)
    ensures var f := RouterOf(peers, eager, exclude);
      var push, offer := Routed(f, peers.Keys, EagerPush), Routed(f, peers.Keys, NatOffer);
      && push !! offer && Accepting(offer, offers) <= offer
      && (offer == {} ==> Accepting(offer, offers) == {})
      && (forall p :: p in push <==> p in peers && peers[p].Live? && p in eager && exclude != Some(p))
      && (exclude.Some? ==> exclude.value !in push + offer)
    ensures forall p :: p in sentTo <==> p in ToSet(sentTo)
  {
    var f := RouterOf(peers, eager, exclude);
    forall p | p in peers && peers[p].Live? && p in eager && exclude != Some(p)
      ensures p in Routed(f, peers.Keys, EagerPush)
    {
      assert f(p) == EagerPush;
    }
  }

  lemma ExcludedOnly(peers: Outlets, eager: set<PeerId>, exclude: Option<PeerId>)
    ensures |peers.Keys - (if exclude.Some? then {exclude.value} else {})|
      == |peers.Keys| - |Routed(RouterOf(peers, eager, exclude), peers.Keys, Excluded)|
  {
    hide RouterOf;
    var f := RouterOf(peers, eager, exclude);
    forall p | p in peers ensures f(p) == Excluded <==> exclude == Some(p) { ExcludedRoute(peers, eager, exclude, p); }
    if exclude.Some? && exclude.value in peers {
      assert Routed(f, peers.Keys, Excluded) == {exclude.value};
    } else {
      assert Routed(f, peers.Keys, Excluded) == {};
      if exclude.Some? { assert peers.Keys - {exclude.value} == peers.Keys; }
    }
  }

  lemma ExcludedRoute(peers: Outlets, eager: set<PeerId>, exclude: Option<PeerId>, p: PeerId)
    requires p in peers
    ensures RouterOf(peers, eager, exclude)(p) == Excluded <==> exclude == Some(p)
  {
  }

  lemma SplitCard(push: set<PeerId>, offer: set<PeerId>, took: set<PeerId>)
    requires push !! offer && took <= offer
    ensures |push + took| + |offer - took| == |push| + |offer|
  {
    assert offer == took + (offer - took);
  }

  class GossipNode {
    const hash: Message -> Hash
    var running: bool
    var seen: Lru<Hash, ()>
    var cache: Lru<Hash, Entry>
    var peers: Outlets
    var eager: set<PeerId>
    var messagesSent: nat
    var bytesSent: nat

    ghost predicate Wf()
      reads this
    {
      Valid(seen) && Valid(cache)
    }

    /** `sends` and `offers` say which eager sends and which sink offers succeed; `sentTo` is who was handed
        the full message, in order. */
    method FanOut(message: Message, wireLen: nat, exclude: Option<PeerId>, origin: Origin,
        sends: PeerId -> bool, offers: PeerId -> bool, now: nat)
      returns (r: Result<nat, FanOutError>, sentTo: seq<PeerId>, missed: Unreachable)
      requires Wf()
      modifies this`seen, this`cache, this`messagesSent, this`bytesSent
      ensures Wf()
      ensures !running ==> r == Err(NotStarted) && sentTo == [] && seen == old(seen) && cache == old(cache)
      ensures var dropped := origin.Forwarded? && old(seen).Has(hash(message));
        running && dropped ==> r == Ok(0) && sentTo == [] && seen == old(seen) && cache == old(cache)
      ensures var dropped := origin.Forwarded? && old(seen).Has(hash(message));
        running && !dropped ==>
          && seen == old(seen).Put(hash(message), ())
          && cache == CacheInsert(old(cache), hash(message), message.msgType, message.data, now)
          && Accounted(RouterOf(peers, eager, exclude), peers.Keys, sends, offers, r, sentTo, missed)
          && messagesSent == old(messagesSent) + Tallied(peers, exclude, offers, r.Ok?)
          && bytesSent == old(bytesSent) + Bytes(wireLen, Tallied(peers, exclude, offers, r.Ok?))
      ensures (running ==> origin.Forwarded? && old(seen).Has(hash(message))) ==>
        messagesSent == old(messagesSent) && bytesSent == old(bytesSent)
    {
      hide CacheInsert, Valid, Accounted, Tallied;
      sentTo, missed := [], Unreachable(0, 0);
      if !running { return Err(NotStarted), sentTo, missed; }
      var h := hash(message);
      if origin.Forwarded? && seen.Has(h) { return Ok(0), sentTo, missed; }
      PutKeeps(seen, h, ());
      seen := seen.Put(h, ());
      CachePut(cache, h, message, now);
      cache := CacheInsert(cache, h, message.msgType, message.data, now);
      r, sentTo, missed := Deliver(wireLen, exclude, sends, offers);
    }

    /** Classify, then push to the eager peers one by one, then offer to the sinks. */
    method Deliver(wireLen: nat, exclude: Option<PeerId>, sends: PeerId -> bool, offers: PeerId -> bool)
      returns (r: Result<nat, FanOutError>, sentTo: seq<PeerId>, missed: Unreachable)
      modifies this`messagesSent, this`bytesSent
      ensures Accounted(RouterOf(peers, eager, exclude), peers.Keys, sends, offers, r, sentTo, missed)
      ensures messagesSent == old(messagesSent) + Tallied(peers, exclude, offers, r.Ok?)
      ensures bytesSent == old(bytesSent) + Bytes(wireLen, Tallied(peers, exclude, offers, r.Ok?))
    {
      hide Distinct, Routed, ToSet, Accepting, RouterOf, Accounted, Tallied, Bytes;
      ghost var f, ids := RouterOf(peers, eager, exclude), peers.Keys;
      var stubs, eagerJobs, natJobs, counted := Classify(exclude);
      Count(stubs, wireLen);
      TalliedIs(peers, eager, exclude, offers, stubs, wireLen);
      var pushed := Push(eagerJobs, sends);
      if pushed < |eagerJobs| {
        PushFailed(f, ids, sends, offers, eagerJobs, pushed, counted);
        return Err(SendFailed), eagerJobs[..pushed], counted;
      }
      var taken, refused := Offer(natJobs, offers);
      Count(|taken|, wireLen);
      missed := counted.(natPeers := counted.natPeers + refused);
      OnItsRoute(peers, eager, exclude, offers, eagerJobs);
      AllPushed(f, ids, sends, offers, stubs, eagerJobs, taken, missed);
      return Ok(stubs + |eagerJobs| + |taken|), eagerJobs + taken, missed;
    }

    method Count(deliveries: nat, wireLen: nat)
      modifies this`messagesSent, this`bytesSent
      ensures messagesSent == old(messagesSent) + deliveries
      ensures bytesSent == old(bytesSent) + Bytes(wireLen, deliveries)
    {
      messagesSent := messagesSent + deliveries;
      bytesSent := bytesSent + wireLen * deliveries;
    }

    /** The pass over the peer map: who gets what, and who gets nothing. */
    method Classify(exclude: Option<PeerId>)
      returns (stubs: nat, eagerJobs: seq<PeerId>, natJobs: seq<PeerId>, missed: Unreachable)
      ensures stubs == |Routed(RouterOf(peers, eager, exclude), peers.Keys, StubDelivery)|
      ensures Distinct(eagerJobs) && ToSet(eagerJobs) == Routed(RouterOf(peers, eager, exclude), peers.Keys, EagerPush)
      ensures Distinct(natJobs) && ToSet(natJobs) == Routed(RouterOf(peers, eager, exclude), peers.Keys, NatOffer)
      ensures missed.lazy == |Routed(RouterOf(peers, eager, exclude), peers.Keys, LazyOnly)|
      ensures missed.natPeers == |Routed(RouterOf(peers, eager, exclude), peers.Keys, NoSink)|
    {
      hide Routed, Distinct, ToSet, RouteOf;
      stubs, eagerJobs, natJobs, missed := 0, [], [], Unreachable(0, 0);
      var todo := peers.Keys;
      ghost var done: set<PeerId> := {};
      ghost var f := RouterOf(peers, eager, exclude);
      NobodyRouted(f);
      while todo != {}
        invariant todo <= peers.Keys && done == peers.Keys - todo
        invariant stubs == |Routed(f, done, StubDelivery)|
        invariant Distinct(eagerJobs) && ToSet(eagerJobs) == Routed(f, done, EagerPush)
        invariant Distinct(natJobs) && ToSet(natJobs) == Routed(f, done, NatOffer)
        invariant missed.lazy == |Routed(f, done, LazyOnly)|
        invariant missed.natPeers == |Routed(f, done, NoSink)|
        decreases |todo|
      {
        var p :| p in todo;
        todo := todo - {p};
        RoutesGrow(f, done, p, eagerJobs, natJobs);
        done := done + {p};
        match RouteOf(peers, eager, exclude, p) {
          case Excluded =>
          case StubDelivery => stubs := stubs + 1;
          case EagerPush => eagerJobs := eagerJobs + [p];
          case LazyOnly => missed := missed.(lazy := missed.lazy + 1);
          case NatOffer => natJobs := natJobs + [p];
          case NoSink => missed := missed.(natPeers := missed.natPeers + 1);
        }
      }
      assert done == peers.Keys;
    }
  }

  /** What the service-wide counters are raised by: stubs, and NAT sessions once they are offered the message. */
  ghost function Tallied(peers: Outlets, exclude: Option<PeerId>, offers: PeerId -> bool, ok: bool): nat {
    |Stubs(peers, exclude)| + (if ok then |Taking(peers, exclude, offers)| else 0)
  }

  function Bytes(wireLen: nat, deliveries: nat): nat {
    wireLen * deliveries
  }

  lemma TalliedIs(peers: Outlets, eager: set<PeerId>, exclude: Option<PeerId>, offers: PeerId -> bool, stubs: nat, wireLen: nat)
    requires stubs == |Routed(RouterOf(peers, eager, exclude), peers.Keys, StubDelivery)|
    ensures Tallied(peers, exclude, offers, false) == stubs
    ensures forall taken: seq<PeerId> ::
      Distinct(taken) && ToSet(taken) == Accepting(Routed(RouterOf(peers, eager, exclude), peers.Keys, NatOffer), offers) ==>
        Tallied(peers, exclude, offers, true) == stubs + |taken|
    ensures forall n: nat :: Bytes(wireLen, stubs + n) == Bytes(wireLen, stubs) + Bytes(wireLen, n)
  {
    hide Distinct, ToSet, Accepting, Routed, RouterOf, Taking, Stubs;
    RoutesAre(peers, eager, exclude, offers);
    forall taken: seq<PeerId> |
      Distinct(taken) && ToSet(taken) == Accepting(Routed(RouterOf(peers, eager, exclude), peers.Keys, NatOffer), offers)
      ensures Tallied(peers, exclude, offers, true) == stubs + |taken|
    {
      DistinctCard(taken);
    }
  }

  lemma NobodyRouted(f: Router)
    ensures forall r: Route :: Routed(f, {}, r) == {}
    ensures Distinct<PeerId>([]) && ToSet<PeerId>([]) == {}
  {
  }

  lemma RoutesGrow(f: Router, ids: set<PeerId>, p: PeerId, eagerJobs: seq<PeerId>, natJobs: seq<PeerId>)
    requires p !in ids
    requires Distinct(eagerJobs) && ToSet(eagerJobs) == Routed(f, ids, EagerPush)
    requires Distinct(natJobs) && ToSet(natJobs) == Routed(f, ids, NatOffer)
    ensures forall r: Route :: (|Routed(f, ids + {p}, r)| == |Routed(f, ids, r)| + (if f(p) == r then 1 else 0))
    ensures var jobs := if f(p) == EagerPush then eagerJobs + [p] else eagerJobs;
      Distinct(jobs) && ToSet(jobs) == Routed(f, ids + {p}, EagerPush)
    ensures var jobs := if f(p) == NatOffer then natJobs + [p] else natJobs;
      Distinct(jobs) && ToSet(jobs) == Routed(f, ids + {p}, NatOffer)
  {
    forall r: Route ensures |Routed(f, ids + {p}, r)| == |Routed(f, ids, r)| + (if f(p) == r then 1 else 0) {
      RoutedGrows(f, ids, p, r);
    }
    JobsGrow(f, ids, p, eagerJobs, EagerPush);
    JobsGrow(f, ids, p, natJobs, NatOffer);
  }

  lemma JobsGrow(f: Router, ids: set<PeerId>, p: PeerId, jobs: seq<PeerId>, r: Route)
    requires p !in ids && Distinct(jobs) && ToSet(jobs) == Routed(f, ids, r)
    ensures var next := if f(p) == r then jobs + [p] else jobs;
      Distinct(next) && ToSet(next) == Routed(f, ids + {p}, r)
  {
    RoutedGrows(f, ids, p, r);
    assert p !in ToSet(jobs);
    assert ToSet(jobs + [p]) == ToSet(jobs) + {p};
  }

  lemma CachePut(c: Lru<Hash, Entry>, h: Hash, m: Message, now: nat)
    requires Valid(c)
    ensures Valid(CacheInsert(c, h, m.msgType, m.data, now))
  {
    PutKeeps(c, h, Entry(m.data, m.msgType, now));
  }

  lemma Appended(a: seq<PeerId>, b: seq<PeerId>)
    requires Distinct(a) && Distinct(b) && ToSet(a) !! ToSet(b)
    ensures Distinct(a + b) && ToSet(a + b) == ToSet(a) + ToSet(b) && |a + b| == |a| + |b|
  {
    forall i, j | 0 <= i < j < |a + b| ensures (a + b)[i] != (a + b)[j] {
      if i < |a| <= j { assert a[i] in ToSet(a) && b[j - |a|] in ToSet(b); }
    }
  }

  /** Send to one peer after another until a send fails. */
  method Push(jobs: seq<PeerId>, sends: PeerId -> bool) returns (pushed: nat)
    ensures pushed <= |jobs| && forall j :: 0 <= j < pushed ==> sends(jobs[j])
    ensures pushed < |jobs| ==> !sends(jobs[pushed])
  {
    pushed := 0;
    while pushed < |jobs| && sends(jobs[pushed])
      invariant pushed <= |jobs| && forall j :: 0 <= j < pushed ==> sends(jobs[j])
    {
      pushed := pushed + 1;
    }
  }

  lemma PushFailed(f: Router, ids: set<PeerId>, sends: PeerId -> bool, offers: PeerId -> bool, jobs: seq<PeerId>,
      pushed: nat, missed: Unreachable)
    requires Distinct(jobs) && ToSet(jobs) == Routed(f, ids, EagerPush)
    requires pushed < |jobs| && !sends(jobs[pushed]) && forall j :: 0 <= j < pushed ==> sends(jobs[j])
    ensures Accounted(f, ids, sends, offers, Err(SendFailed), jobs[..pushed], missed)
  {
    hide Routed;
    var p := jobs[pushed];
    assert p in ToSet(jobs) && p !in jobs[..pushed];
    forall q | q in jobs[..pushed] ensures q in Routed(f, ids, EagerPush) && sends(q) { assert q in ToSet(jobs); }
  }

  lemma AllPushed(f: Router, ids: set<PeerId>, sends: PeerId -> bool, offers: PeerId -> bool, stubs: nat,
      jobs: seq<PeerId>, taken: seq<PeerId>, missed: Unreachable)
    requires Distinct(jobs) && ToSet(jobs) == Routed(f, ids, EagerPush) && forall j :: 0 <= j < |jobs| ==> sends(jobs[j])
    requires var offer := Routed(f, ids, NatOffer);
      && Distinct(taken) && ToSet(taken) == Accepting(offer, offers)
      && Routed(f, ids, EagerPush) !! offer && Accepting(offer, offers) <= offer
      && missed.natPeers == |Routed(f, ids, NoSink)| + |offer - Accepting(offer, offers)|
    requires missed.lazy == |Routed(f, ids, LazyOnly)| && stubs == |Routed(f, ids, StubDelivery)|
    ensures Accounted(f, ids, sends, offers, Ok(stubs + |jobs| + |taken|), jobs + taken, missed)
  {
    hide Routed, Accepting, Distinct;
    Appended(jobs, taken);
    forall p | p in Routed(f, ids, EagerPush) ensures sends(p) { assert p in ToSet(jobs); }
  }

  lemma OfferStep(before: set<PeerId>, p: PeerId, offers: PeerId -> bool)
    requires p !in before
    ensures offers(p) ==> Accepting(before + {p}, offers) == Accepting(before, offers) + {p}
    ensures !offers(p) ==> Accepting(before + {p}, offers) == Accepting(before, offers)
    ensures p !in Accepting(before, offers)
    ensures |before + {p} - Accepting(before + {p}, offers)|
      == |before - Accepting(before, offers)| + (if offers(p) then 0 else 1)
  {
    if offers(p) {
      assert Accepting(before + {p}, offers) == Accepting(before, offers) + {p};
      assert before + {p} - Accepting(before + {p}, offers) == before - Accepting(before, offers);
    } else {
      assert Accepting(before + {p}, offers) == Accepting(before, offers);
      assert before + {p} - Accepting(before + {p}, offers) == (before - Accepting(before, offers)) + {p};
    }
  }

  lemma Pushed(s: seq<PeerId>, p: PeerId)
    requires Distinct(s) && p !in ToSet(s)
    ensures Distinct(s + [p]) && ToSet(s + [p]) == ToSet(s) + {p}
  {
  }

  lemma NextOf(s: seq<PeerId>, i: nat)
    requires Distinct(s) && i < |s|
    ensures ToSet(s[..i + 1]) == ToSet(s[..i]) + {s[i]} && s[i] !in ToSet(s[..i])
  {
    assert s[..i + 1] == s[..i] + [s[i]];
  }

  lemma NoneOffered(s: seq<PeerId>, offers: PeerId -> bool)
    ensures Distinct<PeerId>([]) && ToSet<PeerId>([]) == Accepting(ToSet(s[..0]), offers)
    ensures |ToSet(s[..0]) - Accepting(ToSet(s[..0]), offers)| == 0
  {
    assert ToSet(s[..0]) == {};
  }

  /** Offer the message to each sink in turn. */
  method Offer(jobs: seq<PeerId>, offers: PeerId -> bool) returns (taken: seq<PeerId>, refused: nat)
    requires Distinct(jobs)
    ensures Distinct(taken) && ToSet(taken) == Accepting(ToSet(jobs), offers)
    ensures refused == |ToSet(jobs) - Accepting(ToSet(jobs), offers)|
  {
    hide Distinct, ToSet, Accepting;
    taken, refused := [], 0;
    var i := 0;
    NoneOffered(jobs, offers);
    while i < |jobs|
      invariant i <= |jobs|
      invariant Distinct(taken) && ToSet(taken) == Accepting(ToSet(jobs[..i]), offers)
      invariant refused == |ToSet(jobs[..i]) - Accepting(ToSet(jobs[..i]), offers)|
    {
      var p := jobs[i];
      NextOf(jobs, i);
      OfferStep(ToSet(jobs[..i]), p, offers);
      if offers(p) {
        Pushed(taken, p);
        taken := taken + [p];
      } else {
        refused := refused + 1;
      }
      i := i + 1;
    }
    assert jobs[..i] == jobs;
  }
}
