/**
 One message flooding a network in which every node answers a first receipt by forwarding to all its peers but the
 sender, and drops every later receipt (broadcast with the sender excluded, src/service/gossip_handle.rs).
 Links are eager, sends succeed, and no seen-set entry for the message is evicted meanwhile.
 */
module Flood {
  import opened Sequences

  type Node(==, !new)

  datatype Net = Net(nodes: set<Node>, links: map<Node, set<Node>>)

  /** Every node has its peers, who are nodes too. */
  ghost predicate Connected(g: Net) {
    && g.links.Keys == g.nodes
    && (forall n :: n in g.nodes ==> g.links[n] <= g.nodes)
  }

  datatype Link = Link(from: Node, to: Node)

  /** `sent` counts messages handed to the network, `received` those taken off it. */
  datatype State = State(seen: set<Node>, inflight: multiset<Link>, sent: nat, received: nat)

  function Fan(from: Node, targets: set<Node>): set<Link> {
    set to | to in targets :: Link(from, to)
  }

  lemma {:induction false} FanSize(from: Node, targets: set<Node>)
    ensures |multiset(Fan(from, targets))| == |targets|
    ensures forall to :: multiset(Fan(from, targets))[Link(from, to)] > 0 <==> to in targets
    ensures forall l :: l in multiset(Fan(from, targets)) ==> l.from == from && l.to in targets
  {
    if targets == {} {
      assert Fan(from, targets) == {};
    } else {
      var t :| t in targets;
      FanSize(from, targets - {t});
      assert Fan(from, targets) == Fan(from, targets - {t}) + {Link(from, t)};
      assert |Fan(from, targets)| == |Fan(from, targets - {t})| + 1;
    }
  }

  function Sends(s: State, from: Node, targets: set<Node>): State {
    s.(inflight := s.inflight + multiset(Fan(from, targets)), sent := s.sent + |targets|)
  }

  /** The origin announces, or announces again: never suppressed, and recorded as seen. */
  function Announce(g: Net, s: State, origin: Node): State
    requires origin in g.links
  {
    Sends(s, origin, g.links[origin]).(seen := s.seen + {origin})
  }

  /** A link delivers: a first receipt is forwarded to everyone but the sender, a later one is dropped. */
  function Deliver(g: Net, s: State, l: Link): State
    requires l in s.inflight && l.to in g.links
  {
    var t := s.(inflight := s.inflight - multiset{l}, received := s.received + 1);
    if l.to in t.seen then t
    else Sends(t, l.to, g.links[l.to] - {l.from}).(seen := t.seen + {l.to})
  }

  datatype Step = Announcing | Delivering(link: Link)

  ghost predicate Enabled(g: Net, s: State, step: Step) {
    step.Announcing? || (step.link in s.inflight && step.link.to in g.links)
  }

  ghost function Next(g: Net, s: State, origin: Node, step: Step): State
    requires origin in g.links && Enabled(g, s, step)
  {
    match step
    case Announcing => Announce(g, s, origin)
    case Delivering(l) => Deliver(g, s, l)
  }

  ghost predicate Schedule(g: Net, s: State, origin: Node, steps: seq<Step>)
    requires origin in g.links
    decreases |steps|
  {
    steps == [] ||
    (Enabled(g, s, steps[0]) && Schedule(g, Next(g, s, origin, steps[0]), origin, steps[1..]))
  }

  ghost function Run(g: Net, s: State, origin: Node, steps: seq<Step>): State
    requires origin in g.links && Schedule(g, s, origin, steps)
    decreases |steps|
  {
    if steps == [] then s else Run(g, Next(g, s, origin, steps[0]), origin, steps[1..])
  }

  function Quiet(): State {
    State({}, multiset{}, 0, 0)
  }

  function Announcements(steps: seq<Step>): nat {
    if steps == [] then 0 else (if steps[0].Announcing? then 1 else 0) + Announcements(steps[1..])
  }

  // ---- reachability --------------------------------------------------------------------------

  ghost predicate Path(g: Net, path: seq<Node>) {
    && |path| > 0
    && (forall i :: 0 <= i < |path| ==> path[i] in g.links)
    && (forall i :: 0 < i < |path| ==> path[i] in g.links[path[i - 1]])
  }

  ghost predicate Reaches(g: Net, a: Node, b: Node) {
    exists path :: Path(g, path) && path[0] == a && path[|path| - 1] == b
  }

  lemma ReachesSelf(g: Net, a: Node)
    requires a in g.links
    ensures Reaches(g, a, a)
  {
    assert Path(g, [a]);
  }

  lemma ReachesOn(g: Net, a: Node, b: Node, c: Node)
    requires Connected(g) && Reaches(g, a, b) && b in g.links && c in g.links[b]
    ensures Reaches(g, a, c)
  {
    var path :| Path(g, path) && path[0] == a && path[|path| - 1] == b;
    assert Path(g, path + [c]);
  }

  lemma {:induction false} ClosedHasReachable(g: Net, closed: set<Node>, path: seq<Node>)
    requires Path(g, path) && path[0] in closed
    requires forall n, m :: n in closed && n in g.links && m in g.links[n] ==> m in closed
    ensures path[|path| - 1] in closed
  {
    if |path| > 1 {
      assert path[1] in g.links[path[0]];
      assert forall i :: 0 <= i < |path[1..]| ==> path[1..][i] == path[i + 1];
      ClosedHasReachable(g, closed, path[1..]);
    }
  }

  // ---- the cost of a flood -------------------------------------------------------------------

  /** The sum of the degrees of `ns`. */
  ghost function Degrees(g: Net, ns: set<Node>): nat
    requires ns <= g.links.Keys
  {
    if ns == {} then 0
    else
      var n :| n in ns;
      |g.links[n]| + Degrees(g, ns - {n})
  }

  lemma {:induction false} DegreesWithout(g: Net, ns: set<Node>, n: Node)
    requires ns <= g.links.Keys && n in ns
    ensures Degrees(g, ns) == |g.links[n]| + Degrees(g, ns - {n})
  {
    var m :| m in ns && Degrees(g, ns) == |g.links[m]| + Degrees(g, ns - {m});
    if m != n {
      DegreesWithout(g, ns - {m}, n);
      DegreesWithout(g, ns - {n}, m);
      assert ns - {m} - {n} == ns - {n} - {m};
    }
  }

  lemma {:induction false} DegreesMonotone(g: Net, a: set<Node>, b: set<Node>)
    requires a <= b <= g.links.Keys
    ensures Degrees(g, a) <= Degrees(g, b)
  {
    if a != b {
      assert exists n :: n in b && n !in a;
      assert exists n :: n in b - a by { var n :| n in b && n !in a; assert n in b - a; }
      var n :| n in b - a;
      DegreesWithout(g, b, n);
      DegreesMonotone(g, a, b - {n});
    }
  }

  // ---- the invariant -------------------------------------------------------------------------

  /** Each neighbour of a node that has seen the message has seen it too, or will be handed it by that node. */
  ghost predicate Pending(g: Net, s: State) {
    forall n, m :: n in s.seen && n in g.links && m in g.links[n] ==> m in s.seen || Link(n, m) in s.inflight
  }

  ghost predicate Travelling(g: Net, seen: set<Node>, inflight: multiset<Link>) {
    forall l :: l in inflight ==> l.from in seen && l.from in g.links && l.to in g.links[l.from]
  }

  /** The message travels only along links, from nodes that have seen it, and only to where the origin leads. */
  ghost predicate Located(g: Net, s: State, origin: Node)
    requires Connected(g)
  {
    && s.seen <= g.nodes
    && Travelling(g, s.seen, s.inflight)
    && (forall n :: n in s.seen ==> Reaches(g, origin, n))
  }

  /** What has been sent is accounted for by the nodes that have seen it and the `k` announcements. */
  ghost predicate Paid(g: Net, s: State, origin: Node, k: nat)
    requires Connected(g) && origin in g.links && s.seen <= g.nodes
  {
    && s.sent == s.received + |s.inflight|
    && s.sent + (if k > 0 then |g.links[origin]| else 0) <= Degrees(g, s.seen) + k * |g.links[origin]|
  }

  ghost predicate Spreading(g: Net, s: State, origin: Node, k: nat)
    requires Connected(g) && origin in g.links
  {
    && Located(g, s, origin)
    && Pending(g, s)
    && (k > 0 ==> origin in s.seen)
    && Paid(g, s, origin, k)
  }

  lemma AnnounceSpreads(g: Net, s: State, origin: Node, k: nat)
    requires Connected(g) && origin in g.links && Spreading(g, s, origin, k)
    requires k == 0 ==> s == Quiet()
    ensures Spreading(g, Announce(g, s, origin), origin, k + 1)
  {
    var u := Announce(g, s, origin);
    FanSize(origin, g.links[origin]);
    MoreTravels(g, s.seen, s.inflight, origin, g.links[origin]);
    ReachesSelf(g, origin);
    if k == 0 {
      DegreesWithout(g, {origin}, origin);
      assert u.seen == {origin} && {origin} - {origin} == {};
      assert u.sent == |g.links[origin]|;
    } else {
      assert u.seen == s.seen;
    }
  }

  lemma DeliverSpreads(g: Net, s: State, origin: Node, k: nat, l: Link)
    requires Connected(g) && origin in g.links && Spreading(g, s, origin, k) && l in s.inflight && k > 0
    ensures l.to in g.links && Spreading(g, Deliver(g, s, l), origin, k)
    ensures l.to in s.seen ==> Deliver(g, s, l).seen == s.seen && Deliver(g, s, l).sent == s.sent
  {
    hide Pending, Paid, Reaches, Travelling;
    LinkTravels(g, s, l);
    DeliverLocated(g, s, origin, l);
    DeliverPaid(g, s, origin, k, l);
    if l.to !in s.seen { FirstReceiptPending(g, s, l); } else { DroppedPending(g, s, l); }
  }

  lemma DeliverLocated(g: Net, s: State, origin: Node, l: Link)
    requires Connected(g) && Located(g, s, origin) && l in s.inflight && l.to in g.links
    ensures Located(g, Deliver(g, s, l), origin)
  {
    hide Reaches, Travelling, Fan;
    LinkTravels(g, s, l);
    LessTravels(g, s.seen, s.inflight, l);
    if l.to !in s.seen {
      ReachesOn(g, origin, l.from, l.to);
      MoreTravels(g, s.seen, s.inflight - multiset{l}, l.to, g.links[l.to] - {l.from});
    }
  }

  lemma LinkTravels(g: Net, s: State, l: Link)
    requires Travelling(g, s.seen, s.inflight) && l in s.inflight
    ensures l.from in s.seen && l.from in g.links && l.to in g.links[l.from]
  {
  }

  lemma LessTravels(g: Net, seen: set<Node>, inflight: multiset<Link>, l: Link)
    requires Travelling(g, seen, inflight)
    ensures Travelling(g, seen, inflight - multiset{l})
  {
  }

  lemma MoreTravels(g: Net, seen: set<Node>, inflight: multiset<Link>, n: Node, targets: set<Node>)
    requires Travelling(g, seen, inflight) && n in g.links && targets <= g.links[n]
    ensures Travelling(g, seen + {n}, inflight + multiset(Fan(n, targets)))
  {
    FanSize(n, targets);
    forall l | l in inflight + multiset(Fan(n, targets))
      ensures l.from in seen + {n} && l.from in g.links && l.to in g.links[l.from]
    {
      assert l in inflight || l in multiset(Fan(n, targets));
    }
  }

  lemma DeliverPaid(g: Net, s: State, origin: Node, k: nat, l: Link)
    requires Connected(g) && origin in g.links && s.seen <= g.nodes && Paid(g, s, origin, k)
    requires l in s.inflight && l.to in g.links
    ensures Paid(g, Deliver(g, s, l), origin, k)
  {
    hide Degrees, Fan;
    if l.to !in s.seen {
      FanSize(l.to, g.links[l.to] - {l.from});
      NewlySeen(g, s.seen, l);
    }
  }

  lemma NewlySeen(g: Net, seen: set<Node>, l: Link)
    requires seen <= g.links.Keys && l.to in g.links && l.to !in seen
    ensures Degrees(g, seen + {l.to}) == |g.links[l.to]| + Degrees(g, seen)
    ensures |g.links[l.to] - {l.from}| <= |g.links[l.to]|
  {
    hide Degrees;
    DegreesWithout(g, seen + {l.to}, l.to);
    assert seen + {l.to} - {l.to} == seen;
    SubsetCard(g.links[l.to] - {l.from}, g.links[l.to]);
  }

  lemma FirstReceiptPending(g: Net, s: State, l: Link)
    requires Pending(g, s) && l in s.inflight && l.to in g.links && l.from in s.seen && l.to !in s.seen
    ensures Pending(g, Deliver(g, s, l))
  {
    hide Fan;
    var targets := g.links[l.to] - {l.from};
    var u := Deliver(g, s, l);
    forall n, m | n in u.seen && n in g.links && m in g.links[n] ensures m in u.seen || Link(n, m) in u.inflight {
      if n in s.seen {
        if m !in s.seen && Link(n, m) != l { StillInFlight(s.inflight, l, Link(n, m), multiset(Fan(l.to, targets))); }
      } else if m != l.from {
        NowInFlight(s.inflight - multiset{l}, l.to, m, targets);
      }
    }
  }

  lemma StillInFlight(inflight: multiset<Link>, l: Link, x: Link, more: multiset<Link>)
    requires x in inflight && x != l
    ensures x in inflight - multiset{l} + more
  {
  }

  lemma NowInFlight(inflight: multiset<Link>, n: Node, m: Node, targets: set<Node>)
    requires m in targets
    ensures Link(n, m) in inflight + multiset(Fan(n, targets))
  {
    FanSize(n, targets);
  }

  lemma DroppedPending(g: Net, s: State, l: Link)
    requires Pending(g, s) && l in s.inflight && l.to in g.links && l.to in s.seen
    ensures Pending(g, Deliver(g, s, l))
  {
  }

  /** Undelivered receipts and degrees of nodes still to be reached: what a delivery always uses up. */
  ghost function Budget(g: Net, s: State): nat
    requires Connected(g) && s.seen <= g.nodes
  {
    |s.inflight| + Degrees(g, g.nodes - s.seen)
  }

  /** Every delivery lowers the budget, so a flood nobody restarts comes to rest. */
  lemma DeliverSpends(g: Net, s: State, l: Link)
    requires Connected(g) && s.seen <= g.nodes && l in s.inflight && l.to in g.nodes
    ensures Deliver(g, s, l).seen <= g.nodes && Budget(g, Deliver(g, s, l)) < Budget(g, s)
  {
    if l.to !in s.seen {
      var targets := g.links[l.to] - {l.from};
      FanSize(l.to, targets);
      DegreesWithout(g, g.nodes - s.seen, l.to);
      assert g.nodes - s.seen - {l.to} == g.nodes - (s.seen + {l.to});
      SubsetCard(targets, g.links[l.to]);
    }
  }

  /** However deliveries are ordered, no more than the budget can happen. */
  lemma {:induction false} FloodEnds(g: Net, s: State, origin: Node, k: nat, steps: seq<Step>)
    requires Connected(g) && origin in g.links && Schedule(g, s, origin, steps) && Announcements(steps) == 0
    requires Spreading(g, s, origin, k) && k > 0
    ensures |steps| <= Budget(g, s)
    decreases |steps|
  {
    hide Degrees, Deliver;
    if steps != [] {
      var l := steps[0].link;
      DeliverSpreads(g, s, origin, k, l);
      DeliverSpends(g, s, l);
      FloodEnds(g, Deliver(g, s, l), origin, k, steps[1..]);
    }
  }

  // ---- main results --------------------------------------------------------------------------

  lemma {:induction false} RunSpreads(g: Net, s: State, origin: Node, k: nat, steps: seq<Step>)
    requires Connected(g) && origin in g.links && Schedule(g, s, origin, steps)
    requires Spreading(g, s, origin, k) && (k == 0 ==> s == Quiet())
    ensures Spreading(g, Run(g, s, origin, steps), origin, k + Announcements(steps))
    ensures k + Announcements(steps) == 0 ==> Run(g, s, origin, steps) == Quiet()
    decreases |steps|
  {
    hide Spreading, Announce, Deliver;
    if steps != [] {
      if steps[0].Announcing? {
        AnnounceSpreads(g, s, origin, k);
        RunSpreads(g, Next(g, s, origin, steps[0]), origin, k + 1, steps[1..]);
      } else {
        assert k > 0;
        DeliverSpreads(g, s, origin, k, steps[0].link);
        RunSpreads(g, Next(g, s, origin, steps[0]), origin, k, steps[1..]);
      }
    }
  }

  lemma QuietSpreads(g: Net, origin: Node)
    requires Connected(g) && origin in g.links
    ensures Spreading(g, Quiet(), origin, 0)
  {
  }

  /** Under every schedule one announcement costs at most the sum of the node degrees, and each repeat adds at
      most the origin's own degree. */
  lemma FloodCost(g: Net, origin: Node, steps: seq<Step>)
    requires Connected(g) && origin in g.links && Schedule(g, Quiet(), origin, steps) && Announcements(steps) > 0
    ensures var s := Run(g, Quiet(), origin, steps);
      && s.sent <= Degrees(g, g.nodes) + (Announcements(steps) - 1) * |g.links[origin]|
      && s.received <= s.sent
  {
    hide Spreading, Schedule, Run, Connected;
    QuietSpreads(g, origin);
    RunSpreads(g, Quiet(), origin, 0, steps);
    CostSoFar(g, Run(g, Quiet(), origin, steps), origin, Announcements(steps));
  }

  lemma CostSoFar(g: Net, s: State, origin: Node, k: nat)
    requires Connected(g) && origin in g.links && Spreading(g, s, origin, k) && k > 0
    ensures s.sent <= Degrees(g, g.nodes) + (k - 1) * |g.links[origin]| && s.received <= s.sent
  {
    DegreesMonotone(g, s.seen, g.nodes);
    assert (k - 1) * |g.links[origin]| == k * |g.links[origin]| - |g.links[origin]|;
  }

  /** Connections run both ways. */
  ghost predicate Symmetric(g: Net) {
    forall n, m :: n in g.links && m in g.links[n] ==> m in g.links && n in g.links[m]
  }

  /** Each node that has seen the message has sent it to all its peers but the one it had it from, and the origin, in
      each of its `k` announcements, to all of them. */
  ghost predicate SentExactly(g: Net, s: State, origin: Node, k: nat)
    requires origin in g.links && s.seen <= g.links.Keys
  {
    s.sent + |s.seen| == Degrees(g, s.seen) + 1 + (k - 1) * |g.links[origin]|
  }

  lemma AnnounceSendsExactly(g: Net, s: State, origin: Node, k: nat)
    requires origin in g.links && s.seen <= g.links.Keys && (if k == 0 then s == Quiet() else origin in s.seen)
    requires k > 0 ==> SentExactly(g, s, origin, k)
    ensures SentExactly(g, Announce(g, s, origin), origin, k + 1)
  {
    hide Degrees, Fan;
    if k == 0 {
      DegreesWithout(g, {origin}, origin);
      NoDegrees(g);
      assert {origin} - {origin} == {} && {} + {origin} == {origin};
    } else {
      assert s.seen + {origin} == s.seen;
      assert k * |g.links[origin]| == (k - 1) * |g.links[origin]| + |g.links[origin]|;
    }
  }

  lemma NoDegrees(g: Net)
    ensures Degrees(g, {}) == 0
  {
  }

  lemma DeliverSendsExactly(g: Net, s: State, origin: Node, k: nat, l: Link)
    requires Symmetric(g) && origin in g.links && s.seen <= g.links.Keys && SentExactly(g, s, origin, k)
    requires l in s.inflight && l.to in g.links && Travelling(g, s.seen, s.inflight)
    ensures SentExactly(g, Deliver(g, s, l), origin, k)
  {
    hide Degrees, Fan;
    if l.to !in s.seen {
      NewlySeen(g, s.seen, l);
      LinkTravels(g, s, l);
      assert g.links[l.to] == (g.links[l.to] - {l.from}) + {l.from};
    }
  }

  lemma {:induction false} RunSendsExactly(g: Net, s: State, origin: Node, k: nat, steps: seq<Step>)
    requires Connected(g) && Symmetric(g) && origin in g.links && Schedule(g, s, origin, steps)
    requires Spreading(g, s, origin, k) && (k == 0 ==> s == Quiet()) && (k > 0 ==> SentExactly(g, s, origin, k))
    ensures Spreading(g, Run(g, s, origin, steps), origin, k + Announcements(steps))
    ensures k + Announcements(steps) > 0 ==> SentExactly(g, Run(g, s, origin, steps), origin, k + Announcements(steps))
    decreases |steps|
  {
    hide Announce, Deliver, Paid, Pending, Reaches, SentExactly, Travelling;
    if steps != [] {
      var t := Next(g, s, origin, steps[0]);
      if steps[0].Announcing? {
        AnnounceSpreads(g, s, origin, k);
        AnnounceSendsExactly(g, s, origin, k);
        RunSendsExactly(g, t, origin, k + 1, steps[1..]);
      } else {
        assert k > 0;
        DeliverSpreads(g, s, origin, k, steps[0].link);
        DeliverSendsExactly(g, s, origin, k, steps[0].link);
        RunSendsExactly(g, t, origin, k, steps[1..]);
      }
    }
  }

  /** Over connections that run both ways the cost of a flood is known exactly at every moment: the degrees of the nodes
      that have seen the message, less one for each but the origin, and the origin's degree for each repeat. */
  lemma FloodCostExactly(g: Net, origin: Node, steps: seq<Step>)
    requires Connected(g) && Symmetric(g) && origin in g.links
    requires Schedule(g, Quiet(), origin, steps) && Announcements(steps) > 0
    ensures var s := Run(g, Quiet(), origin, steps);
      && s.seen <= g.links.Keys && origin in s.seen
      && s.sent == Degrees(g, s.seen) - (|s.seen| - 1) + (Announcements(steps) - 1) * |g.links[origin]|
      && s.sent == s.received + |s.inflight|
  {
    hide Schedule, Run, Announcements, Travelling, Pending, Reaches, Degrees;
    QuietSpreads(g, origin);
    RunSendsExactly(g, Quiet(), origin, 0, steps);
  }

  /** Once nothing is in flight, exactly the nodes reachable from the origin have seen the message. */
  lemma FloodComplete(g: Net, origin: Node, steps: seq<Step>)
    requires Connected(g) && origin in g.links && Schedule(g, Quiet(), origin, steps) && Announcements(steps) > 0
    requires Run(g, Quiet(), origin, steps).inflight == multiset{}
    ensures forall n :: n in Run(g, Quiet(), origin, steps).seen <==> Reaches(g, origin, n)
  {
    hide Spreading, Schedule, Run, Connected, Reaches;
    QuietSpreads(g, origin);
    RunSpreads(g, Quiet(), origin, 0, steps);
    AtRest(g, Run(g, Quiet(), origin, steps), origin, Announcements(steps));
  }

  lemma AtRest(g: Net, s: State, origin: Node, k: nat)
    requires Connected(g) && origin in g.links && Spreading(g, s, origin, k) && k > 0 && s.inflight == multiset{}
    ensures forall n :: n in s.seen <==> Reaches(g, origin, n)
  {
    hide Paid, Travelling;
    forall n | Reaches(g, origin, n) ensures n in s.seen {
      var path :| Path(g, path) && path[0] == origin && path[|path| - 1] == n;
      ClosedHasReachable(g, s.seen, path);
    }
  }

  /** The origin's own message coming back is dropped, whoever returns it and whenever. */
  lemma EchoIsDropped(g: Net, origin: Node, steps: seq<Step>, l: Link)
    requires Connected(g) && origin in g.links && Schedule(g, Quiet(), origin, steps)
    requires l in Run(g, Quiet(), origin, steps).inflight && l.to == origin
    ensures var s := Run(g, Quiet(), origin, steps);
      Deliver(g, s, l) == s.(inflight := s.inflight - multiset{l}, received := s.received + 1)
  {
    hide Travelling, Paid, Pending, Run, Schedule, Connected, Reaches, Fan;
    QuietSpreads(g, origin);
    RunSpreads(g, Quiet(), origin, 0, steps);
  }
}
