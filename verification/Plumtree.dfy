/** Plumtree membership: who is pushed full messages, who only gets announcements (src/gossip/plumtree.rs). */
module Plumtree {
  import opened Wrappers
  import opened Peers

  datatype Event = Add(peer: PeerId) | Remove(peer: PeerId) | Demote(peer: PeerId) | Promote(peer: PeerId)

  datatype Members = Members(eager: set<PeerId>, lazy: set<PeerId>)
  {
    function Step(e: Event): Members {
      match e
      case Add(p) => Members(eager + {p}, lazy)
      case Remove(p) => Members(eager - {p}, lazy - {p})
      case Demote(p) => Members(eager - {p}, lazy + {p})
      case Promote(p) => Members(eager + {p}, lazy - {p})
    }
  }

  function After(es: seq<Event>): Members {
    if es == [] then Members({}, {}) else After(es[..|es| - 1]).Step(es[|es| - 1])
  }

  /** The last thing said about `p`, additions aside when `settledOnly`. */
  function LastWord(es: seq<Event>, p: PeerId, settledOnly: bool): Option<Event> {
    if es == [] then None
    else
      var e := es[|es| - 1];
      if e.peer == p && !(settledOnly && e.Add?) then Some(e) else LastWord(es[..|es| - 1], p, settledOnly)
  }

  predicate MakesEager(e: Option<Event>) {
    e.Some? && (e.value.Add? || e.value.Promote?)
  }

  predicate MakesLazy(e: Option<Event>) {
    e.Some? && e.value.Demote?
  }

  lemma {:induction false} MembershipIsLastWord(es: seq<Event>, p: PeerId)
    ensures p in After(es).eager <==> MakesEager(LastWord(es, p, false))
    ensures p in After(es).lazy <==> MakesLazy(LastWord(es, p, true))
  {
    if es != [] { MembershipIsLastWord(es[..|es| - 1], p); }
  }

  /** `p` was added again since it was demoted. */
  predicate Readded(es: seq<Event>, p: PeerId) {
    MakesEager(LastWord(es, p, false)) && MakesLazy(LastWord(es, p, true))
  }

  /** The two sets are disjoint exactly when no peer was added again since it was demoted. */
  lemma DisjointUnlessReadded(es: seq<Event>)
    ensures After(es).eager !! After(es).lazy <==> forall p :: !Readded(es, p)
  {
    hide After;
    var m := After(es);
    forall p ensures p in m.eager && p in m.lazy <==> Readded(es, p) {
      MembershipIsLastWord(es, p);
    }
    if p :| Readded(es, p) {
      assert p in m.eager && p in m.lazy;
    } else {
      assert forall p :: p in m.eager && p in m.lazy <==> Readded(es, p);
    }
  }

  /** They can overlap: a demoted peer that reconnects is in both, and is pushed to. */
  lemma ReaddedIsBoth(p: PeerId)
    ensures var m := After([Add(p), Demote(p), Add(p)]); p in m.eager && p in m.lazy
  {
    var es := [Add(p), Demote(p), Add(p)];
    assert es[..2] == [Add(p), Demote(p)] && es[..2][..1] == [Add(p)] && es[..2][..1][..0] == [];
    assert After([Add(p)]) == Members({p}, {});
    assert After([Add(p), Demote(p)]) == Members({}, {p});
  }

  class PlumtreeState {
    var eagerPeers: set<PeerId>
    var lazyPeers: set<PeerId>

    function Now(): Members
      reads this
    {
      Members(eagerPeers, lazyPeers)
    }

    constructor ()
      ensures Now() == After([])
    {
      eagerPeers, lazyPeers := {}, {};
    }

    method AddPeer(p: PeerId)
      modifies this
      ensures Now() == old(Now()).Step(Add(p))
    {
      eagerPeers := eagerPeers + {p};
    }

    method RemovePeer(p: PeerId)
      modifies this
      ensures Now() == old(Now()).Step(Remove(p))
    {
      eagerPeers := eagerPeers - {p};
      lazyPeers := lazyPeers - {p};
    }

    method DemoteToLazy(p: PeerId)
      modifies this
      ensures Now() == old(Now()).Step(Demote(p))
    {
      eagerPeers := eagerPeers - {p};
      lazyPeers := lazyPeers + {p};
    }

    method PromoteToEager(p: PeerId)
      modifies this
      ensures Now() == old(Now()).Step(Promote(p))
    {
      lazyPeers := lazyPeers - {p};
      eagerPeers := eagerPeers + {p};
    }
  }
}
