/** The outbound queue with three lanes and a starvation guard (src/gossip/priority.rs, src/constants.rs). */
module Priority {
  import opened Wrappers

  const STARVATION_RATIO: nat := 10

  type Message(==, !new)

  datatype Lane = Critical | Normal | Bulk

  datatype Queue = Queue(critical: seq<Message>, normal: seq<Message>, bulk: seq<Message>, high: nat)
  {
    function Of(lane: Lane): seq<Message> {
      match lane case Critical => critical case Normal => normal case Bulk => bulk
    }
  }

  const EMPTY := Queue([], [], [], 0)

  datatype Output = Output(lane: Lane, message: Message)

  function Push(q: Queue, m: Message, lane: Lane): Queue {
    match lane
    case Critical => q.(critical := q.critical + [m])
    case Normal => q.(normal := q.normal + [m])
    case Bulk => q.(bulk := q.bulk + [m])
  }

  function Pop(q: Queue): (Queue, Option<Output>) {
    if q.high >= STARVATION_RATIO && q.bulk != [] then
      (q.(bulk := q.bulk[1..], high := 0), Some(Output(Bulk, q.bulk[0])))
    else if q.critical != [] then
      (q.(critical := q.critical[1..], high := q.high + 1), Some(Output(Critical, q.critical[0])))
    else if q.normal != [] then
      (q.(normal := q.normal[1..], high := q.high + 1), Some(Output(Normal, q.normal[0])))
    else if q.bulk != [] then
      (q.(bulk := q.bulk[1..], high := 0), Some(Output(Bulk, q.bulk[0])))
    else (q, None)
  }

  // ---- runs: enqueues and drains in any order ----------------------------------------------------

  datatype Event = Enqueue(message: Message, lane: Lane) | Drain

  function Next(q: Queue, e: Event): Queue {
    match e case Enqueue(m, lane) => Push(q, m, lane) case Drain => Pop(q).0
  }

  function After(q: Queue, es: seq<Event>): Queue
    decreases |es|
  {
    if es == [] then q else After(Next(q, es[0]), es[1..])
  }

  /** What the drains of a run return from one lane, in order. */
  function Out(q: Queue, es: seq<Event>, lane: Lane): seq<Message>
    decreases |es|
  {
    if es == [] then []
    else
      var rest := Out(Next(q, es[0]), es[1..], lane);
      if es[0].Drain? && Pop(q).1.Some? && Pop(q).1.value.lane == lane then [Pop(q).1.value.message] + rest else rest
  }

  /** What a run enqueues in one lane, in order. */
  function In(es: seq<Event>, lane: Lane): seq<Message> {
    if es == [] then []
    else if es[0].Enqueue? && es[0].lane == lane then [es[0].message] + In(es[1..], lane)
    else In(es[1..], lane)
  }

  function Drains(es: seq<Event>): nat {
    if es == [] then 0 else (if es[0].Drain? then 1 else 0) + Drains(es[1..])
  }

  /** Each lane is first-in first-out and loses nothing: what was there and what came is what left, then what
      is left. */
  lemma {:induction false} LaneIsFifo(q: Queue, es: seq<Event>, lane: Lane)
    ensures q.Of(lane) + In(es, lane) == Out(q, es, lane) + After(q, es).Of(lane)
    decreases |es|
  {
    if es != [] {
      var t := Next(q, es[0]);
      LaneIsFifo(t, es[1..], lane);
      LaneStep(q, es, lane, In(es[1..], lane), Out(t, es[1..], lane), After(t, es[1..]).Of(lane));
    }
  }

  /** What one event adds to a lane, and what it takes from its front. */
  function Added(e: Event, lane: Lane): seq<Message> {
    if e.Enqueue? && e.lane == lane then [e.message] else []
  }

  function Taken(q: Queue, e: Event, lane: Lane): seq<Message> {
    if e.Drain? && Pop(q).1.Some? && Pop(q).1.value.lane == lane then [Pop(q).1.value.message] else []
  }

  lemma LaneNext(q: Queue, e: Event, lane: Lane)
    ensures q.Of(lane) + Added(e, lane) == Taken(q, e, lane) + Next(q, e).Of(lane)
  {
  }

  lemma Shifted<T>(before: seq<T>, added: seq<T>, taken: seq<T>, after: seq<T>, more: seq<T>, out: seq<T>, left: seq<T>)
    requires before + added == taken + after && after + more == out + left
    ensures before + (added + more) == (taken + out) + left
  {
    assert before + (added + more) == (before + added) + more;
    assert (taken + after) + more == taken + (after + more);
    assert taken + (out + left) == (taken + out) + left;
  }

  lemma LaneStep(q: Queue, es: seq<Event>, lane: Lane, more: seq<Message>, out: seq<Message>, left: seq<Message>)
    requires es != [] && Next(q, es[0]).Of(lane) + more == out + left
    requires more == In(es[1..], lane) && out == Out(Next(q, es[0]), es[1..], lane)
    ensures q.Of(lane) + In(es, lane) == Out(q, es, lane) + left
  {
    hide Next, Pop;
    LaneNext(q, es[0], lane);
    Shifted(q.Of(lane), Added(es[0], lane), Taken(q, es[0], lane), Next(q, es[0]).Of(lane), more, out, left);
    assert In(es, lane) == Added(es[0], lane) + more;
    assert Out(q, es, lane) == Taken(q, es[0], lane) + out;
  }

  function All(s: seq<Message>): multiset<Message> {
    multiset(s)
  }

  /** Messages are neither lost nor made up. */
  lemma Conserved(q: Queue, es: seq<Event>)
    ensures var t := After(q, es);
      All(q.critical) + All(q.normal) + All(q.bulk) + All(In(es, Critical)) + All(In(es, Normal)) + All(In(es, Bulk))
      == All(Out(q, es, Critical)) + All(Out(q, es, Normal)) + All(Out(q, es, Bulk))
        + All(t.critical) + All(t.normal) + All(t.bulk)
  {
    hide After, Out, In;
    LaneTotals(q, es, Critical);
    LaneTotals(q, es, Normal);
    LaneTotals(q, es, Bulk);
    var t := After(q, es);
    Regroup(All(q.critical), All(q.normal), All(q.bulk), All(In(es, Critical)), All(In(es, Normal)), All(In(es, Bulk)),
      All(Out(q, es, Critical)), All(Out(q, es, Normal)), All(Out(q, es, Bulk)),
      All(t.critical), All(t.normal), All(t.bulk));
  }

  lemma Regroup<T(!new)>(a1: multiset<T>, a2: multiset<T>, a3: multiset<T>, b1: multiset<T>, b2: multiset<T>, b3: multiset<T>,
      c1: multiset<T>, c2: multiset<T>, c3: multiset<T>, d1: multiset<T>, d2: multiset<T>, d3: multiset<T>)
    requires a1 + b1 == c1 + d1 && a2 + b2 == c2 + d2 && a3 + b3 == c3 + d3
    ensures a1 + a2 + a3 + b1 + b2 + b3 == c1 + c2 + c3 + d1 + d2 + d3
  {
    assert a1 + a2 + a3 + b1 + b2 + b3 == (a1 + b1) + (a2 + b2) + (a3 + b3);
    assert c1 + c2 + c3 + d1 + d2 + d3 == (c1 + d1) + (c2 + d2) + (c3 + d3);
  }

  lemma LaneTotals(q: Queue, es: seq<Event>, lane: Lane)
    ensures All(q.Of(lane)) + All(In(es, lane)) == All(Out(q, es, lane)) + All(After(q, es).Of(lane))
  {
    hide After, Out, In;
    LaneIsFifo(q, es, lane);
    assert All(q.Of(lane) + In(es, lane)) == All(q.Of(lane)) + All(In(es, lane));
    assert All(Out(q, es, lane) + After(q, es).Of(lane)) == All(Out(q, es, lane)) + All(After(q, es).Of(lane));
  }

  // ---- bulk is not starved ---------------------------------------------------------------------

  function Capped(high: nat): nat {
    if high < STARVATION_RATIO then high else STARVATION_RATIO
  }

  /** Drains that are sure to return the bulk message at position `j`. */
  function BulkPatience(q: Queue, j: nat): nat {
    (STARVATION_RATIO + 1) * j + (STARVATION_RATIO - Capped(q.high)) + 1
  }

  lemma {:induction false} BulkComes(q: Queue, es: seq<Event>, j: nat)
    requires j < |q.bulk| && Drains(es) >= BulkPatience(q, j)
    ensures |Out(q, es, Bulk)| > j
    decreases |es|
  {
    var t := Next(q, es[0]);
    if es[0].Drain? && Pop(q).1.value.lane == Bulk {
      if j > 0 { BulkComes(t, es[1..], j - 1); }
    } else {
      BulkComes(t, es[1..], j);
    }
  }

  /** Whatever is enqueued meanwhile, the bulk message at position `j` is returned within 11 * (j + 1) drains. */
  lemma BulkNotStarved(q: Queue, es: seq<Event>, j: nat)
    requires j < |q.bulk| && Drains(es) >= 11 * (j + 1)
    ensures |Out(q, es, Bulk)| > j && Out(q, es, Bulk)[j] == q.bulk[j]
  {
    hide Out, After, In;
    BulkComes(q, es, j);
    LaneIsFifo(q, es, Bulk);
    assert (q.bulk + In(es, Bulk))[j] == (Out(q, es, Bulk) + After(q, es).bulk)[j];
  }

  // ---- critical hardly waits -------------------------------------------------------------------

  lemma {:induction false} BulkTurns(q: Queue, es: seq<Event>, k: nat)
    requires k < |q.critical| && |Out(q, es, Critical)| <= k
    ensures Out(q, es, Normal) == []
    ensures 10 * |Out(q, es, Bulk)| <= |Out(q, es, Critical)| + Capped(q.high)
    ensures Drains(es) == |Out(q, es, Critical)| + |Out(q, es, Bulk)|
    decreases |es|
  {
    if es != [] {
      var t := Next(q, es[0]);
      if es[0].Drain? && Pop(q).1.value.lane == Critical {
        assert k > 0;
        BulkTurns(t, es[1..], k - 1);
      } else {
        BulkTurns(t, es[1..], k);
      }
    }
  }

  /** As long as the critical message at position `k` has not been returned, no normal message has, and at most
      k / 10 + 1 bulk messages have; so it is returned within k + k / 10 + 2 drains. */
  lemma CriticalHardlyWaits(q: Queue, es: seq<Event>, k: nat)
    requires k < |q.critical|
    ensures |Out(q, es, Critical)| <= k ==> Out(q, es, Normal) == [] && |Out(q, es, Bulk)| <= k / 10 + 1
    ensures Drains(es) >= k + k / 10 + 2 ==> |Out(q, es, Critical)| > k && Out(q, es, Critical)[k] == q.critical[k]
  {
    hide Out, After, In, Drains;
    if |Out(q, es, Critical)| <= k {
      BulkTurns(q, es, k);
    } else {
      LaneIsFifo(q, es, Critical);
      assert (q.critical + In(es, Critical))[k] == (Out(q, es, Critical) + After(q, es).critical)[k];
    }
  }

  // ---- what overtakes a normal message ----------------------------------------------------------

  lemma {:induction false} NormalTurns(q: Queue, es: seq<Event>, j: nat)
    requires j < |q.normal| && |Out(q, es, Normal)| <= j
    ensures Drains(es) == |Out(q, es, Critical)| + |Out(q, es, Normal)| + |Out(q, es, Bulk)|
    ensures 10 * |Out(q, es, Bulk)| <= |Out(q, es, Critical)| + |Out(q, es, Normal)| + Capped(q.high)
    decreases |es|
  {
    if es != [] {
      var t := Next(q, es[0]);
      if es[0].Drain? && Pop(q).1.value.lane == Normal {
        assert j > 0;
        NormalTurns(t, es[1..], j - 1);
      } else {
        NormalTurns(t, es[1..], j);
      }
    }
  }

  lemma CriticalComesFrom(q: Queue, es: seq<Event>)
    ensures |Out(q, es, Critical)| <= |q.critical| + |In(es, Critical)|
  {
    hide After, Out, In;
    LaneIsFifo(q, es, Critical);
    assert |q.critical + In(es, Critical)| == |Out(q, es, Critical) + After(q, es).critical|;
  }

  /** Until the normal message at position `j` is returned, each drain returns something, and what overtakes it is
      critical messages and at most one bulk message for every ten others; so with `c` critical messages in all it is
      returned within c + j + (c + j) / 10 + 2 drains. */
  lemma NormalWaitsForCritical(q: Queue, es: seq<Event>, j: nat)
    requires j < |q.normal|
    ensures |Out(q, es, Normal)| <= j ==>
      && Drains(es) == |Out(q, es, Critical)| + |Out(q, es, Normal)| + |Out(q, es, Bulk)|
      && |Out(q, es, Bulk)| <= (|Out(q, es, Critical)| + |Out(q, es, Normal)|) / 10 + 1
    ensures var c := |q.critical| + |In(es, Critical)|;
      Drains(es) >= c + j + (c + j) / 10 + 2 ==> |Out(q, es, Normal)| > j && Out(q, es, Normal)[j] == q.normal[j]
  {
    hide Out, After, In, Drains;
    CriticalComesFrom(q, es);
    if |Out(q, es, Normal)| <= j {
      NormalTurns(q, es, j);
    } else {
      LaneIsFifo(q, es, Normal);
      assert (q.normal + In(es, Normal))[j] == (Out(q, es, Normal) + After(q, es).normal)[j];
    }
  }

  // ---- the queue in the heap ---------------------------------------------------------------------

  class PriorityOutbound {
    var critical: seq<Message>
    var normal: seq<Message>
    var bulk: seq<Message>
    var highPrioritySinceLastBulk: nat

    function Now(): Queue
      reads this
    {
      Queue(critical, normal, bulk, highPrioritySinceLastBulk)
    }

    constructor ()
      ensures Now() == EMPTY
    {
      critical, normal, bulk, highPrioritySinceLastBulk := [], [], [], 0;
    }

    method Enqueue(m: Message, lane: Lane)
      modifies this
      ensures Now() == Push(old(Now()), m, lane)
    {
      match lane {
        case Critical => critical := critical + [m];
        case Normal => normal := normal + [m];
        case Bulk => bulk := bulk + [m];
      }
    }

    method DrainNext() returns (m: Option<Message>)
      modifies this
      ensures var (t, out) := Pop(old(Now()));
        Now() == t && m == if out.Some? then Some(out.value.message) else None
    {
      if highPrioritySinceLastBulk >= STARVATION_RATIO {
        if bulk != [] {
          m := Some(bulk[0]);
          bulk := bulk[1..];
          highPrioritySinceLastBulk := 0;
          return;
        }
      }
      if critical != [] {
        m := Some(critical[0]);
        critical := critical[1..];
        highPrioritySinceLastBulk := highPrioritySinceLastBulk + 1;
        return;
      }
      if normal != [] {
        m := Some(normal[0]);
        normal := normal[1..];
        highPrioritySinceLastBulk := highPrioritySinceLastBulk + 1;
        return;
      }
      if bulk != [] {
        m := Some(bulk[0]);
        bulk := bulk[1..];
        highPrioritySinceLastBulk := 0;
        return;
      }
      return None;
    }
  }
}
