/** Threads that call the operations of a structure with one worker thread and one mutex. */
module Threads {
  import Sequences

  type Tid = nat

  /** Who holds the mutex. */
  datatype Owner = Worker | Caller(t: Tid)

  /** The steps that calls under way still have to take, at most. */
  function Work<P(!new)>(calls: map<Tid, P>, rank: P -> nat): set<(Tid, nat)> {
    set t, k: nat | t in calls && 0 <= k < rank(calls[t]) :: (t, k)
  }

  lemma WorkAdvances<P(!new)>(calls: map<Tid, P>, t: Tid, p: P, rank: P -> nat)
    requires t in calls && rank(p) < rank(calls[t])
    ensures |Work(calls[t := p], rank)| < |Work(calls, rank)|
  {
    Sequences.SmallerSet(Work(calls[t := p], rank), Work(calls, rank), (t, rank(p)));
  }

  /** A new call brings at most four steps. */
  lemma WorkStarts<P(!new)>(calls: map<Tid, P>, t: Tid, p: P, rank: P -> nat)
    requires t !in calls && rank(p) <= 4
    ensures |Work(calls[t := p], rank)| <= |Work(calls, rank)| + 4
  {
    var more: set<(Tid, nat)> := {(t, 0), (t, 1), (t, 2), (t, 3)};
    var all := Work(calls, rank) + more;
    assert Work(calls[t := p], rank) <= all;
    assert |all - Work(calls[t := p], rank)| >= 0;
  }
}
