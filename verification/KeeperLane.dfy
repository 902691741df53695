/** The keeper's job queue (services/keeper/src/jobQueue.ts) seen from outside: one lane per process, in which
    jobs run one behind another. The chain of promises the lane is made of appears as the queue of names
    still to start and the name whose turn it is; `KeeperPromises` models the chain itself. */
module KeeperLane {
  import opened Prelude

  /** `accepted` and `started` list every name so far, `settled` counts the turns that ended. */
  datatype Lane = Lane(
    queue: seq<string>, current: Option<string>, inFlight: set<string>, skipped: nat,
    accepted: seq<string>, started: seq<string>, settled: nat)

  const EMPTY_LANE: Lane := Lane([], None, {}, 0, [], [], 0)

  // ----- what the lane does

  /** A tick: queued behind everything else, unless its previous run is still queued or running. */
  function Run(l: Lane, name: string): Lane {
    if name in l.inFlight then l.(skipped := l.skipped + 1)
    else l.(inFlight := l.inFlight + {name}, queue := l.queue + [name], accepted := l.accepted + [name])
  }

  /** The turn before has settled: the next job is called. */
  function Start(l: Lane): Lane {
    if l.current.Some? || l.queue == [] then l
    else l.(current := Some(l.queue[0]), queue := l.queue[1..], started := l.started + [l.queue[0]])
  }

  /** The current job finished, threw, or outlasted its deadline: each ends its turn the same way. */
  function Settle(l: Lane): Lane {
    if l.current.None? then l
    else l.(current := None, inFlight := l.inFlight - {l.current.value}, settled := l.settled + 1)
  }

  // ----- what every lane keeps

  function Pending(l: Lane): seq<string> {
    (if l.current.Some? then [l.current.value] else []) + l.queue
  }

  predicate Distinct(s: seq<string>) {
    forall i, j | 0 <= i < j < |s| :: s[i] != s[j]
  }

  ghost predicate Orderly(l: Lane) {
    && l.accepted == l.started + l.queue
    && |l.started| == l.settled + (if l.current.Some? then 1 else 0)
    && (l.current.Some? ==> l.started[l.settled] == l.current.value)
    && Distinct(Pending(l))
    && (forall name :: name in l.inFlight <==> name in Pending(l))
  }

  lemma RunOrderly(l: Lane, name: string)
    requires Orderly(l)
    ensures Orderly(Run(l, name))
    ensures name in Pending(Run(l, name))
    ensures name in Pending(l) ==> Run(l, name) == l.(skipped := l.skipped + 1)
    ensures name !in Pending(l) ==> Run(l, name).accepted == l.accepted + [name]
  {
    if name !in l.inFlight {
      var l' := Run(l, name);
      assert Pending(l') == Pending(l) + [name];
      assert l'.accepted == l'.started + l'.queue;
    }
  }

  lemma StartOrderly(l: Lane)
    requires Orderly(l)
    ensures Orderly(Start(l)) && Pending(Start(l)) == Pending(l)
    ensures l.current.None? && l.queue != [] ==> Start(l).started == l.started + [l.accepted[|l.started|]]
  {
    if l.current.None? && l.queue != [] {
      FirstMoves(l.started, l.queue);
    }
  }

  lemma FirstMoves(a: seq<string>, b: seq<string>)
    requires b != []
    ensures a + b == (a + [b[0]]) + b[1..] && [] + b == [b[0]] + b[1..]
  {
  }

  lemma DistinctTail(first: string, rest: seq<string>)
    requires Distinct([first] + rest)
    ensures Distinct(rest) && first !in rest
  {
    forall i | 0 <= i < |rest|
      ensures rest[i] != first && forall j | i < j < |rest| :: rest[i] != rest[j]
    {
      assert ([first] + rest)[0] == first && ([first] + rest)[i + 1] == rest[i];
      assert forall j | i < j < |rest| :: ([first] + rest)[j + 1] == rest[j];
    }
  }

  lemma SettleOrderly(l: Lane)
    requires Orderly(l)
    ensures Orderly(Settle(l))
    ensures l.current.Some? ==> Pending(l) == [l.current.value] + Pending(Settle(l))
  {
    if l.current.Some? {
      var l' := Settle(l);
      assert Pending(l') == l.queue;
      DistinctTail(l.current.value, l.queue);
    }
  }

  // ----- over any sequence of calls

  datatype Call = Tick(name: string) | StartNext | SettleCurrent

  function Act(l: Lane, c: Call): Lane {
    match c
    case Tick(name) => Run(l, name)
    case StartNext => Start(l)
    case SettleCurrent => Settle(l)
  }

  ghost predicate IsRun(ls: seq<Lane>, calls: seq<Call>) {
    |ls| == |calls| + 1 && ls[0] == EMPTY_LANE && forall i | 0 <= i < |calls| :: ls[i + 1] == Act(ls[i], calls[i])
  }

  lemma {:induction false} AlwaysOrderly(ls: seq<Lane>, calls: seq<Call>, n: nat)
    requires IsRun(ls, calls) && n <= |calls|
    ensures Orderly(ls[n])
  {
    if n > 0 {
      AlwaysOrderly(ls, calls, n - 1);
      match calls[n - 1]
      case Tick(name) => RunOrderly(ls[n - 1], name);
      case StartNext => StartOrderly(ls[n - 1]);
      case SettleCurrent => SettleOrderly(ls[n - 1]);
    }
  }

  lemma {:induction false} NothingIsLost(ls: seq<Lane>, calls: seq<Call>, m: nat, n: nat)
    requires IsRun(ls, calls) && m <= n <= |calls|
    ensures ls[m].accepted <= ls[n].accepted && ls[m].started <= ls[n].started && ls[m].settled <= ls[n].settled
    decreases n
  {
    if m < n {
      NothingIsLost(ls, calls, m, n - 1);
      assert ls[n] == Act(ls[n - 1], calls[n - 1]);
    }
  }

  lemma WaitingAreDistinct(l: Lane, t: nat, u: nat)
    requires Orderly(l) && l.settled <= t < |l.accepted| && l.settled <= u < |l.accepted| && t != u
    ensures l.accepted[t] != l.accepted[u]
  {
    assert Pending(l)[t - l.settled] == l.accepted[t] && Pending(l)[u - l.settled] == l.accepted[u];
  }

  /** Over any sequence of ticks, starts and settlements, the `t`-th accepted job is for ever the `t`-th: it
      starts as the `t`-th or still waits in its place, the one running is the first that has not settled,
      and no two that are running or waiting have the same name. */
  lemma FirstComeFirstServed(ls: seq<Lane>, calls: seq<Call>, m: nat, n: nat, t: nat, u: nat)
    requires IsRun(ls, calls) && m <= n <= |calls| && t < |ls[m].accepted|
    ensures t < |ls[n].accepted| && ls[n].accepted[t] == ls[m].accepted[t]
    ensures if t < |ls[n].started| then ls[n].started[t] == ls[m].accepted[t]
            else t - |ls[n].started| < |ls[n].queue| && ls[n].queue[t - |ls[n].started|] == ls[m].accepted[t]
    ensures ls[n].current.Some? ==> ls[n].settled < |ls[n].accepted| && ls[n].current.value == ls[n].accepted[ls[n].settled]
    ensures ls[n].settled <= t && ls[n].settled <= u < |ls[n].accepted| && t != u ==> ls[n].accepted[u] != ls[n].accepted[t]
  {
    AlwaysOrderly(ls, calls, n);
    NothingIsLost(ls, calls, m, n);
    if ls[n].settled <= t && ls[n].settled <= u < |ls[n].accepted| && t != u {
      WaitingAreDistinct(ls[n], t, u);
    }
  }
}
