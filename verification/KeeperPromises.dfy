/** The chain of promises that makes the keeper's lane (services/keeper/src/jobQueue.ts): every job is called by
    the one before it settling, races a deadline, and passes the lane on whatever became of it. The lane of
    `KeeperLane` is what this machine looks like from outside. */
module KeeperPromises {
  import opened Prelude
  import Lane = KeeperLane

  datatype Promise = Waiting | Fulfilled | Rejected

  /** What a callback given to `then` does; without one the promise passes its own state on. */
  datatype Handler = Absent | Yields | Throws

  /** The promise `p.then(onFulfilled, onRejected)`. */
  function Then(p: Promise, onFulfilled: Handler, onRejected: Handler): Promise {
    match p
    case Waiting => Waiting
    case Fulfilled => if onFulfilled.Throws? then Rejected else Fulfilled
    case Rejected => if onRejected.Yields? then Fulfilled else Rejected
  }

  datatype Outcome = Completed | Failed | TimedOut

  /** How far a job's callback has come. `Freed` has taken the name out of those in flight and only has its
      result left to settle. */
  datatype Phase = Uncalled | Racing | Over(outcome: Outcome) | Freed(fails: bool) | Returned(fails: bool)

  /** One accepted job: its own promise, whether its timer has fired, the promise `run` gave its caller, and the
      link the next job hangs on. */
  datatype Job = Job(name: string, phase: Phase, work: Promise, fired: bool, result: Promise, tail: Promise)

  /** `called` and `freed` count the callbacks that were called and those that took their name out. */
  datatype Queue = Queue(jobs: seq<Job>, inFlight: set<string>, skipped: nat, called: nat, freed: nat)

  const EMPTY_QUEUE: Queue := Queue([], {}, 0, 0, 0)

  function NewJob(name: string): Job {
    Job(name, Uncalled, Waiting, false, Waiting, Waiting)
  }

  /** The promise that job `t` is chained on. */
  function Before(q: Queue, t: nat): Promise
    requires t < |q.jobs|
  {
    if t == 0 then Fulfilled else q.jobs[t - 1].tail
  }

  // ----- what can happen

  datatype Action =
    | Ticks(name: string)
    | Calls(t: nat, throwsAtOnce: bool)
    | WorkSettles(t: nat, completes: bool)
    | DeadlineFires(t: nat)
    | RaceEnds(t: nat, byDeadline: bool)
    | Frees(t: nat, alertThrows: bool)
    | ResultSettles(t: nat)
    | TailSettles(t: nat)

  predicate Enabled(q: Queue, a: Action) {
    if a.Ticks? then true else
    && a.t < |q.jobs|
    && var j := q.jobs[a.t];
    match a
    case Ticks(_) => true
    case Calls(t, _) => j.phase.Uncalled? && j.result.Waiting? && !Before(q, t).Waiting?
    case WorkSettles(_, _) => !j.phase.Uncalled? && j.work.Waiting?
    case DeadlineFires(_) => (j.phase.Racing? || j.phase.Over?) && !j.fired
    case RaceEnds(_, byDeadline) => j.phase.Racing? && if byDeadline then j.fired else !j.work.Waiting?
    case Frees(_, _) => j.phase.Over?
    case ResultSettles(_) => j.phase.Freed?
    case TailSettles(_) => !j.result.Waiting? && j.tail.Waiting?
  }

  /** The callback of `tail.then` is called when the tail is fulfilled; a rejected tail skips it. A job that
      throws before it returns its promise never races. */
  function Called(j: Job, before: Promise, throwsAtOnce: bool): Job {
    if before.Rejected? then j.(result := Then(before, Absent, Absent))
    else if throwsAtOnce then j.(phase := Over(Failed), work := Rejected)
    else j.(phase := Racing)
  }

  /** The job's own error, or one in the alert about its deadline, is what the caller of `run` gets to see. */
  predicate Fails(outcome: Outcome, alertThrows: bool) {
    outcome.Failed? || (outcome.TimedOut? && alertThrows)
  }

  function Moved(q: Queue, a: Action): Job
    requires Enabled(q, a) && !a.Ticks?
  {
    var j := q.jobs[a.t];
    match a
    case Calls(t, throwsAtOnce) => Called(j, Before(q, t), throwsAtOnce)
    case WorkSettles(_, completes) => j.(work := if completes then Fulfilled else Rejected)
    case DeadlineFires(_) => j.(fired := true)
    case RaceEnds(_, byDeadline) =>
      j.(phase := Over(if byDeadline then TimedOut else if j.work.Fulfilled? then Completed else Failed))
    case Frees(_, alertThrows) => j.(phase := Freed(Fails(j.phase.outcome, alertThrows)))
    case ResultSettles(_) => j.(phase := Returned(j.phase.fails), result := if j.phase.fails then Rejected else Fulfilled)
    case TailSettles(_) => j.(tail := Then(j.result, Yields, Yields))
  }

  function Accept(q: Queue, name: string): Queue {
    if name in q.inFlight then q.(skipped := q.skipped + 1)
    else q.(inFlight := q.inFlight + {name}, jobs := q.jobs + [NewJob(name)])
  }

  function Step(q: Queue, a: Action): Queue {
    if !Enabled(q, a) then q
    else if a.Ticks? then Accept(q, a.name)
    else
      var q' := q.(jobs := q.jobs[a.t := Moved(q, a)]);
      if a.Calls? && !Moved(q, a).phase.Uncalled? then q'.(called := q.called + 1)
      else if a.Frees? then q'.(freed := q.freed + 1, inFlight := q.inFlight - {q.jobs[a.t].name})
      else q'
  }

  ghost predicate IsRun(qs: seq<Queue>, acts: seq<Action>) {
    |qs| == |acts| + 1 && qs[0] == EMPTY_QUEUE && forall i | 0 <= i < |acts| :: qs[i + 1] == Step(qs[i], acts[i])
  }

  // ----- what every reachable queue keeps

  predicate IsFreed(j: Job) {
    j.phase.Freed? || j.phase.Returned?
  }

  /** The promises of a job are as far as its callback. */
  predicate InPhase(j: Job) {
    match j.phase
    case Uncalled => j == NewJob(j.name)
    case Racing => j.result.Waiting? && j.tail.Waiting?
    case Over(o) => j.result.Waiting? && j.tail.Waiting?
                    && (o.TimedOut? ==> j.fired) && (o.Completed? ==> j.work.Fulfilled?) && (o.Failed? ==> j.work.Rejected?)
    case Freed(_) => j.result.Waiting? && j.tail.Waiting?
    case Returned(fails) => j.result == (if fails then Rejected else Fulfilled) && !j.tail.Rejected?
  }

  /** Jobs are called in order, each after the one before has passed the lane on. */
  predicate InOrder(q: Queue, t: nat)
    requires t < |q.jobs|
  {
    && InPhase(q.jobs[t])
    && (q.jobs[t].phase.Uncalled? <==> t >= q.called)
    && (IsFreed(q.jobs[t]) <==> t < q.freed)
    && (!q.jobs[t].phase.Uncalled? ==> Before(q, t).Fulfilled?)
  }

  ghost predicate Sound(q: Queue) {
    && q.freed <= q.called <= q.freed + 1 && q.called <= |q.jobs|
    && forall t: nat | t < |q.jobs| :: InOrder(q, t)
  }

  lemma NoTailRejected(q: Queue, t: nat)
    requires Sound(q) && t < |q.jobs|
    ensures !Before(q, t).Rejected? && !q.jobs[t].tail.Rejected?
  {
    assert InOrder(q, t);
    if t > 0 {
      assert InOrder(q, t - 1);
    }
  }

  lemma CalledNext(q: Queue, t: nat, throwsAtOnce: bool)
    requires Sound(q) && Enabled(q, Calls(t, throwsAtOnce))
    ensures t == q.called == q.freed && Before(q, t).Fulfilled?
  {
    NoTailRejected(q, t);
    assert InOrder(q, t);
    if t > 0 {
      assert InOrder(q, t - 1);
    }
  }

  lemma FreedNext(q: Queue, t: nat)
    requires Sound(q) && t < |q.jobs| && q.jobs[t].phase.Over?
    ensures t == q.freed && q.called == q.freed + 1
  {
    assert InOrder(q, t);
  }

  lemma TickSound(q: Queue, name: string)
    requires Sound(q)
    ensures Sound(Accept(q, name))
  {
    var q' := Accept(q, name);
    forall t: nat | t < |q'.jobs|
      ensures InOrder(q', t)
    {
      if t < |q.jobs| {
        assert InOrder(q, t) && q'.jobs[t] == q.jobs[t] && Before(q', t) == Before(q, t);
      } else {
        assert q'.jobs[t] == NewJob(name);
      }
    }
  }

  lemma MoveSound(q: Queue, a: Action)
    requires Sound(q) && Enabled(q, a) && !a.Ticks?
    ensures Sound(Step(q, a))
  {
    var q' := Step(q, a);
    assert InOrder(q, a.t);
    if a.Calls? { CalledNext(q, a.t, a.throwsAtOnce); }
    if a.Frees? { FreedNext(q, a.t); }
    forall t: nat | t < |q'.jobs|
      ensures InOrder(q', t)
    {
      assert InOrder(q, t);
      assert t != a.t ==> q'.jobs[t] == q.jobs[t];
      assert t == 0 || t - 1 != a.t || Before(q', t) == q'.jobs[a.t].tail;
    }
  }

  lemma StepSound(q: Queue, a: Action)
    requires Sound(q)
    ensures Sound(Step(q, a))
  {
    if Enabled(q, a) {
      if a.Ticks? { TickSound(q, a.name); } else { MoveSound(q, a); }
    }
  }

  lemma {:induction false} AlwaysSound(qs: seq<Queue>, acts: seq<Action>, n: nat)
    requires IsRun(qs, acts) && n <= |acts|
    ensures Sound(qs[n])
  {
    if n > 0 {
      AlwaysSound(qs, acts, n - 1);
      StepSound(qs[n - 1], acts[n - 1]);
    }
  }

  /** Over every run no link of the chain is ever rejected, whatever the jobs and alerts did: a result is
      rejected only when its own job failed or its own alert threw, and the link behind it is fulfilled all
      the same. */
  lemma NoLinkEverRejects(qs: seq<Queue>, acts: seq<Action>, n: nat, t: nat)
    requires IsRun(qs, acts) && n <= |acts| && t < |qs[n].jobs|
    ensures var j := qs[n].jobs[t];
            && !j.tail.Rejected? && !Before(qs[n], t).Rejected?
            && (j.result.Rejected? <==> j.phase == Returned(true))
            && (j.tail.Fulfilled? ==> !j.result.Waiting?)
  {
    AlwaysSound(qs, acts, n);
    NoTailRejected(qs[n], t);
    assert InOrder(qs[n], t);
  }

  /** Once a result has settled, fulfilled or rejected, the next job in the lane can be called: at once, or
      after the one link between them. */
  lemma NextIsCallable(qs: seq<Queue>, acts: seq<Action>, n: nat, t: nat, throwsAtOnce: bool)
    requires IsRun(qs, acts) && n <= |acts| && t < |qs[n].jobs| && qs[n].jobs[t].phase.Uncalled?
    requires t == 0 || !qs[n].jobs[t - 1].result.Waiting?
    ensures var q := if t > 0 && qs[n].jobs[t - 1].tail.Waiting? then Step(qs[n], TailSettles(t - 1)) else qs[n];
            && Enabled(q, Calls(t, throwsAtOnce))
            && !Step(q, Calls(t, throwsAtOnce)).jobs[t].phase.Uncalled?
  {
    AlwaysSound(qs, acts, n);
    NoTailRejected(qs[n], t);
    assert InOrder(qs[n], t);
  }

  // ----- the lane this is

  function Names(q: Queue): seq<string> {
    seq(|q.jobs|, t requires 0 <= t < |q.jobs| => q.jobs[t].name)
  }

  /** What the promises look like from outside: the names still to be called, and the one whose turn it is. */
  function View(q: Queue): Lane.Lane
    requires q.freed <= q.called <= |q.jobs|
  {
    Lane.Lane(Names(q)[q.called..], if q.freed < q.called then Some(q.jobs[q.freed].name) else None,
              q.inFlight, q.skipped, Names(q), Names(q)[..q.called], q.freed)
  }

  /** The move of the lane that a step makes, if it makes any. */
  function LaneCall(q: Queue, a: Action): Option<Lane.Call> {
    if !Enabled(q, a) then None
    else if a.Ticks? then Some(Lane.Tick(a.name))
    else if a.Calls? then Some(Lane.StartNext)
    else if a.Frees? then Some(Lane.SettleCurrent)
    else None
  }

  lemma NamesKept(q: Queue, q': Queue, t: nat, j: Job)
    requires t < |q.jobs| && q'.jobs == q.jobs[t := j] && j.name == q.jobs[t].name
    ensures Names(q') == Names(q)
  {
  }

  lemma TickIsRun(q: Queue, name: string)
    requires Sound(q)
    ensures View(Accept(q, name)) == Lane.Run(View(q), name)
  {
    if name !in q.inFlight {
      assert Names(Accept(q, name)) == Names(q) + [name];
    }
  }

  lemma MoveIsLaneMove(q: Queue, a: Action)
    requires Sound(q) && Enabled(q, a) && !a.Ticks? && Sound(Step(q, a))
    ensures View(Step(q, a)) == match LaneCall(q, a) case None => View(q) case Some(c) => Lane.Act(View(q), c)
  {
    NamesKept(q, Step(q, a), a.t, Moved(q, a));
    if a.Calls? { CalledNext(q, a.t, a.throwsAtOnce); }
    if a.Frees? { FreedNext(q, a.t); }
  }

  lemma StepIsLaneMove(q: Queue, a: Action)
    requires Sound(q)
    ensures Sound(Step(q, a))
    ensures View(Step(q, a)) == match LaneCall(q, a) case None => View(q) case Some(c) => Lane.Act(View(q), c)
  {
    StepSound(q, a);
    if Enabled(q, a) {
      if a.Ticks? { TickIsRun(q, a.name); } else { MoveIsLaneMove(q, a); }
    }
  }

  /** Every run of the promises is a run of the lane: a callback called is the next job started, a name taken
      out is the current turn settled, and everything else leaves the lane as it was. */
  lemma {:induction false} RunsAsLane(qs: seq<Queue>, acts: seq<Action>, n: nat) returns (ls: seq<Lane.Lane>, calls: seq<Lane.Call>)
    requires IsRun(qs, acts) && n <= |acts|
    ensures Sound(qs[n]) && Lane.IsRun(ls, calls) && ls[|calls|] == View(qs[n])
  {
    if n == 0 {
      ls, calls := [Lane.EMPTY_LANE], [];
      assert Names(EMPTY_QUEUE) == [];
    } else {
      ls, calls := RunsAsLane(qs, acts, n - 1);
      StepIsLaneMove(qs[n - 1], acts[n - 1]);
      var call := LaneCall(qs[n - 1], acts[n - 1]);
      if call.Some? {
        ls, calls := ls + [View(qs[n])], calls + [call.value];
      }
    }
  }

  /** The names `ps` are those of the jobs that are not freed, in order. */
  ghost predicate AreUnfreed(jobs: seq<Job>, freed: nat, ps: seq<string>) {
    && |jobs| == freed + |ps|
    && (forall i: nat | i < |jobs| :: IsFreed(jobs[i]) <==> i < freed)
    && (forall i: nat | i < |ps| :: ps[i] == jobs[freed + i].name)
  }

  lemma PendingNames(q: Queue)
    requires q.freed <= q.called <= |q.jobs| && q.called <= q.freed + 1
    ensures Lane.Pending(View(q)) == Names(q)[q.freed..]
  {
    var rest := Names(q)[q.called..];
    if q.freed < q.called {
      assert Names(q)[q.freed..] == [q.jobs[q.freed].name] + rest;
    } else {
      assert [] + rest == rest;
    }
  }

  lemma UnfreedNames(q: Queue)
    requires Sound(q)
    ensures AreUnfreed(q.jobs, q.freed, Names(q)[q.freed..])
  {
    forall i: nat | i < |q.jobs|
      ensures IsFreed(q.jobs[i]) <==> i < q.freed
    {
      assert InOrder(q, i);
    }
  }

  lemma PendingInLane(q: Queue) returns (ps: seq<string>)
    requires Sound(q) && Lane.Orderly(View(q))
    ensures AreUnfreed(q.jobs, q.freed, ps) && Lane.Distinct(ps) && forall name :: name in q.inFlight <==> name in ps
  {
    PendingNames(q);
    UnfreedNames(q);
    ps := Lane.Pending(View(q));
  }

  lemma AmongUnfreed(jobs: seq<Job>, freed: nat, ps: seq<string>, name: string)
    requires AreUnfreed(jobs, freed, ps)
    ensures name in ps <==> exists i: nat :: i < |jobs| && jobs[i].name == name && !IsFreed(jobs[i])
  {
    if name in ps {
      var k :| 0 <= k < |ps| && ps[k] == name;
      assert jobs[freed + k].name == name;
    }
    forall i: nat | i < |jobs| && jobs[i].name == name && !IsFreed(jobs[i])
      ensures name in ps
    {
      assert ps[i - freed] == name;
    }
  }

  /** A name is in flight exactly while a job of that name is not freed, and two such jobs never have the same. */
  lemma InFlightExactly(qs: seq<Queue>, acts: seq<Action>, n: nat, name: string, t: nat, u: nat)
    requires IsRun(qs, acts) && n <= |acts|
    ensures name in qs[n].inFlight <==> exists i: nat :: i < |qs[n].jobs| && qs[n].jobs[i].name == name && !IsFreed(qs[n].jobs[i])
    ensures t < u < |qs[n].jobs| && !IsFreed(qs[n].jobs[t]) && !IsFreed(qs[n].jobs[u]) ==>
              qs[n].jobs[t].name != qs[n].jobs[u].name
  {
    var ls, calls := RunsAsLane(qs, acts, n);
    Lane.AlwaysOrderly(ls, calls, |calls|);
    var ps := PendingInLane(qs[n]);
    AmongUnfreed(qs[n].jobs, qs[n].freed, ps, name);
    if t < u < |qs[n].jobs| && !IsFreed(qs[n].jobs[t]) && !IsFreed(qs[n].jobs[u]) {
      assert ps[t - qs[n].freed] != ps[u - qs[n].freed];
    }
  }

  // ----- a late settlement

  /** The queues differ at most in the promise of job `t`'s own work, which nobody waits for any more. */
  predicate SameButLate(q: Queue, q': Queue, t: nat) {
    && t < |q.jobs| && t < |q'.jobs|
    && (q.jobs[t].phase.Over? || IsFreed(q.jobs[t]))
    && q' == q.(jobs := q.jobs[t := q.jobs[t].(work := q'.jobs[t].work)])
  }

  lemma LateEnabled(q: Queue, q': Queue, t: nat, a: Action)
    requires SameButLate(q, q', t) && !a.Ticks? && a.t < |q.jobs|
    ensures Before(q', a.t) == Before(q, a.t)
    ensures !(a.WorkSettles? && a.t == t) ==> (Enabled(q', a) <==> Enabled(q, a))
  {
    assert a.t == t || q'.jobs[a.t] == q.jobs[a.t];
  }

  lemma LateMove(q: Queue, q': Queue, t: nat, a: Action)
    requires SameButLate(q, q', t) && !a.Ticks? && a.t < |q.jobs| && Enabled(q, a) && Enabled(q', a)
    ensures Moved(q', a) == Moved(q, a).(work := Moved(q', a).work)
    ensures a.t != t ==> Moved(q', a) == Moved(q, a)
    ensures a.t == t ==> Moved(q, a).phase.Over? || IsFreed(Moved(q, a))
  {
    LateEnabled(q, q', t, a);
    assert a.t == t || q'.jobs[a.t] == q.jobs[a.t];
  }

  lemma LateStep(q: Queue, q': Queue, t: nat, a: Action)
    requires SameButLate(q, q', t)
    ensures SameButLate(Step(q, a), Step(q', a), t)
  {
    if !a.Ticks? && a.t < |q.jobs| {
      LateEnabled(q, q', t, a);
      if Enabled(q, a) && Enabled(q', a) {
        LateMove(q, q', t, a);
        LateUpdate(q.jobs, q'.jobs, t, a.t, Moved(q, a), Moved(q', a));
      }
    }
  }

  lemma LateUpdate(jobs: seq<Job>, jobs': seq<Job>, t: nat, u: nat, j: Job, j': Job)
    requires t < |jobs| == |jobs'| && u < |jobs| && jobs' == jobs[t := jobs[t].(work := jobs'[t].work)]
    requires j' == j.(work := j'.work) && (u != t ==> j' == j)
    ensures jobs'[u := j'] == jobs[u := j][t := jobs[u := j][t].(work := jobs'[u := j'][t].work)]
  {
  }

  /** A job that settles after its turn is over, completed or failed, changes nothing ever after: not the
      results, not the links, not which names are in flight, not what happens next. */
  lemma {:induction false} LateSettlementIsIgnored(qs: seq<Queue>, qs': seq<Queue>, acts: seq<Action>, n: nat, t: nat, completes: bool)
    requires |qs| == |qs'| == |acts| + 1 && n <= |acts|
    requires t < |qs[0].jobs| && (qs[0].jobs[t].phase.Over? || IsFreed(qs[0].jobs[t]))
    requires qs'[0] == Step(qs[0], WorkSettles(t, completes))
    requires forall i | 0 <= i < |acts| :: qs[i + 1] == Step(qs[i], acts[i]) && qs'[i + 1] == Step(qs'[i], acts[i])
    ensures SameButLate(qs[n], qs'[n], t)
  {
    if n > 0 {
      LateSettlementIsIgnored(qs, qs', acts, n - 1, t, completes);
      LateStep(qs[n - 1], qs'[n - 1], t, acts[n - 1]);
    }
  }

  // ----- no turn ends early

  /** Step `k` is the deadline of job `t`, after its callback was called. */
  predicate FiresAt(q: Queue, a: Action, t: nat) {
    a == DeadlineFires(t) && t < |q.jobs| && (q.jobs[t].phase.Racing? || q.jobs[t].phase.Over?)
  }

  lemma FiredStep(q: Queue, a: Action, t: nat)
    requires t < |Step(q, a).jobs| && Step(q, a).jobs[t].fired
    ensures t < |q.jobs| && (q.jobs[t].fired || FiresAt(q, a, t))
  {
  }

  lemma {:induction false} FiredHasOrigin(qs: seq<Queue>, acts: seq<Action>, n: nat, t: nat) returns (k: nat)
    requires IsRun(qs, acts) && n <= |acts| && t < |qs[n].jobs| && qs[n].jobs[t].fired
    ensures k < n && FiresAt(qs[k], acts[k], t)
  {
    FiredStep(qs[n - 1], acts[n - 1], t);
    if qs[n - 1].jobs[t].fired {
      k := FiredHasOrigin(qs, acts, n - 1, t);
    } else {
      k := n - 1;
    }
  }

  /** Over every run a turn ends by its deadline only after that deadline fired, as completed only once its own
      job has completed, and as failed only once it has failed. */
  lemma TurnsEndForAReason(qs: seq<Queue>, acts: seq<Action>, n: nat, t: nat)
    requires IsRun(qs, acts) && n <= |acts| && t < |qs[n].jobs| && qs[n].jobs[t].phase.Over?
    ensures match qs[n].jobs[t].phase.outcome
            case TimedOut => exists k: nat :: k < n && FiresAt(qs[k], acts[k], t)
            case Completed => qs[n].jobs[t].work.Fulfilled?
            case Failed => qs[n].jobs[t].work.Rejected?
  {
    AlwaysSound(qs, acts, n);
    assert InOrder(qs[n], t);
    if qs[n].jobs[t].phase.outcome.TimedOut? {
      var k := FiredHasOrigin(qs, acts, n, t);
      assert FiresAt(qs[k], acts[k], t);
    }
  }

  // ----- the lane never jams

  function PhaseRank(p: Phase): nat {
    match p
    case Uncalled => 4
    case Racing => 3
    case Over(_) => 2
    case Freed(_) => 1
    case Returned(_) => 0
  }

  /** How many moves a job has left in it. */
  function JobRank(j: Job): nat {
    PhaseRank(j.phase) + (if j.work.Waiting? then 1 else 0) + (if j.fired then 0 else 1) + (if j.tail.Waiting? then 1 else 0)
  }

  /** How many the first `k` jobs have left. */
  function RankTo(q: Queue, k: nat): nat
    requires k <= |q.jobs|
  {
    if k == 0 then 0 else RankTo(q, k - 1) + JobRank(q.jobs[k - 1])
  }

  lemma {:induction false} RankBound(q: Queue, k: nat)
    requires k <= |q.jobs|
    ensures RankTo(q, k) <= 7 * k
  {
    if k > 0 {
      RankBound(q, k - 1);
    }
  }

  lemma {:induction false} RankSame(q: Queue, q': Queue, k: nat)
    requires k <= |q.jobs| && k <= |q'.jobs| && forall i | 0 <= i < k :: q'.jobs[i] == q.jobs[i]
    ensures RankTo(q', k) == RankTo(q, k)
  {
    if k > 0 {
      RankSame(q, q', k - 1);
    }
  }

  lemma {:induction false} RankFalls(q: Queue, q': Queue, t: nat, k: nat)
    requires t < k <= |q.jobs| == |q'.jobs| && q'.jobs == q.jobs[t := q'.jobs[t]] && JobRank(q'.jobs[t]) < JobRank(q.jobs[t])
    ensures RankTo(q', k) < RankTo(q, k)
  {
    if t < k - 1 {
      RankFalls(q, q', t, k - 1);
    } else {
      RankSame(q, q', t);
    }
  }

  predicate IsMove(q: Queue, a: Action) {
    !a.Ticks? && Enabled(q, a)
  }

  lemma MoveRank(q: Queue, a: Action)
    requires Sound(q) && IsMove(q, a)
    ensures JobRank(Moved(q, a)) < JobRank(q.jobs[a.t])
  {
    assert InOrder(q, a.t);
    NoTailRejected(q, a.t);
  }

  /** While job `t` has not returned, none behind it has been called. */
  lemma NoneCalledBehind(q: Queue, t: nat)
    requires Sound(q) && t < |q.jobs| && !q.jobs[t].phase.Returned?
    ensures q.called <= t + 1
  {
    assert InOrder(q, t);
    if t + 1 < |q.jobs| {
      assert InOrder(q, t + 1);
    }
  }

  /** And nothing can move behind it. */
  lemma NothingOvertakes(q: Queue, a: Action, t: nat)
    requires Sound(q) && IsMove(q, a) && t < |q.jobs| && !q.jobs[t].phase.Returned?
    ensures a.t <= t
  {
    NoneCalledBehind(q, t);
    assert InOrder(q, a.t);
    assert a.t > 0 ==> InOrder(q, a.t - 1);
  }

  function Moves(qs: seq<Queue>, acts: seq<Action>, m: nat, n: nat): nat
    requires |qs| == |acts| + 1 && m <= n <= |acts|
    decreases n
  {
    if n == m then 0 else Moves(qs, acts, m, n - 1) + if IsMove(qs[n - 1], acts[n - 1]) then 1 else 0
  }

  lemma {:induction false} MovesCount(qs: seq<Queue>, acts: seq<Action>, m: nat, n: nat, t: nat)
    requires IsRun(qs, acts) && m <= n <= |acts| && t < |qs[m].jobs|
    ensures t < |qs[n].jobs| && qs[n].jobs[t].name == qs[m].jobs[t].name
    ensures qs[n].jobs[t].phase.Returned? || Moves(qs, acts, m, n) + RankTo(qs[n], t + 1) <= RankTo(qs[m], t + 1)
    decreases n
  {
    if m < n {
      MovesCount(qs, acts, m, n - 1, t);
      AlwaysSound(qs, acts, n - 1);
      StepRank(qs[n - 1], acts[n - 1], t);
    }
  }

  lemma StepRank(q: Queue, a: Action, t: nat)
    requires Sound(q) && t < |q.jobs|
    ensures t < |Step(q, a).jobs| && Step(q, a).jobs[t].name == q.jobs[t].name
    ensures q.jobs[t].phase.Returned? ==> Step(q, a).jobs[t].phase.Returned?
    ensures q.jobs[t].phase.Returned? || RankTo(Step(q, a), t + 1) + (if IsMove(q, a) then 1 else 0) <= RankTo(q, t + 1)
  {
    if IsMove(q, a) {
      MoveRank(q, a);
      if !q.jobs[t].phase.Returned? {
        NothingOvertakes(q, a, t);
        RankFalls(q, Step(q, a), a.t, t + 1);
      }
    } else {
      RankSame(q, Step(q, a), t + 1);
    }
  }

  /** Whatever jobs do and however ticks interleave: once the lane has moved as often as the jobs up to `t` have
      moves left, at most seven each, job `t` has been called, its turn is over and its promise settled. */
  lemma NeverJams(qs: seq<Queue>, acts: seq<Action>, m: nat, n: nat, t: nat)
    requires IsRun(qs, acts) && m <= n <= |acts| && t < |qs[m].jobs|
    requires Moves(qs, acts, m, n) >= RankTo(qs[m], t + 1)
    ensures RankTo(qs[m], t + 1) <= 7 * (t + 1)
    ensures t < |qs[n].jobs| && qs[n].jobs[t].name == qs[m].jobs[t].name && qs[n].jobs[t].phase.Returned?
    ensures t < qs[n].called && !qs[n].jobs[t].result.Waiting?
  {
    RankBound(qs[m], t + 1);
    MovesCount(qs, acts, m, n, t);
    AlwaysSound(qs, acts, n);
    assert InOrder(qs[n], t);
  }

  /** And until then there is always a move that no job has to cooperate in: not even a job whose promise never
      settles stops the lane. */
  lemma AlwaysAMove(qs: seq<Queue>, acts: seq<Action>, n: nat, t: nat) returns (a: Action)
    requires IsRun(qs, acts) && n <= |acts| && t < |qs[n].jobs| && !qs[n].jobs[t].phase.Returned?
    ensures IsMove(qs[n], a) && !a.WorkSettles? && a.t <= t
  {
    AlwaysSound(qs, acts, n);
    var q := qs[n];
    if q.called == 0 {
      assert InOrder(q, 0);
      a := Calls(0, false);
    } else {
      var c := q.called - 1;
      NoneCalledBehind(q, t);
      assert InOrder(q, c) && InOrder(q, t);
      var j := q.jobs[c];
      match j.phase
      case Racing => a := if j.fired then RaceEnds(c, true) else DeadlineFires(c);
      case Over(_) => a := Frees(c, false);
      case Freed(_) => a := ResultSettles(c);
      case Returned(_) =>
        if j.tail.Waiting? {
          a := TailSettles(c);
        } else {
          assert InOrder(q, c + 1);
          a := Calls(c + 1, false);
        }
      case Uncalled => assert false;
    }
    NothingOvertakes(q, a, t);
  }

  // ----- the queue object, updating its closure variables in place

  class JobQueue {
    var jobs: seq<Job>
    var inFlight: set<string>
    var skipped: nat
    ghost var called: nat
    ghost var freed: nat

    ghost function Contents(): Queue
      reads this
    {
      Queue(jobs, inFlight, skipped, called, freed)
    }

    ghost predicate Valid()
      reads this
    {
      Sound(Contents())
    }

    constructor ()
      ensures Valid() && Contents() == EMPTY_QUEUE
    {
      jobs, inFlight, skipped, called, freed := [], {}, 0, 0, 0;
    }

    /** `run`: true when the tick was queued behind everything else, false when it was dropped. */
    method Run(name: string) returns (queued: bool)
      requires Valid()
      modifies this
      ensures Valid() && Contents() == Step(old(Contents()), Ticks(name))
      ensures queued <==> name !in old(inFlight)
    {
      TickSound(Contents(), name);
      if name in inFlight {
        skipped := skipped + 1;
        return false;
      }
      inFlight := inFlight + {name};
      jobs := jobs + [NewJob(name)];
      return true;
    }

    /** The link before the job has settled: its callback is called, always. */
    method CallBack(t: nat, throwsAtOnce: bool)
      requires Valid() && Enabled(Contents(), Calls(t, throwsAtOnce))
      modifies this
      ensures Valid() && Contents() == Step(old(Contents()), Calls(t, throwsAtOnce))
      ensures jobs[t].phase == if throwsAtOnce then Over(Failed) else Racing
    {
      CalledNext(Contents(), t, throwsAtOnce);
      MoveSound(Contents(), Calls(t, throwsAtOnce));
      jobs := jobs[t := if throwsAtOnce then jobs[t].(phase := Over(Failed), work := Rejected) else jobs[t].(phase := Racing)];
      called := called + 1;
    }

    /** The first of the job and its deadline to settle ends the race. */
    method EndRace(t: nat, byDeadline: bool) returns (outcome: Outcome)
      requires Valid() && Enabled(Contents(), RaceEnds(t, byDeadline))
      modifies this
      ensures Valid() && Contents() == Step(old(Contents()), RaceEnds(t, byDeadline))
      ensures jobs[t].phase == Over(outcome) && (outcome.TimedOut? <==> byDeadline)
    {
      MoveSound(Contents(), RaceEnds(t, byDeadline));
      outcome := Completed;
      if byDeadline {
        outcome := TimedOut;
      } else if jobs[t].work.Rejected? {
        outcome := Failed;
      }
      jobs := jobs[t := jobs[t].(phase := Over(outcome))];
    }

    /** However the turn ended, its name may be queued again from here on. */
    method Free(t: nat, alertThrows: bool) returns (fails: bool)
      requires Valid() && Enabled(Contents(), Frees(t, alertThrows))
      modifies this
      ensures Valid() && Contents() == Step(old(Contents()), Frees(t, alertThrows))
      ensures jobs[t].name !in inFlight && jobs[t].phase == Freed(fails)
    {
      MoveSound(Contents(), Frees(t, alertThrows));
      fails := jobs[t].phase.outcome.Failed? || (jobs[t].phase.outcome.TimedOut? && alertThrows);
      inFlight := inFlight - {jobs[t].name};
      jobs := jobs[t := jobs[t].(phase := Freed(fails))];
      freed := freed + 1;
    }

    /** The caller of `run` sees whether the job failed. */
    method SettleResult(t: nat)
      requires Valid() && Enabled(Contents(), ResultSettles(t))
      modifies this
      ensures Valid() && Contents() == Step(old(Contents()), ResultSettles(t))
      ensures jobs[t].result == if old(jobs)[t].phase.fails then Rejected else Fulfilled
    {
      MoveSound(Contents(), ResultSettles(t));
      var fails := jobs[t].phase.fails;
      jobs := jobs[t := jobs[t].(phase := Returned(fails), result := if fails then Rejected else Fulfilled)];
    }

    /** The lane goes on either way: both handlers of the second `then` yield. */
    method SettleTail(t: nat)
      requires Valid() && Enabled(Contents(), TailSettles(t))
      modifies this
      ensures Valid() && Contents() == Step(old(Contents()), TailSettles(t))
      ensures jobs[t].tail.Fulfilled?
    {
      MoveSound(Contents(), TailSettles(t));
      jobs := jobs[t := jobs[t].(tail := Then(jobs[t].result, Yields, Yields))];
    }
  }
}
