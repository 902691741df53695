/** Jobs under advisory locks across every keeper process (services/keeper/src/lock.ts around the lanes of
    services/keeper/src/jobQueue.ts), as a state machine of interleaved steps: lanes tick, start and
    settle, while each started execution reserves a database session, tries the lock, runs its body,
    unlocks and gives the session back, whether or not its lane still waits for it. */
module KeeperLock {
  import opened Prelude
  import opened KeeperLane

  datatype Scope = Global | Job

  /** The scope given in the call, else the process's own setting, else one lock per job. */
  function LockKey(name: string, scope: Option<Scope>, env: Option<Scope>): string {
    if scope.GetOr(env.GetOr(Job)).Global? then "keeper:global" else "keeper:" + name
  }

  /** Jobs of one name share a key under one scope; under the global scope all jobs do. */
  lemma LockKeysAgree(a: string, b: string, scope: Option<Scope>, env: Option<Scope>)
    ensures LockKey(a, scope, env) == LockKey(b, scope, env) <==> scope.GetOr(env.GetOr(Job)).Global? || a == b
  {
    if LockKey(a, scope, env) == LockKey(b, scope, env) && scope.GetOr(env.GetOr(Job)).Job? {
      assert ("keeper:" + a)[7..] == a && ("keeper:" + b)[7..] == b;
    }
  }

  datatype Stage =
    | Acquiring
    | Locking(session: nat)
    | Running(session: nat)
    | Unlocking(session: nat)
    | Returning(session: nat)
    | Finished

  /** One started job. `lost` tells that the connection of its session broke while it had it. */
  datatype Exec = Exec(name: string, key: int, stage: Stage, lost: bool)

  /** An advisory lock is held by a session, which may take it again, and freed when given back as often. */
  datatype Held = Held(session: nat, count: Positive)

  type Positive = n: nat | n > 0 witness 1

  /** Executions are named by process and turn; `reserved` says which one has each session. */
  datatype Fleet = Fleet(
    hash: string -> int, scopes: nat -> Option<Scope>,
    lanes: map<nat, Lane>, execs: map<(nat, nat), Exec>, locks: map<int, Held>, reserved: map<nat, (nat, nat)>)

  predicate IsInitial(f: Fleet) {
    f.lanes == map[] && f.execs == map[] && f.locks == map[] && f.reserved == map[]
  }

  function LaneOf(f: Fleet, i: nat): Lane {
    if i in f.lanes then f.lanes[i] else EMPTY_LANE
  }

  datatype Action =
    | Ticks(i: nat, name: string)
    | Starts(i: nat)
    | Settles(i: nat, byDeadline: bool)
    | Reserves(e: (nat, nat), session: nat)
    | ReserveFails(e: (nat, nat))
    | TriesLock(e: (nat, nat), applied: bool, answered: bool)
    | BodyEnds(e: (nat, nat))
    | Unlocks(e: (nat, nat), applied: bool)
    | Releases(e: (nat, nat), returned: bool)
    | SessionLost(session: nat)

  // ----- the lock table

  predicate Grants(locks: map<int, Held>, key: int, session: nat) {
    key in locks ==> locks[key].session == session
  }

  function Take(locks: map<int, Held>, key: int, session: nat): map<int, Held> {
    locks[key := Held(session, if key in locks then locks[key].count + 1 else 1)]
  }

  /** Giving back a lock the session does not hold does nothing. */
  function GiveBack(locks: map<int, Held>, key: int, session: nat): map<int, Held> {
    if key !in locks || locks[key].session != session then locks
    else if locks[key].count > 1 then locks[key := Held(session, locks[key].count - 1)]
    else locks - {key}
  }

  function Drop(locks: map<int, Held>, session: nat): map<int, Held> {
    map k | k in locks && locks[k].session != session :: locks[k]
  }

  // ----- steps

  function InStage(f: Fleet, e: (nat, nat), stage: Stage): Fleet
    requires e in f.execs
  {
    f.(execs := f.execs[e := f.execs[e].(stage := stage)])
  }

  predicate Enabled(f: Fleet, a: Action) {
    match a
    case Ticks(_, _) => true
    case Starts(i) => LaneOf(f, i).current.None? && LaneOf(f, i).queue != []
    case Settles(i, byDeadline) =>
      var l := LaneOf(f, i);
      l.current.Some? && (byDeadline || ((i, l.settled) in f.execs && f.execs[(i, l.settled)].stage.Finished?))
    case Reserves(e, session) => e in f.execs && f.execs[e].stage.Acquiring? && session !in f.reserved
    case ReserveFails(e) => e in f.execs && f.execs[e].stage.Acquiring?
    case TriesLock(e, _, _) => e in f.execs && f.execs[e].stage.Locking?
    case BodyEnds(e) => e in f.execs && f.execs[e].stage.Running?
    case Unlocks(e, _) => e in f.execs && f.execs[e].stage.Unlocking?
    case Releases(e, _) => e in f.execs && f.execs[e].stage.Returning?
    case SessionLost(_) => true
  }

  function StartExec(f: Fleet, i: nat): Fleet
    requires LaneOf(f, i).queue != []
  {
    var l := LaneOf(f, i);
    var name := l.queue[0];
    f.(lanes := f.lanes[i := Start(l)],
       execs := f.execs[(i, |l.started|) := Exec(name, f.hash(LockKey(name, None, f.scopes(i))), Acquiring, false)])
  }

  /** The lock query runs, or fails; the session is kept only by the one that got the lock and knows it. */
  function TryLock(f: Fleet, e: (nat, nat), applied: bool, answered: bool): Fleet
    requires e in f.execs && f.execs[e].stage.Locking?
  {
    var key, session := f.execs[e].key, f.execs[e].stage.session;
    var got := applied && Grants(f.locks, key, session);
    var f' := f.(locks := if got then Take(f.locks, key, session) else f.locks);
    if got && answered then InStage(f', e, Running(session))
    else InStage(f', e, Finished).(reserved := f.reserved - {session})
  }

  function Step(f: Fleet, a: Action): Fleet {
    if !Enabled(f, a) then f else
    match a
    case Ticks(i, name) => f.(lanes := f.lanes[i := Run(LaneOf(f, i), name)])
    case Starts(i) => StartExec(f, i)
    case Settles(i, _) => f.(lanes := f.lanes[i := Settle(LaneOf(f, i))])
    case Reserves(e, session) => InStage(f, e, Locking(session)).(reserved := f.reserved[session := e])
    case ReserveFails(e) => InStage(f, e, Finished)
    case TriesLock(e, applied, answered) => TryLock(f, e, applied, answered)
    case BodyEnds(e) => InStage(f, e, Unlocking(f.execs[e].stage.session))
    case Unlocks(e, applied) =>
      var session := f.execs[e].stage.session;
      InStage(f, e, Returning(session)).(locks := if applied then GiveBack(f.locks, f.execs[e].key, session) else f.locks)
    case Releases(e, returned) =>
      InStage(f, e, Finished).(reserved := if returned then f.reserved - {f.execs[e].stage.session} else f.reserved)
    case SessionLost(session) =>
      var f' := f.(locks := Drop(f.locks, session));
      if session in f.reserved && f.reserved[session] in f.execs
      then f'.(execs := f.execs[f.reserved[session] := f.execs[f.reserved[session]].(lost := true)])
      else f'
  }

  ghost predicate IsRun(fs: seq<Fleet>, acts: seq<Action>) {
    |fs| == |acts| + 1 && forall i | 0 <= i < |acts| :: fs[i + 1] == Step(fs[i], acts[i])
  }

  // ----- what every reachable fleet keeps

  /** Turn `t` of process `i` has an execution exactly when the lane has started that many jobs. */
  predicate ExecMatches(f: Fleet, i: nat, t: nat) {
    var l := LaneOf(f, i);
    && ((i, t) in f.execs <==> t < |l.started|)
    && ((i, t) in f.execs && t < |l.started| ==>
          f.execs[(i, t)].name == l.started[t] && f.execs[(i, t)].key == f.hash(LockKey(l.started[t], None, f.scopes(i))))
  }

  ghost predicate ProcessOrderly(f: Fleet, i: nat) {
    Orderly(LaneOf(f, i)) && forall t :: ExecMatches(f, i, t)
  }

  /** Every lane is orderly, and the executions are exactly the jobs the lanes have started. */
  ghost predicate Scheduled(f: Fleet) {
    forall i :: ProcessOrderly(f, i)
  }

  predicate HasSession(stage: Stage) {
    stage.Locking? || stage.Running? || stage.Unlocking? || stage.Returning?
  }

  /** From getting the lock until giving it back. */
  predicate Protected(stage: Stage) {
    stage.Running? || stage.Unlocking?
  }

  ghost predicate Guarded(f: Fleet) {
    && (forall e | e in f.execs && HasSession(f.execs[e].stage) ::
          f.execs[e].stage.session in f.reserved && f.reserved[f.execs[e].stage.session] == e)
    && (forall e | e in f.execs && Protected(f.execs[e].stage) && !f.execs[e].lost ::
          f.execs[e].key in f.locks && f.locks[f.execs[e].key].session == f.execs[e].stage.session)
  }

  lemma Untouched(f: Fleet, f': Fleet, i: nat)
    requires ProcessOrderly(f, i) && LaneOf(f', i) == LaneOf(f, i) && f'.hash == f.hash && f'.scopes == f.scopes
    requires forall t :: (i, t) in f'.execs <==> (i, t) in f.execs
    requires forall t | (i, t) in f.execs :: f'.execs[(i, t)].name == f.execs[(i, t)].name && f'.execs[(i, t)].key == f.execs[(i, t)].key
    ensures ProcessOrderly(f', i)
  {
    forall t
      ensures ExecMatches(f', i, t)
    {
      assert ExecMatches(f, i, t);
    }
  }

  /** A step that starts no job in lane `i`. */
  lemma SameStarted(f: Fleet, f': Fleet, i: nat)
    requires ProcessOrderly(f, i) && Orderly(LaneOf(f', i)) && LaneOf(f', i).started == LaneOf(f, i).started
    requires f' == f.(lanes := f'.lanes)
    ensures ProcessOrderly(f', i)
  {
    forall t
      ensures ExecMatches(f', i, t)
    {
      assert ExecMatches(f, i, t);
    }
  }

  lemma StartScheduled(f: Fleet, i: nat)
    requires ProcessOrderly(f, i) && LaneOf(f, i).current.None? && LaneOf(f, i).queue != []
    ensures ProcessOrderly(StartExec(f, i), i)
  {
    var f' := StartExec(f, i);
    StartOrderly(LaneOf(f, i));
    forall t
      ensures ExecMatches(f', i, t)
    {
      assert ExecMatches(f, i, t);
    }
  }

  lemma LaneStepScheduled(f: Fleet, a: Action)
    requires Scheduled(f) && (a.Ticks? || a.Starts? || a.Settles?)
    ensures Scheduled(Step(f, a))
  {
    if Enabled(f, a) {
      var f' := Step(f, a);
      var l := LaneOf(f, a.i);
      assert ProcessOrderly(f, a.i);
      match a {
        case Ticks(i, name) => RunOrderly(l, name); SameStarted(f, f', i);
        case Starts(i) => StartScheduled(f, i);
        case Settles(i, _) => SettleOrderly(l); SameStarted(f, f', i);
      }
      forall j | j != a.i
        ensures ProcessOrderly(f', j)
      {
        assert ProcessOrderly(f, j);
        Untouched(f, f', j);
      }
    }
  }

  lemma ExecStepScheduled(f: Fleet, a: Action)
    requires Scheduled(f) && !(a.Ticks? || a.Starts? || a.Settles?)
    ensures Scheduled(Step(f, a))
  {
    var f' := Step(f, a);
    assert f'.lanes == f.lanes && f'.execs.Keys == f.execs.Keys;
    forall j
      ensures ProcessOrderly(f', j)
    {
      assert ProcessOrderly(f, j);
      Untouched(f, f', j);
    }
  }

  lemma TryLockGuarded(f: Fleet, e: (nat, nat), applied: bool, answered: bool)
    requires Guarded(f) && e in f.execs && f.execs[e].stage.Locking?
    ensures Guarded(TryLock(f, e, applied, answered))
  {
  }

  lemma UnlockGuarded(f: Fleet, e: (nat, nat), applied: bool)
    requires Guarded(f) && e in f.execs && f.execs[e].stage.Unlocking?
    ensures Guarded(Step(f, Unlocks(e, applied)))
  {
  }

  lemma LossGuarded(f: Fleet, session: nat)
    requires Guarded(f)
    ensures Guarded(Step(f, SessionLost(session)))
  {
  }

  lemma StepGuarded(f: Fleet, a: Action)
    requires Guarded(f) && Scheduled(f)
    ensures Guarded(Step(f, a))
  {
    if Enabled(f, a) {
      match a
      case TriesLock(e, applied, answered) => TryLockGuarded(f, e, applied, answered);
      case Unlocks(e, applied) => UnlockGuarded(f, e, applied);
      case SessionLost(session) => LossGuarded(f, session);
      case _ =>
    }
  }

  lemma {:induction false} AlwaysKept(fs: seq<Fleet>, acts: seq<Action>, n: nat)
    requires IsRun(fs, acts) && IsInitial(fs[0]) && n <= |acts|
    ensures Scheduled(fs[n]) && Guarded(fs[n])
    ensures fs[n].hash == fs[0].hash && fs[n].scopes == fs[0].scopes
  {
    if n > 0 {
      AlwaysKept(fs, acts, n - 1);
      var a := acts[n - 1];
      if a.Ticks? || a.Starts? || a.Settles? {
        LaneStepScheduled(fs[n - 1], a);
      } else {
        ExecStepScheduled(fs[n - 1], a);
      }
      StepGuarded(fs[n - 1], a);
    }
  }

  // ----- what the keeper relies on

  /** Bodies of jobs with the same name never overlap while their processes use one lock scope, nor do any
      two bodies under the global scope: not across processes, and not after a deadline abandoned one
      of them, unless the database connection holding one's lock broke under it. */
  lemma BodiesNeverOverlap(fs: seq<Fleet>, acts: seq<Action>, n: nat, d: (nat, nat), e: (nat, nat))
    requires IsRun(fs, acts) && IsInitial(fs[0]) && n <= |acts|
    requires d in fs[n].execs && e in fs[n].execs && d != e
    requires fs[n].execs[d].stage.Running? && fs[n].execs[e].stage.Running?
    requires fs[0].scopes(d.0) == fs[0].scopes(e.0)
    requires fs[0].scopes(d.0) == Some(Global) || fs[n].execs[d].name == fs[n].execs[e].name
    ensures fs[n].execs[d].lost || fs[n].execs[e].lost
  {
    AlwaysKept(fs, acts, n);
    LockKeysAgree(fs[n].execs[d].name, fs[n].execs[e].name, None, fs[0].scopes(d.0));
    assert ProcessOrderly(fs[n], d.0) && ExecMatches(fs[n], d.0, d.1) && (d.0, d.1) == d;
    assert ProcessOrderly(fs[n], e.0) && ExecMatches(fs[n], e.0, e.1) && (e.0, e.1) == e;
    assert fs[n].execs[d].key == fs[n].execs[e].key;
  }

  /** A process waits for at most one execution at a time: of two that have not finished, at least one
      belongs to a turn its lane has already given up. */
  lemma OnePerProcess(fs: seq<Fleet>, acts: seq<Action>, n: nat, i: nat, t: nat, u: nat)
    requires IsRun(fs, acts) && IsInitial(fs[0]) && n <= |acts|
    requires (i, t) in fs[n].execs && (i, u) in fs[n].execs
    requires t >= LaneOf(fs[n], i).settled && u >= LaneOf(fs[n], i).settled
    ensures t == u && LaneOf(fs[n], i).current == Some(fs[n].execs[(i, t)].name)
  {
    AlwaysKept(fs, acts, n);
    assert ProcessOrderly(fs[n], i) && ExecMatches(fs[n], i, t) && ExecMatches(fs[n], i, u);
  }

  /** A turn ends in one step, which is its deadline or finds its execution finished. */
  lemma TurnEnds(f: Fleet, a: Action, i: nat)
    ensures var l, l' := LaneOf(f, i), LaneOf(Step(f, a), i);
            || l'.settled == l.settled
            || (l'.settled == l.settled + 1 && l.current.Some?
                && (a == Settles(i, true)
                    || (a == Settles(i, false) && (i, l.settled) in f.execs && f.execs[(i, l.settled)].stage.Finished?)))
  {
  }

  /** What is finished stays so, and what is not was not before. */
  lemma FinishedStays(f: Fleet, a: Action, e: (nat, nat))
    requires e in f.execs && f.execs[e].stage.Finished? && LaneOf(f, e.0).queue != [] ==> (e.0, |LaneOf(f, e.0).started|) != e
    ensures e in f.execs && f.execs[e].stage.Finished? ==> e in Step(f, a).execs && Step(f, a).execs[e].stage.Finished?
  {
  }

  lemma GivenUpStep(f: Fleet, a: Action, i: nat, t: nat)
    requires ProcessOrderly(f, i)
    requires (i, t) in Step(f, a).execs && !Step(f, a).execs[(i, t)].stage.Finished? && t < LaneOf(Step(f, a), i).settled
    ensures if t < LaneOf(f, i).settled then (i, t) in f.execs && !f.execs[(i, t)].stage.Finished?
            else a == Settles(i, true) && LaneOf(f, i).settled == t && LaneOf(f, i).current.Some?
  {
    assert ExecMatches(f, i, t) && ExecMatches(f, i, |LaneOf(f, i).started|);
    TurnEnds(f, a, i);
    FinishedStays(f, a, (i, t));
  }

  /** Over every run, a lane gives a turn up before its execution has finished only by the deadline of that very
      turn. */
  lemma {:induction false} GivenUpByDeadline(fs: seq<Fleet>, acts: seq<Action>, n: nat, i: nat, t: nat) returns (k: nat)
    requires IsRun(fs, acts) && IsInitial(fs[0]) && n <= |acts|
    requires (i, t) in fs[n].execs && !fs[n].execs[(i, t)].stage.Finished? && t < LaneOf(fs[n], i).settled
    ensures k < n && acts[k] == Settles(i, true) && LaneOf(fs[k], i).settled == t && LaneOf(fs[k], i).current.Some?
  {
    AlwaysKept(fs, acts, n - 1);
    GivenUpStep(fs[n - 1], acts[n - 1], i, t);
    if t < LaneOf(fs[n - 1], i).settled {
      k := GivenUpByDeadline(fs, acts, n - 1, i, t);
    } else {
      k := n - 1;
    }
  }

  /** Executions come into being in the order their ticks were accepted. */
  lemma StartedInOrder(fs: seq<Fleet>, acts: seq<Action>, n: nat, i: nat, t: nat)
    requires IsRun(fs, acts) && IsInitial(fs[0]) && n <= |acts|
    ensures (i, t) in fs[n].execs ==> t < |LaneOf(fs[n], i).accepted| && fs[n].execs[(i, t)].name == LaneOf(fs[n], i).accepted[t]
    ensures (i, t) in fs[n].execs && t > 0 ==> (i, t - 1) in fs[n].execs
  {
    AlwaysKept(fs, acts, n);
    assert ProcessOrderly(fs[n], i) && ExecMatches(fs[n], i, t);
    assert t > 0 ==> ExecMatches(fs[n], i, t - 1);
  }

  // ----- nothing a job does can stop later ones

  /** How often, from step `m` on, the deadline of lane `i` was let pass and its next job then called, and
      whether the deadline has passed since the last such call. Attempts count, whether or not they did
      anything, and whatever happens in between. */
  function Rounds(acts: seq<Action>, m: nat, n: nat, i: nat): (r: (nat, bool))
    requires m <= n <= |acts|
    decreases n - m
  {
    if n == m then (0, false) else
      var (rounds, passed) := Rounds(acts, m, n - 1, i);
      match acts[n - 1]
      case Settles(j, byDeadline) => (rounds, passed || (j == i && byDeadline))
      case Starts(j) => if j == i && passed then (rounds + 1, false) else (rounds, passed)
      case _ => (rounds, passed)
  }

  /** Lane `i` has started at least as many of the first `t + 1` jobs as there were rounds. */
  ghost predicate KeepsPace(l0: Lane, l: Lane, t: nat, rounds: nat, passed: bool) {
    && l0.accepted <= l.accepted
    && (|l.started| >= |l0.started| + rounds || |l.started| > t)
    && (passed ==> l.current.None? || |l.started| > |l0.started| + rounds || |l.started| > t)
  }

  /** What a step can do to lane `i`. */
  lemma LaneMoves(f: Fleet, a: Action, i: nat)
    ensures var l, l' := LaneOf(f, i), LaneOf(Step(f, a), i);
            match a
            case Ticks(j, name) => l' == if j == i then Run(l, name) else l
            case Starts(j) => l' == if j == i then Start(l) else l
            case Settles(j, byDeadline) =>
              (j != i ==> l' == l) && (j == i && byDeadline ==> l' == Settle(l)) && (l' == l || l' == Settle(l))
            case _ => l' == l
  {
  }

  lemma PaceStep(l0: Lane, l: Lane, l': Lane, a: Action, i: nat, t: nat, rounds: nat, passed: bool, rounds': nat, passed': bool)
    requires Orderly(l) && t < |l0.accepted| && KeepsPace(l0, l, t, rounds, passed)
    requires match a
             case Ticks(j, name) => l' == if j == i then Run(l, name) else l
             case Starts(j) => l' == if j == i then Start(l) else l
             case Settles(j, byDeadline) =>
               (j != i ==> l' == l) && (j == i && byDeadline ==> l' == Settle(l)) && (l' == l || l' == Settle(l))
             case _ => l' == l
    requires match a
             case Settles(j, byDeadline) => rounds' == rounds && passed' == (passed || (j == i && byDeadline))
             case Starts(j) => if j == i && passed then rounds' == rounds + 1 && !passed' else rounds' == rounds && passed' == passed
             case _ => rounds' == rounds && passed' == passed
    ensures KeepsPace(l0, l', t, rounds', passed')
  {
    if a.Starts? && a.i == i && l.current.None? && l.queue == [] {
      assert l.accepted == l.started;
    }
  }

  lemma {:induction false} PaceKept(fs: seq<Fleet>, acts: seq<Action>, m: nat, n: nat, i: nat, t: nat)
    requires IsRun(fs, acts) && IsInitial(fs[0]) && m <= n <= |acts|
    requires |LaneOf(fs[m], i).started| <= t < |LaneOf(fs[m], i).accepted|
    ensures var (rounds, passed) := Rounds(acts, m, n, i);
            KeepsPace(LaneOf(fs[m], i), LaneOf(fs[n], i), t, rounds, passed)
    decreases n - m
  {
    if m < n {
      PaceKept(fs, acts, m, n - 1, i, t);
      AlwaysKept(fs, acts, n - 1);
      assert ProcessOrderly(fs[n - 1], i);
      LaneMoves(fs[n - 1], acts[n - 1], i);
      var (rounds, passed) := Rounds(acts, m, n - 1, i);
      var (rounds', passed') := Rounds(acts, m, n, i);
      PaceStep(LaneOf(fs[m], i), LaneOf(fs[n - 1], i), LaneOf(fs[n], i), acts[n - 1], i, t, rounds, passed, rounds', passed');
    }
  }

  /** From every reachable state and for every continuation, whatever ticks, executions, other processes and
      lost connections are interleaved in it: once the lane's deadline has passed and its next job been
      called as many times as there are jobs up to and including the `t`-th, the `t`-th has been started.
      No job has to finish for that. */
  lemma HangingNeverBlocks(fs: seq<Fleet>, acts: seq<Action>, m: nat, n: nat, i: nat, t: nat)
    requires IsRun(fs, acts) && IsInitial(fs[0]) && m <= n <= |acts|
    requires |LaneOf(fs[m], i).started| <= t < |LaneOf(fs[m], i).accepted|
    requires Rounds(acts, m, n, i).0 >= t + 1 - |LaneOf(fs[m], i).started|
    ensures (i, t) in fs[n].execs && fs[n].execs[(i, t)].name == LaneOf(fs[m], i).accepted[t]
  {
    PaceKept(fs, acts, m, n, i, t);
    AlwaysKept(fs, acts, n);
    assert ProcessOrderly(fs[n], i) && ExecMatches(fs[n], i, t);
    assert LaneOf(fs[n], i).started[t] == LaneOf(fs[n], i).accepted[t];
  }

  // ----- one execution from start to end

  lemma Locks(f: Fleet, e: (nat, nat), session: nat, works: bool)
    requires e in f.execs && f.execs[e].stage == Locking(session)
    ensures Step(f, TriesLock(e, works, true)) ==
            if works && Grants(f.locks, f.execs[e].key, session)
            then InStage(f, e, Running(session)).(locks := Take(f.locks, f.execs[e].key, session))
            else InStage(f, e, Finished).(reserved := f.reserved - {session})
  {
  }

  /** The first two steps of an execution: on a session of its own it gets the lock, or is done and gives the
      session back. */
  lemma Acquires(f: Fleet, e: (nat, nat), session: nat, works: bool)
    requires e in f.execs && f.execs[e].stage.Acquiring? && session !in f.reserved
    ensures var f1 := Step(Step(f, Reserves(e, session)), TriesLock(e, works, true));
            if works && Grants(f.locks, f.execs[e].key, session)
            then f1 == InStage(f, e, Running(session)).(locks := Take(f.locks, f.execs[e].key, session), reserved := f.reserved[session := e])
            else f1 == InStage(f, e, Finished)
  {
    var f0 := Step(f, Reserves(e, session));
    assert f0 == InStage(f, e, Locking(session)).(reserved := f.reserved[session := e]);
    Locks(f0, e, session, works);
    assert f.reserved[session := e] - {session} == f.reserved;
  }

  /** The last three: whatever the body did, the session goes back, and the lock with it if the unlock works. */
  lemma Finishes(f: Fleet, e: (nat, nat), session: nat, unlockWorks: bool)
    requires e in f.execs && f.execs[e].stage == Running(session)
    ensures var f2 := Step(Step(Step(f, BodyEnds(e)), Unlocks(e, unlockWorks)), Releases(e, true));
            f2 == InStage(f, e, Finished).(
                    locks := if unlockWorks then GiveBack(f.locks, f.execs[e].key, session) else f.locks,
                    reserved := f.reserved - {session})
  {
  }

  /** Alone, an execution that has just been started and a session nobody uses: the interleaved steps end with
      the lock table and the pool that `LockServer.Execute` promises, and the execution finished. */
  lemma Uninterrupted(f: Fleet, e: (nat, nat), session: nat, works: Fortune) returns (f1: Fleet, f2: Fleet)
    requires e in f.execs && f.execs[e].stage.Acquiring? && session !in f.reserved
    ensures f1 == Step(Step(f, Reserves(e, session)), TriesLock(e, works.lockWorks, true))
    ensures e in f1.execs && (f1.execs[e].stage == Running(session) <==> works.lockWorks && Grants(f.locks, f.execs[e].key, session))
    ensures f1.execs[e].stage.Running? ==> f2 == Step(Step(Step(f1, BodyEnds(e)), Unlocks(e, works.unlockWorks)), Releases(e, true))
    ensures !f1.execs[e].stage.Running? ==> f2 == f1
    ensures e in f2.execs && f2.execs[e].stage.Finished? && f2.reserved == f.reserved && f2.lanes == f.lanes
    ensures f2.locks == if f1.execs[e].stage.Running? && !works.unlockWorks then Take(f.locks, f.execs[e].key, session) else f.locks
  {
    var key := f.execs[e].key;
    Acquires(f, e, session, works.lockWorks);
    f1 := Step(Step(f, Reserves(e, session)), TriesLock(e, works.lockWorks, true));
    f2 := f1;
    if works.lockWorks && Grants(f.locks, key, session) {
      Finishes(f1, e, session, works.unlockWorks);
      f2 := Step(Step(Step(f1, BodyEnds(e)), Unlocks(e, works.unlockWorks)), Releases(e, true));
      TakeThenGiveBack(f.locks, key, session);
      assert f.reserved[session := e] - {session} == f.reserved;
    }
  }

  lemma TakeThenGiveBack(locks: map<int, Held>, key: int, session: nat)
    requires Grants(locks, key, session)
    ensures GiveBack(Take(locks, key, session), key, session) == locks
  {
  }

  /** Which of the database's answers come back, and whether the body returns. */
  datatype Fortune = Fortune(lockWorks: bool, bodyWorks: bool, unlockWorks: bool)

  class LockServer {
    var locks: map<int, Held>
    var reserved: set<nat>

    constructor ()
      ensures locks == map[] && reserved == {}
    {
      locks, reserved := map[], {};
    }

    /** Takes the lock on a session of its own, which goes straight back to the pool unless it got it. */
    method Acquire(key: int, session: nat, works: bool) returns (got: bool)
      requires session !in reserved
      modifies this
      ensures got <==> works && Grants(old(locks), key, session)
      ensures locks == if got then Take(old(locks), key, session) else old(locks)
      ensures reserved == if got then old(reserved) + {session} else old(reserved)
    {
      reserved := reserved + {session};
      got := false;
      if works && Grants(locks, key, session) {
        locks := Take(locks, key, session);
        got := true;
      } else {
        reserved := reserved - {session};
      }
    }

    /** `executeJobWithLock`: the body runs only under the lock, and on every path out, a busy lock, a
        failed query, a body that returned or threw, the session is back in the pool and, unless the
        unlock itself failed, the lock table is what it was. */
    method Execute(key: int, session: nat, works: Fortune) returns (ok: bool, entered: bool)
      requires session !in reserved
      modifies this
      ensures entered <==> works.lockWorks && Grants(old(locks), key, session)
      ensures ok <==> entered && works.bodyWorks
      ensures reserved == old(reserved)
      ensures !entered || works.unlockWorks ==> locks == old(locks)
      ensures entered && !works.unlockWorks ==> locks == Take(old(locks), key, session)
    {
      entered := Acquire(key, session, works.lockWorks);
      if !entered { return false, entered; }
      ok := works.bodyWorks;
      if works.unlockWorks {
        locks := GiveBack(locks, key, session);
      }
      reserved := reserved - {session};
    }
  }
}
