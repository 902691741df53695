/** A run of two keeper processes in which a lost connection lets two bodies of one name run at once. */
module KeeperWitness {
  import opened Prelude
  import opened KeeperLane
  import opened KeeperLock

  const FIRST: (nat, nat) := (0, 0)
  const SECOND: (nat, nat) := (1, 0)

  /** A body of `name` runs in process 0, and process 1 is about to try the same lock on a session of its own. */
  predicate AboutToOverlap(f: Fleet, name: string, s: nat, s': nat) {
    && FIRST in f.execs && f.execs[FIRST].name == name && f.execs[FIRST].stage == Running(s)
    && SECOND in f.execs && f.execs[SECOND].name == name && f.execs[SECOND].stage == Locking(s')
    && f.execs[FIRST].key == f.execs[SECOND].key && s != s'
    && f.locks == map[f.execs[FIRST].key := Held(s, 1)] && f.reserved == map[s := FIRST, s' := SECOND]
  }

  /** While the connection stands the second is refused; once it is lost the second body runs beside the first. */
  lemma LossOverlaps(f: Fleet, name: string, s: nat, s': nat)
    requires AboutToOverlap(f, name, s, s')
    ensures var refused := Step(f, TriesLock(SECOND, true, true));
            SECOND in refused.execs && refused.execs[SECOND].stage.Finished?
    ensures var both := Step(Step(f, SessionLost(s)), TriesLock(SECOND, true, true));
            && FIRST in both.execs && SECOND in both.execs
            && both.execs[FIRST].stage.Running? && both.execs[SECOND].stage.Running? && both.execs[FIRST].lost
            && both.execs[FIRST].name == both.execs[SECOND].name == name
  {
  }

  function Fresh(hash: string -> int): Fleet {
    Fleet(hash, (i: nat) => None, map[], map[], map[], map[])
  }

  /** Some run from the initial fleet ends in `f`. */
  ghost predicate Leads(fs: seq<Fleet>, acts: seq<Action>, f: Fleet) {
    |fs| == |acts| + 1 && KeeperLock.IsRun(fs, acts) && IsInitial(fs[0]) && fs[|acts|] == f
  }

  lemma Extends(fs: seq<Fleet>, acts: seq<Action>, f: Fleet, a: Action, f': Fleet)
    requires Leads(fs, acts, f) && f' == Step(f, a)
    ensures Leads(fs + [f'], acts + [a], f')
  {
    var fs', acts' := fs + [f'], acts + [a];
    forall i | 0 <= i < |acts'|
      ensures fs'[i + 1] == Step(fs'[i], acts'[i])
    {
      if i < |acts| {
        assert fs'[i] == fs[i] && fs'[i + 1] == fs[i + 1] && acts'[i] == acts[i];
      }
    }
  }

  /** Tick, start, reserve a session: process `i` stands before its lock. */
  lemma ComesUp(fs: seq<Fleet>, acts: seq<Action>, f: Fleet, i: nat, name: string, session: nat)
    returns (fs': seq<Fleet>, acts': seq<Action>, f': Fleet)
    requires Leads(fs, acts, f) && i !in f.lanes && (i, 0) !in f.execs && session !in f.reserved
    ensures Leads(fs', acts', f')
    ensures f'.locks == f.locks && f'.reserved == f.reserved[session := (i, 0)]
    ensures f'.hash == f.hash && f'.scopes == f.scopes
    ensures f'.execs == f.execs[(i, 0) := Exec(name, f.hash(LockKey(name, None, f.scopes(i))), Locking(session), false)]
    ensures forall j :: j in f'.lanes <==> j in f.lanes || j == i
  {
    var f1, f2, f3 := Reserved(f, i, name, session);
    Extends(fs, acts, f, Ticks(i, name), f1);
    Extends(fs + [f1], acts + [Ticks(i, name)], f1, Starts(i), f2);
    Extends(fs + [f1] + [f2], acts + [Ticks(i, name)] + [Starts(i)], f2, Reserves((i, 0), session), f3);
    fs', f' := fs + [f1] + [f2] + [f3], f3;
    acts' := acts + [Ticks(i, name)] + [Starts(i)] + [Reserves((i, 0), session)];
  }

  lemma Reserved(f: Fleet, i: nat, name: string, session: nat) returns (f1: Fleet, f2: Fleet, f3: Fleet)
    requires i !in f.lanes && (i, 0) !in f.execs && session !in f.reserved
    ensures f1 == Step(f, Ticks(i, name)) && f2 == Step(f1, Starts(i)) && f3 == Step(f2, Reserves((i, 0), session))
    ensures f3.locks == f.locks && f3.reserved == f.reserved[session := (i, 0)] && f3.hash == f.hash && f3.scopes == f.scopes
    ensures f3.execs == f.execs[(i, 0) := Exec(name, f.hash(LockKey(name, None, f.scopes(i))), Locking(session), false)]
    ensures forall j :: j in f3.lanes <==> j in f.lanes || j == i
  {
    f1 := Step(f, Ticks(i, name));
    assert LaneOf(f1, i) == Run(EMPTY_LANE, name);
    f2 := Step(f1, Starts(i));
    f3 := Step(f2, Reserves((i, 0), session));
  }

  lemma TakesLock(f: Fleet, name: string, key: int)
    requires f.execs == map[FIRST := Exec(name, key, Locking(7), false)]
    requires f.locks == map[] && f.reserved == map[7 := FIRST]
    ensures var f' := Step(f, TriesLock(FIRST, true, true));
            && f'.execs == map[FIRST := Exec(name, key, Running(7), false)]
            && f'.locks == map[key := Held(7, 1)] && f'.reserved == map[7 := FIRST]
            && f'.hash == f.hash && f'.scopes == f.scopes && f'.lanes == f.lanes
  {
  }

  /** The first process alone: its body runs under the lock. */
  lemma FirstRuns(hash: string -> int, name: string) returns (fs: seq<Fleet>, acts: seq<Action>, f: Fleet)
    ensures Leads(fs, acts, f)
    ensures var key := hash(LockKey(name, None, None));
            && f.hash == hash && f.scopes(1) == None && 1 !in f.lanes
            && f.execs == map[FIRST := Exec(name, key, Running(7), false)]
            && f.locks == map[key := Held(7, 1)] && f.reserved == map[7 := FIRST]
  {
    var f0 := Fresh(hash);
    assert Leads([f0], [], f0);
    fs, acts, f := ComesUp([f0], [], f0, 0, name, 7);
    TakesLock(f, name, hash(LockKey(name, None, None)));
    var f' := Step(f, TriesLock(FIRST, true, true));
    Extends(fs, acts, f, TriesLock(FIRST, true, true), f');
    fs, acts, f := fs + [f'], acts + [TriesLock(FIRST, true, true)], f';
  }

  /** Both processes are up, one body running and the other execution before the same lock. */
  lemma BothUp(hash: string -> int, name: string) returns (fs: seq<Fleet>, acts: seq<Action>, f: Fleet)
    ensures Leads(fs, acts, f) && AboutToOverlap(f, name, 7, 8)
  {
    fs, acts, f := FirstRuns(hash, name);
    var key := hash(LockKey(name, None, None));
    assert FIRST in f.execs && SECOND !in f.execs && 8 !in f.reserved;
    fs, acts, f := ComesUp(fs, acts, f, 1, name, 8);
    assert f.execs[SECOND] == Exec(name, key, Locking(8), false) && f.execs[FIRST] == Exec(name, key, Running(7), false);
  }

  /** For every job there is a run of two processes under the same scope in which the connection of the first
      body's lock is lost, after which both bodies run. */
  lemma LostConnectionOverlaps(hash: string -> int, name: string) returns (fs: seq<Fleet>, acts: seq<Action>, f: Fleet)
    ensures Leads(fs, acts, f)
    ensures FIRST in f.execs && SECOND in f.execs
    ensures f.execs[FIRST].stage.Running? && f.execs[SECOND].stage.Running?
    ensures f.execs[FIRST].name == f.execs[SECOND].name == name && f.execs[FIRST].lost
  {
    var before;
    fs, acts, before := BothUp(hash, name);
    LossOverlaps(before, name, 7, 8);
    var lost := Step(before, SessionLost(7));
    Extends(fs, acts, before, SessionLost(7), lost);
    f := Step(lost, TriesLock(SECOND, true, true));
    Extends(fs + [lost], acts + [SessionLost(7)], lost, TriesLock(SECOND, true, true), f);
    fs, acts := fs + [lost] + [f], acts + [SessionLost(7)] + [TriesLock(SECOND, true, true)];
  }
}
