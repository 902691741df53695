/** Idempotent issuer calls (services/issuer-gateway/src/idempotency.ts): any number of requests with one
    `(issuer, route, key)`, interleaved at every database statement and issuer call.

    A statement is sent, applied at most once by the database at any later time, and answered; the
    answer may be lost. A process that crashes is one that takes no further step, while a statement it
    sent may still be applied. */
module Idempotency {
  import opened Prelude

  /** What a request asks for. Its fingerprint stands for the parameters themselves. */
  type Params = string
  type Response = nat

  /** The row for the key: who claimed it, and the stored answer once there is one. */
  datatype Row = Row(params: Params, response: Option<Response>)

  datatype Statement = Nothing | Insert | Delete | Update(response: Response)

  datatype Outcome =
    | Returned(result: Response, replayed: bool)
    | KeyReused
    | InFlight
    | IssuerError
    | StorageError

  /** Where a request stands. `claimed` is the database's answer to the insert, once applied. */
  datatype Stage =
    | Inserting(claimed: Option<bool>)
    | Selecting
    | Calling
    | Releasing
    | Storing(response: Response)
    | Finished(outcome: Outcome)

  /** `sent` is the statement not yet applied, if any. */
  datatype Process = Process(params: Params, stage: Stage, sent: Statement)

  datatype Success = Success(params: Params, response: Response)

  /** `successes` records every issuer call that ever succeeded. */
  datatype State = State(row: Option<Row>, procs: map<nat, Process>, successes: seq<Success>)

  predicate IsInitial(s: State) {
    s == State(None, map[], [])
  }

  datatype Action =
    | Arrive(p: nat, params: Params)
    | Applied(p: nat)
    | InsertAnswered(p: nat)
    | InsertFailed(p: nat)
    | SelectAnswered(p: nat)
    | SelectFailed(p: nat)
    | CallSucceeds(p: nat, response: Response)
    | CallFails(p: nat)
    | Settled(p: nat)

  function At(s: State, p: nat, proc: Process): State {
    s.(procs := s.procs[p := proc])
  }

  /** The database executes the statement `proc` sent. */
  function Execute(s: State, p: nat): State
    requires p in s.procs
  {
    var proc := s.procs[p];
    match proc.sent
    case Nothing => s
    case Insert =>
      var answer := if proc.stage.Inserting? then Inserting(Some(s.row.None?)) else proc.stage;
      At(s, p, proc.(stage := answer, sent := Nothing)).(row := if s.row.None? then Some(Row(proc.params, None)) else s.row)
    case Delete =>
      At(s, p, proc.(sent := Nothing)).(row := None)
    case Update(response) =>
      At(s, p, proc.(sent := Nothing)).(row := if s.row.None? then None else Some(s.row.value.(response := Some(response))))
  }

  /** What the request that lost the insert makes of the row it reads. */
  function Read(row: Option<Row>, proc: Process): Process {
    if row.None? then proc.(stage := Inserting(None), sent := Insert)
    else if row.value.params != proc.params then proc.(stage := Finished(KeyReused))
    else if row.value.response.None? then proc.(stage := Finished(InFlight))
    else proc.(stage := Finished(Returned(row.value.response.value, true)))
  }

  predicate Enabled(s: State, a: Action) {
    if a.Arrive? then a.p !in s.procs else
      a.p in s.procs &&
      var proc := s.procs[a.p];
      match a
      case Applied(_) => !proc.sent.Nothing?
      case InsertAnswered(_) => proc.stage.Inserting? && proc.stage.claimed.Some?
      case InsertFailed(_) => proc.stage.Inserting?
      case SelectAnswered(_) => proc.stage.Selecting?
      case SelectFailed(_) => proc.stage.Selecting?
      case CallSucceeds(_, _) => proc.stage.Calling?
      case CallFails(_) => proc.stage.Calling?
      case Settled(_) => proc.stage.Releasing? || proc.stage.Storing?
  }

  function Step(s: State, a: Action): State {
    if !Enabled(s, a) then s else
    match a
    case Arrive(p, params) => At(s, p, Process(params, Inserting(None), Insert))
    case Applied(p) => Execute(s, p)
    case InsertAnswered(p) =>
      var proc := s.procs[p];
      At(s, p, proc.(stage := if proc.stage.claimed.value then Calling else Selecting))
    case InsertFailed(p) => At(s, p, s.procs[p].(stage := Finished(StorageError)))
    case SelectAnswered(p) => At(s, p, Read(s.row, s.procs[p]))
    case SelectFailed(p) => At(s, p, s.procs[p].(stage := Finished(StorageError)))
    case CallSucceeds(p, response) =>
      var proc := s.procs[p];
      At(s, p, proc.(stage := Storing(response), sent := Update(response)))
        .(successes := s.successes + [Success(proc.params, response)])
    case CallFails(p) => At(s, p, s.procs[p].(stage := Releasing, sent := Delete))
    // The statement was answered, or failed; the issuer's answer stands either way.
    case Settled(p) =>
      var proc := s.procs[p];
      At(s, p, proc.(stage := Finished(if proc.stage.Storing? then Returned(proc.stage.response, false) else IssuerError)))
  }

  ghost predicate IsRun(ss: seq<State>, acts: seq<Action>) {
    |ss| == |acts| + 1 && forall i | 0 <= i < |acts| :: ss[i + 1] == Step(ss[i], acts[i])
  }

  // ----- the invariant

  /** A process on which the claim still depends. */
  predicate Holds(proc: Process) {
    proc.stage == Inserting(Some(true)) || proc.stage.Calling? || proc.sent.Delete? || proc.sent.Update?
  }

  /** What a process's stage says of the statement it sent. */
  predicate WellStaged(proc: Process) {
    match proc.stage
    case Inserting(claimed) => if claimed.None? then proc.sent.Insert? else proc.sent.Nothing?
    case Selecting => proc.sent.Nothing?
    case Calling => proc.sent.Nothing?
    case Releasing => proc.sent.Nothing? || proc.sent.Delete?
    case Storing(response) => proc.sent.Nothing? || proc.sent == Update(response)
    case Finished(_) => true
  }

  /** Whoever finished with a result finished with the one success there ever was, for its own parameters. */
  predicate Truthful(s: State, proc: Process) {
    && (proc.stage.Finished? && proc.stage.outcome.Returned? ==> s.successes == [Success(proc.params, proc.stage.outcome.result)])
    && (proc.stage.Storing? ==> s.successes == [Success(proc.params, proc.stage.response)])
    && (proc.sent.Update? ==> s.successes == [Success(proc.params, proc.sent.response)])
    && (s.successes != [] ==> !proc.stage.Calling? && proc.stage != Inserting(Some(true)) && !proc.sent.Delete?)
  }

  /** No success yet, or one: stored in the row, or still to be stored by the process that had it. */
  ghost predicate Accounted(s: State) {
    if s.successes == [] then s.row.Some? ==> s.row.value.response.None?
    else |s.successes| == 1 && s.row.Some? && s.row.value.params == s.successes[0].params
         && (s.row.value.response.Some? ==> s.row.value.response.value == s.successes[0].response)
  }

  ghost predicate Inv(s: State) {
    && (forall p | p in s.procs :: WellStaged(s.procs[p]) && Truthful(s, s.procs[p]))
    && (forall p | p in s.procs && Holds(s.procs[p]) :: s.row == Some(Row(s.procs[p].params, None)))
    && (forall p, q | p in s.procs && q in s.procs && Holds(s.procs[p]) && Holds(s.procs[q]) :: p == q)
    && Accounted(s)
  }

  lemma ExecuteKeeps(s: State, p: nat)
    requires Inv(s) && p in s.procs
    ensures Inv(Execute(s, p))
  {
  }

  /** A step of one process that leaves row and successes alone and takes no new claim. */
  lemma OneMoves(s: State, p: nat, proc: Process)
    requires Inv(s) && WellStaged(proc) && Truthful(s, proc)
    requires Holds(proc) ==> p in s.procs && Holds(s.procs[p]) && s.procs[p].params == proc.params
    ensures Inv(At(s, p, proc))
  {
  }

  lemma SuccessKeeps(s: State, p: nat, response: Response)
    requires Inv(s) && p in s.procs && s.procs[p].stage.Calling?
    ensures Inv(Step(s, CallSucceeds(p, response)))
  {
    assert s.successes == [];
    assert Holds(s.procs[p]);
  }

  lemma StepKeeps(s: State, a: Action)
    requires Inv(s)
    ensures Inv(Step(s, a))
  {
    if Enabled(s, a) {
      match a
      case Arrive(p, params) => OneMoves(s, p, Process(params, Inserting(None), Insert));
      case Applied(p) => ExecuteKeeps(s, p);
      case CallSucceeds(p, response) => SuccessKeeps(s, p, response);
      case _ => OneMoves(s, a.p, Step(s, a).procs[a.p]);
    }
  }

  lemma {:induction false} AlwaysInv(ss: seq<State>, acts: seq<Action>, n: nat)
    requires IsRun(ss, acts) && IsInitial(ss[0]) && n <= |acts|
    ensures Inv(ss[n])
  {
    if n > 0 {
      AlwaysInv(ss, acts, n - 1);
      StepKeeps(ss[n - 1], acts[n - 1]);
    }
  }

  // ----- what callers are promised

  /** Under every interleaving, failure and crash: two issuer calls for the key never overlap, and while
      one is under way the claim row stands in its name, so no request with other parameters is calling. */
  lemma CallsNeverOverlap(ss: seq<State>, acts: seq<Action>, n: nat, p: nat, q: nat)
    requires IsRun(ss, acts) && IsInitial(ss[0]) && n <= |acts|
    requires p in ss[n].procs && ss[n].procs[p].stage.Calling?
    ensures ss[n].row == Some(Row(ss[n].procs[p].params, None)) && ss[n].successes == []
    ensures q in ss[n].procs && ss[n].procs[q].stage.Calling? ==> p == q
  {
    AlwaysInv(ss, acts, n);
  }

  /** At most one issuer call ever succeeds, and everyone who is given a result, replayed or not, asked
      for that success's parameters and is given its result. */
  lemma OneSuccess(ss: seq<State>, acts: seq<Action>, n: nat, p: nat)
    requires IsRun(ss, acts) && IsInitial(ss[0]) && n <= |acts|
    ensures |ss[n].successes| <= 1
    ensures p in ss[n].procs && ss[n].procs[p].stage.Finished? && ss[n].procs[p].stage.outcome.Returned? ==>
              ss[n].successes == [Success(ss[n].procs[p].params, ss[n].procs[p].stage.outcome.result)]
  {
    AlwaysInv(ss, acts, n);
  }

  lemma {:induction false} SuccessStays(ss: seq<State>, acts: seq<Action>, m: nat, n: nat)
    requires IsRun(ss, acts) && IsInitial(ss[0]) && m <= n <= |acts| && ss[m].successes != []
    ensures ss[n].successes == ss[m].successes
    decreases n
  {
    if m < n {
      SuccessStays(ss, acts, m, n - 1);
      AlwaysInv(ss, acts, n - 1);
    }
  }

  /** After a success the issuer is never called again, even when storing the result failed: the claim
      row stays, so every later request is answered from it. */
  lemma NoCallAfterSuccess(ss: seq<State>, acts: seq<Action>, m: nat, n: nat, p: nat)
    requires IsRun(ss, acts) && IsInitial(ss[0]) && m <= n <= |acts| && ss[m].successes != []
    ensures ss[n].row.Some? && ss[n].row.value.params == ss[m].successes[0].params
    ensures p in ss[n].procs ==> !ss[n].procs[p].stage.Calling?
  {
    SuccessStays(ss, acts, m, n);
    AlwaysInv(ss, acts, n);
  }

  /** What a request reading the row after a success is told: the result if it is stored, a conflict
      until then, a refusal if it asks for anything else. */
  lemma AnsweredAfterSuccess(ss: seq<State>, acts: seq<Action>, m: nat, n: nat)
    requires IsRun(ss, acts) && IsInitial(ss[0]) && m <= n < |acts| && ss[m].successes != []
    requires acts[n].SelectAnswered? && Enabled(ss[n], acts[n])
    ensures ss[n].row.Some?
    ensures var asked := ss[n].procs[acts[n].p].params;
            var Success(params, response) := ss[m].successes[0];
            acts[n].p in ss[n + 1].procs &&
            ss[n + 1].procs[acts[n].p].stage ==
              Finished(if asked != params then KeyReused
                       else if ss[n].row.value.response.None? then InFlight
                       else Returned(response, true))
  {
    SuccessStays(ss, acts, m, n);
    AlwaysInv(ss, acts, n);
  }

  ghost predicate NobodyHolds(s: State) {
    forall p | p in s.procs :: !Holds(s.procs[p])
  }

  /** A failed call whose claim was released leaves the key as if it had never been used. */
  lemma ReleasedKeyIsFree(ss: seq<State>, acts: seq<Action>, n: nat)
    requires IsRun(ss, acts) && IsInitial(ss[0]) && n < |acts|
    requires acts[n].Applied? && Enabled(ss[n], acts[n]) && ss[n].procs[acts[n].p].sent.Delete?
    ensures ss[n + 1].row == None && ss[n + 1].successes == []
    ensures NobodyHolds(ss[n + 1])
  {
    AlwaysInv(ss, acts, n);
    AlwaysInv(ss, acts, n + 1);
  }

  // ----- one request that nobody interrupts

  datatype CallResult = Succeeds(response: Response) | Throws

  /** Uninterrupted, a request that finds the key free ends with the answer stored or the claim released,
      and one that finds it taken is answered from the row and changes nothing. */
  lemma Uninterrupted(s: State, p: nat, params: Params, call: CallResult)
    requires p !in s.procs
    ensures var s1 := Step(Step(Step(s, Arrive(p, params)), Applied(p)), InsertAnswered(p));
            var s2 := match call
                      case Succeeds(response) => Step(Step(Step(s1, CallSucceeds(p, response)), Applied(p)), Settled(p))
                      case Throws => Step(Step(Step(s1, CallFails(p)), Applied(p)), Settled(p));
            var s3 := Step(s1, SelectAnswered(p));
            p in s2.procs && p in s3.procs &&
            if s.row.None?
            then s2.row == (if call.Succeeds? then Some(Row(params, Some(call.response))) else None)
                 && s2.procs[p].stage == Finished(if call.Succeeds? then Returned(call.response, false) else IssuerError)
            else s3.row == s.row && s3.procs[p].stage == Read(s.row, Process(params, Selecting, Nothing)).stage
  {
  }

  /** Each field tells whether that statement goes through. */
  datatype Weather = Weather(insertWorks: bool, selectWorks: bool, deleteWorks: bool, updateWorks: bool)

  class ClaimTable {
    var row: Option<Row>

    constructor ()
      ensures row == None
    {
      row := None;
    }

    /** Inserts the claim unless the key is taken; true when it did. */
    method Claim(params: Params) returns (claimed: bool)
      modifies this
      ensures claimed == old(row).None?
      ensures row == if claimed then Some(Row(params, None)) else old(row)
    {
      claimed := row.None?;
      if claimed { row := Some(Row(params, None)); }
    }

    /** `runIdempotent` from start to end, when no other request touches the row in between. `called`
        tells whether the issuer was called. */
    method Run(params: Params, call: CallResult, works: Weather) returns (outcome: Outcome, called: bool)
      modifies this
      ensures called <==> works.insertWorks && old(row).None?
      ensures called && call.Succeeds? ==>
                outcome == Returned(call.response, false)
                && row == Some(Row(params, if works.updateWorks then Some(call.response) else None))
      ensures called && call.Throws? ==>
                outcome == IssuerError && row == if works.deleteWorks then None else Some(Row(params, None))
      ensures !called ==> row == old(row)
      ensures !called && !(works.insertWorks && works.selectWorks) ==> outcome == StorageError
      ensures !called && works.insertWorks && works.selectWorks ==>
                Finished(outcome) == Read(row, Process(params, Selecting, Nothing)).stage
    {
      called := false;
      if !works.insertWorks { return StorageError, called; }
      var claimed := Claim(params);
      if !claimed {
        if !works.selectWorks { return StorageError, called; }
        var existing := row.value;
        if existing.params != params { return KeyReused, called; }
        if existing.response.None? { return InFlight, called; }
        return Returned(existing.response.value, true), called;
      }
      called := true;
      if call.Throws? {
        if works.deleteWorks { row := None; }
        return IssuerError, called;
      }
      if works.updateWorks { row := Some(row.value.(response := Some(call.response))); }
      return Returned(call.response, false), called;
    }
  }
}
