/** The life of a repo trade over every run: its terms never change, its status only moves forward, and
    it settles at most once and closes at most once, in one way. */
module RepoLifecycle {
  import opened Prelude
  import opened Risk
  import opened RepoSpec
  import RepoEscrow
  import RepoMargin

  predicate TermsKept(t: Trade, t': Trade) {
    && t'.lender == t.lender && t'.borrower == t.borrower && t'.asset == t.asset && t'.cash == t.cash
    && t'.rateBps == t.rateBps && t'.kind == t.kind && t'.maturityAt == t.maturityAt && t'.proposedAt == t.proposedAt
  }

  predicate Final(t: Trade) {
    t.status.Unwound? || t.status.Defaulted? || t.status.Cancelled?
  }

  /** What may become of a trade, in any number of steps: collateral is only ever added, and only between
      settlement and closing; the settlement time is fixed once; a final trade never changes. */
  predicate Follows(t: Trade, t': Trade) {
    && TermsKept(t, t')
    && (Final(t) ==> t' == t)
    && (t.status.Settled? ==> t'.status.Settled? || t'.status.Unwound? || t'.status.Defaulted?)
    && (t.status.Settled? ==> t'.units >= t.units && t'.settledAt == t.settledAt && t'.leg1Ledger == t.leg1Ledger)
    && (t.status.Proposed? ==> t'.units >= t.units && (t'.status.Proposed? || t'.status.Cancelled? ==> t'.units == t.units))
  }

  lemma FollowsOn(t: Trade, t': Trade, t'': Trade)
    requires Follows(t, t') && Follows(t', t'')
    ensures Follows(t, t'')
  {
  }

  ghost predicate AllFollow(w: World, w': World) {
    && w.repo.nextId <= w'.repo.nextId
    && (forall id | id in w.repo.trades :: id in w'.repo.trades && Follows(w.repo.trades[id], w'.repo.trades[id]))
    && (forall id | id in w'.repo.trades && id !in w.repo.trades :: id < w'.repo.nextId && w'.repo.trades[id].status.Proposed?)
  }

  lemma RewriteFollows(w: World, w': World, id: nat)
    requires w'.repo.nextId == w.repo.nextId
    requires id in w.repo.trades && id in w'.repo.trades && w'.repo.trades == w.repo.trades[id := w'.repo.trades[id]]
    requires Follows(w.repo.trades[id], w'.repo.trades[id])
    ensures AllFollow(w, w')
  {
    forall j | j in w.repo.trades
      ensures j in w'.repo.trades && Follows(w.repo.trades[j], w'.repo.trades[j])
    {
      assert j != id ==> w'.repo.trades[j] == w.repo.trades[j];
    }
  }

  lemma ProposeFollows(w: World, a: Action)
    requires a.DoPropose? && Apply(w, a).Done? && w.repo.nextId !in w.repo.trades
    ensures AllFollow(w, Apply(w, a).value)
  {
  }

  lemma CancelFollows(w: World, caller: Address, id: nat)
    requires CancelProposal(w, caller, id).Done?
    ensures AllFollow(w, CancelProposal(w, caller, id).value)
  {
    RewriteFollows(w, CancelProposal(w, caller, id).value, id);
  }

  lemma SettleFollows(w: World, b: Address, id: nat)
    requires AcceptAndSettle(w, b, id).Done?
    ensures AllFollow(w, AcceptAndSettle(w, b, id).value)
  {
    RepoEscrow.SettleStorage(w, b, id);
    RewriteFollows(w, AcceptAndSettle(w, b, id).value, id);
  }

  lemma UnwindFollows(w: World, caller: Address, id: nat)
    requires Unwind(w, caller, id).Done?
    ensures AllFollow(w, Unwind(w, caller, id).value)
  {
    RepoEscrow.UnwindStorage(w, caller, id);
    RewriteFollows(w, Unwind(w, caller, id).value, id);
  }

  lemma CallFollows(w: World, id: nat, q: Quote)
    requires CallMargin(w, id, q).Done?
    ensures AllFollow(w, CallMargin(w, id, q).value)
  {
    RepoEscrow.CallMarginStorage(w, id, q);
    RewriteFollows(w, CallMargin(w, id, q).value, id);
  }

  lemma TopUpFollows(w: World, b: Address, id: nat, extra: int, q: Quote)
    requires TopUp(w, b, id, extra, q).Done?
    ensures AllFollow(w, TopUp(w, b, id, extra, q).value)
  {
    RepoEscrow.TopUpStorage(w, b, id, extra, q);
    RewriteFollows(w, TopUp(w, b, id, extra, q).value, id);
  }

  lemma DefaultCloseFollows(w: World, id: nat, q: Quote)
    requires DefaultClose(w, id, q).Done?
    ensures AllFollow(w, DefaultClose(w, id, q).value)
  {
    RepoEscrow.DefaultCloseStorage(w, id, q);
    RewriteFollows(w, DefaultClose(w, id, q).value, id);
  }

  lemma DefaultAtMaturityFollows(w: World, caller: Address, id: nat, q: Quote)
    requires DefaultAtMaturity(w, caller, id, q).Done?
    ensures AllFollow(w, DefaultAtMaturity(w, caller, id, q).value)
  {
    RewriteFollows(w, DefaultAtMaturity(w, caller, id, q).value, id);
  }

  lemma StepFollows(w: World, a: Action)
    requires w.repo.nextId !in w.repo.trades
    ensures AllFollow(w, Step(w, a))
  {
    if Apply(w, a).Done? {
      match a
      case DoPropose(_, _, _, _, _, _, _, _) => ProposeFollows(w, a);
      case DoCancel(caller, id) => CancelFollows(w, caller, id);
      case DoAccept(b, id) => SettleFollows(w, b, id);
      case DoUnwind(caller, id) => UnwindFollows(w, caller, id);
      case DoCallMargin(id, q) => CallFollows(w, id, q);
      case DoTopUp(b, id, extra, q) => TopUpFollows(w, b, id, extra, q);
      case DoDefaultClose(id, q) => DefaultCloseFollows(w, id, q);
      case DoDefaultAtMaturity(caller, id, q) => DefaultAtMaturityFollows(w, caller, id, q);
      case _ => OtherFollows(w, a);
    }
  }

  lemma OtherFollows(w: World, a: Action)
    requires MovesNoTrade(a) && Apply(w, a).Done?
    ensures AllFollow(w, Apply(w, a).value)
  {
    assert Apply(w, a).value.repo.trades == w.repo.trades;
  }

  /** Between any two moments of a run, every trade there was is still there and has only moved forward. */
  lemma {:induction false} TradesMoveForward(ws: seq<World>, acts: seq<Action>, m: nat, n: nat, id: nat)
    requires IsRun(ws, acts) && m <= n <= |acts| && IsGenesis(ws[0]) && id in ws[m].repo.trades
    ensures id in ws[n].repo.trades && Follows(ws[m].repo.trades[id], ws[n].repo.trades[id])
    decreases n
  {
    if m < n {
      TradesMoveForward(ws, acts, m, n - 1, id);
      RepoMargin.GraceNeverShort(ws, acts, n - 1);
      StepFollows(ws[n - 1], acts[n - 1]);
      FollowsOn(ws[m].repo.trades[id], ws[n - 1].repo.trades[id], ws[n].repo.trades[id]);
    }
  }

  /** The transactions that close a trade. */
  predicate Closes(a: Action, id: nat) {
    || (a.DoUnwind? && a.id == id) || (a.DoDefaultClose? && a.id == id) || (a.DoDefaultAtMaturity? && a.id == id)
    || (a.DoCancel? && a.id == id)
  }

  lemma ClosingIsFinal(w: World, a: Action, id: nat)
    requires Closes(a, id) && Apply(w, a).Done?
    ensures id in Apply(w, a).value.repo.trades && Final(Apply(w, a).value.repo.trades[id])
  {
    match a
    case DoUnwind(caller, _) => RepoEscrow.UnwindStorage(w, caller, id);
    case DoDefaultClose(_, q) => RepoEscrow.DefaultCloseStorage(w, id, q);
    case _ =>
  }

  lemma FinalRefuses(w: World, a: Action, id: nat)
    requires id in w.repo.trades && Final(w.repo.trades[id])
    requires Closes(a, id) || (a.DoAccept? && a.id == id) || (a.DoTopUp? && a.id == id) || (a.DoCallMargin? && a.id == id)
    ensures Apply(w, a).Revert?
  {
  }

  /** A trade closes once: after an unwind, a default or a cancellation no transaction on it ever succeeds
      again, so its collateral is paid out at most once. */
  lemma ClosesOnce(ws: seq<World>, acts: seq<Action>, m: nat, n: nat, id: nat)
    requires IsRun(ws, acts) && m < n < |acts| && IsGenesis(ws[0])
    requires Closes(acts[m], id) && Apply(ws[m], acts[m]).Done?
    requires Closes(acts[n], id) || (acts[n].DoAccept? && acts[n].id == id)
             || (acts[n].DoTopUp? && acts[n].id == id) || (acts[n].DoCallMargin? && acts[n].id == id)
    ensures Apply(ws[n], acts[n]).Revert?
  {
    ClosingIsFinal(ws[m], acts[m], id);
    TradesMoveForward(ws, acts, m + 1, n, id);
    FinalRefuses(ws[n], acts[n], id);
  }

  lemma AcceptSettles(w: World, b: Address, id: nat)
    requires AcceptAndSettle(w, b, id).Done?
    ensures id in AcceptAndSettle(w, b, id).value.repo.trades
    ensures AcceptAndSettle(w, b, id).value.repo.trades[id].status.Settled?
    ensures id in w.repo.trades && w.repo.trades[id].status.Proposed?
  {
    RepoEscrow.SettleStorage(w, b, id);
  }

  /** A trade settles at most once. */
  lemma SettlesOnce(ws: seq<World>, acts: seq<Action>, m: nat, n: nat, id: nat, b: Address, b': Address)
    requires IsRun(ws, acts) && m < n < |acts| && IsGenesis(ws[0])
    requires acts[m] == DoAccept(b, id) && AcceptAndSettle(ws[m], b, id).Done?
    ensures AcceptAndSettle(ws[n], b', id).Revert?
  {
    AcceptSettles(ws[m], b, id);
    TradesMoveForward(ws, acts, m + 1, n, id);
    if AcceptAndSettle(ws[n], b', id).Done? {
      AcceptSettles(ws[n], b', id);
    }
  }
}
