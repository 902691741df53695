/** Runs of the repo contract that show what its theorems leave out does happen: a funded borrower's matured
    trade that nobody else can collect, and a tracked due with no open trade behind it. */
module RepoWitness {
  import opened Prelude
  import opened Tokens
  import opened Risk
  import opened RepoSpec
  import opened RepoAllowance
  import RepoDue

  const SELF: Address := 0
  const KEEPER: Address := 1
  const LENDER: Address := 2
  const BORROWER: Address := 3
  const OTHER: Address := 4
  const ASSET: Address := 5
  const USDC: Address := 6
  const MATURITY: nat := 100

  /** Each borrower owns one unit; the first lender and the borrower who will lend each own the cash. */
  function Genesis(cash: nat): World {
    var units := Token(map[BORROWER := 1, OTHER := 1], map[]);
    var money := Token(map[LENDER := cash, BORROWER := cash], map[]);
    World(Host(SELF, KEEPER, 3_110_400), EMPTY_STORAGE, map[ASSET := units, USDC := money], 0, 0)
  }

  function SetUp(): Action {
    DoConfigure(ASSET, AssetConfig(0, Thresholds(7_000, 8_000, 9_000)))
  }

  function Lend(lender: Address, borrower: Address, cash: nat): Action {
    DoPropose(lender, borrower, ASSET, 1, cash, 0, Term, MATURITY)
  }

  function Proposal(lender: Address, borrower: Address, cash: nat): Trade {
    Trade(lender, borrower, ASSET, 1, cash, 0, Term, MATURITY, 0, Proposed, None, None, false, 0, None)
  }

  function SettledTrade(lender: Address, borrower: Address, cash: nat): Trade {
    Proposal(lender, borrower, cash).(status := Settled, leg1Ledger := Some(0), settledAt := Some(0))
  }

  /** The contract is configured and no time has passed. */
  predicate Open(w: World) {
    && w.host == Host(SELF, KEEPER, 3_110_400) && w.now == 0 && w.ledger == 0
    && w.repo.usdc == Some(USDC) && ASSET in w.repo.configs && w.repo.disabled == {} && !w.repo.paused
    && w.repo.maturityGrace == None && ASSET in w.bank && USDC in w.bank
  }

  /** The steps, none signed by the contract itself, lead from genesis to `w`. */
  ghost predicate Leads(ws: seq<World>, acts: seq<Action>, w: World) {
    && |ws| == |acts| + 1 && IsRun(ws, acts) && IsGenesis(ws[0]) && ws[|acts|] == w
    && forall a | a in acts :: Authorised(Host(SELF, KEEPER, 3_110_400), a)
  }

  lemma Extends(ws: seq<World>, acts: seq<Action>, w: World, a: Action, w': World) returns (ws': seq<World>, acts': seq<Action>)
    requires Leads(ws, acts, w) && w' == Step(w, a) && Authorised(Host(SELF, KEEPER, 3_110_400), a)
    ensures Leads(ws', acts', w')
  {
    ws', acts' := ws + [w'], acts + [a];
    forall i | 0 <= i < |acts'|
      ensures ws'[i + 1] == Step(ws'[i], acts'[i])
    {
      if i < |acts| {
        assert ws'[i] == ws[i] && ws'[i + 1] == ws[i + 1] && acts'[i] == acts[i];
      }
    }
  }

  /** At a rate of zero a trade owes exactly its cash. */
  lemma NoInterest(t: Trade, from: nat)
    requires t.rateBps == 0
    ensures TotalDue(t, from) == t.cash
  {
    assert t.cash * 0 * SatSub(t.maturityAt, from) == 0;
  }

  lemma Proposes(w: World, lender: Address, borrower: Address, cash: nat)
    requires Open(w) && cash > 0
    ensures Apply(w, Lend(lender, borrower, cash)).Done?
    ensures var w' := Step(w, Lend(lender, borrower, cash));
            && Open(w') && w'.repo.nextId == w.repo.nextId + 1
            && w'.repo.trades == w.repo.trades[w.repo.nextId := Proposal(lender, borrower, cash)]
            && w'.repo.due == w.repo.due && Granted(w', USDC, lender).amount == cash
            && forall t, who :: BalanceOf(w'.bank, t, who) == BalanceOf(w.bank, t, who)
  {
    ExpiryIsABucket(0, 3_110_400, MATURITY, 0);
  }

  /** `borrower` owes nothing yet, and both legs of the trade are there to be moved. */
  predicate CanSettle(w: World, id: nat, lender: Address, borrower: Address, cash: nat) {
    && Open(w) && cash > 0 && id in w.repo.trades && w.repo.trades[id] == Proposal(lender, borrower, cash)
    && lender != borrower && lender != SELF && borrower != SELF
    && DueOf(w.repo, borrower) == 0 && DueExpiryOf(w.repo, borrower) == 0
    && BalanceOf(w.bank, ASSET, borrower) >= 1 && BalanceOf(w.bank, USDC, lender) >= cash
    && Granted(w, USDC, lender).amount >= cash
  }

  lemma SettlementWorks(w: World, id: nat, lender: Address, borrower: Address, cash: nat)
    requires CanSettle(w, id, lender, borrower, cash)
    ensures AcceptAndSettle(w, borrower, id).Done?
  {
    var t := w.repo.trades[id];
    NoInterest(t, 0);
    ExpiryIsABucket(0, 3_110_400, MATURITY, UNWIND_GRACE_LEDGERS);
    var escrowed := Transfer(w.bank, ASSET, borrower, SELF, 1);
    assert escrowed.Done? && TransferFrom(escrowed.value, USDC, SELF, lender, borrower, cash, 0).Done?;
  }

  /** What settling the proposal leaves. */
  ghost predicate SettledTo(w: World, w': World, id: nat, lender: Address, borrower: Address, cash: nat) {
    && Open(w') && w'.repo.nextId == w.repo.nextId
    && w'.repo.trades == w.repo.trades[id := SettledTrade(lender, borrower, cash)]
    && DueOf(w'.repo, borrower) == cash
    && (forall x | x != borrower :: DueOf(w'.repo, x) == DueOf(w.repo, x) && DueExpiryOf(w'.repo, x) == DueExpiryOf(w.repo, x))
    && Granted(w', USDC, lender).amount == Granted(w, USDC, lender).amount - cash
    && (forall t, who :: BalanceOf(w'.bank, t, who) == BalanceOf(w.bank, t, who)
          + (if t == ASSET then Delta(borrower, SELF, 1, who) else 0)
          + (if t == USDC then Delta(lender, borrower, cash, who) else 0))
  }

  lemma Accepts(w: World, id: nat, lender: Address, borrower: Address, cash: nat)
    requires CanSettle(w, id, lender, borrower, cash)
    ensures SettledTo(w, Step(w, DoAccept(borrower, id)), id, lender, borrower, cash)
  {
    SettlementWorks(w, id, lender, borrower, cash);
    Settles(w, AcceptAndSettle(w, borrower, id).value, id, lender, borrower, cash);
  }

  lemma Settles(w: World, w': World, id: nat, lender: Address, borrower: Address, cash: nat)
    requires CanSettle(w, id, lender, borrower, cash) && AcceptAndSettle(w, borrower, id) == Done(w')
    ensures SettledTo(w, w', id, lender, borrower, cash)
  {
    AcceptedStorage(w, id, lender, borrower, cash);
    RepoEscrow.SettleExchanges(w, borrower, id);
    SettlingSpendsAllowance(w, USDC, lender, borrower, id);
  }

  lemma AcceptedStorage(w: World, id: nat, lender: Address, borrower: Address, cash: nat)
    requires CanSettle(w, id, lender, borrower, cash) && AcceptAndSettle(w, borrower, id).Done?
    ensures var w' := AcceptAndSettle(w, borrower, id).value;
            && Open(w') && w'.repo.nextId == w.repo.nextId
            && w'.repo.trades == w.repo.trades[id := SettledTrade(lender, borrower, cash)]
            && DueOf(w'.repo, borrower) == cash
            && forall x | x != borrower :: DueOf(w'.repo, x) == DueOf(w.repo, x) && DueExpiryOf(w'.repo, x) == DueExpiryOf(w.repo, x)
  {
    NoInterest(w.repo.trades[id], 0);
    RepoEscrow.SettleStorage(w, borrower, id);
    SettledStaysOpen(w, id, borrower, cash);
  }

  lemma SettledStaysOpen(w: World, id: nat, borrower: Address, cash: nat)
    requires Open(w) && AcceptAndSettle(w, borrower, id).Done? && cash > 0
    requires DueOf(w.repo, borrower) == 0 && TotalDue(w.repo.trades[id], w.repo.trades[id].proposedAt) == cash
    ensures var w' := AcceptAndSettle(w, borrower, id).value;
            && Open(w') && DueOf(w'.repo, borrower) == cash
            && forall x | x != borrower :: DueOf(w'.repo, x) == DueOf(w.repo, x) && DueExpiryOf(w'.repo, x) == DueExpiryOf(w.repo, x)
  {
  }

  // ----- a matured trade nobody but its borrower can close

  /** Configured, nothing proposed, and everybody's opening balances. */
  predicate Ready(w: World, cash: nat) {
    && Open(w) && w.repo.trades == map[] && w.repo.nextId == 0 && w.repo.due == map[] && w.repo.dueExpiry == map[]
    && BalanceOf(w.bank, ASSET, BORROWER) == 1 && BalanceOf(w.bank, ASSET, OTHER) == 1 && BalanceOf(w.bank, ASSET, SELF) == 0
    && BalanceOf(w.bank, USDC, LENDER) == cash && BalanceOf(w.bank, USDC, BORROWER) == cash
  }

  /** The borrower's own trade has settled. */
  predicate Borrowed(w: World, cash: nat) {
    && Open(w) && w.repo.trades == map[0 := SettledTrade(LENDER, BORROWER, cash)] && w.repo.nextId == 1
    && DueOf(w.repo, BORROWER) == cash && DueOf(w.repo, OTHER) == 0 && DueExpiryOf(w.repo, OTHER) == 0
    && BalanceOf(w.bank, ASSET, OTHER) == 1 && BalanceOf(w.bank, ASSET, SELF) == 1
    && BalanceOf(w.bank, USDC, BORROWER) == 2 * cash
  }

  /** And it has lent its cash on. */
  predicate Lent(w: World, cash: nat) {
    && Open(w) && 0 in w.repo.trades && w.repo.trades[0] == SettledTrade(LENDER, BORROWER, cash)
    && Granted(w, USDC, BORROWER).amount == 0 && DueOf(w.repo, BORROWER) == cash
    && BalanceOf(w.bank, USDC, BORROWER) == cash && BalanceOf(w.bank, ASSET, SELF) == 2
  }

  lemma Begins(cash: nat) returns (ws: seq<World>, acts: seq<Action>, w: World)
    ensures Leads(ws, acts, w) && Ready(w, cash)
  {
    var w0 := Genesis(cash);
    assert Leads([w0], [], w0);
    var w1 := Step(w0, SetUp());
    ws, acts := Extends([w0], [], w0, SetUp(), w1);
    w := Step(w1, DoSetUsdc(USDC));
    ws, acts := Extends(ws, acts, w1, DoSetUsdc(USDC), w);
  }

  lemma Borrows(cash: nat) returns (ws: seq<World>, acts: seq<Action>, w: World)
    requires cash > 0
    ensures Leads(ws, acts, w) && Borrowed(w, cash)
  {
    var w0, w1;
    ws, acts, w0 := Begins(cash);
    w1, w := BorrowSteps(w0, cash);
    ws, acts := Extends(ws, acts, w0, Lend(LENDER, BORROWER, cash), w1);
    ws, acts := Extends(ws, acts, w1, DoAccept(BORROWER, 0), w);
  }

  lemma BorrowSteps(w: World, cash: nat) returns (w': World, w'': World)
    requires cash > 0 && Ready(w, cash)
    ensures w' == Step(w, Lend(LENDER, BORROWER, cash)) && w'' == Step(w', DoAccept(BORROWER, 0)) && Borrowed(w'', cash)
  {
    Proposes(w, LENDER, BORROWER, cash);
    ProposeKeepsExpiries(w, LENDER, BORROWER, cash);
    w' := Step(w, Lend(LENDER, BORROWER, cash));
    Accepts(w', 0, LENDER, BORROWER, cash);
    w'' := Step(w', DoAccept(BORROWER, 0));
  }

  lemma LendSteps(w: World, cash: nat) returns (w': World, w'': World)
    requires cash > 0 && Borrowed(w, cash)
    ensures w' == Step(w, Lend(BORROWER, OTHER, cash)) && w'' == Step(w', DoAccept(OTHER, 1)) && Lent(w'', cash)
  {
    Proposes(w, BORROWER, OTHER, cash);
    ProposeKeepsExpiries(w, BORROWER, OTHER, cash);
    w' := Step(w, Lend(BORROWER, OTHER, cash));
    Accepts(w', 1, BORROWER, OTHER, cash);
    w'' := Step(w', DoAccept(OTHER, 1));
  }

  lemma ProposeKeepsExpiries(w: World, lender: Address, borrower: Address, cash: nat)
    ensures Step(w, Lend(lender, borrower, cash)).repo.dueExpiry == w.repo.dueExpiry
  {
  }

  /** The borrower has the money and may unwind; neither the lender nor the keeper can. */
  predicate Stranded(w: World, cash: nat) {
    && 0 in w.repo.trades && w.repo.trades[0] == SettledTrade(LENDER, BORROWER, cash) && w.now >= MATURITY
    && TotalDue(w.repo.trades[0], 0) == cash && BalanceOf(w.bank, USDC, BORROWER) >= cash
    && DueOf(w.repo, BORROWER) == cash
    && Unwind(w, LENDER, 0).Revert? && Unwind(w, KEEPER, 0).Revert? && Unwind(w, BORROWER, 0).Done?
  }

  lemma StrandedAtMaturity(w: World, cash: nat) returns (w': World)
    requires cash > 0 && Lent(w, cash)
    ensures w' == Step(w, Elapse(MATURITY, 20)) && Stranded(w', cash)
  {
    w' := Step(w, Elapse(MATURITY, 20));
    NoInterest(w'.repo.trades[0], 0);
    UnwindNeedsExactly(w', USDC, LENDER, 0);
    UnwindNeedsExactly(w', USDC, KEEPER, 0);
    OwnUnwindWorks(w', cash);
  }

  lemma OwnUnwindWorks(w: World, cash: nat)
    requires cash > 0 && 0 in w.repo.trades && w.repo.trades[0] == SettledTrade(LENDER, BORROWER, cash)
    requires w.host.self == SELF && w.now >= MATURITY && w.repo.usdc == Some(USDC) && USDC in w.bank && ASSET in w.bank
    requires TotalDue(w.repo.trades[0], 0) == cash
    requires BalanceOf(w.bank, USDC, BORROWER) == cash && BalanceOf(w.bank, ASSET, SELF) == 2
    ensures Unwind(w, BORROWER, 0).Done?
  {
    var paid := Transfer(w.bank, USDC, BORROWER, LENDER, cash);
    assert paid.Done? && BalanceOf(paid.value, ASSET, SELF) == 2;
    assert Transfer(paid.value, ASSET, SELF, BORROWER, 1).Done?;
  }

  /** A run from genesis, for any amount, in which a borrower lends its cash on: its own matured trade can
      then be closed by nobody but itself, although it has the money to pay. */
  lemma LendingStrandsATrade(cash: nat) returns (ws: seq<World>, acts: seq<Action>, w: World)
    requires cash > 0
    ensures Leads(ws, acts, w) && Stranded(w, cash)
  {
    var w0;
    ws, acts, w0 := Borrows(cash);
    var w1, w2 := LendSteps(w0, cash);
    w := StrandedAtMaturity(w2, cash);
    ws, acts := Extends(ws, acts, w0, Lend(BORROWER, OTHER, cash), w1);
    ws, acts := Extends(ws, acts, w1, DoAccept(OTHER, 1), w2);
    ws, acts := Extends(ws, acts, w2, Elapse(MATURITY, 20), w);
  }

  // ----- a tracked due with nothing behind it

  /** Left unpaid past its grace, the trade can be defaulted on. */
  predicate Unpaid(w: World, cash: nat) {
    && w.host == Host(SELF, KEEPER, 3_110_400) && w.now == MATURITY + DEFAULT_GRACE_SECONDS && w.repo.maturityGrace == None
    && w.repo.trades == map[0 := SettledTrade(LENDER, BORROWER, cash)] && DueOf(w.repo, BORROWER) == cash
    && w.repo.usdc == Some(USDC) && ASSET in w.repo.configs && ASSET in w.bank && BalanceOf(w.bank, ASSET, SELF) == 1
  }

  lemma PassesGrace(w: World, cash: nat) returns (w': World)
    requires Borrowed(w, cash)
    ensures w' == Step(w, Elapse(MATURITY + DEFAULT_GRACE_SECONDS, 20)) && Unpaid(w', cash)
  {
    w' := Step(w, Elapse(MATURITY + DEFAULT_GRACE_SECONDS, 20));
  }

  lemma DefaultsAtMaturity(w: World, cash: nat) returns (w': World)
    requires cash > 0 && Unpaid(w, cash)
    ensures w' == Step(w, DoDefaultAtMaturity(KEEPER, 0, Quote(PRICE_SCALE, Ok)))
    ensures DueOf(w'.repo, BORROWER) == cash
    ensures w'.repo.trades == map[0 := SettledTrade(LENDER, BORROWER, cash).(status := Defaulted)]
  {
    NoInterest(w.repo.trades[0], 0);
    assert LenderUnits(cash, PRICE_SCALE, 1) == 1;
    assert PayOut(w, w.repo.trades[0], 1).Done?;
    w' := Step(w, DoDefaultAtMaturity(KEEPER, 0, Quote(PRICE_SCALE, Ok)));
  }

  lemma NothingClaimed(w: World, b: Address)
    requires forall id | id in w.repo.trades :: !w.repo.trades[id].status.Settled?
    ensures Claimed(w, b) == 0
  {
    SumZero(Claims(w, b));
  }

  /** A run from genesis, for any amount, after which a borrower with no open trade at all is still tracked
      as owing the whole amount: the next settlement will ask it to approve that much more than it owes. */
  lemma DefaultLeavesDueBehind(cash: nat) returns (ws: seq<World>, acts: seq<Action>, w: World)
    requires cash > 0
    ensures Leads(ws, acts, w)
    ensures Claimed(w, BORROWER) == 0 && DueOf(w.repo, BORROWER) == cash
    ensures RepoDue.Stuck(ws, acts, |acts|, BORROWER) == cash
  {
    var w0;
    ws, acts, w0 := Borrows(cash);
    var w1 := PassesGrace(w0, cash);
    w := DefaultsAtMaturity(w1, cash);
    ws, acts := Extends(ws, acts, w0, Elapse(MATURITY + DEFAULT_GRACE_SECONDS, 20), w1);
    ws, acts := Extends(ws, acts, w1, DoDefaultAtMaturity(KEEPER, 0, Quote(PRICE_SCALE, Ok)), w);
    NothingClaimed(w, BORROWER);
    RepoDue.DueIsExact(ws, acts, |acts|, BORROWER);
  }
}
