/** Runs of the exit desk that reach its limits: the bound on exits in a day-long interval, and an inventory
    of USDC that is not backed. */
module ExitWitness {
  import opened Prelude
  import opened Tokens
  import opened Risk
  import opened ExitDesk

  const DESK: Address := 0
  const ASSET: Address := 1
  const USDC: Address := 2
  const HOLDER: Address := 3

  /** The holder owns twice the cap, and the desk has USDC for it at a price of one. */
  function Funded(cap: nat): World {
    var tokens := map[ASSET := Token(map[HOLDER := 2 * cap], map[]), USDC := Token(map[DESK := 2 * cap], map[])];
    World(DESK, Storage(None, map[], {}, false, map[], map[]), tokens, 0, 0, 0)
  }

  /** One second before the end of the first day, with the desk set up. */
  function Opened(cap: nat): World {
    Funded(cap).(now := SECONDS_PER_DAY - 1,
                 storage := Storage(Some(USDC), map[ASSET := Config(0, cap, 2 * cap)], {}, false, map[], map[]))
  }

  function SetUp(cap: nat): Action {
    DoConfigure(ASSET, Config(0, cap, 2 * cap))
  }

  lemma OpensInThreeSteps(cap: nat)
    requires cap > 0
    ensures Step(Step(Step(Funded(cap), SetUp(cap)), DoSetUsdc(USDC)), Elapse(SECONDS_PER_DAY - 1, 0)) == Opened(cap)
    ensures CanExitCap(Opened(cap), cap)
  {
  }

  predicate CanExitCap(w: World, cap: nat) {
    && w.storage.configs == map[ASSET := Config(0, cap, 2 * cap)] && w.storage.usdc == Some(USDC)
    && w.storage.disabled == {} && !w.storage.paused && w.desk == DESK
    && DailyUsed(w.storage, HOLDER, ASSET, w.now / SECONDS_PER_DAY) == 0 && InventoryOf(w.storage, ASSET) <= cap
    && ASSET in w.bank && BalanceOf(w.bank, ASSET, HOLDER) >= cap
    && USDC in w.bank && BalanceOf(w.bank, USDC, DESK) >= cap
  }

  function CapExit(cap: nat): Action {
    DoExit(HOLDER, ASSET, cap, 0, HOLDER, Quote(PRICE_SCALE, Ok))
  }

  lemma CapExitWorks(w: World, cap: nat)
    requires cap > 0 && CanExitCap(w, cap)
    ensures Apply(w, CapExit(cap)).Done?
  {
    assert NetPrice(PRICE_SCALE, 0) == PRICE_SCALE;
    assert UsdcFor(cap, PRICE_SCALE) == cap;
  }

  /** A second later, on the next day, the same exit works again. */
  lemma CapExitWorksTomorrow(w: World, cap: nat)
    requires cap > 0 && w.now == SECONDS_PER_DAY - 1 && w.storage.daily == map[] && w.storage.inventory == map[]
    requires CanExitCap(w, cap) && BalanceOf(w.bank, ASSET, HOLDER) == 2 * cap && BalanceOf(w.bank, USDC, DESK) == 2 * cap
    ensures CanExitCap(Step(Step(w, CapExit(cap)), Elapse(1, 0)), cap)
  {
    CapExitWorks(w, cap);
    var w' := Step(w, CapExit(cap));
    ExitSwaps(w, HOLDER, ASSET, cap, 0, HOLDER, Quote(PRICE_SCALE, Ok));
    ExitCounts(w, HOLDER, ASSET, cap, 0, HOLDER, Quote(PRICE_SCALE, Ok));
    assert UsdcFor(cap, NetPrice(PRICE_SCALE, 0)) == cap;
    assert w'.bank.Keys == w.bank.Keys;
    assert Step(w', Elapse(1, 0)).now / SECONDS_PER_DAY == 1;
  }

  /** Six steps of which the fourth and the sixth exit the whole cap. */
  lemma SixSteps(ws: seq<World>, acts: seq<Action>, cap: nat)
    requires |acts| == 6 && |ws| == 7 && acts[3] == acts[5] == CapExit(cap)
    requires !acts[0].DoExit? && !acts[1].DoExit? && !acts[2].DoExit? && !acts[4].DoExit?
    requires ws[1] == Step(ws[0], acts[0]) && ws[2] == Step(ws[1], acts[1]) && ws[3] == Step(ws[2], acts[2])
    requires ws[4] == Step(ws[3], acts[3]) && ws[5] == Step(ws[4], acts[4]) && ws[6] == Step(ws[5], acts[5])
    requires ASSET in ws[3].storage.configs && ws[3].storage.configs[ASSET].dailyCap == cap
    requires ASSET in ws[5].storage.configs && ws[5].storage.configs[ASSET].dailyCap == cap
    ensures IsRun(ws, acts) && Capped(ws, acts, 6, HOLDER, ASSET, cap)
  {
    forall i | 0 <= i < 6
      ensures ws[i + 1] == Step(ws[i], acts[i])
    {
      if i == 0 {} else if i == 1 {} else if i == 2 {} else if i == 3 {} else if i == 4 {} else {}
    }
    forall i | 0 <= i < 6 && ExitsAt(ws, acts, i, HOLDER, ASSET)
      ensures i == 3 || i == 5
    {
    }
  }

  lemma TwoExitsCount(ws: seq<World>, acts: seq<Action>, cap: nat)
    requires |acts| == 6 && |ws| == 7 && acts[3] == acts[5] == CapExit(cap)
    requires !acts[0].DoExit? && !acts[1].DoExit? && !acts[2].DoExit? && !acts[4].DoExit?
    requires Apply(ws[3], acts[3]).Done? && Apply(ws[5], acts[5]).Done?
    requires ws[3].now == SECONDS_PER_DAY - 1 && ws[5].now == SECONDS_PER_DAY
    ensures ExitedBetween(ws, acts, 6, HOLDER, ASSET, SECONDS_PER_DAY - 1, SECONDS_PER_DAY) == 2 * cap
  {
    var lo, hi := SECONDS_PER_DAY - 1, SECONDS_PER_DAY;
    assert ExitedBetween(ws, acts, 1, HOLDER, ASSET, lo, hi) == 0;
    assert ExitedBetween(ws, acts, 2, HOLDER, ASSET, lo, hi) == 0;
    assert ExitedBetween(ws, acts, 3, HOLDER, ASSET, lo, hi) == 0;
    assert ExitedBetween(ws, acts, 4, HOLDER, ASSET, lo, hi) == cap;
    assert ExitedBetween(ws, acts, 5, HOLDER, ASSET, lo, hi) == cap;
  }

  /** The states of the run: set up, a whole cap tonight, and a whole cap a second into tomorrow. */
  lemma TwoCaps(cap: nat) returns (w3: World, w4: World, w5: World)
    requires cap > 0
    ensures w3 == Opened(cap) && w4 == Step(w3, CapExit(cap)) && w5 == Step(w4, Elapse(1, 0))
    ensures Apply(w3, CapExit(cap)).Done? && Apply(w5, CapExit(cap)).Done?
    ensures w5.now == SECONDS_PER_DAY && w5.storage.configs == w3.storage.configs
  {
    w3 := Opened(cap);
    OpensInThreeSteps(cap);
    CapExitWorks(w3, cap);
    CapExitWorksTomorrow(w3, cap);
    ExitCounts(w3, HOLDER, ASSET, cap, 0, HOLDER, Quote(PRICE_SCALE, Ok));
    w4 := Step(w3, CapExit(cap));
    w5 := Step(w4, Elapse(1, 0));
    CapExitWorks(w5, cap);
  }

  lemma Assemble(ws: seq<World>, acts: seq<Action>, cap: nat)
    requires |ws| == 7 && acts == Script(cap)
    requires ws[1] == Step(ws[0], SetUp(cap)) && ws[2] == Step(ws[1], DoSetUsdc(USDC))
    requires ws[3] == Step(ws[2], Elapse(SECONDS_PER_DAY - 1, 0)) && ws[4] == Step(ws[3], CapExit(cap))
    requires ws[5] == Step(ws[4], Elapse(1, 0)) && ws[6] == Step(ws[5], CapExit(cap))
    requires Apply(ws[3], CapExit(cap)).Done? && Apply(ws[5], CapExit(cap)).Done?
    requires ws[3].now == SECONDS_PER_DAY - 1 && ws[5].now == SECONDS_PER_DAY
    requires ws[3].storage.configs == ws[5].storage.configs == map[ASSET := Config(0, cap, 2 * cap)]
    ensures IsRun(ws, acts) && Capped(ws, acts, 6, HOLDER, ASSET, cap)
    ensures ExitedBetween(ws, acts, 6, HOLDER, ASSET, SECONDS_PER_DAY - 1, SECONDS_PER_DAY) == 2 * cap
  {
    SixSteps(ws, acts, cap);
    TwoExitsCount(ws, acts, cap);
  }

  function Script(cap: nat): seq<Action> {
    [SetUp(cap), DoSetUsdc(USDC), Elapse(SECONDS_PER_DAY - 1, 0), CapExit(cap), Elapse(1, 0), CapExit(cap)]
  }

  /** The bound of `ExitDesk.WindowLimit` cannot be lowered: for every cap there is a run in which a holder
      exits the whole cap in the last second of one day and again in the first second of the next. */
  lemma WindowLimitIsReached(cap: nat) returns (ws: seq<World>, acts: seq<Action>)
    requires cap > 0
    ensures |ws| == |acts| + 1 && IsRun(ws, acts) && IsGenesis(ws[0]) && Capped(ws, acts, |acts|, HOLDER, ASSET, cap)
    ensures ExitedBetween(ws, acts, |acts|, HOLDER, ASSET, SECONDS_PER_DAY - 1, SECONDS_PER_DAY) == 2 * cap
  {
    acts := Script(cap);
    var w0 := Funded(cap);
    var w1 := Step(w0, SetUp(cap));
    var w2 := Step(w1, DoSetUsdc(USDC));
    OpensInThreeSteps(cap);
    var w3, w4, w5 := TwoCaps(cap);
    ws := [w0, w1, w2, w3, w4, w5, Step(w5, CapExit(cap))];
    Assemble(ws, acts, cap);
  }

  // ----- an inventory of the payout token

  /** An unfunded desk, and a holder of USDC. */
  function Unfunded(amount: nat): World {
    World(DESK, Storage(None, map[], {}, false, map[], map[]), map[USDC := Token(map[HOLDER := amount], map[])], 0, 0, 0)
  }

  function ExitUsdc(amount: nat): Action {
    DoExit(HOLDER, USDC, amount, 0, HOLDER, Quote(PRICE_SCALE, Ok))
  }

  /** The desk takes the USDC in and pays the same USDC out. */
  lemma UsdcExitWorks(w: World, amount: nat)
    requires amount > 0 && w.storage.configs == map[USDC := Config(0, amount, amount)] && w.storage.usdc == Some(USDC)
    requires w.storage.disabled == {} && !w.storage.paused && w.desk == DESK && w.storage.daily == map[] && w.storage.inventory == map[]
    requires USDC in w.bank && BalanceOf(w.bank, USDC, HOLDER) == amount && BalanceOf(w.bank, USDC, DESK) == 0
    ensures var w' := Step(w, ExitUsdc(amount)); InventoryOf(w'.storage, USDC) == amount && Holding(w', USDC) == 0
  {
    assert NetPrice(PRICE_SCALE, 0) == PRICE_SCALE && UsdcFor(amount, PRICE_SCALE) == amount;
    var received := Transfer(w.bank, USDC, HOLDER, DESK, amount);
    assert received.Done? && BalanceOf(received.value, USDC, DESK) == amount;
    assert Transfer(received.value, USDC, DESK, HOLDER, amount).Done?;
    assert Exit(w, HOLDER, USDC, amount, 0, HOLDER, Quote(PRICE_SCALE, Ok)).Done?;
    ExitSwaps(w, HOLDER, USDC, amount, 0, HOLDER, Quote(PRICE_SCALE, Ok));
    ExitCounts(w, HOLDER, USDC, amount, 0, HOLDER, Quote(PRICE_SCALE, Ok));
  }

  lemma ThreeSteps(ws: seq<World>, acts: seq<Action>)
    requires |acts| == 3 && |ws| == 4
    requires ws[1] == Step(ws[0], acts[0]) && ws[2] == Step(ws[1], acts[1]) && ws[3] == Step(ws[2], acts[2])
    ensures IsRun(ws, acts)
  {
    forall i | 0 <= i < 3
      ensures ws[i + 1] == Step(ws[i], acts[i])
    {
      if i == 0 {} else if i == 1 {} else {}
    }
  }

  /** For every amount there is a run from genesis after which the desk records that much USDC as inventory
      and holds none. */
  lemma UsdcInventoryUnbacked(amount: nat) returns (ws: seq<World>, acts: seq<Action>)
    requires amount > 0
    ensures |ws| == |acts| + 1 && IsRun(ws, acts) && IsGenesis(ws[0])
    ensures InventoryOf(ws[|acts|].storage, USDC) == amount && Holding(ws[|acts|], USDC) == 0
  {
    var setUp := DoConfigure(USDC, Config(0, amount, amount));
    var w0 := Unfunded(amount);
    var w1 := Step(w0, setUp);
    var w2 := Step(w1, DoSetUsdc(USDC));
    UsdcExitWorks(w2, amount);
    var w3 := Step(w2, ExitUsdc(amount));
    ws, acts := [w0, w1, w2, w3], [setUp, DoSetUsdc(USDC), ExitUsdc(amount)];
    ThreeSteps(ws, acts);
  }
}
