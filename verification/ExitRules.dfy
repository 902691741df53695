/** The rules of the exit desk, entry point by entry point, in plain arithmetic: when each succeeds, and what it
    leaves. */
module ExitRules {
  import opened Prelude
  import opened Tokens
  import opened Risk
  import opened Measures
  import opened ExitDesk

  /** The price less the spread, and what the units fetch at it, each truncated. */
  predicate Priced(units: int, value: int, spreadBps: nat, price: int, out: int) {
    Truncates(value * (10_000 - spreadBps), 10_000, price) && Truncates(units * price, 10_000_000, out)
  }

  function HasInventory(w: World, asset: Address): int {
    if asset in w.storage.inventory then w.storage.inventory[asset] else 0
  }

  function UsedToday(w: World, holder: Address, asset: Address): int {
    if (holder, asset, w.now / 86_400) in w.storage.daily then w.storage.daily[(holder, asset, w.now / 86_400)] else 0
  }

  predicate MayExit(w: World, holder: Address, asset: Address, units: int, minOut: int, q: Quote, out: int) {
    && !w.storage.paused && units > 0 && asset in w.storage.configs && asset !in w.storage.disabled && q.status.Ok?
    && out >= 1 && out >= minOut
    && UsedToday(w, holder, asset) + units <= w.storage.configs[asset].dailyCap
    && HasInventory(w, asset) + units <= w.storage.configs[asset].inventoryCap
    && units <= BalanceOf(w.bank, asset, holder)
    && w.storage.usdc.Some?
    && out <= BalanceOf(w.bank, w.storage.usdc.value, w.desk) + if w.storage.usdc.value == asset && holder != w.desk then units else 0
  }

  lemma QuoteRule(w: World, asset: Address, units: int, q: Quote) returns (price: int, out: int)
    ensures asset in w.storage.configs ==>
              && Priced(units, q.value, w.storage.configs[asset].spreadBps, price, out)
              && price == NetPrice(q.value, w.storage.configs[asset].spreadBps) && out == UsdcFor(units, price)
    ensures ComputeQuote(w.storage, asset, units, q, w.now).Done? <==>
            units > 0 && asset in w.storage.configs && asset !in w.storage.disabled && q.status.Ok?
    ensures ComputeQuote(w.storage, asset, units, q, w.now).Done? ==>
              ComputeQuote(w.storage, asset, units, q, w.now).value == ExitQuote(units, price, out, w.now + 60)
  {
    price, out := 0, 0;
    if asset in w.storage.configs {
      price := NetPrice(q.value, w.storage.configs[asset].spreadBps);
      out := UsdcFor(units, price);
    }
  }

  lemma SwapRule(w: World, holder: Address, asset: Address, units: int, to: Address, out: int)
    requires units > 0 && out > 0
    ensures Swap(w.bank, w.desk, w.storage.usdc, holder, asset, units, to, out).Done? <==>
            && units <= BalanceOf(w.bank, asset, holder) && w.storage.usdc.Some?
            && out <= BalanceOf(w.bank, w.storage.usdc.value, w.desk) + if w.storage.usdc.value == asset && holder != w.desk then units else 0
  {
    var received := Transfer(w.bank, asset, holder, w.desk, units);
    if received.Done? && w.storage.usdc.Some? {
      assert BalanceOf(received.value, w.storage.usdc.value, w.desk) == BalanceOf(w.bank, w.storage.usdc.value, w.desk)
             + if w.storage.usdc.value == asset then Delta(holder, w.desk, units, w.desk) else 0;
    }
  }

  /** What an exit leaves: the two legs, the day's count and the inventory. */
  ghost predicate ExitedTo(w: World, w': World, holder: Address, asset: Address, units: int, to: Address, out: int) {
    && w.storage.usdc.Some?
    && (forall t, who :: BalanceOf(w'.bank, t, who) == BalanceOf(w.bank, t, who)
          + (if t == asset then Delta(holder, w.desk, units, who) else 0)
          + (if t == w.storage.usdc.value then Delta(w.desk, to, out, who) else 0))
    && w' == w.(bank := w'.bank, storage := w.storage.(
         daily := w.storage.daily[(holder, asset, w.now / 86_400) := UsedToday(w, holder, asset) + units],
         inventory := w.storage.inventory[asset := HasInventory(w, asset) + units]))
  }

  lemma ExitStores(w: World, holder: Address, asset: Address, units: int, minOut: int, to: Address, q: Quote)
    requires Exit(w, holder, asset, units, minOut, to, q).Done?
    ensures asset in w.storage.configs
    ensures ExitedTo(w, Exit(w, holder, asset, units, minOut, to, q).value, holder, asset, units, to,
                     UsdcFor(units, NetPrice(q.value, w.storage.configs[asset].spreadBps)))
  {
    ExitSwaps(w, holder, asset, units, minOut, to, q);
  }

  /** An exit happens exactly when it may; the quote it is made at is the desk's own. */
  lemma ExitRule(w: World, holder: Address, asset: Address, units: int, minOut: int, to: Address, q: Quote) returns (price: int, out: int)
    ensures asset in w.storage.configs ==> Priced(units, q.value, w.storage.configs[asset].spreadBps, price, out)
    ensures Exit(w, holder, asset, units, minOut, to, q).Done? <==> MayExit(w, holder, asset, units, minOut, q, out)
    ensures Exit(w, holder, asset, units, minOut, to, q).Done? ==>
              ExitedTo(w, Exit(w, holder, asset, units, minOut, to, q).value, holder, asset, units, to, out)
  {
    price, out := QuoteRule(w, asset, units, q);
    if units > 0 && out > 0 {
      SwapRule(w, holder, asset, units, to, out);
    }
    if Exit(w, holder, asset, units, minOut, to, q).Done? {
      ExitStores(w, holder, asset, units, minOut, to, q);
    }
  }

  /** A withdrawal pays out of what the desk holds; for a configured asset the inventory falls by the smaller of
      the amount and what it was. */
  lemma WithdrawRule(w: World, token: Address, amount: int, to: Address)
    ensures Withdraw(w, token, amount, to).Done? <==> 0 < amount <= BalanceOf(w.bank, token, w.desk)
    ensures Withdraw(w, token, amount, to).Done? ==>
              var w' := Withdraw(w, token, amount, to).value;
              && (forall t, who :: BalanceOf(w'.bank, t, who) == BalanceOf(w.bank, t, who) + if t == token then Delta(w.desk, to, amount, who) else 0)
              && w' == w.(bank := w'.bank, storage := w.storage.(inventory := w'.storage.inventory))
              && (forall a :: HasInventory(w', a) == HasInventory(w, a) -
                    if a == token && token in w.storage.configs
                    then (if amount <= HasInventory(w, token) then amount else HasInventory(w, token)) else 0)
  {
  }

  /** Funding and settings: what each accepts and the one thing it changes. */
  lemma SettingsRule(w: World, a: Action)
    requires !a.DoExit? && !a.DoWithdraw?
    ensures Apply(w, a).Done? <==>
            match a
            case DoConfigure(_, c) => c.spreadBps < 10_000 && c.dailyCap >= 1 && c.inventoryCap >= 1
            case DoSetEnabled(asset, _) => asset in w.storage.configs
            case DoFund(funder, usdc, amount) => w.storage.usdc == Some(usdc) && 0 < amount <= BalanceOf(w.bank, usdc, funder)
            case Outside(op) => op.Apply(w.bank, w.ledger, w.maxTtl).Done?
            case _ => true
    ensures Apply(w, a).Done? ==>
              var w' := Apply(w, a).value;
              match a
              case DoConfigure(asset, c) => w' == w.(storage := w.storage.(configs := w.storage.configs[asset := c]))
              case DoSetUsdc(usdc) => w' == w.(storage := w.storage.(usdc := Some(usdc)))
              case DoSetEnabled(asset, enabled) =>
                w' == w.(storage := w.storage.(disabled := w'.storage.disabled))
                && forall x :: x in w'.storage.disabled <==> if x == asset then !enabled else x in w.storage.disabled
              case DoSetPaused(paused) => w' == w.(storage := w.storage.(paused := paused))
              case DoFund(funder, usdc, amount) =>
                w' == w.(bank := w'.bank)
                && forall t, who :: BalanceOf(w'.bank, t, who) == BalanceOf(w.bank, t, who) + if t == usdc then Delta(funder, w.desk, amount, who) else 0
              case Elapse(seconds, ledgers) => w' == w.(now := w.now + seconds, ledger := w.ledger + ledgers)
              case Outside(op) => w' == w.(bank := op.Apply(w.bank, w.ledger, w.maxTtl).value)
  {
  }
}
