/** The exit desk updating its stored counters and the tokens in place (contracts/exit-desk/src/lib.rs).
    Every entry point commits exactly the transaction `ExitDesk` gives for it, or reverts and leaves
    storage and tokens as they were. */
module ExitContract {
  import opened Prelude
  import opened Risk
  import opened TokenLedger
  import opened ExitDesk

  class Desk {
    const self: Address
    const maxTtl: nat
    const tokens: Ledger
    var usdc: Option<Address>
    var configs: map<Address, Config>
    var disabled: set<Address>
    var paused: bool
    var inventory: map<Address, int>
    var daily: map<(Address, Address, nat), int>

    function Stored(): Storage
      reads this
    {
      Storage(usdc, configs, disabled, paused, inventory, daily)
    }

    function At(now: nat, ledger: nat): World
      reads this, tokens
    {
      World(self, Stored(), tokens.bank, now, ledger, maxTtl)
    }

    constructor (self: Address, maxTtl: nat, tokens: Ledger)
      ensures this.self == self && this.maxTtl == maxTtl && this.tokens == tokens && IsGenesis(At(0, 0))
    {
      this.self, this.maxTtl, this.tokens := self, maxTtl, tokens;
      usdc, configs, disabled, paused, inventory, daily := None, map[], {}, false, map[], map[];
    }

    method Configure(asset: Address, config: Config, now: nat, ledger: nat) returns (ok: bool)
      modifies this
      ensures Committed(old(At(now, ledger)), At(now, ledger), ConfigureAsset(old(At(now, ledger)), asset, config), ok)
    {
      if config.spreadBps >= BPS || config.dailyCap <= 0 || config.inventoryCap <= 0 { return false; }
      configs := configs[asset := config];
      return true;
    }

    method FundDesk(funder: Address, token: Address, amount: int, now: nat, ledger: nat) returns (ok: bool)
      modifies this, tokens
      ensures Committed(old(At(now, ledger)), At(now, ledger), Fund(old(At(now, ledger)), funder, token, amount), ok)
    {
      if amount <= 0 || usdc != Some(token) { return false; }
      ok := tokens.Send(token, funder, self, amount);
    }

    method WithdrawTo(token: Address, amount: int, to: Address, now: nat, ledger: nat) returns (ok: bool)
      modifies this, tokens
      ensures Committed(old(At(now, ledger)), At(now, ledger), Withdraw(old(At(now, ledger)), token, amount, to), ok)
    {
      if amount <= 0 { return false; }
      var moved := tokens.Send(token, self, to, amount);
      if !moved { return false; }
      if token in configs {
        var held := InventoryOf(Stored(), token);
        inventory := inventory[token := held - Min(amount, held)];
      }
      return true;
    }

    /** Stores the new figures of both limits. */
    method Count(holder: Address, asset: Address, day: nat, used: int, stock: int)
      modifies `daily, `inventory
      ensures Stored() == WithCounts(old(Stored()), holder, asset, day, used, stock)
    {
      daily := daily[(holder, asset, day) := used];
      inventory := inventory[asset := stock];
    }

    /** A panic after the first transfer undoes that transfer as well: the host rolls back the whole
        invocation. */
    method Settle(holder: Address, asset: Address, units: int, to: Address, out: int) returns (ok: bool)
      modifies tokens
      ensures Committed(old(tokens.bank), tokens.bank, Swap(old(tokens.bank), self, usdc, holder, asset, units, to, out), ok)
    {
      var saved := tokens.bank;
      ok := tokens.Send(asset, holder, self, units);
      if !ok { return; }
      if usdc.None? {
        ok := false;
      } else {
        ok := tokens.Send(usdc.value, self, to, out);
      }
      if !ok { tokens.Restore(saved); }
    }

    method ExitNow(holder: Address, asset: Address, units: int, minOut: int, to: Address, q: Quote, now: nat, ledger: nat)
      returns (usdcOut: int, ok: bool)
      modifies this, tokens
      ensures Committed(old(At(now, ledger)), At(now, ledger), Exit(old(At(now, ledger)), holder, asset, units, minOut, to, q), ok)
      ensures ok ==> asset in old(configs) && usdcOut == UsdcFor(units, NetPrice(q.value, old(configs)[asset].spreadBps))
    {
      usdcOut := 0;
      if paused { return usdcOut, false; }
      var quoted := ComputeQuote(Stored(), asset, units, q, now);
      if quoted.Revert? || quoted.value.usdcOut <= 0 || quoted.value.usdcOut < minOut { return usdcOut, false; }
      var config := configs[asset];
      var used := DailyUsed(Stored(), holder, asset, now / SECONDS_PER_DAY) + units;
      if used > config.dailyCap { return usdcOut, false; }
      var stock := InventoryOf(Stored(), asset) + units;
      if stock > config.inventoryCap { return usdcOut, false; }
      var settled := Settle(holder, asset, units, to, quoted.value.usdcOut);
      if !settled { return usdcOut, false; }
      Count(holder, asset, now / SECONDS_PER_DAY, used, stock);
      usdcOut := quoted.value.usdcOut;
      return usdcOut, true;
    }
  }
}
