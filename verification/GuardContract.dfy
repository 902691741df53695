/** The price guard updating its stored entries in place (contracts/price-guard/src/lib.rs): the loops that
    filter, sort and compare readings, and every entry point committing exactly the transaction
    `GuardSpec` gives for it. */
module GuardContract {
  import opened Prelude
  import opened Risk
  import opened Medians
  import opened GuardSpec
  import opened Decimals

  /** Collects the fresh readings and their values. */
  method Collect(g: Guard, c: Config, now: nat) returns (live: seq<Source>, values: seq<int>)
    ensures live == FreshOf(g, c, now) && values == Values(live)
  {
    live, values := [], [];
    var i := 0;
    while i < |g.names|
      invariant 0 <= i <= |g.names|
      invariant live == FreshSources(g.names[..i], g.sources, c.maxStaleness, now)
      invariant values == Values(live)
    {
      var name := g.names[i];
      assert g.names[..i + 1][..i] == g.names[..i] && g.names[..i + 1][i] == name;
      if name in g.sources && IsFresh(g.sources[name], c.maxStaleness, now) {
        values := values + [g.sources[name].value];
        live := live + [g.sources[name]];
      }
      i := i + 1;
    }
    assert g.names[..i] == g.names;
  }

  /** Finds the lowest and highest reading and compares their spread with the band. */
  method Agree(values: seq<int>, bandBps: nat) returns (within: bool)
    ensures within == WithinBand(values, bandBps)
  {
    if |values| < 2 { return true; }
    var i := |values| - 1;
    var min, max := values[i], values[i];
    assert values[i..] == [values[i]];
    while i > 0
      invariant 0 <= i < |values| && min == Least(values[i..]) && max == Greatest(values[i..])
    {
      i := i - 1;
      assert values[i..][1..] == values[i + 1..] && values[i..][0] == values[i];
      min := Min(values[i], min);
      max := Max(values[i], max);
    }
    assert values[0..] == values;
    if min <= 0 { return false; }
    return Quot((max - min) * BPS, min) <= bandBps;
  }

  /** The middle of a sorted buffer, or the mean of its two middles. */
  method MiddleOf(buf: SortBuf) returns (median: int)
    requires buf.Valid() && buf.len > 0
    ensures median == Middle(buf.Contents())
  {
    var len := buf.len;
    if len % 2 == 1 {
      median := buf.Get(len / 2);
    } else {
      median := Quot(buf.Get(len / 2 - 1) + buf.Get(len / 2), 2);
    }
  }

  /** Sorts the readings in the fixed buffer; gives the median and the readings in ascending order. */
  method SortedMedian(values: seq<int>) returns (median: int, sorted: seq<int>)
    requires 0 < |values| <= CAPACITY
    ensures median == Median(values) && sorted == SortUp(values)
  {
    var buf := new SortBuf(values);
    buf.Sort();
    sorted := buf.items[..buf.len];
    SortUpSorts(values);
    median := MiddleOf(buf);
  }

  class PriceGuard {
    var configs: map<Address, Config>
    var guards: map<Address, Guard>
    var pending: map<nat, PendingChange>
    var nextId: nat
    var keys: map<Address, string>
    var requireSig: Option<bool>

    function At(now: nat): World
      reads this
    {
      World(configs, guards, pending, nextId, keys, requireSig, now)
    }

    constructor ()
      ensures IsGenesis(At(0))
    {
      configs, guards, pending, nextId, keys, requireSig := map[], map[], map[], 0, map[], None;
    }

    // ----- evaluation

    /** `Track` done step by step on the stored guard, for readings that agree on `median`. */
    method Adopt(asset: Address, c: Config, median: int, now: nat) returns (quote: Quote)
      requires asset in guards
      modifies `guards
      ensures asset in guards && (quote, guards[asset]) == Track(old(guards)[asset], c, median, now)
      ensures guards == old(guards)[asset := guards[asset]]
    {
      var g := guards[asset];
      if g.lastGood.Some? && g.lastGood.value > 0 {
        var moved := Quot(Abs(median - g.lastGood.value) * BPS, g.lastGood.value);
        if moved > c.dailyBps {
          guards := guards[asset := g.(halted := true, pendingHalt := Some(median))];
          return Quote(g.lastGood.value, Halted);
        }
      }
      if g.reference.Some? && g.reference.value > 0 {
        var drift := Quot(Abs(median - g.reference.value) * BPS, g.reference.value);
        if drift > c.windowBps {
          guards := guards[asset := g.(halted := true, pendingHalt := Some(median))];
          return Quote(g.lastGood.GetOr(g.reference.value), Halted);
        }
      }
      if g.referenceAt.None? || SatSub(now, g.referenceAt.value) >= c.window {
        g := g.(reference := Some(median), referenceAt := Some(now));
      }
      g := g.(lastGood := Some(median));
      guards := guards[asset := g];
      return Quote(median, Ok);
    }

    /** The rules, run on every publish, removal and read. More fresh readings than the buffer holds
        revert rather than drop any. */
    method EvaluateNow(asset: Address, now: nat) returns (price: Guarded, ok: bool)
      modifies `guards
      ensures Committed(old(At(now)), At(now), EvaluateAs(old(At(now)), asset, GuardOf(old(At(now)), asset)), ok)
      ensures ok ==> asset in configs &&
                     price == Evaluate(GuardOf(old(At(now)), asset), configs[asset], now).value.0
    {
      price := Guarded(Quote(0, Degraded), now, []);
      if asset !in configs { return price, false; }
      var c := configs[asset];
      var g := GuardOf(At(now), asset);
      var live, values := Collect(g, c, now);
      var quote := Quote(g.lastGood.GetOr(0), if g.halted then Halted else Degraded);
      if !g.halted && |values| >= 2 {
        if |values| > CAPACITY { return price, false; }
        var median, sorted := SortedMedian(values);
        var within := Agree(sorted, c.bandBps);
        if within {
          ghost var was := guards;
          guards := guards[asset := g];
          quote := Adopt(asset, c, median, now);
          assert guards == was[asset := guards[asset]];
          return Guarded(quote, now, live), true;
        }
      }
      guards := guards[asset := g];
      return Guarded(quote, now, live), true;
    }

    /** Evaluates the asset as `g`; a revert puts its stored entries back. */
    method EvaluateWith(asset: Address, g: Guard, now: nat) returns (ok: bool)
      modifies `guards
      ensures Committed(old(At(now)), At(now), EvaluateAs(old(At(now)), asset, g), ok)
    {
      var saved := guards;
      guards := guards[asset := g];
      var price;
      price, ok := EvaluateNow(asset, now);
      if ok {
        assert guards == saved[asset := guards[asset]];
      } else {
        guards := saved;
      }
    }

    method Publish(asset: Address, name: string, value: int, at: nat, now: nat) returns (ok: bool)
      modifies this
      ensures Committed(old(At(now)), At(now), PublishSource(old(At(now)), asset, name, value, at), ok)
    {
      if asset !in configs || value <= 0 || at > now + MAX_FUTURE_SKEW_S { return false; }
      ok := EvaluateWith(asset, Record(GuardOf(At(now), asset), name, value, at), now);
    }

    /** `at` and `value` are of the widths the message printer is given. */
    method PublishIssuerNav(asset: Address, code: string, value: int, at: nat, sig: Signature, now: nat) returns (ok: bool)
      requires at < 0x1_0000_0000_0000_0000
      requires -0x8000_0000_0000_0000_0000_0000_0000_0000 <= value < 0x8000_0000_0000_0000_0000_0000_0000_0000
      modifies this
      ensures Committed(old(At(now)), At(now), PublishNav(old(At(now)), asset, code, value, at, sig), ok)
    {
      if asset !in configs || value <= 0 || at > now + MAX_FUTURE_SKEW_S { return false; }
      if requireSig.GetOr(true) {
        if asset !in keys { return false; }
        var message := BuildNavMessage(code, at, value);
        if (keys[asset], message) !in sig.valid { return false; }
      }
      ok := EvaluateWith(asset, Record(GuardOf(At(now), asset), ISSUER_SOURCE, value, at), now);
    }

    /** Copies every name but the first that matches. */
    method Forget(names: seq<string>, name: string) returns (kept: seq<string>)
      ensures kept == Without(names, name)
    {
      var i := 0;
      kept := [];
      while i < |names| && names[i] != name
        invariant 0 <= i <= |names| && kept == names[..i]
        invariant Without(names, name) == kept + Without(names[i..], name)
      {
        assert names[i..][1..] == names[i + 1..];
        kept := kept + [names[i]];
        i := i + 1;
      }
      if i < |names| {
        assert names[i..][1..] == names[i + 1..];
        kept := kept + names[i + 1..];
      }
    }

    method Remove(asset: Address, name: string, now: nat) returns (ok: bool)
      modifies this
      ensures Committed(old(At(now)), At(now), RemoveSource(old(At(now)), asset, name), ok)
    {
      if asset !in configs { return false; }
      var g := GuardOf(At(now), asset);
      var kept := Forget(g.names, name);
      ok := EvaluateWith(asset, g.(names := kept, sources := g.sources - {name}), now);
    }

    method Confirm(asset: Address, now: nat)
      modifies this
      ensures ConfirmHaltCleared(old(At(now)), asset) == Done(At(now))
    {
      var g := GuardOf(At(now), asset);
      if g.pendingHalt.Some? {
        g := g.(lastGood := g.pendingHalt);
        g := g.(reference := g.pendingHalt, referenceAt := Some(now));
        g := g.(pendingHalt := None);
      }
      g := g.(halted := false);
      guards := guards[asset := g];
    }

    // ----- configuration and its timelock

    method Configure(asset: Address, c: Config, now: nat) returns (ok: bool)
      modifies this
      ensures Committed(old(At(now)), At(now), ConfigureAsset(old(At(now)), asset, c), ok)
    {
      if asset in configs && Loosens(configs[asset], c) { return false; }
      configs := configs[asset := c];
      return true;
    }

    method RegisterKey(asset: Address, key: string, now: nat) returns (ok: bool)
      modifies this
      ensures Committed(old(At(now)), At(now), ConfigureKey(old(At(now)), asset, key), ok)
    {
      if asset in keys && keys[asset] != key { return false; }
      keys := keys[asset := key];
      return true;
    }

    method RequireSignatures(required: bool, now: nat) returns (ok: bool)
      modifies this
      ensures Committed(old(At(now)), At(now), ConfigureSignature(old(At(now)), required), ok)
    {
      if requireSig.Some? && requireSig.value && !required { return false; }
      requireSig := Some(required);
      return true;
    }

    method Queue(change: Change, now: nat) returns (id: nat)
      modifies this
      ensures QueueConfig(old(At(now)), change) == Done(At(now)) && id == old(nextId)
    {
      id := nextId;
      nextId := id + 1;
      pending := pending[id := PendingChange(change, now + TIMELOCK_DELAY_SECONDS)];
    }

    method Cancel(id: nat, now: nat) returns (ok: bool)
      modifies this
      ensures Committed(old(At(now)), At(now), CancelConfig(old(At(now)), id), ok)
    {
      if id !in pending { return false; }
      pending := pending - {id};
      return true;
    }

    method Execute(id: nat, now: nat) returns (ok: bool)
      modifies this
      ensures Committed(old(At(now)), At(now), ExecuteConfig(old(At(now)), id), ok)
    {
      if id !in pending || now < pending[id].executesAt { return false; }
      var change := pending[id].change;
      if !change.WholeAsset? && !change.IssuerKey? && !change.RequireSignature? && change.asset !in configs { return false; }
      match change {
        case BandBps(asset, v) => configs := configs[asset := configs[asset].(bandBps := v)];
        case DailyBps(asset, v) => configs := configs[asset := configs[asset].(dailyBps := v)];
        case WindowSeconds(asset, v) => configs := configs[asset := configs[asset].(window := v)];
        case WindowBps(asset, v) => configs := configs[asset := configs[asset].(windowBps := v)];
        case MaxStaleness(asset, v) => configs := configs[asset := configs[asset].(maxStaleness := v)];
        case WholeAsset(asset, config) => configs := configs[asset := config];
        case IssuerKey(asset, key) => keys := keys[asset := key];
        case RequireSignature(required) => requireSig := Some(required);
      }
      pending := pending - {id};
      return true;
    }
  }
}
