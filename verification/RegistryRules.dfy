/** The rules of the asset registry, entry point by entry point: when each succeeds, and what it leaves. */
module RegistryRules {
  import opened Prelude
  import opened Registry

  /** The whole policy for a stored config. */
  predicate Sound(c: AssetConfig, asset: Address) {
    && c.haircutBase + c.haircutFx <= 10_000
    && 1 <= c.priceBand <= 10_000 && 1 <= c.dailyMove <= 10_000
    && c.contract == asset && (c.status == "active" || c.status == "paused" || c.status == "retired")
  }

  lemma RegisterRule(w: World, asset: Address, c: AssetConfig)
    ensures RegisterAsset(w, asset, c).Done? <==> asset !in w.assets && Sound(c, asset)
    ensures RegisterAsset(w, asset, c).Done? ==> RegisterAsset(w, asset, c).value == w.(assets := w.assets[asset := c])
  {
    AcceptedExactly(c, asset);
  }

  lemma QueueRule(w: World, asset: Address, change: Change, id: nat)
    ensures QueueParam(w, asset, change).Done? <==> asset in w.assets
    ensures QueueParam(w, asset, change).Done? ==>
              QueueParam(w, asset, change).value == w.(nextId := w.nextId + 1,
                pending := w.pending[w.nextId := PendingChange(asset, change, w.now + 172_800)])
    ensures CancelParam(w, id).Done? <==> id in w.pending
    ensures CancelParam(w, id).Done? ==> CancelParam(w, id).value == w.(pending := w.pending - {id})
  {
  }

  /** What a change leaves of a config, field by field. */
  predicate Sets(change: Change, c: AssetConfig, c': AssetConfig) {
    && c'.terms == c.terms && c'.contract == c.contract
    && c'.haircutBase == (if change.HaircutBaseBps? then change.bps else c.haircutBase)
    && c'.haircutFx == (if change.HaircutFxBps? then change.bps else c.haircutFx)
    && c'.priceBand == (if change.PriceBandBps? then change.bps else c.priceBand)
    && c'.dailyMove == (if change.DailyMoveBps? then change.bps else c.dailyMove)
    && c'.lagDays == (if change.RedemptionLagDays? then change.days else c.lagDays)
    && c'.status == (if change.Status? then change.status else c.status)
  }

  /** A queued change is executed exactly when its date has come, its asset is registered and the config with
      just that field set passes the whole policy. */
  lemma ExecuteRule(w: World, id: nat) returns (c: Option<AssetConfig>)
    ensures c.Some? <==> id in w.pending && w.pending[id].asset in w.assets
    ensures c.Some? ==> Sets(w.pending[id].change, w.assets[w.pending[id].asset], c.value)
    ensures ExecuteParam(w, id).Done? <==>
            c.Some? && w.now >= w.pending[id].executesAt && Sound(c.value, w.pending[id].asset)
    ensures ExecuteParam(w, id).Done? ==>
              ExecuteParam(w, id).value == w.(assets := w.assets[w.pending[id].asset := c.value], pending := w.pending - {id})
  {
    c := None;
    if id in w.pending && w.pending[id].asset in w.assets {
      c := Some(Changed(w.assets[w.pending[id].asset], w.pending[id].change));
      AcceptedExactly(c.value, w.pending[id].asset);
    }
  }

  /** The emergency brake adds to the base haircut, at most up to all of the value, and touches nothing else. */
  lemma RaiseRule(w: World, asset: Address, addBps: nat)
    ensures RaiseHaircutNow(w, asset, addBps).Done? <==>
            asset in w.assets && w.assets[asset].haircutBase + addBps + w.assets[asset].haircutFx <= 10_000
    ensures RaiseHaircutNow(w, asset, addBps).Done? ==>
              RaiseHaircutNow(w, asset, addBps).value ==
              w.(assets := w.assets[asset := w.assets[asset].(haircutBase := w.assets[asset].haircutBase + addBps)])
  {
  }
}
