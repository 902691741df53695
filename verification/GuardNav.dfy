/** What an issuer's signature vouches for in a published reading. */
module GuardNav {
  import opened Prelude
  import opened GuardSpec
  import opened Decimals
  import opened GuardWitness

  /** Under `key`, the signature is valid for no more than one message. */
  ghost predicate SignsOneMessage(sig: Signature, key: string) {
    forall m, m' | (key, m) in sig.valid && (key, m') in sig.valid :: m == m'
  }

  /** While signatures are required, one signature that is valid for a single message under a key lets through
      at most one reading, code, time and value together, for all the assets registered with that key. */
  lemma OneReadingPerSignature(w: World, asset: Address, code: string, value: int, at: nat,
                               w': World, asset': Address, code': string, value': int, at': nat,
                               sig: Signature, key: string)
    requires w.requireSig.GetOr(true) && w'.requireSig.GetOr(true) && SignsOneMessage(sig, key)
    requires PublishNav(w, asset, code, value, at, sig).Done? && PublishNav(w', asset', code', value', at', sig).Done?
    requires asset in w.keys && w.keys[asset] == key && asset' in w'.keys && w'.keys[asset'] == key
    ensures code == code' && value == value' && at == at'
  {
    assert (key, NavMessage(code, at, value)) in sig.valid && (key, NavMessage(code', at', value')) in sig.valid;
    NavMessageInjective(code, at, value, code', at', value');
  }

  /** The message names an asset code chosen by the publisher, not the asset it is filed under: a signature is
      accepted for two assets alike exactly when it is valid under both of their keys, so always when the
      keys are the same. */
  lemma AssetsShareSignaturesByKey(w: World, asset: Address, other: Address, code: string, value: int, at: nat, sig: Signature)
    requires w.requireSig.GetOr(true) && SignatureAccepted(w, asset, code, value, at, sig)
    ensures SignatureAccepted(w, other, code, value, at, sig) <==>
            other in w.keys && (w.keys[other] == w.keys[asset] || (w.keys[other], NavMessage(code, at, value)) in sig.valid)
  {
  }

  // ----- one signature, two assets

  const FIRST: Address := 0
  const SECOND: Address := 1

  /** Both assets are configured and registered with one key, and nothing has been published. */
  predicate SharedKey(w: World, key: string) {
    && w.configs == map[FIRST := BANDS, SECOND := BANDS] && w.keys == map[FIRST := key, SECOND := key]
    && w.requireSig == None && w.now == 0 && w.guards == map[]
  }

  lemma SharesKey(key: string) returns (ws: seq<World>, acts: seq<Action>)
    ensures RunFromGenesis(ws, acts) && SharedKey(ws[|acts|], key)
  {
    ws, acts := [Genesis()], [];
    ws, acts := Extends(ws, acts, DoConfigure(FIRST, BANDS));
    ws, acts := Extends(ws, acts, DoConfigure(SECOND, BANDS));
    ws, acts := Extends(ws, acts, DoConfigureKey(FIRST, key));
    ws, acts := Extends(ws, acts, DoConfigureKey(SECOND, key));
  }

  /** The issuer's reading alone is stored, and degrades the price for want of a second one. */
  function IssuerOnly(value: int): Guard {
    Record(NEW_GUARD, ISSUER_SOURCE, value, 0)
  }

  lemma StoresIssuerOnly(value: int)
    ensures Evaluate(IssuerOnly(value), BANDS, 0).Done? && Evaluate(IssuerOnly(value), BANDS, 0).value.1 == IssuerOnly(value)
  {
    AllFresh(IssuerOnly(value), [ISSUER_SOURCE], [value], BANDS.maxStaleness);
  }

  lemma AcceptedForBoth(w: World, key: string, code: string, value: int, sig: Signature) returns (w1: World, w2: World)
    requires SharedKey(w, key) && value > 0 && (key, NavMessage(code, 0, value)) in sig.valid
    ensures w1 == Step(w, DoPublishNav(FIRST, code, value, 0, sig)) && w2 == Step(w1, DoPublishNav(SECOND, code, value, 0, sig))
    ensures GuardOf(w2, FIRST) == IssuerOnly(value) && GuardOf(w2, SECOND) == IssuerOnly(value)
  {
    StoresIssuerOnly(value);
    w1 := Step(w, DoPublishNav(FIRST, code, value, 0, sig));
    AssetsShareSignaturesByKey(w1, FIRST, SECOND, code, value, 0, sig);
    w2 := Step(w1, DoPublishNav(SECOND, code, value, 0, sig));
  }

  /** For every code and value, a run from genesis in which one signature, valid for a single message, puts the
      same reading into two assets registered with one key. */
  lemma OneSignatureTwoAssets(key: string, code: string, value: int) returns (ws: seq<World>, acts: seq<Action>, sig: Signature)
    requires value > 0
    ensures RunFromGenesis(ws, acts) && SignsOneMessage(sig, key)
    ensures |acts| >= 2 && acts[|acts| - 2] == DoPublishNav(FIRST, code, value, 0, sig) && acts[|acts| - 1] == DoPublishNav(SECOND, code, value, 0, sig)
    ensures GuardOf(ws[|acts|], FIRST) == GuardOf(ws[|acts|], SECOND) == IssuerOnly(value)
  {
    sig := Signature({(key, NavMessage(code, 0, value))});
    ws, acts := SharesKey(key);
    var w1, w2 := AcceptedForBoth(ws[|acts|], key, code, value, sig);
    ws, acts := Extends(ws, acts, DoPublishNav(FIRST, code, value, 0, sig));
    ws, acts := Extends(ws, acts, DoPublishNav(SECOND, code, value, 0, sig));
  }
}
