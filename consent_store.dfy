/**
 * The consent store: the policy map and the banner flag, the operations that
 * change them, and the two outside effects those operations have. Browser
 * local storage is a field mapping storage keys to parsed consent objects;
 * the tag-manager relay is an availability flag and a log of the calls it
 * received.
 */
module ConsentStore {
  import opened Consent

  /** The local-storage key the consent snapshot is kept under. */
  const StorageKey: string := "gtm_consent"

  /** A relay call; the store only ever issues ('consent', 'update', params). */
  datatype RelayCall = ConsentUpdate(params: Blob)

  /** The loop of accept-all: visits every policy in order and enables it. */
  method EnableAll(policies: PolicyMap) returns (updated: PolicyMap)
    requires Total(policies)
    ensures updated == AllAccepted(policies)
  {
    updated := policies;
    AllKeysEnumerates();
    for i := 0 to |AllKeys|
      invariant Total(updated)
      invariant forall j :: 0 <= j < i ==> updated[AllKeys[j]] == AllAccepted(policies)[AllKeys[j]]
      invariant forall j :: i <= j < |AllKeys| ==> updated[AllKeys[j]] == policies[AllKeys[j]]
    {
      var key := AllKeys[i];
      updated := updated[key := updated[key].(enabled := true)];
    }
    forall k: PolicyKey ensures updated[k] == AllAccepted(policies)[k] {
      var j := IndexOf(k);
    }
    assert updated.Keys == AllAccepted(policies).Keys;
  }

  /**
   * The loop of restoring saved consent: visits every policy in order and,
   * unless it is required, enables it exactly when `parsedConsent` grants it.
   */
  method ApplySavedConsent(policies: PolicyMap, parsedConsent: Blob) returns (updated: PolicyMap)
    requires Total(policies)
    ensures updated == Restored(policies, parsedConsent)
  {
    updated := policies;
    AllKeysEnumerates();
    for i := 0 to |AllKeys|
      invariant Total(updated)
      invariant forall j :: 0 <= j < i ==>
        updated[AllKeys[j]] == Restored(policies, parsedConsent)[AllKeys[j]]
      invariant forall j :: i <= j < |AllKeys| ==> updated[AllKeys[j]] == policies[AllKeys[j]]
    {
      var policyKey := AllKeys[i];
      if !updated[policyKey].required {
        updated := updated[policyKey :=
          updated[policyKey].(enabled := GrantedIn(parsedConsent, KeyName(policyKey)))];
      }
    }
    forall k: PolicyKey ensures updated[k] == Restored(policies, parsedConsent)[k] {
      var j := IndexOf(k);
    }
    assert updated.Keys == Restored(policies, parsedConsent).Keys;
  }

  class Store {
    var policies: PolicyMap
    var showBanner: bool
    /** Browser local storage, with values already parsed. */
    var localStorage: map<string, Blob>
    /** Whether the relay function exists; when it does not, calls to it are skipped. */
    var relayAvailable: bool
    /** Every call the relay received, oldest first. */
    var relayLog: seq<RelayCall>

    /**
     * The store's invariant: every policy is present, every required policy
     * is enabled, and the required flags are the configured ones.
     */
    ghost predicate Valid()
      reads this
    {
      && Total(policies)
      && RequiredEnabled(policies)
      && forall k: PolicyKey :: policies[k].required == RequiredByDefault(k)
    }

    /** A fresh store over the given local storage and relay. */
    constructor (storage: map<string, Blob>, relay: bool)
      ensures Valid()
      ensures policies == Defaults() && showBanner
      ensures localStorage == storage && relayAvailable == relay && relayLog == []
    {
      policies := Defaults();
      showBanner := true;
      localStorage := storage;
      relayAvailable := relay;
      relayLog := [];
    }

    /** Flips `key` unless it is required; persists nothing. */
    method TogglePolicy(key: PolicyKey)
      requires Valid()
      modifies this
      ensures Valid()
      ensures policies == Toggled(old(policies), key)
      ensures showBanner == old(showBanner)
      ensures localStorage == old(localStorage)
      ensures relayAvailable == old(relayAvailable) && relayLog == old(relayLog)
    {
      var policy := policies[key];
      if !policy.required {
        policies := policies[key := policy.(enabled := !policy.enabled)];
      }
    }

    /** Persists the snapshot of the current policies, relays it if possible, and hides the banner. */
    method SaveConsent()
      requires Valid()
      modifies this
      ensures Valid()
      ensures policies == old(policies)
      ensures localStorage == old(localStorage)[StorageKey := Snapshot(old(policies))]
      ensures relayAvailable == old(relayAvailable)
      ensures relayLog == old(relayLog) +
        (if relayAvailable then [ConsentUpdate(Snapshot(old(policies)))] else [])
      ensures !showBanner
    {
      var consentModes := Snapshot(policies);
      if relayAvailable {
        relayLog := relayLog + [ConsentUpdate(consentModes)];
      }
      localStorage := localStorage[StorageKey := consentModes];
      showBanner := false;
    }

    /** Enables every policy, then saves. */
    method AcceptAll()
      requires Valid()
      modifies this
      ensures Valid()
      ensures policies == AllAccepted(old(policies))
      ensures localStorage == old(localStorage)[StorageKey := Snapshot(AllAccepted(old(policies)))]
      ensures relayAvailable == old(relayAvailable)
      ensures relayLog == old(relayLog) +
        (if relayAvailable then [ConsentUpdate(Snapshot(AllAccepted(old(policies))))] else [])
      ensures !showBanner
    {
      policies := EnableAll(policies);
      SaveConsent();
    }

    /**
     * Applies the stored snapshot, if there is one: each non-required policy
     * is enabled exactly when the snapshot grants it, the snapshot is relayed
     * as it was read, and the banner is hidden. Without a stored snapshot
     * nothing changes.
     */
    method LoadSavedConsent()
      requires Valid()
      modifies this
      ensures Valid()
      ensures localStorage == old(localStorage) && relayAvailable == old(relayAvailable)
      ensures StorageKey !in localStorage ==>
        policies == old(policies) && showBanner == old(showBanner) && relayLog == old(relayLog)
      ensures StorageKey in localStorage ==>
        && policies == Restored(old(policies), localStorage[StorageKey])
        && !showBanner
        && relayLog == old(relayLog) +
             (if relayAvailable then [ConsentUpdate(localStorage[StorageKey])] else [])
    {
      if StorageKey in localStorage {
        var parsedConsent := localStorage[StorageKey];
        RestoredKeepsRequired(policies, parsedConsent);
        policies := ApplySavedConsent(policies, parsedConsent);
        if relayAvailable {
          relayLog := relayLog + [ConsentUpdate(parsedConsent)];
        }
        showBanner := false;
      }
    }
  }

  /**
   * Saving and then loading against the same storage leaves every policy as
   * it was, and the banner hidden.
   */
  method SaveThenLoad(store: Store)
    requires store.Valid()
    modifies store
    ensures store.Valid()
    ensures store.policies == old(store.policies) && !store.showBanner
  {
    store.SaveConsent();
    SnapshotRoundTrip(store.policies);
    store.LoadSavedConsent();
  }
}
