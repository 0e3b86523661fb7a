/**
 * The consent-preference vocabulary of the tag-manager front end: the closed
 * set of consent policies, the per-policy configuration, the default
 * configuration, and the pure derivations the consent store builds on
 * (the granted/denied snapshot it persists and relays, and the effect of
 * each of its operations on the policy map).
 */
module Consent {

  /** The seven consent policies; the set is closed. */
  datatype PolicyKey =
    | AdStorage
    | AdUserData
    | AdPersonalization
    | AnalyticsStorage
    | FunctionalityStorage
    | PersonalizationStorage
    | SecurityStorage

  /** The value a policy has in a consent snapshot. */
  datatype ConsentStatus = Granted | Denied

  /** A policy's state: whether it is opted in, and whether it may be changed at all. */
  datatype PolicyConfig = PolicyConfig(enabled: bool, required: bool)

  type PolicyMap = map<PolicyKey, PolicyConfig>

  datatype Option<T> = None | Some(value: T)

  /**
   * A persisted or relayed consent object: property name to string value,
   * as it is after JSON parsing.
   */
  type Blob = map<string, string>

  /** The policies in declaration order, which is also the order the store visits them in. */
  const AllKeys: seq<PolicyKey> := [
    AdStorage, AdUserData, AdPersonalization, AnalyticsStorage,
    FunctionalityStorage, PersonalizationStorage, SecurityStorage
  ]

  /** The position of a policy in AllKeys. */
  function IndexOf(k: PolicyKey): (i: nat)
    ensures i < |AllKeys| && AllKeys[i] == k
  {
    match k
    case AdStorage => 0
    case AdUserData => 1
    case AdPersonalization => 2
    case AnalyticsStorage => 3
    case FunctionalityStorage => 4
    case PersonalizationStorage => 5
    case SecurityStorage => 6
  }

  /** Every policy occurs in AllKeys, and exactly once. */
  lemma AllKeysEnumerates()
    ensures forall k: PolicyKey :: k in AllKeys
    ensures forall i, j :: 0 <= i < j < |AllKeys| ==> AllKeys[i] != AllKeys[j]
  {
    forall k: PolicyKey ensures k in AllKeys {
      var i := IndexOf(k);
    }
  }

  /** A map that has an entry for each element of AllKeys has one for every policy. */
  lemma CoversAllKeys<V>(m: map<PolicyKey, V>)
    requires forall i :: 0 <= i < |AllKeys| ==> AllKeys[i] in m
    ensures forall k: PolicyKey :: k in m
  {
    forall k: PolicyKey ensures k in m {
      var i := IndexOf(k);
    }
  }

  /** The property name a policy has in a consent object. */
  function KeyName(k: PolicyKey): string
  {
    match k
    case AdStorage => "ad_storage"
    case AdUserData => "ad_user_data"
    case AdPersonalization => "ad_personalization"
    case AnalyticsStorage => "analytics_storage"
    case FunctionalityStorage => "functionality_storage"
    case PersonalizationStorage => "personalization_storage"
    case SecurityStorage => "security_storage"
  }

  /** The policy a property name denotes, if any. */
  function KeyOfName(name: string): (r: Option<PolicyKey>)
    ensures r.Some? ==> KeyName(r.value) == name
  {
    if name == "ad_storage" then Some(AdStorage)
    else if name == "ad_user_data" then Some(AdUserData)
    else if name == "ad_personalization" then Some(AdPersonalization)
    else if name == "analytics_storage" then Some(AnalyticsStorage)
    else if name == "functionality_storage" then Some(FunctionalityStorage)
    else if name == "personalization_storage" then Some(PersonalizationStorage)
    else if name == "security_storage" then Some(SecurityStorage)
    else None
  }

  /** Every policy's property name reads back as that policy. */
  lemma KeyNameRoundTrip(k: PolicyKey)
    ensures KeyOfName(KeyName(k)) == Some(k)
  {
    // holds by evaluating both functions on each of the seven policies
  }

  /** Distinct policies have distinct property names. */
  lemma KeyNameInjective(a: PolicyKey, b: PolicyKey)
    ensures KeyName(a) == KeyName(b) <==> a == b
  {
    KeyNameRoundTrip(a);
    KeyNameRoundTrip(b);
  }

  /** The string a status is written as. */
  function StatusName(s: ConsentStatus): string
  {
    match s
    case Granted => "granted"
    case Denied => "denied"
  }

  /** The status an opt-in flag stands for. */
  function StatusOf(enabled: bool): (s: ConsentStatus)
    ensures s == Granted <==> enabled
    ensures s == Denied <==> !enabled
  {
    if enabled then Granted else Denied
  }

  /** The type guard on statuses: it holds for the status written "granted" and no other. */
  function IsConsentGranted(status: ConsentStatus): (r: bool)
    ensures r <==> StatusName(status) == "granted"
  {
    status == Granted
  }

  /** Whether a consent object grants the property `name`; an absent property is not granted. */
  predicate GrantedIn(blob: Blob, name: string): (r: bool)
    ensures name !in blob ==> !r
    ensures forall s: ConsentStatus :: name in blob && blob[name] == StatusName(s) ==> (r <==> IsConsentGranted(s))
  {
    name in blob && blob[name] == StatusName(Granted)
  }

  /** A policy map holds a configuration for every policy. */
  ghost predicate Total(p: PolicyMap)
  {
    forall k: PolicyKey :: k in p
  }

  /** Every required policy is enabled. */
  ghost predicate RequiredEnabled(p: PolicyMap)
    requires Total(p)
  {
    forall k: PolicyKey :: p[k].required ==> p[k].enabled
  }

  /** Two total maps agree on which policies are required. */
  ghost predicate SameRequired(p: PolicyMap, q: PolicyMap)
    requires Total(p) && Total(q)
  {
    forall k: PolicyKey :: p[k].required == q[k].required
  }

  /** The policies configured as required: functionality and security storage. */
  predicate RequiredByDefault(k: PolicyKey)
  {
    k == FunctionalityStorage || k == SecurityStorage
  }

  /** The configuration the store starts with. */
  function Defaults(): (p: PolicyMap)
    ensures Total(p) && RequiredEnabled(p)
    ensures forall k: PolicyKey :: p[k].required == RequiredByDefault(k)
    ensures forall k: PolicyKey :: p[k].enabled == RequiredByDefault(k)
  {
    var p := map[
      AdStorage := PolicyConfig(false, false),
      AdUserData := PolicyConfig(false, false),
      AdPersonalization := PolicyConfig(false, false),
      AnalyticsStorage := PolicyConfig(false, false),
      FunctionalityStorage := PolicyConfig(true, true),
      PersonalizationStorage := PolicyConfig(false, false),
      SecurityStorage := PolicyConfig(true, true)
    ];
    CoversAllKeys(p);
    p
  }

  /** The policy map after toggling `key`: a required policy is left alone, any other one flips. */
  function Toggled(p: PolicyMap, key: PolicyKey): (r: PolicyMap)
    requires Total(p)
    ensures Total(r) && SameRequired(p, r)
    ensures p[key].required ==> r == p
    ensures !p[key].required ==> r[key].enabled == !p[key].enabled
    ensures forall k: PolicyKey :: k != key ==> r[k] == p[k]
  {
    if p[key].required then p
    else p[key := p[key].(enabled := !p[key].enabled)]
  }

  /** The policy map after every policy has been enabled. */
  function AllAccepted(p: PolicyMap): (r: PolicyMap)
    requires Total(p)
    ensures Total(r) && SameRequired(p, r)
    ensures forall k: PolicyKey :: r[k].enabled
  {
    map k | k in p :: p[k].(enabled := true)
  }

  /** One policy's configuration after a stored consent object has been applied to it. */
  function RestoredEntry(c: PolicyConfig, blob: Blob, key: PolicyKey): PolicyConfig
  {
    if c.required then c else c.(enabled := GrantedIn(blob, KeyName(key)))
  }

  /**
   * The policy map after a stored consent object has been applied: each
   * non-required policy is enabled exactly when the object grants it, and
   * required policies are untouched.
   */
  function Restored(p: PolicyMap, blob: Blob): (r: PolicyMap)
    requires Total(p)
    ensures Total(r) && SameRequired(p, r)
    ensures forall k: PolicyKey :: p[k].required ==> r[k] == p[k]
    ensures forall k: PolicyKey :: !p[k].required ==> r[k].enabled == GrantedIn(blob, KeyName(k))
  {
    map k | k in p :: RestoredEntry(p[k], blob, k)
  }

  /**
   * The consent object folded from `keys` in order: each policy's property
   * name is set to "granted" or "denied" according to its opt-in flag.
   */
  function ConsentModes(p: PolicyMap, keys: seq<PolicyKey>): (r: Blob)
    requires Total(p)
    ensures forall name :: name in r <==> exists k :: k in keys && KeyName(k) == name
    ensures forall k :: k in keys ==> r[KeyName(k)] == StatusName(StatusOf(p[k].enabled))
  {
    if keys == [] then map[]
    else
      var last := keys[|keys| - 1];
      var acc := ConsentModes(p, keys[..|keys| - 1]);
      assert forall k :: k in keys <==> k in keys[..|keys| - 1] || k == last;
      forall k | k in keys[..|keys| - 1] && k != last
        ensures KeyName(k) != KeyName(last)
      {
        KeyNameInjective(k, last);
      }
      acc[KeyName(last) := StatusName(StatusOf(p[last].enabled))]
  }

  /** The snapshot the store persists and relays, built over all policies. */
  function Snapshot(p: PolicyMap): (r: Blob)
    requires Total(p)
    ensures forall k: PolicyKey :: KeyName(k) in r && r[KeyName(k)] == StatusName(StatusOf(p[k].enabled))
    ensures forall k: PolicyKey :: GrantedIn(r, KeyName(k)) <==> p[k].enabled
  {
    AllKeysEnumerates();
    ConsentModes(p, AllKeys)
  }

  /** A snapshot holds no property other than the seven policy names. */
  lemma SnapshotKeys(p: PolicyMap, name: string)
    requires Total(p)
    requires name in Snapshot(p)
    ensures KeyOfName(name).Some?
  {
    var k :| k in AllKeys && KeyName(k) == name;
    KeyNameRoundTrip(k);
  }

  /** Every value in a snapshot is one of the two status strings. */
  lemma SnapshotValues(p: PolicyMap, name: string)
    requires Total(p)
    requires name in Snapshot(p)
    ensures Snapshot(p)[name] == "granted" || Snapshot(p)[name] == "denied"
  {
    SnapshotKeys(p, name);
    var k := KeyOfName(name).value;
  }

  /** Toggling the same policy twice restores the map. */
  lemma ToggleInvolution(p: PolicyMap, key: PolicyKey)
    requires Total(p)
    ensures Toggled(Toggled(p, key), key) == p
  {
    // follows from the contract of Toggled
  }

  /** Toggling keeps required policies enabled. */
  lemma ToggledKeepsRequired(p: PolicyMap, key: PolicyKey)
    requires Total(p) && RequiredEnabled(p)
    ensures RequiredEnabled(Toggled(p, key))
  {
  }

  /** Accepting everything keeps required policies enabled. */
  lemma AllAcceptedKeepsRequired(p: PolicyMap)
    requires Total(p) && RequiredEnabled(p)
    ensures RequiredEnabled(AllAccepted(p))
  {
  }

  /** Applying a stored consent object keeps required policies enabled, whatever the object says. */
  lemma RestoredKeepsRequired(p: PolicyMap, blob: Blob)
    requires Total(p) && RequiredEnabled(p)
    ensures RequiredEnabled(Restored(p, blob))
  {
  }

  /** Accepting everything yields a snapshot that grants every policy and nothing else. */
  lemma AcceptAllSnapshot(p: PolicyMap)
    requires Total(p)
    ensures forall k: PolicyKey :: Snapshot(AllAccepted(p))[KeyName(k)] == "granted"
    ensures forall name :: name in Snapshot(AllAccepted(p)) ==> Snapshot(AllAccepted(p))[name] == "granted"
  {
    var s := Snapshot(AllAccepted(p));
    forall name | name in s ensures s[name] == "granted" {
      SnapshotKeys(AllAccepted(p), name);
      var k := KeyOfName(name).value;
      assert GrantedIn(s, KeyName(k));
    }
  }

  /** Applying a policy map's own snapshot gives the map back. */
  lemma SnapshotRoundTrip(p: PolicyMap)
    requires Total(p)
    ensures Restored(p, Snapshot(p)) == p
  {
    // follows from the contracts of Restored and Snapshot
  }

  /** Snapshots depend on the opt-in flags alone. */
  lemma SnapshotOfSameFlags(p: PolicyMap, q: PolicyMap)
    requires Total(p) && Total(q)
    requires forall k: PolicyKey :: p[k].enabled == q[k].enabled
    ensures Snapshot(p) == Snapshot(q)
  {
    forall name | name in Snapshot(p) ensures name in Snapshot(q) && Snapshot(p)[name] == Snapshot(q)[name] {
      SnapshotKeys(p, name);
    }
    forall name | name in Snapshot(q) ensures name in Snapshot(p) {
      SnapshotKeys(q, name);
    }
    assert Snapshot(p).Keys == Snapshot(q).Keys;
  }

  /**
   * Loading a snapshot saved under the same configuration and saving again
   * writes that snapshot back unchanged.
   */
  lemma RestoredSnapshotRoundTrip(p: PolicyMap, q: PolicyMap)
    requires Total(p) && Total(q) && SameRequired(p, q)
    requires RequiredEnabled(p) && RequiredEnabled(q)
    ensures Snapshot(Restored(p, Snapshot(q))) == Snapshot(q)
  {
    SnapshotOfSameFlags(Restored(p, Snapshot(q)), q);
  }
}
