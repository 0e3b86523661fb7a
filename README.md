# Consent-preferences store — a Dafny model

This project models the consent store of a Vue front end that loads Google
Tag Manager. The store (`src/stores/consent.ts`) keeps one configuration per
consent policy. There are seven policies, a closed set: `ad_storage`,
`ad_user_data`, `ad_personalization`, `analytics_storage`,
`functionality_storage`, `personalization_storage` and `security_storage`.
Each configuration says whether the policy is enabled and whether it is
required. The store also keeps a `showBanner` flag that starts out true.

The store has four operations:

- `togglePolicy` flips one policy unless it is required.
- `acceptAll` enables every policy and then saves.
- `saveConsent` derives a name → `"granted"`/`"denied"` snapshot. It passes the
  snapshot to the `gtag` relay when the relay exists, writes it to local
  storage under `gtm_consent`, and hides the banner.
- `loadSavedConsent` reads that storage entry. When the entry is there, it
  overwrites every non-required policy, relays the object it read, and hides
  the banner.

The project has two modules:

- `consent.dfy`, module `Consent` (pure): the policy keys and their property
  names, the statuses, the default configuration, and the snapshot. The
  snapshot is a left fold over the keys in declaration order, the same fold
  as the source's `reduce`. The module also holds the specification functions
  `Toggled`, `AllAccepted` and `Restored`, one for each operation's effect on
  the policy map, and the lemmas about them.
- `consent_store.dfy`, module `ConsentStore` (imperative): class `Store`,
  whose fields are changed in place by the four operations. The two outside
  effects are plain fields:
  - `localStorage` maps storage keys to consent objects that are already
    parsed.
  - `relayAvailable` says whether `window.gtag` exists.
  - `relayLog` records every `('consent', 'update', params)` call the relay
    received.

  The `forEach` loops of accept-all and of restoring are the methods
  `EnableAll` and `ApplySavedConsent`. Each is proved against its
  specification function.

`Store.Valid()` is the store's invariant. Every policy is present, every
required policy is enabled, and the required flags are the configured ones
(functionality and security storage). Every operation preserves it.

## Model

| member | source | states |
|---|---|---|
| `Consent.AllKeysEnumerates` | src/stores/consent.ts:17-59 | the key order the store visits names every policy, and each one exactly once |
| `Consent.KeyOfName` | src/stores/consent.ts:61 | a property name read back as a policy is that policy's name |
| `Consent.KeyNameRoundTrip` | src/stores/consent.ts:17-61 | each policy's property name reads back as that same policy |
| `Consent.KeyNameInjective` | src/stores/consent.ts:17-59 | two policies share a property name only if they are the same policy |
| `Consent.StatusOf` | src/stores/consent.ts:130 | an opt-in flag maps to `Granted` exactly when it is set, and to `Denied` exactly when it is not |
| `Consent.GrantedIn` | src/stores/consent.ts:152 | a missing property is never granted; a property holding a status's string is granted exactly when that status passes the type guard |
| `Consent.IsConsentGranted` | src/stores/consent.ts:175 | the type guard holds for a status exactly when that status is written `"granted"` |
| `Consent.Defaults` | src/stores/consent.ts:68-111 | the defaults configure every policy; exactly functionality and security storage are required; a policy starts enabled exactly when it is required, so the five other policies start disabled |
| `Consent.Toggled` | src/stores/consent.ts:113-118 | a required policy leaves the whole map unchanged; otherwise only that policy's flag is negated; no required flag changes |
| `Consent.ToggleInvolution` | src/stores/consent.ts:113-118 | toggling the same policy twice gives back the original map |
| `Consent.AllAccepted` | src/stores/consent.ts:120-123 | after accept-all every policy is enabled and no required flag has changed |
| `Consent.Restored` | src/stores/consent.ts:149-154 | required policies are untouched; each other policy is enabled exactly when the stored object maps its name to `"granted"`, so a missing name counts as not granted |
| `Consent.ConsentModes` | src/stores/consent.ts:128-134 | the fold over the keys holds exactly the names of the visited policies, each mapped to the status of its flag |
| `Consent.Snapshot` | src/stores/consent.ts:127-134 | the snapshot has an entry for every policy; an entry is `"granted"` exactly when the policy is enabled, and `"denied"` otherwise |
| `Consent.SnapshotKeys` | src/stores/consent.ts:128-134 | a snapshot holds no property other than the seven policy names |
| `Consent.SnapshotValues` | src/stores/consent.ts:130 | every value in a snapshot is `"granted"` or `"denied"` |
| `Consent.ToggledKeepsRequired` | src/stores/consent.ts:113-118 | toggling keeps every required policy enabled |
| `Consent.AllAcceptedKeepsRequired` | src/stores/consent.ts:120-123 | accept-all keeps every required policy enabled |
| `Consent.RestoredKeepsRequired` | src/stores/consent.ts:149-154 | restoring keeps every required policy enabled, whatever the stored object says |
| `Consent.AcceptAllSnapshot` | src/stores/consent.ts:120-134 | the snapshot saved by accept-all maps every policy, and every property it holds, to `"granted"` |
| `Consent.SnapshotRoundTrip` | src/stores/consent.ts:127-154 | restoring a map's own snapshot gives back the same map |
| `Consent.SnapshotOfSameFlags` | src/stores/consent.ts:128-134 | two maps with the same enabled flags have the same snapshot |
| `Consent.RestoredSnapshotRoundTrip` | src/stores/consent.ts:127-161 | loading a snapshot saved under the same configuration and saving again writes that same snapshot back |
| `ConsentStore.EnableAll` | src/stores/consent.ts:121-123 | the accept-all loop yields exactly `AllAccepted` of the map it started from |
| `ConsentStore.ApplySavedConsent` | src/stores/consent.ts:149-154 | the restore loop yields exactly `Restored` of the map it started from and the parsed object |
| `ConsentStore.Store.constructor` | src/stores/consent.ts:65-111 | a new store holds the defaults with the banner shown and the relay log empty; it keeps the storage and relay it was given, and it is valid |
| `ConsentStore.Store.TogglePolicy` | src/stores/consent.ts:113-118 | the policy map becomes `Toggled` of the old one; the banner, the storage and the relay log are unchanged |
| `ConsentStore.Store.SaveConsent` | src/stores/consent.ts:127-142 | no policy changes; storage entry `gtm_consent` becomes the snapshot and no other entry changes; the relay log grows by one consent-update call with the snapshot if and only if the relay is available; the banner is hidden |
| `ConsentStore.Store.AcceptAll` | src/stores/consent.ts:120-125 | every policy becomes enabled; the snapshot of the new map is stored and, if the relay is available, relayed; the banner is hidden |
| `ConsentStore.Store.LoadSavedConsent` | src/stores/consent.ts:144-162 | without a `gtm_consent` entry nothing changes; with one, the policy map becomes `Restored` by the stored object, the relay (if available) receives that object itself, and the banner is hidden; storage is never written |
| `ConsentStore.SaveThenLoad` | src/stores/consent.ts:127-161 | a save followed by a load against the same storage leaves every policy as it was and hides the banner |

## Left out

- Labels and descriptions of the policies (`src/stores/consent.ts:6-11`) are display text with no behaviour. `PolicyConfig` keeps only `enabled` and `required`.
- JSON text is not modelled. Storage holds the parsed object (property name to string value), so `JSON.stringify` and `JSON.parse` are not modelled. The model does not cover stored text that fails to parse or that parses to `null`: in both cases the source throws. It also does not cover stored text that parses to a number, a string, a boolean or an array. In that case the source does not throw: every policy lookup gives `undefined`, so every non-required policy is disabled, the raw parsed value is relayed and the banner is hidden. An empty stored string, which the source's truthiness test treats as absent, is not covered either.
- Values in a stored object are strings in the model. JSON values of other types would restore exactly like any non-`"granted"` string. They would reach the relay as they are, and the model has no values for them.
- Storage writes always succeed in the model. The source does not catch a failing `localStorage.setItem`.
- Storage reads always succeed in the model. The source does not catch a `localStorage.getItem` that throws, for example when storage is blocked.
- The relay call is modelled as an entry appended to a log. What `gtag` does with the call is not modelled, and neither is a call that throws.
- The source mutates the policy objects in place through a reactive reference. The model reassigns the `policies` map field, and the two `forEach` loops build the new map in a local variable before storing it. Aliasing of the policy objects and Vue/Pinia reactivity are not modelled.
- `src/composables/useGoogleTagManager.ts` (script injection, data-layer push, timestamp) is not part of this model. Neither is `src/main.ts`, which calls `loadSavedConsent` once at start-up, nor `vite.config.ts`.
