# Credential hash registry, modelled in Dafny

This project models the credential hash registry of `tests/credential-hash-store.test.ts`. The registry holds:

- one admin identity,
- a whitelist of issuers,
- a map from credential hash to a record of issuer, subject, creation height, optional expiry height and a revoked flag.

The admin manages the whitelist and can hand the admin role to someone else. A whitelisted issuer stores credential hashes. The issuer of a record can revoke it. Anyone can ask whether a hash is currently valid, or read its record. Every operation answers with a value or a numeric error code:

| code | `Error` constructor | meaning |
|---|---|---|
| 100 | `NotAuthorized` | caller is not the admin, or not the record's issuer |
| 101 | `DuplicateHash` | a record for the hash exists |
| 102 | `NotFound` | no record for the hash |
| 103 | `Revoked` | the record is revoked |
| 104 | `Expired` | the record's expiry height has passed |
| 105 | `NotWhitelisted` | the caller of a store is not whitelisted |

The project has three files:

- `credential_model.dfy` (module `CredentialModel`) holds the value-level model:
  - the `State` datatype, with the two read-only queries as member functions;
  - `Step`, one state-changing operation applied to a state;
  - `Run`, a trace of such operations;
  - the lemmas about single steps and about whole traces.
- `credential_store.dfy` (module `CredentialStore`) holds the class `Registry`. Its fields `admin`, `whitelist` and `credentials` are updated in place by five methods. Each method states:
  - its answer;
  - the new value of every field;
  - that this answer and new state are exactly what `Step` gives from the old state. So every lemma about `Step` and `Run` applies to the object.
- `store_scenarios.dfy` (module `StoreScenarios`) holds scenario methods. Each builds a fresh `Registry` and asserts the expected answers.
  - Nine methods follow the source's test cases (lines 76-134). `NonAdminCannotWhitelist` and `AdminTransferred` assert more than their source cases do: that the whitelist stays empty, and that afterwards the old admin is refused and the new admin accepted.
  - Two methods are extra scenarios with no source test case. `RemovedIssuerCredentialStaysValid` shows that a removed issuer's credential stays valid. `ZeroExpiryNeverExpires` shows that an expiry of 0 never expires.

Identities and hashes are opaque strings. Heights are unbounded integers. An expiry height is `Option<int>`:

- `None` and `Some(0)` both mean "no expiry", because the source's test `data.expiresAt && …` treats 0 as absent.
- A negative height is a real expiry.

Records are stamped with height 9999. A validity check with no height given uses 9999.

The model keeps two details of the code:

- A store by a non-whitelisted caller answers 105 (tests/credential-hash-store.test.ts:25), not 100.
- An expiry height of 0 means no expiry (tests/credential-hash-store.test.ts:49).

## Model

| member | source | states |
|---|---|---|
| `CredentialModel.Error.Code` | tests/credential-hash-store.test.ts:12-62 | each error has a code from 100 to 105; 100 is exactly not-authorized and 105 exactly not-whitelisted |
| `CredentialModel.State.IsValid` | tests/credential-hash-store.test.ts:45-51 | succeeds (with true) exactly when the record exists, is not revoked, and has no expiry (absent or 0) or the height is at most the expiry; a missing hash gives 102 and a revoked one 103, whatever the height; 104 exactly when the record exists, is not revoked and is past expiry; the height defaults to 9999 |
| `CredentialModel.State.GetCredential` | tests/credential-hash-store.test.ts:53-56 | gives the stored record exactly when the hash is present, otherwise 102 |
| `CredentialModel.Step` | tests/credential-hash-store.test.ts:12-62 | a refused operation leaves the state unchanged and answers one of that operation's own error codes; success answers true; no step removes a record, changes its issuer, subject, timestamp or expiry, or un-revokes it; only a store adds keys; only a transfer changes the admin |
| `CredentialModel.NonAdminRejected` | tests/credential-hash-store.test.ts:8-62 | for a caller other than the admin, adding an issuer, removing an issuer and transferring admin each answer 100 and change nothing |
| `CredentialModel.AdminManagesWhitelist` | tests/credential-hash-store.test.ts:12-22 | the admin's add and remove always succeed and change only the whitelist, by adding or removing that one issuer |
| `CredentialModel.AddIssuerIdempotent` | tests/credential-hash-store.test.ts:12-16 | adding the same issuer a second time gives the same answer and state as the first time; after an admin's add the issuer is whitelisted |
| `CredentialModel.StoreErrorOrder` | tests/credential-hash-store.test.ts:24-26 | a non-whitelisted caller gets 105 whether or not the hash exists; a whitelisted caller storing an existing hash gets 101; both leave the state unchanged |
| `CredentialModel.StoreAddsOneRecord` | tests/credential-hash-store.test.ts:24-34 | a successful store needs a whitelisted caller and a new hash; it adds exactly that one key (the map grows by one); the new record has issuer = caller, the given subject, timestamp 9999, the given expiry, and is not revoked; every old record is kept as it was; admin and whitelist do not change |
| `CredentialModel.RevokeErrorOrder` | tests/credential-hash-store.test.ts:37-40 | an unknown hash gives 102 for any caller, the admin included; a known hash revoked by someone other than its issuer gives 100; both change nothing |
| `CredentialModel.RevokeMarksOnlyThatRecord` | tests/credential-hash-store.test.ts:37-42 | a successful revocation came from the record's issuer; it sets only that record's revoked flag, leaves admin and whitelist alone, and afterwards the hash fails validation with 103 |
| `CredentialModel.RevokeIdempotent` | tests/credential-hash-store.test.ts:37-43 | revoking a second time gives the same answer and state as the first time |
| `CredentialModel.TransferAdminHandsOver` | tests/credential-hash-store.test.ts:58-62 | the admin's transfer changes only the admin; after it, the old admin (if different) is refused when adding an issuer, and the new admin succeeds |
| `CredentialModel.ValidityIgnoresRoles` | tests/credential-hash-store.test.ts:45-51 | validity does not depend on the admin or the whitelist |
| `CredentialModel.RemoveIssuerKeepsValidity` | tests/credential-hash-store.test.ts:18-22 | removing an issuer, whether or not the call succeeds, leaves the validity of every hash at every height unchanged |
| `CredentialModel.RunExtends` | tests/credential-hash-store.test.ts:27-41 | after any trace of operations every earlier record is still present, with the same issuer, subject, timestamp and expiry, and still revoked if it was |
| `CredentialModel.RevokedStaysRevoked` | tests/credential-hash-store.test.ts:37-51 | once a record is revoked, after any trace it fails validation with 103 at every height |
| `CredentialModel.StoredHashRefused` | tests/credential-hash-store.test.ts:24-26 | once a hash is stored, after any trace a further store of it answers 105 or 101, never success |
| `CredentialModel.AtMostOneStore` | tests/credential-hash-store.test.ts:24-34 | in any trace, once a store of a hash has succeeded, every later store of the same hash fails |
| `CredentialModel.CreatingStore` | tests/credential-hash-store.test.ts:24-34 | a record that appears during a trace was created by a successful store of that hash, made by a caller whitelisted at that moment |
| `CredentialModel.IssuerWasWhitelisted` | tests/credential-hash-store.test.ts:24-33 | the record of a hash created during a trace still carries the issuer, subject and expiry of the store that created it, and timestamp 9999; that issuer was whitelisted when it stored, even if removed later |
| `CredentialStore.Registry.constructor` | tests/credential-hash-store.test.ts:70-74 | a new registry has the given admin, an empty whitelist and no credentials |
| `CredentialStore.Registry.IsAdmin` | tests/credential-hash-store.test.ts:8-10 | true exactly for the current admin |
| `CredentialStore.Registry.IsValid` | tests/credential-hash-store.test.ts:45-51 | true exactly when the field `credentials` holds a live record for the hash at that height; a missing hash gives 102, a revoked record 103, and 104 exactly when the record is present, unrevoked and not live |
| `CredentialStore.Registry.GetCredential` | tests/credential-hash-store.test.ts:53-56 | succeeds exactly when the hash is in `credentials`, with the stored record; otherwise 102 |
| `CredentialStore.Registry.AddIssuer` | tests/credential-hash-store.test.ts:12-16 | admin caller: answers true and adds the issuer to `whitelist`; any other caller: answers 100; admin and credentials never change; the result matches `Step` |
| `CredentialStore.Registry.RemoveIssuer` | tests/credential-hash-store.test.ts:18-22 | admin caller: answers true and removes the issuer from `whitelist`; any other caller: answers 100; admin and credentials never change; the result matches `Step` |
| `CredentialStore.Registry.StoreCredential` | tests/credential-hash-store.test.ts:24-35 | answers 105 for a non-whitelisted caller, then 101 for an existing hash, else true; on success `credentials` gains the new unrevoked record stamped 9999 under the hash; admin and whitelist never change; the result matches `Step` |
| `CredentialStore.Registry.RevokeCredential` | tests/credential-hash-store.test.ts:37-43 | answers 102 for an unknown hash, then 100 for a caller other than the record's issuer, else true; on success only that record's revoked flag becomes true; admin and whitelist never change; the result matches `Step` |
| `CredentialStore.Registry.TransferAdmin` | tests/credential-hash-store.test.ts:58-62 | admin caller: answers true and `admin` becomes the new admin; any other caller: answers 100; whitelist and credentials never change; the result matches `Step` |

## Left out

- The test framework and the per-test reset of the shared object are not modelled. The reset becomes the `Registry` constructor. The test cases become the methods of `StoreScenarios`.
- The concrete address and hash formats are not modelled. Identities and hashes are opaque strings.
- There is no real chain clock. The creation height is the constant 9999, as in the source. The query height is a parameter that defaults to 9999.
- JavaScript number semantics are not modelled: no fractions, NaN or infinities. Heights are unbounded integers.
- Truthiness of `expiresAt` is modelled only for absent and 0. Other falsy values (NaN, null) have no counterpart here.
- A JavaScript caller may pass a value of any type as `expiresAt`. The model accepts only optional integers.
- Aliasing of records is not modelled. `getCredential` in the source returns the stored record object itself, so a caller that mutates it changes the registry, which could even clear the revoked flag. `revokeCredential` likewise mutates that shared object. The model keeps records as values: `GetCredential` returns a copy, and revocation replaces the record in the map.
- The whitelist map only ever holds `true`, so it is modelled as a set. A caller that is absent from it and a caller mapped to a falsy value behave the same.
