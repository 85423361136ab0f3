# Access-key lifecycle of the Semaphore project API

This project models the access-key handlers of Semaphore's project API
(`api/projects/keys.go`). An access key is an SSH private key or cloud
credential (AWS, Google Cloud, DigitalOcean) a project uses to reach its
infrastructure. The handlers create, update, delete and list keys, and they
record an audit event after each successful change.

The model has four modules:

- `AccessKeys` (`access_keys.dfy`): the key record, where the project ID and
  the secret are optional because the source holds them as pointers. It also
  holds the audit event, the store's errors, one constructor per store call,
  and the response a handler leaves. That includes `Panic` for a nil
  dereference and `NoStatusWritten` for a handler that returns before writing
  a status.
- `KeyPolicy` (`key_policy.dfy`): the pure decisions.
  - Type and secret validation.
  - The newline that normalises a freshly supplied secret, with its inverse.
  - The secret merge on update.
  - The admission of a create or an update: reject, crash, or hand a record
    to the store.
  - The delete mode chosen from `setRemoved`, and how a delete error is
    answered.
  - The list-versus-single-key selection and its sort parameters.
  - The three audit events. Each has a parser that recovers the key name from
    its description.
- `KeyStore` (`key_store.dfy`): the store as a map from key ID to key, with
  lookup by (project, ID), update, soft delete and hard delete.
- `KeyHandlers` (`key_handlers.dfy`): the class `KeyService`. Its fields are
  the store map, the next ID the store assigns, the audit trail, and a log of
  every store call. Its methods `KeyMiddleware`, `GetKeys`, `AddKey`,
  `UpdateKey` and `RemoveKey` follow the handlers step by step, early returns
  included. Each method's postcondition ties the response and the new state
  to the policy functions. The class invariant, kept by every method, says
  that keys are filed under their own ID, below the next ID, and that every
  stored key passes the type and secret validation.

These behaviours of the code are modelled as written:

- A create appends the newline to the secret for every accepted type, not
  only for ssh keys, and so dereferences it. A cloud key with no secret
  therefore crashes, and a cloud key with an empty secret is stored as a lone
  newline.
- On update, a failed event write ends the request without a status after the
  store was already updated.
- A delete with any non-empty `setRemoved` value, `false` included, is a hard
  delete. The "in use" message names an inventory although a key is deleted.
- An update may change a key's type.
- An update hands the request body to the store, so the record rewritten is the
  one named by the body's `id`. That may be a different key than the one
  resolved for the request, even one of another project, while the audit event
  names the resolved key.

## Model

| member | source | states |
|---|---|---|
| `KeyPolicy.Validate` | api/projects/keys.go:74-89 | The type switch accepts exactly aws, gcloud, do and ssh. "Invalid key type" is returned exactly for any other type. "SSH Secret empty" is returned exactly for an ssh key whose secret is absent or empty. |
| `KeyPolicy.Normalize` | api/projects/keys.go:91 | A supplied secret is stored with its characters unchanged and exactly one newline appended after them. |
| `KeyPolicy.NormalizeAppendsOneNewline` | api/projects/keys.go:91 | The stored secret ends in exactly one more newline than the supplied secret, whatever the supplied secret already ends with. |
| `KeyPolicy.NormalizeRoundTrip` | api/projects/keys.go:91 | The supplied secret can be recovered from the stored one by stripping the terminator, so normalising loses nothing. |
| `KeyPolicy.DenormalizeRoundTrip` | api/projects/keys.go:148 | Every newline-terminated secret is the normal form of the secret obtained by stripping that newline. |
| `KeyPolicy.MergeSecret` | api/projects/keys.go:144-150 | An absent or empty supplied secret keeps the previous secret unchanged. Otherwise the result is the supplied secret plus one newline. |
| `KeyPolicy.MergeWithoutSecretKeepsOneNewline` | api/projects/keys.go:144-146 | An update without a secret does not add a second newline to a stored normalised secret. |
| `KeyPolicy.AdmitCreate` | api/projects/keys.go:67-91 | A nil or different body project is rejected with the project-mismatch 400 before anything else. A validation failure is rejected with its message. A valid key with a nil secret crashes. Otherwise the record handed to the store is the body with only its secret changed, to the supplied secret plus one newline. |
| `KeyPolicy.CreateQuirks` | api/projects/keys.go:74-91 | Only a cloud-type key can crash a create. A cloud key with an empty secret is stored as "\n". |
| `KeyPolicy.AdmitUpdate` | api/projects/keys.go:127-150 | An update never crashes and does no project check. It goes ahead exactly when the body passes validation and is otherwise rejected with the validation message. The record stored is the body with the merged secret. |
| `KeyPolicy.CreatedKeysAreWellFormed` | api/projects/keys.go:74-93 | Every key a create hands to the store passes validation and has a newline-terminated secret. |
| `KeyPolicy.UpdatedKeysAreWellFormed` | api/projects/keys.go:127-152 | Every record an update hands to the store passes validation. |
| `KeyPolicy.UpdateWithoutSecretKeepsSecret` | api/projects/keys.go:127-146 | A secretless update of an ssh key is rejected. A secretless update of a cloud key stores the previous key's secret. |
| `KeyPolicy.DeleteModeOf` | api/projects/keys.go:181 | The delete is soft exactly when the first `setRemoved` query value is empty or absent. |
| `KeyPolicy.DeleteOutcome` | api/projects/keys.go:183-199 | The handler goes on to the event exactly when the store reports no error. The 400 with `inUse: true` comes exactly from a hard delete refused with ErrInvalidOperation. Every other error is passed to the error writer. |
| `KeyPolicy.ListParamsOf` | api/projects/keys.go:43-46 | The sort column is the `sort` query value. The order is inverted exactly when `order` is "desc". |
| `KeyPolicy.SelectKeys` | api/projects/keys.go:35-46 | A key already resolved for the request is returned alone. Otherwise the project's keys are listed with the query's sort parameters. |
| `KeyPolicy.Describe` | api/projects/keys.go:102 | An audit description is "Access Key ", then the key name, then a space and the operation's verb. |
| `KeyPolicy.DescriptionNamesKey` | api/projects/keys.go:102 | An audit description "Access Key <name> <verb>" gives back exactly the key name it was built from. |
| `KeyPolicy.DescriptionsKeepVerbsApart` | api/projects/keys.go:102-201 | The created, updated and deleted descriptions (lines 102, 157 and 201) never parse as one of the other two operations. |
| `KeyPolicy.CreatedEvent` | api/projects/keys.go:100-108 | The create event carries the new key's project, object type "key", the new key's ID, and a description naming the key as created. |
| `KeyPolicy.UpdatedEvent` | api/projects/keys.go:157-165 | The update event carries the previous key's project and ID, object type "key", and a description naming the new name as updated. |
| `KeyPolicy.DeletedEvent` | api/projects/keys.go:201-206 | The delete event carries the key's project, no object type and no object ID, and a description naming the key as deleted. |
| `KeyStore.Lookup` | api/projects/keys.go:21-26 | The lookup finds a key exactly when the ID is stored under the given project. Otherwise it fails with ErrNotFound. |
| `KeyStore.Updated` | api/projects/keys.go:152 | A successful update rewrites the name, type and secret of the record stored under the body's ID. All other keys and fields stay. |
| `KeyStore.SoftDeleted` | api/projects/keys.go:184 | A successful soft delete sets the removed flag of the project's key and changes nothing else. |
| `KeyStore.HardDeleted` | api/projects/keys.go:186 | A successful hard delete removes the project's key and keeps every other key. |
| `KeyStore.DeletedKeysAndLookup` | api/projects/keys.go:183-186 | After a soft delete the key still resolves, flagged as removed. After a hard delete it no longer resolves. |
| `KeyStore.UpdateTargetsBodyId` | api/projects/keys.go:152-165 | When the body names another stored key, that key gets the new name and keeps its own project, the resolved key is left as it was, and the event still names the resolved key's project and ID. |
| `KeyStore.UpdateKeepsKeysWellFormed` | api/projects/keys.go:152 | An update with a valid record keeps every stored key valid and filed under its own ID. |
| `KeyHandlers.KeyService.KeyMiddleware` | api/projects/keys.go:13-31 | A key ID that does not parse is rejected with no store call. Otherwise one lookup by (project, ID) is made. A store error is passed to the error writer. Without one, the project's key is returned, or not-found when the ID is not a key of that project. |
| `KeyHandlers.KeyService.GetKeys` | api/projects/keys.go:34-56 | A key in the context is returned with no store call. Otherwise one listing call is made with the query's sort parameters, and its keys or its error are returned. |
| `KeyHandlers.KeyService.AddKey` | api/projects/keys.go:59-115 | A rejection or a crash leaves the store, the trail and the call log untouched. Otherwise the normalised key is handed to the store. On success it is stored under a fresh ID, not flagged as removed, and one "created" event is written. The response is 204 even when the event write fails, in which case the trail does not grow. |
| `KeyHandlers.KeyService.UpdateKey` | api/projects/keys.go:119-173 | A rejection leaves everything untouched. Otherwise the merged record is handed to the store, and a store error ends the request. After a successful update one "updated" event is written against the previous key. A failed event write returns with no status, yet the update stays applied. |
| `KeyHandlers.KeyService.RemoveKey` | api/projects/keys.go:176-213 | A key without a project crashes. Otherwise exactly one soft or hard delete call is made, chosen by `setRemoved`. A refused or failed delete records no event and leaves the keys as they were. A successful delete changes the store as that mode does and writes one "deleted" event, and the response is 204 whether or not the event write succeeds. |

## Left out

- HTTP mechanics are not modelled: status codes, JSON encoding, the error writer's mapping from store errors to statuses, and request binding. A body that does not bind is `BindRejected`, and a key ID that does not parse is `ParamRejected`.
- Request-context state is passed as explicit parameters: the resolved project, the resolved key and the query values.
- When a handler writes no status, the HTTP server then answers 200 with an empty body. The model stops at `NoStatusWritten`.
- Store internals are abstracted: SQL, how listings sort and filter out soft-deleted keys, and the referential-integrity check behind a refused hard delete. Every store call's error, and the listing's result, are parameters of the handler. Two results come from the map instead: a lookup that reports no error finds the key or reports it missing, and a created key gets the next ID from the map's counter.
- Modelling the store as a map rests on assumptions about it. It assigns increasing IDs. A create stores the record as handed, except that it gets the next ID and is not flagged as removed. A successful update rewrites name, type and secret under the record's ID. The lookup does not filter out soft-deleted keys.
- Logging of a failed event write is not modelled. Such a write only leaves the audit trail unchanged.
- Concurrency between requests, and the middleware's chaining to the next handler, are not modelled.
- The constant `desc` is defined outside `api/projects/keys.go`. The model takes it to be the string "desc".
- Go strings are byte sequences; the model uses character sequences, which agree on emptiness and on appending a newline.
