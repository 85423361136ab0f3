/** The entities of the access-key handlers: keys, audit events, store calls
    and the responses a handler produces, with HTTP abstracted away. */
module AccessKeys {

  datatype Option<T> = None | Some(value: T)

  datatype Result<T, E> = Ok(value: T) | Err(error: E)

  /** A stored credential. `projectId` and `secret` are pointers in the
      source record, so either may be absent. */
  datatype AccessKey = AccessKey(
    id: int,
    name: string,
    keyType: string,
    projectId: Option<int>,
    secret: Option<string>,
    removed: bool)

  /** An audit-trail entry. The description is always set by the handlers;
      object type and object ID are left unset by a delete. */
  datatype Event = Event(
    projectId: Option<int>,
    objectType: Option<string>,
    objectId: Option<int>,
    description: string)

  /** Errors the store may report. `ErrInvalidOperation` is what a hard delete
      of a key still referenced elsewhere yields. */
  datatype StoreError = ErrInvalidOperation | ErrNotFound | ErrOther(reason: string)

  /** Sorting parameters handed to the store's listing. */
  datatype ListParams = ListParams(sortBy: string, sortInverted: bool)

  /** One interaction with the store, in the order the handlers make them. */
  datatype StoreCall =
    | GetAccessKey(projectId: int, keyId: int)
    | GetAccessKeys(listProject: int, params: ListParams)
    | CreateAccessKey(created: AccessKey)
    | UpdateAccessKey(updated: AccessKey)
    | DeleteAccessKeySoft(softProject: int, softKeyId: int)
    | DeleteAccessKey(hardProject: int, hardKeyId: int)
    | CreateEvent(event: Event)

  /** What a handler leaves on the wire. */
  datatype Response =
    | NoContent                                // 204
    | BadRequest(message: string, inUse: bool) // 400 with a JSON error body
    | StoreFailure(error: StoreError)          // the store's error, translated by the error writer
    | OkKey(key: AccessKey)                    // 200 with one key
    | OkKeys(keys: seq<AccessKey>)             // 200 with a listing
    | BindRejected                             // the body did not bind; the binder answered
    | ParamRejected                            // the key ID in the path did not parse
    | NoStatusWritten                          // the handler returned before writing a status
    | Panic                                    // a nil pointer was dereferenced

  const ProjectMismatchMessage := "Project ID in body and URL must be the same"
  const SshSecretEmptyMessage := "SSH Secret empty"
  const InvalidKeyTypeMessage := "Invalid key type"
  const InUseMessage := "Inventory is in use by one or more templates"

  /** The object type written into create and update events. */
  const KeyObjectType := "key"

  /** The `order` value that asks for a descending listing. */
  const Desc := "desc"

  /** URL query values, each name with the values in the order given. */
  type Query = map<string, seq<string>>

  /** The first value given for `name`, or "" when there is none. */
  function QueryGet(query: Query, name: string): (v: string)
    ensures name !in query || query[name] == [] ==> v == ""
    ensures name in query && query[name] != [] ==> v == query[name][0]
  {
    if name in query && |query[name]| > 0 then query[name][0] else ""
  }
}
