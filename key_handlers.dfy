/** The request handlers for access keys, run one request at a time against
    a store (`keys`, with the ID the store will assign next) and an audit
    trail (`events`). `calls` logs every store interaction in order, so that
    "nothing reached the store" can be stated. Each outcome the store may
    report is a parameter of the handler that makes the call. */
module KeyHandlers {
  import opened AccessKeys
  import opened KeyPolicy
  import opened KeyStore

  class KeyService {
    var keys: Keys
    var nextId: int
    var events: seq<Event>
    var calls: seq<StoreCall>

    /** Keys are filed under their own ID, below the next ID to assign, and
        every stored key passes validation. */
    ghost predicate Valid()
      reads this
    {
      forall id | id in keys :: keys[id].id == id && id < nextId && WellFormed(keys[id])
    }

    constructor ()
      ensures Valid()
      ensures keys == map[] && events == [] && calls == []
    {
      keys := map[];
      nextId := 1;
      events := [];
      calls := [];
    }

    /** Resolves the key named in the path for the handlers that follow.
        `lookupError` is an error the store reports other than a missing key. */
    method KeyMiddleware(project: int, keyId: Option<int>, lookupError: Option<StoreError>)
      returns (r: Result<AccessKey, Response>)
      requires Valid()
      modifies this`calls
      ensures keyId.None? ==> r == Err(ParamRejected) && calls == old(calls)
      ensures keyId.Some? ==> calls == old(calls) + [GetAccessKey(project, keyId.value)]
      ensures keyId.Some? && lookupError.Some? ==> r == Err(StoreFailure(lookupError.value))
      ensures keyId.Some? && lookupError.None? && Owns(keys, project, keyId.value) ==>
                r == Ok(keys[keyId.value])
      ensures keyId.Some? && lookupError.None? && !Owns(keys, project, keyId.value) ==>
                r == Err(StoreFailure(ErrNotFound))
    {
      if keyId.None? {
        return Err(ParamRejected);
      }
      calls := calls + [GetAccessKey(project, keyId.value)];
      var found := if lookupError.Some? then Err(lookupError.value) else Lookup(keys, project, keyId.value);
      if found.Err? {
        return Err(StoreFailure(found.error));
      }
      r := Ok(found.value);
    }

    /** Returns the resolved key, or the project's keys as the store lists them. */
    method GetKeys(contextKey: Option<AccessKey>, project: int, query: Query,
                   listed: Result<seq<AccessKey>, StoreError>)
      returns (resp: Response)
      modifies this`calls
      ensures contextKey.Some? ==> resp == OkKey(contextKey.value) && calls == old(calls)
      ensures contextKey.None? ==>
                calls == old(calls) + [GetAccessKeys(project, SelectKeys(contextKey, query).params)]
      ensures contextKey.None? && listed.Ok? ==> resp == OkKeys(listed.value)
      ensures contextKey.None? && listed.Err? ==> resp == StoreFailure(listed.error)
    {
      if contextKey.Some? {
        return OkKey(contextKey.value);
      }
      calls := calls + [GetAccessKeys(project, ListParamsOf(query))];
      if listed.Err? {
        return StoreFailure(listed.error);
      }
      resp := OkKeys(listed.value);
    }

    /** Creates a key under `project`. A failed event write is only logged. */
    method AddKey(project: int, body: Option<AccessKey>,
                  createError: Option<StoreError>, eventError: Option<StoreError>)
      returns (resp: Response)
      requires Valid()
      modifies this
      ensures Valid()
      ensures body.None? ==> resp == BindRejected && unchanged(this)
      ensures body.Some? && AdmitCreate(project, body.value).Rejected? ==>
                resp == AdmitCreate(project, body.value).response && unchanged(this)
      ensures body.Some? && AdmitCreate(project, body.value).Crashes? ==>
                resp == Panic && unchanged(this)
      ensures body.Some? && AdmitCreate(project, body.value).Admitted? && createError.Some? ==>
                var key := AdmitCreate(project, body.value).key;
                && resp == StoreFailure(createError.value)
                && keys == old(keys) && nextId == old(nextId) && events == old(events)
                && calls == old(calls) + [CreateAccessKey(key)]
      ensures body.Some? && AdmitCreate(project, body.value).Admitted? && createError.None? ==>
                var key := AdmitCreate(project, body.value).key;
                var newKey := key.(id := old(nextId), removed := false);
                && resp == NoContent
                && old(nextId) !in old(keys)
                && keys == old(keys)[newKey.id := newKey] && nextId == old(nextId) + 1
                && calls == old(calls) + [CreateAccessKey(key), CreateEvent(CreatedEvent(newKey))]
                && events == old(events) + (if eventError.None? then [CreatedEvent(newKey)] else [])
    {
      if body.None? {
        return BindRejected;
      }
      var key := body.value;
      if key.projectId.None? || key.projectId.value != project {
        return BadRequest(ProjectMismatchMessage, false);
      }
      var invalid := Validate(key.keyType, key.secret);
      if invalid.Some? {
        return BadRequest(Message(invalid.value), false);
      }
      if key.secret.None? {
        // the newline append dereferences the absent secret
        return Panic;
      }
      key := key.(secret := Some(key.secret.value + "\n"));

      calls := calls + [CreateAccessKey(key)];
      if createError.Some? {
        return StoreFailure(createError.value);
      }
      // the store files the new key under the next ID, not removed
      var newKey := key.(id := nextId, removed := false);
      keys := keys[nextId := newKey];
      nextId := nextId + 1;

      var event := CreatedEvent(newKey);
      calls := calls + [CreateEvent(event)];
      if eventError.None? {
        events := events + [event];
      }
      resp := NoContent;
    }

    /** Replaces the resolved key `oldKey` by the request body. A failed event
      write ends the request without a status, after the store was updated. */
    method UpdateKey(oldKey: AccessKey, body: Option<AccessKey>,
                     updateError: Option<StoreError>, eventError: Option<StoreError>)
      returns (resp: Response)
      requires Valid()
      modifies this
      ensures Valid() && nextId == old(nextId)
      ensures body.None? ==> resp == BindRejected && unchanged(this)
      ensures body.Some? && AdmitUpdate(oldKey, body.value).Rejected? ==>
                resp == AdmitUpdate(oldKey, body.value).response && unchanged(this)
      ensures body.Some? && AdmitUpdate(oldKey, body.value).Admitted? && updateError.Some? ==>
                var key := AdmitUpdate(oldKey, body.value).key;
                && resp == StoreFailure(updateError.value)
                && keys == old(keys) && events == old(events)
                && calls == old(calls) + [UpdateAccessKey(key)]
      ensures body.Some? && AdmitUpdate(oldKey, body.value).Admitted? && updateError.None? ==>
                var key := AdmitUpdate(oldKey, body.value).key;
                var event := UpdatedEvent(oldKey, key.name);
                && keys == Updated(old(keys), key)
                && calls == old(calls) + [UpdateAccessKey(key), CreateEvent(event)]
                && (eventError.None? ==> resp == NoContent && events == old(events) + [event])
                && (eventError.Some? ==> resp == NoStatusWritten && events == old(events))
    {
      if body.None? {
        return BindRejected;
      }
      var key := body.value;
      var invalid := Validate(key.keyType, key.secret);
      if invalid.Some? {
        return BadRequest(Message(invalid.value), false);
      }
      if key.secret.None? || |key.secret.value| == 0 {
        key := key.(secret := oldKey.secret);
      } else {
        key := key.(secret := Some(key.secret.value + "\n"));
      }

      calls := calls + [UpdateAccessKey(key)];
      if updateError.Some? {
        return StoreFailure(updateError.value);
      }
      keys := Updated(keys, key);

      var event := UpdatedEvent(oldKey, key.name);
      calls := calls + [CreateEvent(event)];
      if eventError.Some? {
        // logged, and the request ends here
        return NoStatusWritten;
      }
      events := events + [event];
      resp := NoContent;
    }

    /** Deletes the resolved key: softly when `setRemoved` is empty, for good
      otherwise. A failed event write is only logged. */
    method RemoveKey(key: AccessKey, query: Query,
                     deleteError: Option<StoreError>, eventError: Option<StoreError>)
      returns (resp: Response)
      requires Valid()
      modifies this
      ensures Valid() && nextId == old(nextId)
      ensures key.projectId.None? ==> resp == Panic && unchanged(this)
      ensures key.projectId.Some? ==>
                var project := key.projectId.value;
                var mode := DeleteModeOf(query);
                var call := if mode == Soft then DeleteAccessKeySoft(project, key.id)
                            else DeleteAccessKey(project, key.id);
                && (DeleteOutcome(mode, deleteError).Some? ==>
                      resp == DeleteOutcome(mode, deleteError).value
                      && keys == old(keys) && events == old(events)
                      && calls == old(calls) + [call])
                && (DeleteOutcome(mode, deleteError).None? ==>
                      resp == NoContent
                      && keys == (if mode == Soft then SoftDeleted(old(keys), project, key.id)
                                  else HardDeleted(old(keys), project, key.id))
                      && calls == old(calls) + [call, CreateEvent(DeletedEvent(key))]
                      && events == old(events) + (if eventError.None? then [DeletedEvent(key)] else []))
    {
      if key.projectId.None? {
        // both store calls dereference the key's project
        return Panic;
      }
      var project := key.projectId.value;
      var softDeletion := |QueryGet(query, "setRemoved")| == 0;

      if softDeletion {
        calls := calls + [DeleteAccessKeySoft(project, key.id)];
      } else {
        calls := calls + [DeleteAccessKey(project, key.id)];
        if deleteError == Some(ErrInvalidOperation) {
          return BadRequest(InUseMessage, true);
        }
      }
      if deleteError.Some? {
        return StoreFailure(deleteError.value);
      }
      keys := if softDeletion then SoftDeleted(keys, project, key.id) else HardDeleted(keys, project, key.id);

      var event := DeletedEvent(key);
      calls := calls + [CreateEvent(event)];
      if eventError.None? {
        events := events + [event];
      }
      resp := NoContent;
    }
  }
}
