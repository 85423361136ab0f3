/** The store behind the handlers, reduced to a map from key ID to key.
    Whether a call fails is decided by the caller of the handlers (an input),
    not here; these functions say what a call that succeeds does. */
module KeyStore {
  import opened AccessKeys
  import opened KeyPolicy

  type Keys = map<int, AccessKey>

  /** Does `id` name a key of `project`? */
  predicate Owns(keys: Keys, project: int, id: int)
  {
    id in keys && keys[id].projectId == Some(project)
  }

  /** The lookup by (project, ID) that resolves a key for a request. */
  function Lookup(keys: Keys, project: int, id: int): (r: Result<AccessKey, StoreError>)
    ensures r.Ok? <==> Owns(keys, project, id)
    ensures r.Ok? ==> r.value == keys[id]
    ensures r.Err? ==> r.error == ErrNotFound
  {
    if Owns(keys, project, id) then Ok(keys[id]) else Err(ErrNotFound)
  }

  /** A successful update rewrites name, type and secret of the key stored
      under the record's ID; project, ID and removal flag stay. */
  function Updated(keys: Keys, record: AccessKey): (r: Keys)
    ensures r.Keys == keys.Keys
    ensures forall id | id in keys && id != record.id :: r[id] == keys[id]
    ensures record.id in keys ==>
              r[record.id].id == keys[record.id].id
              && r[record.id].projectId == keys[record.id].projectId
              && r[record.id].removed == keys[record.id].removed
              && r[record.id].name == record.name
              && r[record.id].keyType == record.keyType
              && r[record.id].secret == record.secret
  {
    if record.id in keys then
      keys[record.id := keys[record.id].(name := record.name, keyType := record.keyType, secret := record.secret)]
    else keys
  }

  /** A successful soft delete flags the key as removed and keeps it. */
  function SoftDeleted(keys: Keys, project: int, id: int): (r: Keys)
    ensures r.Keys == keys.Keys
    ensures forall i | i in keys && i != id :: r[i] == keys[i]
    ensures id in keys ==>
              r[id] == if Owns(keys, project, id) then keys[id].(removed := true) else keys[id]
  {
    if Owns(keys, project, id) then keys[id := keys[id].(removed := true)] else keys
  }

  /** A successful hard delete removes the key. */
  function HardDeleted(keys: Keys, project: int, id: int): (r: Keys)
    ensures r.Keys == if Owns(keys, project, id) then keys.Keys - {id} else keys.Keys
    ensures forall i | i in r :: r[i] == keys[i]
  {
    if Owns(keys, project, id) then keys - {id} else keys
  }

  /** A soft-deleted key can still be looked up, now flagged as removed;
      a hard-deleted one cannot. */
  lemma DeletedKeysAndLookup(keys: Keys, project: int, id: int)
    requires Owns(keys, project, id)
    ensures Lookup(SoftDeleted(keys, project, id), project, id) == Ok(keys[id].(removed := true))
    ensures Lookup(HardDeleted(keys, project, id), project, id) == Err(ErrNotFound)
  {
  }

  /** A successful update keeps every stored key well-formed and filed under
      its own ID, given that the record handed to the store is well-formed. */
  lemma UpdateKeepsKeysWellFormed(keys: Keys, record: AccessKey)
    requires forall i | i in keys :: keys[i].id == i && WellFormed(keys[i])
    requires WellFormed(record)
    ensures forall i | i in Updated(keys, record) ::
              Updated(keys, record)[i].id == i && WellFormed(Updated(keys, record)[i])
  {
  }

  /** The update rewrites the record named by the body's ID, which need not
      be the key resolved for the request, nor even one of its project; the
      audit event still names the resolved key. */
  lemma UpdateTargetsBodyId(keys: Keys, previous: AccessKey, record: AccessKey)
    requires record.id in keys && previous.id in keys && record.id != previous.id
    ensures Updated(keys, record)[previous.id] == keys[previous.id]
    ensures Updated(keys, record)[record.id].name == record.name
    ensures Updated(keys, record)[record.id].projectId == keys[record.id].projectId
    ensures UpdatedEvent(previous, record.name).objectId == Some(previous.id)
    ensures UpdatedEvent(previous, record.name).projectId == previous.projectId
  {
  }
}
