/** The pure decisions inside the access-key handlers: which keys are
    acceptable, how a secret is normalised and merged, whether a create or an
    update may reach the store, which delete mode a request asks for, how a
    delete error is answered, and what the audit trail records. */
module KeyPolicy {
  import opened AccessKeys

  // ---------------------------------------------------------------------
  // Type and secret validation
  // ---------------------------------------------------------------------

  /** Key types that carry cloud credentials; their secret is not checked. */
  const CloudKeyTypes: set<string> := {"aws", "gcloud", "do"}

  /** The closed set of key types the handlers accept. */
  const AllowedKeyTypes: set<string> := CloudKeyTypes + {"ssh"}

  /** A secret that is present and not empty. */
  predicate HasSecret(secret: Option<string>)
  {
    secret.Some? && |secret.value| > 0
  }

  datatype ValidationError = InvalidKeyType | SshSecretEmpty

  function Message(e: ValidationError): string
  {
    match e
    case InvalidKeyType => InvalidKeyTypeMessage
    case SshSecretEmpty => SshSecretEmptyMessage
  }

  /** The type switch shared by create and update. */
  function Validate(keyType: string, secret: Option<string>): (r: Option<ValidationError>)
    ensures r == None <==> keyType in AllowedKeyTypes && (keyType == "ssh" ==> HasSecret(secret))
    ensures r == Some(InvalidKeyType) <==> keyType !in AllowedKeyTypes
    ensures r == Some(SshSecretEmpty) <==> keyType == "ssh" && !HasSecret(secret)
  {
    match keyType
    case "aws" | "gcloud" | "do" => None
    case "ssh" => if HasSecret(secret) then None else Some(SshSecretEmpty)
    case _ => Some(InvalidKeyType)
  }

  /** A key whose type and secret pass validation. */
  predicate WellFormed(k: AccessKey)
  {
    Validate(k.keyType, k.secret) == None
  }

  // ---------------------------------------------------------------------
  // Secret normalisation
  // ---------------------------------------------------------------------

  /** A freshly supplied secret gets one newline appended. */
  function Normalize(secret: string): (r: string)
    ensures |r| == |secret| + 1
    ensures r[..|secret|] == secret && r[|secret|] == '\n'
  {
    secret + "\n"
  }

  /** The number of newlines a string ends with. */
  function TrailingNewlines(s: string): (n: nat)
    ensures n <= |s|
    ensures n > 0 <==> |s| > 0 && s[|s| - 1] == '\n'
    decreases |s|
  {
    if |s| > 0 && s[|s| - 1] == '\n' then 1 + TrailingNewlines(s[..|s| - 1]) else 0
  }

  /** The inverse of Normalize: strips the terminator a stored secret carries. */
  function Denormalize(stored: string): (r: Option<string>)
    ensures r.Some? <==> |stored| > 0 && stored[|stored| - 1] == '\n'
    ensures r.Some? ==> |r.value| + 1 == |stored|
  {
    if |stored| > 0 && stored[|stored| - 1] == '\n' then Some(stored[..|stored| - 1]) else None
  }

  /** Normalising adds exactly one newline, whatever the secret already ends with. */
  lemma NormalizeAppendsOneNewline(secret: string)
    ensures TrailingNewlines(Normalize(secret)) == TrailingNewlines(secret) + 1
  {
  }

  /** Normalising loses nothing: the supplied secret is recovered from the stored one. */
  lemma NormalizeRoundTrip(secret: string)
    ensures Denormalize(Normalize(secret)) == Some(secret)
  {
  }

  /** Every newline-terminated stored secret is the normal form of exactly one secret. */
  lemma DenormalizeRoundTrip(stored: string)
    requires Denormalize(stored).Some?
    ensures Normalize(Denormalize(stored).value) == stored
  {
  }

  // ---------------------------------------------------------------------
  // Secret merge on update
  // ---------------------------------------------------------------------

  /** An absent or empty supplied secret keeps the previous one untouched;
      any other is normalised and replaces it. */
  function MergeSecret(supplied: Option<string>, previous: Option<string>): (r: Option<string>)
    ensures !HasSecret(supplied) ==> r == previous
    ensures HasSecret(supplied) ==> r.Some? && Denormalize(r.value) == supplied
  {
    if !HasSecret(supplied) then previous
    else Some(Normalize(supplied.value))
  }

  /** An update that supplies no secret does not re-append a newline: a secret
      stored as Normalize(s) still ends in exactly one more newline than s. */
  lemma MergeWithoutSecretKeepsOneNewline(supplied: Option<string>, s: string)
    requires !HasSecret(supplied)
    ensures MergeSecret(supplied, Some(Normalize(s))).Some?
    ensures TrailingNewlines(MergeSecret(supplied, Some(Normalize(s))).value) == TrailingNewlines(s) + 1
  {
  }

  // ---------------------------------------------------------------------
  // Admission of a create or an update
  // ---------------------------------------------------------------------

  /** What a handler decides before touching the store: answer at once,
      crash, or hand `key` to the store. */
  datatype Admission = Rejected(response: Response) | Crashes | Admitted(key: AccessKey)

  /** The checks of a create, in the source's order: project, type and
      secret, then the newline append that dereferences the secret. */
  function AdmitCreate(project: int, body: AccessKey): (a: Admission)
    ensures body.projectId != Some(project) ==>
              a == Rejected(BadRequest(ProjectMismatchMessage, false))
    ensures body.projectId == Some(project) && Validate(body.keyType, body.secret).Some? ==>
              a == Rejected(BadRequest(Message(Validate(body.keyType, body.secret).value), false))
    ensures a.Crashes? <==>
              body.projectId == Some(project) && WellFormed(body) && body.secret.None?
    ensures a.Admitted? <==>
              body.projectId == Some(project) && WellFormed(body) && body.secret.Some?
    ensures a.Admitted? ==>
              a.key == body.(secret := a.key.secret) && a.key.secret.Some?
              && Denormalize(a.key.secret.value) == body.secret
  {
    if body.projectId.None? || body.projectId.value != project then
      Rejected(BadRequest(ProjectMismatchMessage, false))
    else if Validate(body.keyType, body.secret).Some? then
      Rejected(BadRequest(Message(Validate(body.keyType, body.secret).value), false))
    else if body.secret.None? then
      Crashes
    else
      Admitted(body.(secret := Some(Normalize(body.secret.value))))
  }

  /** Only a cloud key without a secret crashes a create, and a cloud key with
      an empty secret is stored with a lone newline. */
  lemma CreateQuirks(project: int, body: AccessKey)
    ensures AdmitCreate(project, body).Crashes? ==> body.keyType in CloudKeyTypes
    ensures body.projectId == Some(project) && body.keyType in CloudKeyTypes && body.secret == Some("") ==>
              AdmitCreate(project, body) == Admitted(body.(secret := Some("\n")))
  {
  }

  /** The checks of an update: type and secret only (no project check), then
      the secret merge against the key being replaced. */
  function AdmitUpdate(previous: AccessKey, body: AccessKey): (a: Admission)
    ensures !a.Crashes?
    ensures a.Admitted? <==> WellFormed(body)
    ensures a.Rejected? ==>
              a.response == BadRequest(Message(Validate(body.keyType, body.secret).value), false)
    ensures a.Admitted? ==>
              a.key == body.(secret := MergeSecret(body.secret, previous.secret))
  {
    var invalid := Validate(body.keyType, body.secret);
    if invalid.Some? then Rejected(BadRequest(Message(invalid.value), false))
    else Admitted(body.(secret := MergeSecret(body.secret, previous.secret)))
  }

  /** Every key a create hands to the store passes validation and carries a
      newline-terminated secret. */
  lemma CreatedKeysAreWellFormed(project: int, body: AccessKey)
    requires AdmitCreate(project, body).Admitted?
    ensures WellFormed(AdmitCreate(project, body).key)
    ensures TrailingNewlines(AdmitCreate(project, body).key.secret.value) > 0
  {
  }

  /** Every key an update hands to the store passes validation. */
  lemma UpdatedKeysAreWellFormed(previous: AccessKey, body: AccessKey)
    requires AdmitUpdate(previous, body).Admitted?
    ensures WellFormed(AdmitUpdate(previous, body).key)
  {
  }

  /** An update without a secret keeps the secret of the key it replaces. */
  lemma UpdateWithoutSecretKeepsSecret(previous: AccessKey, body: AccessKey)
    requires body.keyType in AllowedKeyTypes && !HasSecret(body.secret)
    ensures body.keyType != "ssh" <==> AdmitUpdate(previous, body).Admitted?
    ensures AdmitUpdate(previous, body).Admitted? ==> AdmitUpdate(previous, body).key.secret == previous.secret
  {
  }

  // ---------------------------------------------------------------------
  // Delete mode and error translation
  // ---------------------------------------------------------------------

  datatype DeleteMode = Soft | Hard

  /** Soft deletion exactly when the `setRemoved` query value is empty. */
  function DeleteModeOf(query: Query): (m: DeleteMode)
    ensures m == Soft <==> QueryGet(query, "setRemoved") == ""
  {
    if |QueryGet(query, "setRemoved")| == 0 then Soft else Hard
  }

  /** How the outcome of the store's delete is answered: None means the
      delete went through and the handler goes on to the event. */
  function DeleteOutcome(mode: DeleteMode, error: Option<StoreError>): (r: Option<Response>)
    ensures r.None? <==> error.None?
    ensures r.Some? && r.value.BadRequest? <==> mode == Hard && error == Some(ErrInvalidOperation)
    ensures r.Some? && r.value.BadRequest? ==> r.value == BadRequest(InUseMessage, true)
    ensures r.Some? && !r.value.BadRequest? ==> r.value == StoreFailure(error.value)
  {
    match error
    case None => None
    case Some(e) =>
      if mode == Hard && e == ErrInvalidOperation then Some(BadRequest(InUseMessage, true))
      else Some(StoreFailure(e))
  }

  // ---------------------------------------------------------------------
  // Listing
  // ---------------------------------------------------------------------

  /** Sort column from `sort`; descending exactly when `order` is "desc". */
  function ListParamsOf(query: Query): (p: ListParams)
    ensures p.sortBy == QueryGet(query, "sort")
    ensures p.sortInverted <==> QueryGet(query, "order") == Desc
  {
    ListParams(QueryGet(query, "sort"), QueryGet(query, "order") == Desc)
  }

  datatype KeySelection = SingleKey(key: AccessKey) | ListKeys(params: ListParams)

  /** A key already resolved for the request short-circuits the listing. */
  function SelectKeys(contextKey: Option<AccessKey>, query: Query): (s: KeySelection)
    ensures s.SingleKey? <==> contextKey.Some?
    ensures s.SingleKey? ==> s.key == contextKey.value
    ensures s.ListKeys? ==> s.params == ListParamsOf(query)
  {
    match contextKey
    case Some(k) => SingleKey(k)
    case None => ListKeys(ListParamsOf(query))
  }

  // ---------------------------------------------------------------------
  // Audit events
  // ---------------------------------------------------------------------

  const DescriptionPrefix := "Access Key "

  /** The audit description of an operation `verb` on the key named `name`. */
  function Describe(name: string, verb: string): (d: string)
    ensures |d| == |DescriptionPrefix| + |name| + 1 + |verb|
    ensures d[..|DescriptionPrefix|] == DescriptionPrefix
    ensures d[|DescriptionPrefix|..|d| - |verb| - 1] == name
    ensures d[|d| - |verb| - 1..] == " " + verb
  {
    DescriptionPrefix + name + " " + verb
  }

  /** The inverse of Describe: the key name an audit description is about. */
  function NameInDescription(description: string, verb: string): (r: Option<string>)
    ensures r.Some? ==> |r.value| + |DescriptionPrefix| + |verb| + 1 == |description|
  {
    var tail := " " + verb;
    if |description| >= |DescriptionPrefix| + |tail|
       && description[..|DescriptionPrefix|] == DescriptionPrefix
       && description[|description| - |tail|..] == tail
    then Some(description[|DescriptionPrefix|..|description| - |tail|])
    else None
  }

  /** An audit description names the key it is about. */
  lemma DescriptionNamesKey(name: string, verb: string)
    ensures NameInDescription(Describe(name, verb), verb) == Some(name)
  {
  }

  const Verbs: set<string> := {"created", "updated", "deleted"}

  /** A description for one operation never reads as one for another. */
  lemma DescriptionsKeepVerbsApart(name: string, verb: string, other: string)
    requires verb in Verbs && other in Verbs && verb != other
    ensures NameInDescription(Describe(name, verb), other) == None
  {
    var d := Describe(name, verb);
    assert |verb| == |other| == 7;
    assert d[|d| - |other| - 1..] == " " + verb;
    assert (" " + verb)[1..] == verb && (" " + other)[1..] == other;
  }

  /** The event recorded after a create: tied to the new key's project and ID. */
  function CreatedEvent(newKey: AccessKey): (e: Event)
    ensures e.projectId == newKey.projectId
    ensures e.objectType == Some(KeyObjectType) && e.objectId == Some(newKey.id)
    ensures NameInDescription(e.description, "created") == Some(newKey.name)
  {
    DescriptionNamesKey(newKey.name, "created");
    Event(newKey.projectId, Some(KeyObjectType), Some(newKey.id), Describe(newKey.name, "created"))
  }

  /** The event recorded after an update: tied to the previous key's project
      and ID, named after the new name. */
  function UpdatedEvent(previous: AccessKey, newName: string): (e: Event)
    ensures e.projectId == previous.projectId
    ensures e.objectType == Some(KeyObjectType) && e.objectId == Some(previous.id)
    ensures NameInDescription(e.description, "updated") == Some(newName)
  {
    DescriptionNamesKey(newName, "updated");
    Event(previous.projectId, Some(KeyObjectType), Some(previous.id), Describe(newName, "updated"))
  }

  /** The event recorded after a delete: the key's project, no object type or ID. */
  function DeletedEvent(key: AccessKey): (e: Event)
    ensures e.projectId == key.projectId
    ensures e.objectType.None? && e.objectId.None?
    ensures NameInDescription(e.description, "deleted") == Some(key.name)
  {
    DescriptionNamesKey(key.name, "deleted");
    Event(key.projectId, None, None, Describe(key.name, "deleted"))
  }
}
