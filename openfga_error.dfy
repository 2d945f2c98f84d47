/** The OpenFGA authorization error taxonomy (`OpenFGAError`), its messages,
    the classification of raw store statuses, and its projection onto the
    catalog's REST error shape. */
module OpenFga {
  import opened Wrappers
  import opened Text
  import Grpc
  import Rest

  newtype u32 = x: int | 0 <= x < 0x1_0000_0000
  newtype u64 = x: int | 0 <= x < 0x1_0000_0000_0000_0000
  newtype i32 = x: int | -0x8000_0000 <= x < 0x8000_0000

  // Payloads the layer only carries along, never inspects.
  type WriteRequest(==)
  type CheckRequest(==)
  type ReadRequest(==)
  type ReadRequestTupleKey(==)
  type CredentialError(==)   // middle::Error
  type TransportError(==)    // tonic::transport::Error

  /** An invalid bearer-token header value, known by its diagnostic text. */
  datatype InvalidMetadataValue = InvalidMetadataValue(text: string)

  /** An authorization entity type, known by its debug name. */
  datatype FgaType = FgaType(name: string)

  datatype OpenFGAError =
    | AuthorizationModelIdFailed(reason: string)
    | ClientCredentialFailed(credentialError: CredentialError)
    | ConnectionFailed(transportError: TransportError)
    | Internal(status: Grpc.Status)
    | InvalidBearerToken(invalidValue: InvalidMetadataValue)
    | ListAuthenticationModelsFailed(status: Grpc.Status)
    | ListStoresFailed(status: Grpc.Status)
    | ReadFailed(readRequest: ReadRequest, source: Grpc.Status)
    | CheckFailed(checkRequest: CheckRequest, source: Grpc.Status)
    | StoreCreationFailed(status: Grpc.Status)
    | StoreNotFound(store: string)
    | TooManyAuthorizationModels(maxPages: u32)
    | TooManyPages(maxPages: u32, tuple: ReadRequestTupleKey)
    | Unauthenticated(status: Grpc.Status)
    | UnexpectedEntity(types: seq<FgaType>, value: string)
    | UnknownType(typeName: string)
    | InvalidEntity(entity: string)
    | UnknownModelVersionApplied(version: u64)
    | WriteAuthorizationModelFailed(status: Grpc.Status)
    | WriteFailed(writeRequest: WriteRequest, source: Grpc.Status)
    | TooManyWrites(actual: i32, max: i32)
    | NoProjectId
    | AuthenticationRequired
    | Unauthorized(user: string, relation: string, obj: string)
    | SelfAssignment(assignee: string)

  /** `{:?}` of a list of entity types. */
  function TypesText(types: seq<FgaType>): (t: string)
    ensures |t| >= 2 && t[0] == '[' && t[|t| - 1] == ']'
    ensures forall i :: 0 <= i < |types| ==> IsInfix(types[i].name, t)
  {
    var names := seq(|types|, i requires 0 <= i < |types| => types[i].name);
    EnclosedJoinHasParts("[", names, ", ", "]");
    assert forall i :: 0 <= i < |types| ==> names[i] == types[i].name;
    "[" + Join(names, ", ") + "]"
  }

  const TOO_MANY_WRITES_HEAD := "Too many writes and deletes in single Authorization transaction (actual) "

  /** The batch-size message around the printed actual and maximum counts. */
  function TooManyWritesText(actual: string, max: string): string {
    TOO_MANY_WRITES_HEAD + actual + " > " + max + " (max)"
  }

  /** Proof step: both counts occur in the batch-size message. */
  lemma TooManyWritesTextNames(actual: string, max: string)
    ensures IsInfix(actual, TooManyWritesText(actual, max))
    ensures IsInfix(max, TooManyWritesText(actual, max))
  {
    InfixPair(TOO_MANY_WRITES_HEAD, actual, " > ", max, " (max)");
  }

  /** The human-readable message of each error (its `Display`). */
  function Display(e: OpenFGAError): (s: string)
    ensures |s| > 0
  {
    match e
    case AuthorizationModelIdFailed(reason) => "Authorization Model ID failed: " + reason
    case ClientCredentialFailed(_) => "Client Credential refresh failed"
    case ConnectionFailed(_) => "Connection to OpenFGA failed"
    case Internal(_) => "Internal Authorization Error"
    case InvalidBearerToken(v) => "Invalid Bearer Token for OpenFGA: " + v.text
    case ListAuthenticationModelsFailed(_) => "Listing authentication models failed"
    case ListStoresFailed(_) => "OpenFGA Error: Listing stores failed"
    case ReadFailed(_, _) => "Reading tuples failed"
    case CheckFailed(_, _) => "Authorization check failed"
    case StoreCreationFailed(status) => "Store creation failed: " + Grpc.StatusText(status)
    case StoreNotFound(store) => "Store " + store + " not found. Please ensure to run migration first."
    case TooManyAuthorizationModels(max) =>
      "Too many authorization models in database. Max allowed pages: " + NatToString(max as nat)
    case TooManyPages(_, _) => "Too many pages"
    case Unauthenticated(_) => "Authentication to Authorization system failed"
    case UnexpectedEntity(types, value) => "Unexpected entity for type " + TypesText(types) + ": " + value
    case UnknownType(name) => "Unknown type: " + name
    case InvalidEntity(entity) => "Invalid entity string: `" + entity + "`"
    case UnknownModelVersionApplied(_) => "Unknown model version currently applied"
    case WriteAuthorizationModelFailed(status) => "Failed to write Authorization model: " + Grpc.StatusText(status)
    case WriteFailed(_, _) => "Failed to write Authorization tuples"
    case TooManyWrites(actual, max) =>
      TooManyWritesText(IntToString(actual as int), IntToString(max as int))
    case NoProjectId => "Project ID could not be inferred from request. Please specify it explicitly."
    case AuthenticationRequired => "Authentication required"
    case Unauthorized(user, relation, obj) =>
      "Unauthorized for action `" + relation + "` on `" + obj + "` for `" + user + "`"
    case SelfAssignment(assignee) => "Cannot assign " + assignee + " to itself"
  }

  // Messages name the values their errors carry.

  /** Proof step: the batch-size arm of `Display`, kept apart so that the
      infix proof below does not unfold the whole message. */
  lemma DisplayTooManyWrites(actual: i32, max: i32)
    ensures Display(TooManyWrites(actual, max)) == TooManyWritesText(IntToString(actual as int), IntToString(max as int))
  {}

  lemma TooManyWritesNamesCounts(actual: i32, max: i32)
    ensures IsInfix(IntToString(actual as int), Display(TooManyWrites(actual, max)))
    ensures IsInfix(IntToString(max as int), Display(TooManyWrites(actual, max)))
  {
    DisplayTooManyWrites(actual, max);
    TooManyWritesTextNames(IntToString(actual as int), IntToString(max as int));
  }

  lemma StoreNotFoundNamesStore(store: string)
    ensures IsInfix(store, Display(StoreNotFound(store)))
  {
    InfixOfConcat("Store ", store, " not found. Please ensure to run migration first.");
  }

  lemma UnauthorizedNamesAction(user: string, relation: string, obj: string)
    ensures IsInfix(relation, Display(Unauthorized(user, relation, obj)))
    ensures IsInfix(obj, Display(Unauthorized(user, relation, obj)))
    ensures IsInfix(user, Display(Unauthorized(user, relation, obj)))
  {
    InfixTriple("Unauthorized for action `", relation, "` on `", obj, "` for `", user, "`");
  }

  lemma SelfAssignmentNamesAssignee(assignee: string)
    ensures IsInfix(assignee, Display(SelfAssignment(assignee)))
  {
    InfixOfConcat("Cannot assign ", assignee, " to itself");
  }

  lemma TooManyAuthorizationModelsNamesCap(max: u32)
    ensures IsInfix(NatToString(max as nat), Display(TooManyAuthorizationModels(max)))
  {
    var head := "Too many authorization models in database. Max allowed pages: ";
    InfixOfConcat(head, NatToString(max as nat), "");
    assert Display(TooManyAuthorizationModels(max)) == head + NatToString(max as nat) + "";
  }

  lemma UnexpectedEntityNamesValue(types: seq<FgaType>, value: string)
    ensures IsInfix(value, Display(UnexpectedEntity(types, value)))
  {
    var head := "Unexpected entity for type " + TypesText(types) + ": ";
    InfixOfConcat(head, value, "");
    assert Display(UnexpectedEntity(types, value)) == head + value + "";
  }

  /** The messages of the two failed store calls that print their status
      include the store's message as `{:?}` prints it, and so the message
      itself when it has nothing to escape. */
  lemma DisplayNamesStatus(e: OpenFGAError)
    requires e.StoreCreationFailed? || e.WriteAuthorizationModelFailed?
    ensures IsInfix(Grpc.DebugString(e.status.message), Display(e))
    ensures Grpc.Plain(e.status.message) ==> IsInfix(e.status.message, Display(e))
  {
    var t := Grpc.StatusText(e.status);
    var head := if e.StoreCreationFailed? then "Store creation failed: " else "Failed to write Authorization model: ";
    assert Display(e) == head + t;
    InfixPrepend(Grpc.DebugString(e.status.message), head, t);
    if Grpc.Plain(e.status.message) {
      InfixPrepend(e.status.message, head, t);
    }
  }

  /** A status whose code the layer recognises, as its own error; `None` for
      any other code. */
  function KnownStatus(status: Grpc.Status): (r: Option<OpenFGAError>)
    ensures status.code.Unauthenticated? ==> r == Some(Unauthenticated(status))
    ensures status.code.Internal? ==> r == Some(Internal(status))
    ensures status.code.Other? ==> r == None
  {
    match status.code
    case Unauthenticated => Some(Unauthenticated(status))
    case Internal => Some(Internal(status))
    case _ => None
  }

  function StoreCreation(status: Grpc.Status): (r: OpenFGAError)
    ensures KnownStatus(status).Some? ==> r == KnownStatus(status).value
    ensures KnownStatus(status).None? ==> r == StoreCreationFailed(status)
  {
    match KnownStatus(status) case Some(known) => known case None => StoreCreationFailed(status)
  }

  function ListStores(status: Grpc.Status): (r: OpenFGAError)
    ensures KnownStatus(status).Some? ==> r == KnownStatus(status).value
    ensures KnownStatus(status).None? ==> r == ListStoresFailed(status)
  {
    match KnownStatus(status) case Some(known) => known case None => ListStoresFailed(status)
  }

  function ListAuthenticationModels(status: Grpc.Status): (r: OpenFGAError)
    ensures KnownStatus(status).Some? ==> r == KnownStatus(status).value
    ensures KnownStatus(status).None? ==> r == ListAuthenticationModelsFailed(status)
  {
    match KnownStatus(status) case Some(known) => known case None => ListAuthenticationModelsFailed(status)
  }

  function WriteAuthorizationModel(status: Grpc.Status): (r: OpenFGAError)
    ensures KnownStatus(status).Some? ==> r == KnownStatus(status).value
    ensures KnownStatus(status).None? ==> r == WriteAuthorizationModelFailed(status)
  {
    match KnownStatus(status) case Some(known) => known case None => WriteAuthorizationModelFailed(status)
  }

  function UnexpectedEntityError(types: seq<FgaType>, value: string): (r: OpenFGAError)
    ensures r.UnexpectedEntity? && r.types == types && r.value == value
    ensures IsInfix(value, Display(r))
  {
    UnexpectedEntityNamesValue(types, value);
    UnexpectedEntity(types, value)
  }

  /** The store status an error carries, for the eight kinds that keep one. */
  function AsStatus(e: OpenFGAError): (r: Option<Grpc.Status>)
    ensures r.Some? <==>
      e.CheckFailed? || e.ReadFailed? || e.WriteFailed? || e.Unauthenticated? || e.Internal?
      || e.WriteAuthorizationModelFailed? || e.ListStoresFailed? || e.StoreCreationFailed?
    ensures (e.CheckFailed? || e.ReadFailed? || e.WriteFailed?) ==> r == Some(e.source)
    ensures (e.Unauthenticated? || e.Internal? || e.WriteAuthorizationModelFailed?
             || e.ListStoresFailed? || e.StoreCreationFailed?) ==> r == Some(e.status)
  {
    match e
    case CheckFailed(_, source) => Some(source)
    case ReadFailed(_, source) => Some(source)
    case WriteFailed(_, source) => Some(source)
    case Unauthenticated(status) => Some(status)
    case Internal(status) => Some(status)
    case WriteAuthorizationModelFailed(status) => Some(status)
    case ListStoresFailed(status) => Some(status)
    case StoreCreationFailed(status) => Some(status)
    case _ => None
  }

  const TUPLE_EXISTS_PREFIX: string := "cannot write a tuple which already exists"
  const TUPLE_MISSING_PREFIX: string := "cannot delete a tuple which does not exist"

  /** `From<OpenFGAError> for ErrorModel`: every error becomes a REST error with
      the error's own message, the error itself as cause, and a code and type
      chosen by its kind; a failed tuple write is refined by the store's
      message. */
  function ToErrorModel(err: OpenFGAError): (m: Rest.ErrorModel<OpenFGAError>)
    ensures m.message == Display(err) && m.source == Some(err) && m.stack == None
    ensures err.NoProjectId? ==> m.code == 400 && m.errorType == "NoProjectId"
    ensures err.AuthenticationRequired? ==> m.code == 401 && m.errorType == "AuthenticationRequired"
    ensures err.Unauthorized? ==> m.code == 401 && m.errorType == "Unauthorized"
    ensures err.WriteFailed? && TUPLE_EXISTS_PREFIX <= err.source.message ==>
      m.code == 409 && m.errorType == "TupleAlreadyExistsError"
    ensures err.WriteFailed? && !(TUPLE_EXISTS_PREFIX <= err.source.message)
            && TUPLE_MISSING_PREFIX <= err.source.message ==>
      m.code == 404 && m.errorType == "TupleNotFoundError"
    ensures err.WriteFailed? && !(TUPLE_EXISTS_PREFIX <= err.source.message)
            && !(TUPLE_MISSING_PREFIX <= err.source.message) ==>
      m.code == 500 && m.errorType == "AuthorizationError"
    ensures !(err.NoProjectId? || err.AuthenticationRequired? || err.Unauthorized? || err.WriteFailed?) ==>
      m.code == 500 && m.errorType == "AuthorizationError"
  {
    var errMsg := Display(err);
    var statusMsg := match AsStatus(err) case Some(s) => Some(s.message) case None => None;
    match err
    case NoProjectId => Rest.BadRequest(errMsg, "NoProjectId", Some(err))
    case AuthenticationRequired => Rest.Unauthorized(errMsg, "AuthenticationRequired", Some(err))
    case Unauthorized(_, _, _) => Rest.Unauthorized(errMsg, "Unauthorized", Some(err))
    case WriteFailed(_, _) =>
      if statusMsg.Some? && TUPLE_EXISTS_PREFIX <= statusMsg.value then
        Rest.Conflict(errMsg, "TupleAlreadyExistsError", Some(err))
      else if statusMsg.Some? && TUPLE_MISSING_PREFIX <= statusMsg.value then
        Rest.NotFound(errMsg, "TupleNotFoundError", Some(err))
      else
        Rest.New(errMsg, "AuthorizationError", Rest.INTERNAL_SERVER_ERROR, Some(err))
    case _ => Rest.New(Display(err), "AuthorizationError", Rest.INTERNAL_SERVER_ERROR, Some(err))
  }

  /** `From<OpenFGAError> for IcebergErrorResponse`: the projected model,
      wrapped. */
  function ToErrorResponse(err: OpenFGAError): (r: Rest.IcebergErrorResponse<OpenFGAError>)
    ensures r.error == ToErrorModel(err)
  {
    Rest.ToResponse(ToErrorModel(err))
  }

  // ---------------- Properties ----------------

  /** A status recognised by its code becomes the same error whichever store
      call produced it. */
  lemma StatusClassificationIgnoresCall(status: Grpc.Status)
    ensures status.code.Unauthenticated? ==>
      StoreCreation(status) == Unauthenticated(status) && ListStores(status) == Unauthenticated(status)
      && ListAuthenticationModels(status) == Unauthenticated(status)
      && WriteAuthorizationModel(status) == Unauthenticated(status)
    ensures status.code.Internal? ==>
      StoreCreation(status) == Internal(status) && ListStores(status) == Internal(status)
      && ListAuthenticationModels(status) == Internal(status)
      && WriteAuthorizationModel(status) == Internal(status)
  {}

  /** Classifying a store status never loses it: the resulting error gives
      the same status back. The exception is listing authorization models,
      whose own variant is not among those that report a status. */
  lemma ClassificationKeepsStatus(status: Grpc.Status)
    ensures AsStatus(StoreCreation(status)) == Some(status)
    ensures AsStatus(ListStores(status)) == Some(status)
    ensures AsStatus(WriteAuthorizationModel(status)) == Some(status)
    ensures AsStatus(ListAuthenticationModels(status)) == if status.code.Other? then None else Some(status)
    ensures KnownStatus(status).Some? ==> AsStatus(KnownStatus(status).value) == Some(status)
  {}

  /** The projection only ever produces these five codes. */
  lemma ProjectionCodes(err: OpenFGAError)
    ensures ToErrorModel(err).code in {400, 401, 404, 409, 500}
  {}

  /** Each code is produced by exactly the errors listed for it. */
  lemma ProjectionCodeExactly(err: OpenFGAError)
    ensures ToErrorModel(err).code == 400 <==> err.NoProjectId?
    ensures ToErrorModel(err).code == 401 <==> err.AuthenticationRequired? || err.Unauthorized?
    ensures ToErrorModel(err).code == 409 <==> err.WriteFailed? && TUPLE_EXISTS_PREFIX <= err.source.message
    ensures ToErrorModel(err).code == 404 <==>
      err.WriteFailed? && !(TUPLE_EXISTS_PREFIX <= err.source.message) && TUPLE_MISSING_PREFIX <= err.source.message
  {}

  /** The type tag determines the code. */
  lemma ProjectionTagDeterminesCode(e1: OpenFGAError, e2: OpenFGAError)
    requires ToErrorModel(e1).errorType == ToErrorModel(e2).errorType
    ensures ToErrorModel(e1).code == ToErrorModel(e2).code
  {}

  /** Authentication, self-assignment, batch-size and missing-store errors
      fall into the catch-all arm and project to a generic 500. */
  lemma CatchAllKinds(status: Grpc.Status, assignee: string, actual: i32, max: i32, store: string)
    ensures ToErrorModel(Unauthenticated(status)).code == 500
    ensures ToErrorModel(SelfAssignment(assignee)).code == 500
    ensures ToErrorModel(TooManyWrites(actual, max)).code == 500
    ensures ToErrorModel(StoreNotFound(store)).code == 500
    ensures ToErrorModel(Internal(status)).errorType == "AuthorizationError"
  {}

  /** No store message starts with both phrases, so the order of the two
      tests never decides between 409 and 404. */
  lemma TuplePrefixesExclusive(message: string)
    ensures !(TUPLE_EXISTS_PREFIX <= message && TUPLE_MISSING_PREFIX <= message)
  {
    assert TUPLE_EXISTS_PREFIX[7] == 'w' && TUPLE_MISSING_PREFIX[7] == 'd';
  }
}
