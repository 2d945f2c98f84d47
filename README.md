# Lakekeeper authorization errors and catalog identifiers, in Dafny

This project models two pieces of the Lakekeeper Iceberg catalog.

1. The OpenFGA authorization error taxonomy (`OpenFGAError`). This covers:
   - its 25 variants (error.rs:13-80) with their payloads and their `Display` messages;
   - the classification of a raw gRPC store status by its code (`known_status`);
   - the four constructors that use that classification first and fall back to their own variant (`list_authentication_models` among them, which the source compiles only under `#[cfg(test)]`, error.rs:99-100);
   - `as_status`, which reads the stored status back out;
   - the total projection of every error onto the catalog's REST error shape (`ErrorModel`), and from there onto `IcebergErrorResponse`.
2. The service identifier layer. This covers:
   - the parent of a namespace;
   - the four UUID-backed identifiers (namespace, table, project, warehouse) with their `Deref`, `Display`, `From<Uuid>` and `FromStr` impls;
   - the warehouse's `TryFrom<Prefix>`;
   - the two-valued `WarehouseStatus` and its kebab-case names.

Files:
- `wrappers.dfy`: `Option` and `Result`.
- `text.dfy`: decimal rendering with its read-back lemma, joining, and an infix relation. These stand in for Rust's `format!`.
- `uuid.dfy` (module `Uuids`): a stand-in for the `uuid` crate.
  - A UUID is 16 bytes.
  - `ParseUuid` accepts the simple, hyphenated, braced and URN forms, with hexadecimal digits in either case.
  - `UuidToString` prints the lower-case hyphenated form.
  - `UuidRoundTrip` proves that parsing the printed form gives back the UUID.
  - The identifier layer's contracts mention only `ParseUuid`'s result, so they hold whatever the parser accepts. The one exception is the display round trip, which uses `UuidRoundTrip`.
- `grpc.dfy` (module `Grpc`): a status is its code plus its message. The code is `Unauthenticated`, `Internal`, or one of the other gRPC codes 0 to 15 (except 13) by number. A status prints with the code's `Debug` name and the message as `{:?}` prints it.
- `rest.dfy` (module `Rest`): `ErrorModel` is `{message, type, code, stack, source}`. `IcebergErrorResponse` wraps it. The module also holds the constructors for 400, 401, 404, 409 and the general one.
- `openfga_error.dfy` (module `OpenFga`): the error taxonomy.
- `service.dfy` (module `Service`): the identifier layer.

`From<Uuid>` for each identifier is the datatype constructor itself (`WarehouseIdent(u)` and so on). Each `Deref`, `ToUuid` and `AsUuid` is stated as the inverse of that constructor.

Only `NoProjectId`, `AuthenticationRequired`, `Unauthorized` and `WriteFailed` have arms of their own in the projection (error.rs:133-160). Every other variant falls into the catch-all arm (error.rs:161-166) and projects to 500 "AuthorizationError". This includes `Unauthenticated`, `InvalidBearerToken` and `SelfAssignment`.

## Model

| member | source | states |
|---|---|---|
| OpenFga.KnownStatus | crates/iceberg-catalog/src/service/authz/implementations/openfga/error.rs:83-89 | an Unauthenticated code gives Some(Unauthenticated(status)), an Internal code gives Some(Internal(status)), and every other code gives None |
| OpenFga.StoreCreation | crates/iceberg-catalog/src/service/authz/implementations/openfga/error.rs:91-93 | the known-status error when there is one; otherwise StoreCreationFailed carrying the exact input status |
| OpenFga.ListStores | crates/iceberg-catalog/src/service/authz/implementations/openfga/error.rs:95-97 | the known-status error when there is one; otherwise ListStoresFailed carrying the exact input status |
| OpenFga.ListAuthenticationModels | crates/iceberg-catalog/src/service/authz/implementations/openfga/error.rs:99-103 | a helper compiled only under `#[cfg(test)]`: the known-status error when there is one; otherwise ListAuthenticationModelsFailed carrying the exact input status |
| OpenFga.WriteAuthorizationModel | crates/iceberg-catalog/src/service/authz/implementations/openfga/error.rs:105-107 | the known-status error when there is one; otherwise WriteAuthorizationModelFailed carrying the exact input status |
| OpenFga.UnexpectedEntityError | crates/iceberg-catalog/src/service/authz/implementations/openfga/error.rs:109-111 | builds UnexpectedEntity with the given types and value; its message contains the value |
| OpenFga.AsStatus | crates/iceberg-catalog/src/service/authz/implementations/openfga/error.rs:113-125 | Some exactly for CheckFailed, ReadFailed, WriteFailed, Unauthenticated, Internal, WriteAuthorizationModelFailed, ListStoresFailed and StoreCreationFailed, and then the stored status; None for every other variant, ListAuthenticationModelsFailed included |
| OpenFga.ToErrorModel | crates/iceberg-catalog/src/service/authz/implementations/openfga/error.rs:128-168 | message is the error's Display text, the cause is the error itself, and there is no stack; NoProjectId gives 400 "NoProjectId"; AuthenticationRequired gives 401 "AuthenticationRequired"; Unauthorized gives 401 "Unauthorized"; WriteFailed gives 409 "TupleAlreadyExistsError" if the status message starts with the already-exists phrase, else 404 "TupleNotFoundError" if it starts with the does-not-exist phrase, else 500 "AuthorizationError"; every other variant gives 500 "AuthorizationError" |
| OpenFga.ToErrorResponse | crates/iceberg-catalog/src/service/authz/implementations/openfga/error.rs:171-176 | the response wraps exactly the projected error model: message, type, code, stack and cause |
| OpenFga.StatusClassificationIgnoresCall | crates/iceberg-catalog/src/service/authz/implementations/openfga/error.rs:83-107 | an Unauthenticated status becomes Unauthenticated(status), and an Internal status becomes Internal(status), whichever of the four store calls failed |
| OpenFga.ClassificationKeepsStatus | crates/iceberg-catalog/src/service/authz/implementations/openfga/error.rs:83-125 | as_status of a classified store-creation, list-stores or write-model failure returns the original status; for listing models it does so only for the two known codes |
| OpenFga.ProjectionCodes | crates/iceberg-catalog/src/service/authz/implementations/openfga/error.rs:128-168 | the projection is total and its codes are only 400, 401, 404, 409 and 500 |
| OpenFga.ProjectionCodeExactly | crates/iceberg-catalog/src/service/authz/implementations/openfga/error.rs:132-166 | each code holds if and only if: 400 for NoProjectId; 401 for AuthenticationRequired or Unauthorized; 409 for a WriteFailed with the already-exists phrase; 404 for a WriteFailed with the not-exists phrase and without the already-exists one |
| OpenFga.ProjectionTagDeterminesCode | crates/iceberg-catalog/src/service/authz/implementations/openfga/error.rs:132-166 | two projected errors with the same type tag have the same code |
| OpenFga.CatchAllKinds | crates/iceberg-catalog/src/service/authz/implementations/openfga/error.rs:161-166 | Unauthenticated, SelfAssignment, TooManyWrites and StoreNotFound project to 500; Internal projects to "AuthorizationError" |
| OpenFga.TuplePrefixesExclusive | crates/iceberg-catalog/src/service/authz/implementations/openfga/error.rs:142-151 | no message starts with both the already-exists and the does-not-exist phrase, so the order of the two tests never decides between 409 and 404 |
| OpenFga.TooManyWritesNamesCounts | crates/iceberg-catalog/src/service/authz/implementations/openfga/error.rs:66-67 | the TooManyWrites message shows both the actual count and the maximum in decimal |
| OpenFga.StoreNotFoundNamesStore | crates/iceberg-catalog/src/service/authz/implementations/openfga/error.rs:40-41 | the StoreNotFound message names the store |
| OpenFga.UnauthorizedNamesAction | crates/iceberg-catalog/src/service/authz/implementations/openfga/error.rs:72-77 | the Unauthorized message names the relation, the object and the user |
| OpenFga.SelfAssignmentNamesAssignee | crates/iceberg-catalog/src/service/authz/implementations/openfga/error.rs:78-79 | the SelfAssignment message names the entity |
| OpenFga.TooManyAuthorizationModelsNamesCap | crates/iceberg-catalog/src/service/authz/implementations/openfga/error.rs:42-43 | the TooManyAuthorizationModels message shows the page cap in decimal |
| OpenFga.UnexpectedEntityNamesValue | crates/iceberg-catalog/src/service/authz/implementations/openfga/error.rs:51-52 | the UnexpectedEntity message contains the offending value |
| OpenFga.DisplayNamesStatus | crates/iceberg-catalog/src/service/authz/implementations/openfga/error.rs:38-60 | the StoreCreationFailed and WriteAuthorizationModelFailed messages contain the store's status message as `{:?}` prints it; when the message has no character to escape, they contain the message itself |
| OpenFga.Display | crates/iceberg-catalog/src/service/authz/implementations/openfga/error.rs:14-79 | each variant's message is its `#[error(...)]` format with the payloads substituted; no message is empty |
| OpenFga.TypesText | crates/iceberg-catalog/src/service/authz/implementations/openfga/error.rs:51 | `{:?}` of the entity-type list: the text starts with `[`, ends with `]` and contains the debug name of every type |
| Grpc.CodeText | crates/iceberg-catalog/src/service/authz/implementations/openfga/error.rs:38-39 | the `Debug` name of a status code; only Unauthenticated and Internal get those two names |
| Grpc.StatusText | crates/iceberg-catalog/src/service/authz/implementations/openfga/error.rs:59-60 | the printed status contains the code's `Debug` name and the message as `{:?}` prints it, and the raw message when it has nothing to escape |
| Grpc.DebugString | crates/iceberg-catalog/src/service/authz/implementations/openfga/error.rs:59-60 | `{:?}` of the status message is quoted, and is exactly the quoted message when (and only when) nothing in it needs escaping |
| Grpc.Escaped | crates/iceberg-catalog/src/service/authz/implementations/openfga/error.rs:59-60 | escaping leaves a message with nothing to escape unchanged and makes any other message strictly longer |
| Service.NamespaceFromVec | crates/iceberg-catalog/src/service/mod.rs:51-56 | building a namespace from segments succeeds exactly when there is at least one segment, and keeps them |
| Service.ParentOf | crates/iceberg-catalog/src/service/mod.rs:43-58 | a parent exists exactly when there are at least two segments; it is a strict prefix, exactly one segment shorter |
| Service.Parent | crates/iceberg-catalog/src/service/mod.rs:43-58 | popping the last segment of a copy and rebuilding gives ParentOf; the empty namespace does not fail and gives None |
| Service.ParentOfChild | crates/iceberg-catalog/src/service/mod.rs:43-52 | appending a segment to a non-empty namespace and taking the parent gives the namespace back |
| Service.ParentSmallCases | crates/iceberg-catalog/src/service/mod.rs:44-56 | no segments gives None, one segment gives None, and [a, b] gives [a] |
| Service.NotUuid | crates/iceberg-catalog/src/service/mod.rs:97-102 | the parse error has code 400, the given message and type tag, a one-line stack with the UUID error text, and no cause |
| Service.NamespaceIdentUuid.Deref | crates/iceberg-catalog/src/service/mod.rs:77-83 | wrapping the UUID it returns gives the same identifier |
| Service.NamespaceIdentUuid.ToString | crates/iceberg-catalog/src/service/mod.rs:85-89 | displays as the wrapped UUID, and FromStr of that text gives the identifier back |
| Service.NamespaceIdentUuid.FromStr | crates/iceberg-catalog/src/service/mod.rs:91-106 | succeeds exactly when the UUID parses, and then wraps that UUID; otherwise 400 "NamespaceIDIsNotUUID" with "Provided namespace id is not a valid UUID" and the UUID error as the only stack line |
| Service.TableIdentUuid.Deref | crates/iceberg-catalog/src/service/mod.rs:123-129 | wrapping the UUID it returns gives the same identifier |
| Service.TableIdentUuid.ToString | crates/iceberg-catalog/src/service/mod.rs:117-121 | displays as the wrapped UUID, and FromStr of that text gives the identifier back |
| Service.TableIdentUuid.FromStr | crates/iceberg-catalog/src/service/mod.rs:137-150 | succeeds exactly when the UUID parses, and then wraps that UUID; otherwise 400 "TableIDIsNotUUID" with "Provided table id is not a valid UUID" and the UUID error as the only stack line |
| Service.ProjectIdent.Deref | crates/iceberg-catalog/src/service/mod.rs:159-165 | wrapping the UUID it returns gives the same identifier |
| Service.ProjectIdent.ToString | crates/iceberg-catalog/src/service/mod.rs:167-171 | displays as the wrapped UUID, and FromStr of that text gives the identifier back |
| Service.ProjectIdent.FromStr | crates/iceberg-catalog/src/service/mod.rs:173-186 | succeeds exactly when the UUID parses, and then wraps that UUID; otherwise 400 "ProjectIDIsNotUUID" with "Provided project id is not a valid UUID" and the UUID error as the only stack line |
| Service.WarehouseIdent.Deref | crates/iceberg-catalog/src/service/mod.rs:240-246 | wrapping the UUID it returns gives the same identifier |
| Service.WarehouseIdent.ToUuid | crates/iceberg-catalog/src/service/mod.rs:229-232 | wrapping the UUID it returns gives the same identifier |
| Service.WarehouseIdent.AsUuid | crates/iceberg-catalog/src/service/mod.rs:234-237 | wrapping the UUID it returns gives the same identifier |
| Service.WarehouseIdent.ToString | crates/iceberg-catalog/src/service/mod.rs:254-258 | displays as the wrapped UUID; both FromStr and TryFrom of that text give the identifier back |
| Service.WarehouseIdent.FromStr | crates/iceberg-catalog/src/service/mod.rs:260-273 | succeeds exactly when the UUID parses, and then wraps that UUID; otherwise 400 "WarehouseIDIsNotUUID" with "Provided warehouse id is not a valid UUID" and the UUID error as the only stack line |
| Service.WarehouseIdent.TryFromPrefix | crates/iceberg-catalog/src/service/mod.rs:281-297 | succeeds exactly when the prefix parses as a UUID, and then wraps it; otherwise 400 "PrefixIsNotWarehouseID" whose message is "Provided prefix is not a warehouse id. Expected UUID, got: " followed by the prefix, with the UUID error as the only stack line |
| Service.PrefixErrorQuotesPrefix | crates/iceberg-catalog/src/service/mod.rs:285-291 | the message of a rejected prefix contains the prefix as given |
| Service.PrefixAgreesWithFromStr | crates/iceberg-catalog/src/service/mod.rs:263-297 | a warehouse id parses from a prefix exactly when it parses from the same string, and to the same identifier |
| Service.ParseErrorTagsDistinct | crates/iceberg-catalog/src/service/mod.rs:94-272 | on text that is not a UUID, the four identifier parsers fail with four different type tags |
| Service.WarehouseStatus.ToString | crates/iceberg-catalog/src/service/mod.rs:203-215 | each status prints as a kebab-case name that reads back as that status |
| Service.WarehouseStatus.FromString | crates/iceberg-catalog/src/service/mod.rs:203-204 | reading a kebab-case name succeeds exactly for "active" and "inactive", which give Active and Inactive |
| Service.WarehouseStatusNames | crates/iceberg-catalog/src/service/mod.rs:203-215 | every name that reads as a status prints back as the same name |

## Left out

- The `State<A, C, S>` bundle and its `ServiceState` impl (mod.rs:63-72). They are dependency-injection plumbing with no behaviour.
- The `sqlx`, `serde`, `utoipa` and `strum` derives, and `PgHasArrayType`. `WarehouseStatus` keeps only its two kebab-case names. The derived equality is Dafny's datatype equality. The derived ordering and hashing are not modelled.
- The `uuid` crate is not part of this model. `Uuids.ParseUuid` is a stand-in that accepts the crate's four text forms. Its error kinds and error wording are its own, not the crate's, and each failure gives one error rather than the crate's detailed diagnosis.
- `NamespaceIdent::from_vec` belongs to the `iceberg` crate. It is modelled only as rejecting an empty segment list, which is all the parent computation relies on.
- Grpc.StatusText: renders only the code and the message. The status details and the metadata are left out. The escaping covers the six backslash escapes of `{:?}` (`"`, `\`, newline, carriage return, tab, NUL) and writes the other ASCII control characters and DEL as `\u{...}`. Non-ASCII characters that `{:?}` also writes as `\u{...}` (non-printable ones, and grapheme extenders) are printed unchanged, because Unicode character tables are not modelled.
- Grpc.Escaped: escapes only ASCII characters. Non-printable non-ASCII characters (such as U+00A0 or U+200B) and grapheme extenders (such as U+0301), which `{:?}` writes as `\u{...}`, are left unchanged, so `Grpc.Plain` ("nothing to escape") is narrower than it is for `{:?}`.
- Grpc.DebugString: for the same reason, a message holding a non-printable non-ASCII character or a grapheme extender is quoted without escaping it, and its two-way clause about plain messages uses the ASCII-only `Grpc.Plain`.
- OpenFga.DisplayNamesStatus: for a message holding a non-ASCII character that `{:?}` writes as `\u{...}`, the source's text does not contain the raw message, but the model's plain-message clause still says it does.
- `tonic::Status` internals, the `openfga_rs` request payloads, `middle::Error` and `tonic::transport::Error` are opaque types. An invalid metadata value is known only by its display text. An `FgaType` is known only by its `Debug` name, which is what `{type:?}` prints; its strum `Display` name differs and is not modelled.
- The `ErrorModel` constructors live in `iceberg_ext`, which is not part of this model. They are assumed to set 400, 401, 409 and 404 as their names say, and to leave the stack empty (`None`).
- The store-client protocol is not in the modelled files, so none of its behaviour is modelled: check, read and write calls, pagination and batch ceilings, the self-assignment guard, project inference, and store and model bootstrap. Only the error variants that name these parts appear.
- Integer widths: `u32`, `u64` and `i32` payloads are bounded newtypes. Nothing in the modelled code does arithmetic on them.
