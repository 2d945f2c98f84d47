/** The catalog service's identifier layer: the parent of a namespace, the
    UUID-backed identifiers of namespaces, tables, projects and warehouses
    with their text forms, and the status of a warehouse. */
module Service {
  import opened Wrappers
  import opened Uuids
  import Rest
  import Text

  // ---------------- Namespaces ----------------

  /** An Iceberg namespace name: its segments, outermost first. */
  datatype NamespaceIdent = NamespaceIdent(segments: seq<string>)

  datatype NamespaceError = EmptyNamespace

  /** `NamespaceIdent::from_vec`: a namespace needs at least one segment. */
  function NamespaceFromVec(segments: seq<string>): (r: Result<NamespaceIdent, NamespaceError>)
    ensures r.Ok? <==> segments != []
    ensures r.Ok? ==> r.value.segments == segments
  {
    if segments == [] then Err(EmptyNamespace) else Ok(NamespaceIdent(segments))
  }

  /** The enclosing namespace: present exactly when there are at least two
      segments, and then one segment shorter and a prefix of the original. */
  function ParentOf(ns: NamespaceIdent): (p: Option<NamespaceIdent>)
    ensures p.Some? <==> |ns.segments| >= 2
    ensures p.Some? ==> p.value.segments < ns.segments && |p.value.segments| == |ns.segments| - 1
  {
    if |ns.segments| < 2 then None else Some(NamespaceIdent(ns.segments[..|ns.segments| - 1]))
  }

  /** `NamespaceIdentExt::parent`: pop the last segment off a copy; no
      segments left means no parent. */
  method Parent(ns: NamespaceIdent) returns (p: Option<NamespaceIdent>)
    ensures p == ParentOf(ns)
  {
    var name := ns.segments;
    if |name| > 0 {
      name := name[..|name| - 1];
    }
    if |name| == 0 {
      p := None;
    } else {
      var ident := NamespaceFromVec(name);
      match ident
      case Ok(parent) => p := Some(parent);
      case Err(_) => p := None;
    }
  }

  /** Adding a segment and taking the parent gives back the namespace. */
  lemma ParentOfChild(ns: NamespaceIdent, segment: string)
    requires ns.segments != []
    ensures ParentOf(NamespaceIdent(ns.segments + [segment])) == Some(ns)
  {}

  /** The empty and the one-segment namespace have no parent; a
      two-segment one has its first segment as parent. */
  lemma ParentSmallCases(segment: string, other: string)
    ensures ParentOf(NamespaceIdent([])) == None
    ensures ParentOf(NamespaceIdent([segment])) == None
    ensures ParentOf(NamespaceIdent([segment, other])) == Some(NamespaceIdent([segment]))
  {
    assert [segment, other][..1] == [segment];
  }

  // ---------------- UUID-backed identifiers ----------------

  /** Errors of the identifier parsers: a response for status 400. The
      builder attaches no cause, so the cause type is the unit type and the
      cause is always `None`. */
  type IdentError = Rest.IcebergErrorResponse<()>

  /** The error every identifier parser builds when the text is not a UUID. */
  function NotUuid(message: string, errorType: string, e: UuidError): (r: IdentError)
    ensures r.error.code == Rest.BAD_REQUEST && r.error.errorType == errorType && r.error.message == message
    ensures r.error.stack == Some([ErrorText(e)]) && r.error.source == None
  {
    Rest.ToResponse(Rest.ErrorModel(message, errorType, Rest.BAD_REQUEST, Some([ErrorText(e)]), None))
  }

  datatype NamespaceIdentUuid = NamespaceIdentUuid(uuid: Uuid) {

    function Deref(): (u: Uuid)
      ensures NamespaceIdentUuid(u) == this
    {
      uuid
    }

    /** Displays as the wrapped UUID, and parses back to this identifier. */
    function ToString(): (s: string)
      ensures s == UuidToString(uuid)
      ensures NamespaceIdentUuid.FromStr(s) == Ok(this)
    {
      UuidRoundTrip(uuid);
      UuidToString(uuid)
    }

    static function FromStr(s: string): (r: Result<NamespaceIdentUuid, IdentError>)
      ensures r.Ok? <==> ParseUuid(s).Ok?
      ensures r.Ok? ==> r.value.uuid == ParseUuid(s).value
      ensures r.Err? ==>
        r.error.error.code == 400 && r.error.error.errorType == "NamespaceIDIsNotUUID"
        && r.error.error.message == "Provided namespace id is not a valid UUID"
        && r.error.error.stack == Some([ErrorText(ParseUuid(s).error)])
    {
      match ParseUuid(s)
      case Ok(u) => Ok(NamespaceIdentUuid(u))
      case Err(e) => Err(NotUuid("Provided namespace id is not a valid UUID", "NamespaceIDIsNotUUID", e))
    }
  }

  datatype TableIdentUuid = TableIdentUuid(uuid: Uuid) {

    function Deref(): (u: Uuid)
      ensures TableIdentUuid(u) == this
    {
      uuid
    }

    function ToString(): (s: string)
      ensures s == UuidToString(uuid)
      ensures TableIdentUuid.FromStr(s) == Ok(this)
    {
      UuidRoundTrip(uuid);
      UuidToString(uuid)
    }

    static function FromStr(s: string): (r: Result<TableIdentUuid, IdentError>)
      ensures r.Ok? <==> ParseUuid(s).Ok?
      ensures r.Ok? ==> r.value.uuid == ParseUuid(s).value
      ensures r.Err? ==>
        r.error.error.code == 400 && r.error.error.errorType == "TableIDIsNotUUID"
        && r.error.error.message == "Provided table id is not a valid UUID"
        && r.error.error.stack == Some([ErrorText(ParseUuid(s).error)])
    {
      match ParseUuid(s)
      case Ok(u) => Ok(TableIdentUuid(u))
      case Err(e) => Err(NotUuid("Provided table id is not a valid UUID", "TableIDIsNotUUID", e))
    }
  }

  datatype ProjectIdent = ProjectIdent(uuid: Uuid) {

    function Deref(): (u: Uuid)
      ensures ProjectIdent(u) == this
    {
      uuid
    }

    function ToString(): (s: string)
      ensures s == UuidToString(uuid)
      ensures ProjectIdent.FromStr(s) == Ok(this)
    {
      UuidRoundTrip(uuid);
      UuidToString(uuid)
    }

    static function FromStr(s: string): (r: Result<ProjectIdent, IdentError>)
      ensures r.Ok? <==> ParseUuid(s).Ok?
      ensures r.Ok? ==> r.value.uuid == ParseUuid(s).value
      ensures r.Err? ==>
        r.error.error.code == 400 && r.error.error.errorType == "ProjectIDIsNotUUID"
        && r.error.error.message == "Provided project id is not a valid UUID"
        && r.error.error.stack == Some([ErrorText(ParseUuid(s).error)])
    {
      match ParseUuid(s)
      case Ok(u) => Ok(ProjectIdent(u))
      case Err(e) => Err(NotUuid("Provided project id is not a valid UUID", "ProjectIDIsNotUUID", e))
    }
  }

  /** A path prefix of the REST API, as received. */
  datatype Prefix = Prefix(value: string)

  const PREFIX_NOT_WAREHOUSE := "Provided prefix is not a warehouse id. Expected UUID, got: "

  datatype WarehouseIdent = WarehouseIdent(uuid: Uuid) {

    function Deref(): (u: Uuid)
      ensures WarehouseIdent(u) == this
    {
      uuid
    }

    function ToUuid(): (u: Uuid)
      ensures WarehouseIdent(u) == this
    {
      Deref()
    }

    function AsUuid(): (u: Uuid)
      ensures WarehouseIdent(u) == this
    {
      Deref()
    }

    function ToString(): (s: string)
      ensures s == UuidToString(uuid)
      ensures WarehouseIdent.FromStr(s) == Ok(this)
      ensures WarehouseIdent.TryFromPrefix(Prefix(s)) == Ok(this)
    {
      UuidRoundTrip(uuid);
      UuidToString(uuid)
    }

    static function FromStr(s: string): (r: Result<WarehouseIdent, IdentError>)
      ensures r.Ok? <==> ParseUuid(s).Ok?
      ensures r.Ok? ==> r.value.uuid == ParseUuid(s).value
      ensures r.Err? ==>
        r.error.error.code == 400 && r.error.error.errorType == "WarehouseIDIsNotUUID"
        && r.error.error.message == "Provided warehouse id is not a valid UUID"
        && r.error.error.stack == Some([ErrorText(ParseUuid(s).error)])
    {
      match ParseUuid(s)
      case Ok(u) => Ok(WarehouseIdent(u))
      case Err(e) => Err(NotUuid("Provided warehouse id is not a valid UUID", "WarehouseIDIsNotUUID", e))
    }

    /** `TryFrom<Prefix>`: the prefix must be a UUID; the error quotes the
        prefix as given. */
    static function TryFromPrefix(p: Prefix): (r: Result<WarehouseIdent, IdentError>)
      ensures r.Ok? <==> ParseUuid(p.value).Ok?
      ensures r.Ok? ==> r.value.uuid == ParseUuid(p.value).value
      ensures r.Err? ==>
        r.error.error.code == 400 && r.error.error.errorType == "PrefixIsNotWarehouseID"
        && r.error.error.message == PREFIX_NOT_WAREHOUSE + p.value
        && r.error.error.stack == Some([ErrorText(ParseUuid(p.value).error)])
    {
      match ParseUuid(p.value)
      case Ok(u) => Ok(WarehouseIdent(u))
      case Err(e) => Err(NotUuid(PREFIX_NOT_WAREHOUSE + p.value, "PrefixIsNotWarehouseID", e))
    }
  }

  /** A rejected prefix is quoted in the error message. */
  lemma PrefixErrorQuotesPrefix(p: Prefix)
    requires ParseUuid(p.value).Err?
    ensures Text.IsInfix(p.value, WarehouseIdent.TryFromPrefix(p).error.error.message)
  {
    Text.InfixAtEnd(PREFIX_NOT_WAREHOUSE, p.value);
  }

  /** A warehouse id parses the same from a prefix as from a string; only the
      error differs. */
  lemma PrefixAgreesWithFromStr(s: string)
    ensures WarehouseIdent.TryFromPrefix(Prefix(s)).Ok? <==> WarehouseIdent.FromStr(s).Ok?
    ensures WarehouseIdent.FromStr(s).Ok? ==> WarehouseIdent.TryFromPrefix(Prefix(s)) == WarehouseIdent.FromStr(s)
  {}

  /** The type tag of a parse failure names the identifier kind: the four
      parsers reject the same text with four different tags. */
  lemma ParseErrorTagsDistinct(s: string)
    requires ParseUuid(s).Err?
    ensures |{ NamespaceIdentUuid.FromStr(s).error.error.errorType, TableIdentUuid.FromStr(s).error.error.errorType,
               ProjectIdent.FromStr(s).error.error.errorType, WarehouseIdent.FromStr(s).error.error.errorType }| == 4
  {}

  // ---------------- Warehouse status ----------------

  /** Whether a warehouse can be used. */
  datatype WarehouseStatus = Active | Inactive {

    /** The kebab-case name of the status. */
    function ToString(): (s: string)
      ensures WarehouseStatus.FromString(s) == Some(this)
    {
      match this
      case Active => "active"
      case Inactive => "inactive"
    }

    /** Reads a kebab-case status name. */
    static function FromString(s: string): (r: Option<WarehouseStatus>)
      ensures r.Some? <==> s == "active" || s == "inactive"
      ensures s == "active" ==> r == Some(Active)
      ensures s == "inactive" ==> r == Some(Inactive)
    {
      if s == "active" then Some(Active)
      else if s == "inactive" then Some(Inactive)
      else None
    }
  }

  /** Every name that reads as a status prints back as itself. */
  lemma WarehouseStatusNames(s: string)
    ensures WarehouseStatus.FromString(s).Some? ==> WarehouseStatus.FromString(s).value.ToString() == s
  {}
}
