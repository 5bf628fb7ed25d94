/** The rows the loader writes and the errors it reports. */
module Records {
  import opened Wrappers
  import opened Base64Url
  import Json

  /** The tables the loader can write to, one per record kind. */
  datatype Table =
    | Users
    | UserRoles
    | Teams
    | Projects
    | ConversionProfiles
    | StorageLocations
    | UploadProfiles
    | Roles
    | RolePermissions
    | ApiKeys

  /** A `uuid::Uuid`, by its bytes; a well-formed one has sixteen. */
  datatype Uuid = Uuid(bytes: seq<Byte>)

  /** A `DateTime<Utc>`, as an instant on an abstract time line. */
  type Timestamp = int

  /** What a bootstrap file says about an API key: the whole key as
      presented to clients, and the row's remaining fields. */
  datatype ApiKeyInput = ApiKeyInput(
    key: string,
    name: string,
    teamId: Uuid,
    userId: Uuid,
    inheritsUserPermissions: bool,
    expires: Timestamp)

  /** The storable part that the authentication library derives from a key. */
  datatype KeyDigest = KeyDigest(prefix: string, hash: seq<Byte>)

  /** A row of the `api_keys` table. It has no field for the key itself. */
  datatype ApiKey = ApiKey(
    id: Uuid,
    name: string,
    prefix: string,
    hash: seq<Byte>,
    teamId: Uuid,
    userId: Uuid,
    inheritsUserPermissions: bool,
    created: Timestamp,
    expires: Timestamp)

  /** A row as inserted: a record decoded by its table's schema, or an API key. */
  datatype Row = Record(fields: Json.Value) | Key(apiKey: ApiKey)

  datatype Error =
    | Unreadable(file: string)
    | ExpectedObject(found: Json.Value)
    | NoObjectType(file: string)
    | UnknownObjectType(file: string)
    | DecodeFailed(table: Table)
    | KeyPartCount(parts: nat)
    | KeyPrefixMismatch
    | KeyBase64(reason: DecodeError)
    | UuidLength(length: nat)
    | IntegrityViolation

  /** `Uuid::from_slice`: exactly sixteen bytes make a UUID. */
  function UuidFromSlice(b: seq<Byte>): (r: Result<Uuid, Error>)
    ensures r.Ok? <==> |b| == 16
    ensures r.Ok? ==> r.value.bytes == b
    ensures r.Err? ==> r.error == UuidLength(|b|)
  {
    if |b| == 16 then Ok(Uuid(b)) else Err(UuidLength(|b|))
  }
}
