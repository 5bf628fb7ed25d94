/** Rebuilding an `api_keys` row from a key given in full in a bootstrap file.
    A key reads `<prefix>.<id>.<random>`, where `id` and `random` are
    sixteen-byte UUIDs in unpadded URL-safe base64. The row is looked up by
    `id`; `random` enters only the digest, and the key itself is never stored. */
module ApiKeys {
  import opened Wrappers
  import opened Text
  import opened Base64Url
  import opened Records

  /** One of the two encoded halves of a key, as a UUID. */
  function DecodeUuid(part: string): Result<Uuid, Error>
  {
    match Decode(part)
    case Err(e) => Err(KeyBase64(e))
    case Ok(bytes) => UuidFromSlice(bytes)
  }

  /** The checks on a presented key, in the order they are made: three parts,
      the expected prefix, then each half decoded to sixteen bytes. */
  function ParseKey(key: string, keyPrefix: string): Result<(Uuid, Uuid), Error>
  {
    var parts := Split(key, '.');
    if |parts| != 3 then Err(KeyPartCount(|parts|))
    else if parts[0] != keyPrefix then Err(KeyPrefixMismatch)
    else
      match DecodeUuid(parts[1])
      case Err(e) => Err(e)
      case Ok(id) =>
        match DecodeUuid(parts[2])
        case Err(e) => Err(e)
        case Ok(random) => Ok((id, random))
  }

  /** The key that the key generator hands out for `id` and `random`. */
  function FormatKey(keyPrefix: string, id: Uuid, random: Uuid): string
  {
    keyPrefix + "." + Encode(id.bytes) + "." + Encode(random.bytes)
  }

  /** The `api_keys` row for a parsed key: keyed by `id`, with prefix and hash
      from the digest of `(prefix, id, random, expires)`, stamped `now`. */
  function BuildApiKey(
    input: ApiKeyInput, id: Uuid, random: Uuid, keyPrefix: string,
    digest: (string, Uuid, Uuid, Timestamp) -> KeyDigest, now: Timestamp): ApiKey
  {
    var data := digest(keyPrefix, id, random, input.expires);
    ApiKey(id, input.name, data.prefix, data.hash, input.teamId, input.userId,
           input.inheritsUserPermissions, now, input.expires)
  }

  lemma DecodeUuidOk(part: string)
    ensures DecodeUuid(part).Ok? <==> Decode(part).Ok? && |Decode(part).value| == 16
    ensures DecodeUuid(part).Ok? ==> DecodeUuid(part).value.bytes == Decode(part).value
  {
  }

  /** A key is refused unless it has exactly two dots and its first part is
      the prefix; a refused key yields no UUIDs. */
  lemma ParseKeyRejects(key: string, keyPrefix: string)
    ensures Count(key, '.') != 2 ==> ParseKey(key, keyPrefix) == Err(KeyPartCount(Count(key, '.') + 1))
    ensures Count(key, '.') == 2 && Split(key, '.')[0] != keyPrefix ==>
      ParseKey(key, keyPrefix) == Err(KeyPrefixMismatch)
    ensures ParseKey(key, keyPrefix).Ok? ==>
      Count(key, '.') == 2 && Split(key, '.')[0] == keyPrefix &&
      |ParseKey(key, keyPrefix).value.0.bytes| == 16 && |ParseKey(key, keyPrefix).value.1.bytes| == 16
  {
    SplitJoin(key, '.');
  }

  /** `Uuid::from_slice` on a decoded half: it accepts exactly the halves of
      22 characters, and otherwise reports the decoded length, which is
      three quarters of the half's length. */
  lemma UuidFromDecodedPart(part: string)
    requires Decode(part).Ok?
    ensures UuidFromSlice(Decode(part).value).Ok? <==> |part| == 22
    ensures UuidFromSlice(Decode(part).value).Err? ==>
      UuidFromSlice(Decode(part).value).error == UuidLength(|part| * 3 / 4)
  {
    DecodeLength(part);
    SixteenBytesIffLength22(part);
  }

  /** A prefix containing a `.` can never match: no part of a split holds a `.`. */
  lemma DottedPrefixRefused(key: string, keyPrefix: string)
    requires '.' in keyPrefix
    ensures ParseKey(key, keyPrefix).Err?
    ensures |Split(key, '.')| == 3 ==> ParseKey(key, keyPrefix) == Err(KeyPrefixMismatch)
  {
    SplitJoin(key, '.');
  }

  /** A half that decodes to a UUID is that UUID's encoding, 22 characters long. */
  lemma UuidPartIsEncoding(part: string)
    requires DecodeUuid(part).Ok?
    ensures Encode(DecodeUuid(part).value.bytes) == part && |part| == 22
  {
    DecodeUuidOk(part);
    EncodeDecode(part);
    SixteenBytesIffLength22(part);
  }

  /** A key accepted by the parser is exactly the formatted key of the UUIDs
      it yields: 46 characters after the prefix. */
  lemma ParsedKeyIsFormatted(key: string, keyPrefix: string)
    requires ParseKey(key, keyPrefix).Ok?
    ensures var (id, random) := ParseKey(key, keyPrefix).value;
      key == FormatKey(keyPrefix, id, random) && |key| == |keyPrefix| + 46
  {
    var parts := Split(key, '.');
    SplitJoin(key, '.');
    Join3(parts, '.');
    UuidPartIsEncoding(parts[1]);
    UuidPartIsEncoding(parts[2]);
  }

  /** Parsing a formatted key gives back its UUIDs. */
  lemma FormattedKeyParses(keyPrefix: string, id: Uuid, random: Uuid)
    requires '.' !in keyPrefix && |id.bytes| == 16 && |random.bytes| == 16
    ensures ParseKey(FormatKey(keyPrefix, id, random), keyPrefix) == Ok((id, random))
  {
    var a, b := Encode(id.bytes), Encode(random.bytes);
    EncodedUuidHasNoDot(id);
    EncodedUuidHasNoDot(random);
    var key := FormatKey(keyPrefix, id, random);
    Join3([keyPrefix, a, b], '.');
    JoinSplit([keyPrefix, a, b], '.');
    assert Split(key, '.') == [keyPrefix, a, b];
    DecodeEncode(id.bytes);
    DecodeEncode(random.bytes);
  }

  lemma EncodedUuidHasNoDot(u: Uuid)
    ensures '.' !in Encode(u.bytes)
  {
    EncodeShape(u.bytes);
    assert !IsSymbol('.');
  }

  /** The key itself is not kept: two keys that yield the same `id`, and whose
      digests agree, give the same row. */
  lemma RowDependsOnKeyOnlyThroughDigest(
    input1: ApiKeyInput, input2: ApiKeyInput, id: Uuid, random1: Uuid, random2: Uuid,
    keyPrefix: string, digest: (string, Uuid, Uuid, Timestamp) -> KeyDigest, now: Timestamp)
    requires input1.(key := input2.key) == input2
    requires digest(keyPrefix, id, random1, input1.expires) == digest(keyPrefix, id, random2, input2.expires)
    ensures BuildApiKey(input1, id, random1, keyPrefix, digest, now)
         == BuildApiKey(input2, id, random2, keyPrefix, digest, now)
  {
  }
}
