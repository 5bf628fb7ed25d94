# Bootstrap loader of the image CDN API, in Dafny

This project models the `admin bootstrap` command of the image CDN's API
server (`api/src/cmd/admin/bootstrap.rs`). The command seeds a fresh
deployment from a directory of templated JSON files. Each file is named
`<name>.<type>.json`, where `<type>` is a record kind in its singular or
plural spelling (`user`/`users`, `team`/`teams`, …, `api_key`/`api_keys`).
A file holds one JSON object or an array of objects. Every object becomes
one row of the table that its file's type names. API keys are given in full
(`<prefix>.<id>.<random>`, with `id` and `random` as unpadded URL-safe base64
UUIDs). The loader rebuilds the `api_keys` row from the key: the row is keyed
by `id`, and its prefix and hash come from a digest. The key itself is never
stored. The whole load runs in one transaction, with constraint checks
deferred to commit, so it applies completely or not at all.

Files:

- `wrappers.dfy`: `Option`, `Result` and `Outcome`, which stand for Rust's error returns.
- `json.dfy`: the JSON values that the loader inspects.
- `text.dfy`: `split('.')` and `rsplit('.')` on strings, with their join round trip.
- `base64url.dfy`: the unpadded URL-safe base64 decoder (section 5 of RFC 4648), the
  matching encoder, and their round trips.
- `records.dfy`: tables, UUIDs, the `ApiKeyInput` and `ApiKey` records, the errors, and
  `Uuid::from_slice`.
- `classifier.dfy`: the object type taken from a file name, and the closed tag-to-table
  dispatch.
- `api_key.dfy`: parsing a key, and building the `api_keys` row from it.
- `store.dfy`: the tables as ordered row lists, and the effect of a sequence of inserts.
- `bootstrap.dfy`: the specification of one object, one file and a whole load as
  functions (`ObjectEffect`, `FileRun`, `FilesRun`, `Load`), lemmas about them, and
  the loader itself. A `Connection` class holds the tables and the savepoint
  of the open transaction, with the methods `BeginTransaction`, `Execute`,
  `Rollback` and `Commit`. The loader's steps are the module-level methods
  `ApplyObject`, `ApplyFile` and `RunBootstrap`, each taking the connection and
  proved to do what the specification functions say.

Outside collaborators are parameters of a `Config` value:

- the value of `API_KEY_PREFIX`;
- the per-table serde decoders;
- the `ApiKeyInput` decoder;
- the authentication library's `ApiKeyData::from_params` digest;
- the clock reading for `created`.

The commit-time constraint check is a predicate on the final tables, passed to
`RunBootstrap`. `Records.UuidFromSlice` stands for the foreign call
`Uuid::from_slice`: sixteen bytes make a UUID, any other length is an error.

Behaviour of the code that a reader might not expect:

- The object type is `rsplit('.').nth(1)`, so a two-part name such as
  `users.json` has a type (`users`). A file name needs one `.`, not two
  (`Bootstrap.TwoPartNameHasObjectType`). Files are found with the pattern
  `**/*.json`, so every name the loader sees contains a `.`: the
  "no object type" error (`Bootstrap.NoDotNoObjectType`) cannot arise
  through `bootstrap` and is modelled only because `apply_object` checks for it.
- The type is read inside `apply_object`, so only when an object is applied.
  A file whose content is an empty array loads without error, whatever its name
  or type, even `x.widget.json` (`Bootstrap.TypeOnlyCheckedPerObject`).
- Inserts that a failing file made before its error are undone only by the
  rollback of the whole transaction. `ApplyFile` leaves them in place, and
  `RunBootstrap` removes them.

## Model

| member | source | states |
|---|---|---|
| `Text.Split` | api/src/cmd/admin/bootstrap.rs:144 | Specification function for `split('.')`. Its properties are stated by `Text.SplitJoin`, `Text.JoinSplit` and `ApiKeys.DottedPrefixRefused`. |
| `Text.RSplit` | api/src/cmd/admin/bootstrap.rs:98-99 | Specification function for `rsplit('.')`. Its properties are stated by `Text.RSplitIsReversedSplit` and `Classifier.ObjectTypeTagIsNextToLastPart`. |
| `Text.SplitJoin` | api/src/cmd/admin/bootstrap.rs:144 | Rejoining the parts of `split('.')` with `.` gives back the string. No part contains `.`. There is one more part than there are dots. |
| `Text.JoinSplit` | api/src/cmd/admin/bootstrap.rs:144 | Splitting a `.`-join of dot-free parts gives back exactly those parts. |
| `Text.RSplitIsReversedSplit` | api/src/cmd/admin/bootstrap.rs:98-100 | `rsplit('.')` yields the parts of `split('.')` in reverse order. |
| `Base64Url.Symbol` | api/src/cmd/admin/bootstrap.rs:153 | Each 6-bit value has an alphabet character, and decoding that character gives back the value. |
| `Base64Url.Decode` | api/src/cmd/admin/bootstrap.rs:153-156 | Specification function for `decode_config(_, URL_SAFE_NO_PAD)`. Its properties are stated by `Base64Url.DecodeEncode`, `Base64Url.EncodeDecode`, `Base64Url.DecodeLength`, `Base64Url.DecodableIffEncoding` and `Base64Url.SixteenBytesIffLength22`. |
| `Base64Url.DecodeEncode` | api/src/cmd/admin/bootstrap.rs:153 | Decoding the unpadded URL-safe encoding of any byte string gives back those bytes. |
| `Base64Url.EncodeDecode` | api/src/cmd/admin/bootstrap.rs:153 | Every string that decodes is the encoding of its decoded bytes. This rules out padding, stray characters and non-zero trailing bits. |
| `Base64Url.EncodeShape` | api/src/cmd/admin/bootstrap.rs:153 | An encoding uses only alphabet characters and has ⌈4n/3⌉ characters. Its length is never 1 mod 4. |
| `Base64Url.DecodeLength` | api/src/cmd/admin/bootstrap.rs:153-156 | A decoded string yields ⌊3·len/4⌋ bytes. |
| `Base64Url.DecodableIffEncoding` | api/src/cmd/admin/bootstrap.rs:153 | A string decodes exactly when it is the encoding of some bytes. |
| `Base64Url.SixteenBytesIffLength22` | api/src/cmd/admin/bootstrap.rs:153-156 | A decodable key part gives 16 bytes, a UUID, exactly when it is 22 characters long. |
| `Classifier.ObjectTypeTag` | api/src/cmd/admin/bootstrap.rs:98-101 | Specification function for `rsplit('.').nth(1)`. Its properties are stated by `Classifier.ObjectTypeTagIsNextToLastPart` and `Classifier.ObjectTypeTagOf`. |
| `Classifier.Classify` | api/src/cmd/admin/bootstrap.rs:103-181 | Specification function for the `match` on the object type. Its properties are stated by `Classifier.ClassifyIff`, `Classifier.ClassifyNames`, `Classifier.ClassifySound` and `Bootstrap.WidgetIsUnknown`. |
| `Classifier.ClassifyIff` | api/src/cmd/admin/bootstrap.rs:103-181 | A tag selects table `t` exactly when it is `t`'s singular or plural spelling. The dispatch is closed: any other tag selects nothing. |
| `Classifier.ClassifyNames` | api/src/cmd/admin/bootstrap.rs:103-181 | Both the singular and the plural spelling of every table's name select that table. |
| `Classifier.ClassifySound` | api/src/cmd/admin/bootstrap.rs:103-181 | A tag that selects a table is that table's singular or plural spelling. |
| `Classifier.ObjectTypeTagIsNextToLastPart` | api/src/cmd/admin/bootstrap.rs:98-101 | A file name has an object type exactly when it contains a `.`. The type is then the next-to-last `.`-part of the name and contains no `.`. |
| `Classifier.ObjectTypeTagOf` | api/src/cmd/admin/bootstrap.rs:98-101 | For dot-free `tag` and `ext`, both `<tag>.<ext>` and `<name>.<tag>.<ext>` have type `tag`. |
| `ApiKeys.DottedPrefixRefused` | api/src/cmd/admin/bootstrap.rs:144-151 | A prefix containing a `.` refuses every key. A three-part key then fails with the prefix mismatch. |
| `ApiKeys.UuidFromDecodedPart` | api/src/cmd/admin/bootstrap.rs:153-156 | `Uuid::from_slice` on a decoded key part succeeds exactly when the part has 22 characters. Otherwise its error carries the decoded length, three quarters of the part's length. |
| `ApiKeys.DecodeUuid` | api/src/cmd/admin/bootstrap.rs:153-156 | Specification function for decoding one key part and building its UUID. Its properties are stated by `ApiKeys.DecodeUuidOk`, `ApiKeys.UuidFromDecodedPart` and `ApiKeys.UuidPartIsEncoding`. |
| `ApiKeys.ParseKey` | api/src/cmd/admin/bootstrap.rs:144-156 | Specification function for the key checks, in source order. Its properties are stated by `ApiKeys.ParseKeyRejects`, `ApiKeys.ParsedKeyIsFormatted`, `ApiKeys.FormattedKeyParses` and `Bootstrap.MalformedKeysRefused`. |
| `ApiKeys.BuildApiKey` | api/src/cmd/admin/bootstrap.rs:158-175 | Specification function for the `api_keys` row. Its properties are stated by `ApiKeys.RowDependsOnKeyOnlyThroughDigest` and `Bootstrap.ApiKeyInsertSpec`. |
| `ApiKeys.DecodeUuidOk` | api/src/cmd/admin/bootstrap.rs:153-156 | A key part yields a UUID exactly when it base64-decodes to 16 bytes. The UUID is those bytes. |
| `ApiKeys.ParseKeyRejects` | api/src/cmd/admin/bootstrap.rs:144-151 | A key without exactly two dots fails with the part count. A key whose first part is not the prefix fails with a prefix mismatch. An accepted key gives two 16-byte UUIDs. |
| `ApiKeys.UuidPartIsEncoding` | api/src/cmd/admin/bootstrap.rs:153-156 | A part that yields a UUID is that UUID's 22-character encoding. |
| `ApiKeys.ParsedKeyIsFormatted` | api/src/cmd/admin/bootstrap.rs:144-156 | An accepted key is exactly `prefix.enc(id).enc(random)` for the UUIDs it yields. It is 46 characters longer than the prefix. |
| `ApiKeys.FormattedKeyParses` | api/src/cmd/admin/bootstrap.rs:144-156 | With a dot-free prefix, the formatted key of any two UUIDs parses back to those UUIDs. |
| `ApiKeys.RowDependsOnKeyOnlyThroughDigest` | api/src/cmd/admin/bootstrap.rs:158-175 | The key string is not stored: inputs that differ only in `key` give equal rows when they have the same `id` and equal digests. |
| `Store.Apply` | api/src/cmd/admin/bootstrap.rs:76-80 | Specification function for one `INSERT` (the `insert_object!` macro, and likewise the key insert at lines 177-179). Its effect is stated by `Store.ApplyAllRows` and `Bootstrap.Connection.Execute`. |
| `Store.ApplyAll` | api/src/cmd/admin/bootstrap.rs:79 | Specification function for a sequence of inserts. Its properties are stated by `Store.ApplyAllRows`, `Store.ApplyAllAppend` and `Store.InsertedRowsPresent`. |
| `Store.ApplyAllRows` | api/src/cmd/admin/bootstrap.rs:79 | After a sequence of inserts, each table holds its old rows followed by the rows inserted into it, in order. |
| `Store.ApplyAllAppend` | api/src/cmd/admin/bootstrap.rs:79 | Performing two sequences of inserts one after the other is the same as performing their concatenation. |
| `Store.InsertedRowsPresent` | api/src/cmd/admin/bootstrap.rs:79 | Every inserted row is in its table afterwards. |
| `Bootstrap.ApiKeyEffect` | api/src/cmd/admin/bootstrap.rs:140-179 | Specification function for the `api_key` arm. Its properties are stated by `Bootstrap.ApiKeyInsertSpec`. |
| `Bootstrap.ObjectEffect` | api/src/cmd/admin/bootstrap.rs:93-185 | Specification function for `apply_object`. Its properties are stated by `Bootstrap.NoDotNoObjectType`, `Bootstrap.ObjectGoesToNamedTable`, `Bootstrap.SynonymsSameObjectEffect` and `Bootstrap.ApplyObject`. |
| `Bootstrap.ElementEffect` | api/src/cmd/admin/bootstrap.rs:62-65 | Specification function for the object check on an array element. Its properties are stated by `Bootstrap.ElementsRunSpec`, which requires every element to be an object that applies. |
| `Bootstrap.ElementsRun` | api/src/cmd/admin/bootstrap.rs:60-67 | Specification function for the array loop. Its properties are stated by `Bootstrap.ElementsRunStep`, `Bootstrap.ElementsRunInserts`, `Bootstrap.ElementsRunSpec` and `Bootstrap.ElementsRunStops`. |
| `Bootstrap.FileRun` | api/src/cmd/admin/bootstrap.rs:53-71 | Specification function for `apply_file`. Its properties are stated by `Bootstrap.FileRunShapes`, `Bootstrap.SynonymsSameFileEffect` and `Bootstrap.ApplyFile`. |
| `Bootstrap.FilesRun` | api/src/cmd/admin/bootstrap.rs:34-37 | Specification function for the file loop. Its properties are stated by `Bootstrap.FilesRunStep`, `Bootstrap.FilesRunStops`, `Bootstrap.FilesRunSpec`, `Bootstrap.FilesRunSplit`, `Bootstrap.FilesRunOrderIrrelevant` and `Bootstrap.FilesRunSameContents`. |
| `Bootstrap.Load` | api/src/cmd/admin/bootstrap.rs:30-40 | Specification function for the transaction. Its properties are stated by `Bootstrap.AnyFailingFileAbortsLoad`, `Bootstrap.LoadAllOrNothing`, `Bootstrap.LoadHoldsEveryRecord`, `Bootstrap.LoadOrderIrrelevant` and `Bootstrap.RunBootstrap`. |
| `Bootstrap.NoDotNoObjectType` | api/src/cmd/admin/bootstrap.rs:98-101 | An object from a file whose name has no `.` fails with "no object type" and inserts nothing. |
| `Bootstrap.ObjectGoesToNamedTable` | api/src/cmd/admin/bootstrap.rs:103-181 | An inserted object goes to the table whose singular or plural name is the file's type. An unknown type fails with `UnknownObjectType`. Conversely, an object whose type selects a table other than `api_keys` is decoded with that table's decoder and inserted into it, or fails with `DecodeFailed` for that table. An object whose type selects `api_keys` has exactly the effect of the key arm (`ApiKeyEffect`). |
| `Bootstrap.SynonymsSameObjectEffect` | api/src/cmd/admin/bootstrap.rs:103-140 | Files typed with a table's singular name and with its plural name have the same effect on every object. |
| `Bootstrap.SynonymsSameElementsRun` | api/src/cmd/admin/bootstrap.rs:60-67 | The same holds for a whole array of objects. |
| `Bootstrap.SynonymsSameFileEffect` | api/src/cmd/admin/bootstrap.rs:59-71 | A singular-named file and a plural-named file with the same content make the same inserts, and both succeed or both fail. |
| `Bootstrap.ApiKeyInsertSpec` | api/src/cmd/admin/bootstrap.rs:140-179 | An API-key object inserts a row exactly when it decodes and its key passes every check. The row then has the key's `id`, copies the name, team, user, permission flag and expiry, and takes prefix and hash from the digest of (prefix, id, random, expires). The key equals the formatted key of `id` and `random`. |
| `Bootstrap.ElementsRunStep` | api/src/cmd/admin/bootstrap.rs:61-66 | After elements that all applied, one more element adds its insert, or it ends the run with its error. |
| `Bootstrap.ElementsRunInserts` | api/src/cmd/admin/bootstrap.rs:60-67 | The inserts of an array are the effects of its first elements, in order. On failure, the next element is the one that failed. |
| `Bootstrap.ElementsRunSpec` | api/src/cmd/admin/bootstrap.rs:60-67 | An array succeeds exactly when every element is an object that applies. It then inserts one row per element, in array order. Otherwise it stops at the first failing element with that element's error. |
| `Bootstrap.ElementsRunStops` | api/src/cmd/admin/bootstrap.rs:65 | Once an element has failed, no later element is applied. |
| `Bootstrap.FileRunShapes` | api/src/cmd/admin/bootstrap.rs:53-71 | A file that does not render or parse fails. A value that is neither an array nor an object fails with `ExpectedObject` and inserts nothing. A bare object inserts exactly once, or fails and inserts nothing. An array succeeds exactly when all its elements apply, with one insert each. |
| `Bootstrap.FilesRunStep` | api/src/cmd/admin/bootstrap.rs:34-37 | After files that all applied, one more file adds its inserts and its outcome. |
| `Bootstrap.FilesRunStops` | api/src/cmd/admin/bootstrap.rs:36 | Once a file has failed, no later file is applied. |
| `Bootstrap.FilesRunSpec` | api/src/cmd/admin/bootstrap.rs:34-37 | A sequence of files applies exactly when each file applies on its own. Otherwise the error is that of the first failing file. |
| `Bootstrap.FilesRunSplit` | api/src/cmd/admin/bootstrap.rs:34-37 | When all files apply, the inserts of the first files are a prefix of the inserts of all of them. |
| `Bootstrap.AnyFailingFileAbortsLoad` | api/src/cmd/admin/bootstrap.rs:30-40 | If any one file fails, wherever it stands, the load fails and leaves the tables unchanged. |
| `Bootstrap.LoadAllOrNothing` | api/src/cmd/admin/bootstrap.rs:30-40 | A failed load leaves the tables unchanged. After a successful load, each table holds its old rows followed by the loaded rows, in file and record order. |
| `Bootstrap.LoadHoldsEveryRecord` | api/src/cmd/admin/bootstrap.rs:30-40 | After a successful load, every row that any file inserted is in its table. |
| `Bootstrap.FilesRunOrderIrrelevant` | api/src/cmd/admin/bootstrap.rs:31-37 | Whether every file applies, before the commit check, does not depend on the order in which the files are found. |
| `Bootstrap.FilesRunSameContents` | api/src/cmd/admin/bootstrap.rs:31-37 | When the files all apply, the same files in any other order also apply, and every table ends with the same rows. Only the order of rows within a table can differ. |
| `Bootstrap.LoadOrderIrrelevant` | api/src/cmd/admin/bootstrap.rs:30-40 | If the deferred constraints look only at which rows each table holds, the order in which the files are found changes neither whether the load succeeds nor the rows it leaves in each table. |
| `Bootstrap.TwoPartNameHasObjectType` | api/src/cmd/admin/bootstrap.rs:98-104 | `users.json` has type `users`, which selects the users table. |
| `Bootstrap.TypeOnlyCheckedPerObject` | api/src/cmd/admin/bootstrap.rs:59-71 | An empty array loads under any file name. An object in a file of unknown type fails with `UnknownObjectType`. |
| `Bootstrap.WidgetIsUnknown` | api/src/cmd/admin/bootstrap.rs:181 | `widget` and `widgets` select no table. |
| `Bootstrap.MalformedKeysRefused` | api/src/cmd/admin/bootstrap.rs:144-151 | `P.x` fails for having two parts. `W.x.y` fails with a prefix mismatch when `W` is not the prefix. |
| `Bootstrap.Connection.BeginTransaction` | api/src/cmd/admin/bootstrap.rs:30 | Opening the transaction records the current tables as the savepoint. |
| `Bootstrap.Connection.Execute` | api/src/cmd/admin/bootstrap.rs:177-179 | One insert appends its row to its table. |
| `Bootstrap.Connection.Rollback` | api/src/cmd/admin/bootstrap.rs:40 | Rolling back restores the savepoint's tables. |
| `Bootstrap.Connection.Commit` | api/src/cmd/admin/bootstrap.rs:30-40 | A commit keeps the tables when the deferred constraints hold. Otherwise it fails with `IntegrityViolation` and rolls back. |
| `Bootstrap.ApplyObject` | api/src/cmd/admin/bootstrap.rs:93-185 | Inserts exactly the row `ObjectEffect` gives and passes, or changes nothing and returns `ObjectEffect`'s error. |
| `Bootstrap.ApplyFile` | api/src/cmd/admin/bootstrap.rs:45-74 | Returns `FileRun`'s outcome and leaves the tables with `FileRun`'s inserts applied in order, including those made before an error. |
| `Bootstrap.RunBootstrap` | api/src/cmd/admin/bootstrap.rs:20-43 | Ends with exactly the tables and outcome that `Load` gives, with no transaction left open. On any error the tables are as before. |

## Left out

- Template rendering with `liquid` and its environment-variable context are not modelled. A file is given by its rendered and parsed content. A render or JSON parse failure is `None`, which fails the load.
- File discovery by glob is not modelled. The files are an arbitrary input sequence in an unspecified order. Errors reading a directory entry (`file?`) are not modelled separately.
- The serde decoding of each table's record type is not modelled, because those schemas are not part of this model. `Config.decodeRecord` and `Config.decodeKeyInput` are decoders that may fail, and decoded records are kept as JSON values.
- The database connection, `DATABASE_URL` and `SET CONSTRAINTS ALL DEFERRED` are not modelled. The commit-time constraint check is the predicate `constraintsHold` on the final tables.
- Bootstrap.Connection.Execute: always succeeds. A database error raised by a single `INSERT` (such as a duplicate key) is not modelled. In the source such an error would fail the load and roll it back like any other error.
- `ApiKeyData::from_params` belongs to the authentication library and is not part of this model. It is the uninterpreted function `Config.digest`. That changing any of prefix, id, random or expiry changes the hash is a property of that digest and is not proved here.
- Bootstrap.LoadOrderIrrelevant: the order-independence of the load's outcome is proved only for commit checks that depend on nothing but the rows each table holds. A check that looked at row order could pass for one file order and fail for another; the database's deferred foreign-key checks are not of that kind.
- Bootstrap.ApiKeyInsertSpec: `created` is one clock reading `Config.now` for the whole load. The source reads `Utc::now()` again for each key.
- The value of `API_KEY_PREFIX` is defined in the API crate's `auth` module, which is not part of this model. It is the parameter `Config.keyPrefix`. ApiKeys.FormattedKeyParses assumes the prefix has no `.`. With a dotted prefix, no key can pass the prefix check, because no part of `split('.')` contains a `.` (`ApiKeys.DottedPrefixRefused`).
- Base64Url.Decode: the decoder is strict unpadded base64url. Some versions of the base64 crate ignore the padding setting when decoding and accept trailing `=`; that is not modelled, and neither are the crate's exact error variants. The following statements rely on the strict rejection of `=` and would need a padded variant of each part otherwise: `Base64Url.EncodeDecode`, `Base64Url.DecodableIffEncoding`, `Base64Url.DecodeLength` (a tolerant decoder reads `AA==` as one byte, not three), `Base64Url.SixteenBytesIffLength22`, `ApiKeys.UuidFromDecodedPart`, `ApiKeys.UuidPartIsEncoding`, `ApiKeys.ParsedKeyIsFormatted` (the key being exactly 46 characters longer than the prefix) and the `key == FormatKey(...)` part of `Bootstrap.ApiKeyInsertSpec`.
- `Path::file_name` and `to_string_lossy` are not modelled. A file's name is given as its final path component, so the panic of `unwrap` on a path without one is not modelled either.
- Log output (`println!`) is not modelled.
- JSON numbers are integers in the model. The loader never inspects them.
- The HTTP server setup (`api/src/main.rs`), the shared server state (`api/src/shared_state.rs`) and the router (`api/src/routes/mod.rs`) are not part of this model: they hold no loader logic.
