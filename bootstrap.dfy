/** The bootstrap loader: seeds a fresh deployment from a set of rendered JSON
    files inside one transaction. Each file's name says which table its
    records go to; its content is one JSON object or an array of them; every
    object becomes one inserted row; and any failure rolls the whole load back.

    The first half states what a load does as functions on values (the rows
    to insert and the first error, if any); the second half is the loader
    itself, a sequence of statements on a database connection, proved to do
    exactly that. */
module Bootstrap {
  import opened Wrappers
  import Json
  import opened Records
  import opened Classifier
  import opened ApiKeys
  import opened Store

  /** What the loader takes from outside its own code: the API key prefix,
      the per-table record decoders, the key digest of the authentication
      library, and the clock reading used for `created`. */
  datatype Config = Config(
    keyPrefix: string,
    decodeRecord: (Table, Json.Value) -> Option<Json.Value>,
    decodeKeyInput: Json.Value -> Option<ApiKeyInput>,
    digest: (string, Uuid, Uuid, Timestamp) -> KeyDigest,
    now: Timestamp)

  /** A discovered file: its final path component and its content after
      template rendering and JSON parsing, `None` if either failed. */
  datatype SourceFile = SourceFile(name: string, content: Option<Json.Value>)

  /** The inserts performed, in order, and how the run ended. */
  datatype Run = Run(inserts: seq<Insert>, outcome: Outcome<Error>)

  // ---------------------------------------------------------------------
  // Specification: what applying objects, files and a whole load does.
  // ---------------------------------------------------------------------

  /** The `api_keys` insert for an object of an API-key file. */
  function ApiKeyEffect(cfg: Config, obj: Json.Value): Result<Insert, Error>
  {
    match cfg.decodeKeyInput(obj)
    case None => Err(DecodeFailed(ApiKeys))
    case Some(input) =>
      match ParseKey(input.key, cfg.keyPrefix)
      case Err(e) => Err(e)
      case Ok((id, random)) =>
        Ok(Insert(ApiKeys, Key(BuildApiKey(input, id, random, cfg.keyPrefix, cfg.digest, cfg.now))))
  }

  /** The one insert an object of file `filename` causes, or why it causes none. */
  function ObjectEffect(cfg: Config, filename: string, obj: Json.Value): Result<Insert, Error>
  {
    match ObjectTypeTag(filename)
    case None => Err(NoObjectType(filename))
    case Some(tag) =>
      match Classify(tag)
      case None => Err(UnknownObjectType(filename))
      case Some(t) =>
        if t == ApiKeys then ApiKeyEffect(cfg, obj)
        else
          match cfg.decodeRecord(t, obj)
          case None => Err(DecodeFailed(t))
          case Some(fields) => Ok(Insert(t, Record(fields)))
  }

  /** An element of a top-level array must be an object. */
  function ElementEffect(cfg: Config, filename: string, v: Json.Value): Result<Insert, Error>
  {
    if v.Object? then ObjectEffect(cfg, filename, v) else Err(ExpectedObject(v))
  }

  /** The elements of a top-level array applied in order, stopping at the
      first that fails. */
  function ElementsRun(cfg: Config, filename: string, elems: seq<Json.Value>): Run
  {
    if elems == [] then Run([], Pass)
    else
      var r := ElementsRun(cfg, filename, elems[..|elems| - 1]);
      if r.outcome.Fail? then r
      else
        match ElementEffect(cfg, filename, elems[|elems| - 1])
        case Ok(ins) => Run(r.inserts + [ins], Pass)
        case Err(e) => Run(r.inserts, Fail(e))
  }

  /** One file: an array is applied element by element, a bare object once,
      and anything else is refused. */
  function FileRun(cfg: Config, file: SourceFile): Run
  {
    match file.content
    case None => Run([], Fail(Unreadable(file.name)))
    case Some(value) =>
      match value
      case Array(elems) => ElementsRun(cfg, file.name, elems)
      case Object(_) =>
        (match ObjectEffect(cfg, file.name, value)
         case Ok(ins) => Run([ins], Pass)
         case Err(e) => Run([], Fail(e)))
      case _ => Run([], Fail(ExpectedObject(value)))
  }

  /** The files applied in order, stopping at the first that fails. */
  function FilesRun(cfg: Config, files: seq<SourceFile>): Run
  {
    if files == [] then Run([], Pass)
    else
      var r := FilesRun(cfg, files[..|files| - 1]);
      if r.outcome.Fail? then r
      else
        var f := FileRun(cfg, files[|files| - 1]);
        Run(r.inserts + f.inserts, f.outcome)
  }

  /** A whole load as one transaction from tables `m`: the tables afterwards
      and the outcome. The inserts are kept only if every file applies and
      the deferred constraints hold at commit. */
  function Load(cfg: Config, constraintsHold: Tables -> bool, m: Tables, files: seq<SourceFile>): (Tables, Outcome<Error>)
  {
    var r := FilesRun(cfg, files);
    if r.outcome.Fail? then (m, r.outcome)
    else
      var after := ApplyAll(m, r.inserts);
      if constraintsHold(after) then (after, Pass) else (m, Fail(IntegrityViolation))
  }

  // ---------------------------------------------------------------------
  // Properties of the specification.
  // ---------------------------------------------------------------------

  /** A file name without a `.` names no object type: every object fails. */
  lemma NoDotNoObjectType(cfg: Config, filename: string, obj: Json.Value)
    requires '.' !in filename
    ensures ObjectEffect(cfg, filename, obj) == Err(NoObjectType(filename))
  {
    ObjectTypeTagIsNextToLastPart(filename);
  }

  /** An object is inserted into the table its file name names, and only if
      the name names one; a tag that is no table's singular or plural name
      is an error; and an object whose tag names a table is decoded with that
      table's decoder and inserted there, API keys by way of the key checks. */
  lemma ObjectGoesToNamedTable(cfg: Config, filename: string, obj: Json.Value)
    ensures ObjectEffect(cfg, filename, obj).Ok? ==>
      ObjectTypeTag(filename).Some? &&
      var tag := ObjectTypeTag(filename).value;
      var t := ObjectEffect(cfg, filename, obj).value.table;
      tag == Singular(t) || tag == Plural(t)
    ensures ObjectTypeTag(filename).Some? && Classify(ObjectTypeTag(filename).value).None? ==>
      ObjectEffect(cfg, filename, obj) == Err(UnknownObjectType(filename))
    ensures forall t :: ObjectTypeTag(filename).Some? && Classify(ObjectTypeTag(filename).value) == Some(t) && t != ApiKeys ==>
      ObjectEffect(cfg, filename, obj) ==
        (if cfg.decodeRecord(t, obj).Some? then Ok(Insert(t, Record(cfg.decodeRecord(t, obj).value)))
         else Err(DecodeFailed(t)))
    ensures ObjectTypeTag(filename).Some? && Classify(ObjectTypeTag(filename).value) == Some(ApiKeys) ==>
      ObjectEffect(cfg, filename, obj) == ApiKeyEffect(cfg, obj)
  {
    if ObjectEffect(cfg, filename, obj).Ok? {
      var tag := ObjectTypeTag(filename).value;
      var t := Classify(tag).value;
      ClassifyIff(tag, t);
    }
  }

  /** The singular and the plural spelling of a tag have the same effect on
      every object. */
  lemma SynonymsSameObjectEffect(cfg: Config, f1: string, f2: string, obj: Json.Value, t: Table)
    requires ObjectTypeTag(f1) == Some(Singular(t)) && ObjectTypeTag(f2) == Some(Plural(t))
    ensures ObjectEffect(cfg, f1, obj) == ObjectEffect(cfg, f2, obj)
  {
    ClassifyIff(Singular(t), t);
    ClassifyIff(Plural(t), t);
  }

  /** The singular and the plural spelling of a tag have the same effect on
      the store for every file content, and succeed or fail together. */
  lemma SynonymsSameFileEffect(cfg: Config, f1: string, f2: string, content: Option<Json.Value>, t: Table)
    requires ObjectTypeTag(f1) == Some(Singular(t)) && ObjectTypeTag(f2) == Some(Plural(t))
    ensures FileRun(cfg, SourceFile(f1, content)).inserts == FileRun(cfg, SourceFile(f2, content)).inserts
    ensures FileRun(cfg, SourceFile(f1, content)).outcome.Pass? == FileRun(cfg, SourceFile(f2, content)).outcome.Pass?
  {
    if content.Some? {
      match content.value
      case Array(elems) =>
        SynonymsSameElementsRun(cfg, f1, f2, elems, t);
      case Object(_) =>
        SynonymsSameObjectEffect(cfg, f1, f2, content.value, t);
      case _ =>
    }
  }

  lemma {:induction false} SynonymsSameElementsRun(cfg: Config, f1: string, f2: string, elems: seq<Json.Value>, t: Table)
    requires ObjectTypeTag(f1) == Some(Singular(t)) && ObjectTypeTag(f2) == Some(Plural(t))
    ensures ElementsRun(cfg, f1, elems) == ElementsRun(cfg, f2, elems)
  {
    if elems != [] {
      SynonymsSameElementsRun(cfg, f1, f2, elems[..|elems| - 1], t);
      SynonymsSameObjectEffect(cfg, f1, f2, elems[|elems| - 1], t);
    }
  }

  /** An object of an API-key file is inserted exactly when it decodes and its
      key passes every check; the row is then keyed by the key's `id`, copies
      the other input fields, takes prefix and hash from the digest of
      `(prefix, id, random, expires)`, and the key is the formatted key of
      `id` and `random`. */
  lemma ApiKeyInsertSpec(cfg: Config, obj: Json.Value)
    ensures ApiKeyEffect(cfg, obj).Ok? <==>
      cfg.decodeKeyInput(obj).Some? && ParseKey(cfg.decodeKeyInput(obj).value.key, cfg.keyPrefix).Ok?
    ensures ApiKeyEffect(cfg, obj).Ok? ==>
      var input := cfg.decodeKeyInput(obj).value;
      var (id, random) := ParseKey(input.key, cfg.keyPrefix).value;
      var data := cfg.digest(cfg.keyPrefix, id, random, input.expires);
      var ins := ApiKeyEffect(cfg, obj).value;
      input.key == FormatKey(cfg.keyPrefix, id, random) &&
      |id.bytes| == 16 && |random.bytes| == 16 &&
      ins.table == ApiKeys && ins.row.Key? &&
      ins.row.apiKey == ApiKey(id, input.name, data.prefix, data.hash, input.teamId, input.userId,
                               input.inheritsUserPermissions, cfg.now, input.expires)
  {
    if ApiKeyEffect(cfg, obj).Ok? {
      var input := cfg.decodeKeyInput(obj).value;
      ParsedKeyIsFormatted(input.key, cfg.keyPrefix);
      ParseKeyRejects(input.key, cfg.keyPrefix);
    }
  }

  /** Applying elements that already failed applies nothing more. */
  lemma {:induction false} ElementsRunStops(cfg: Config, filename: string, xs: seq<Json.Value>, ys: seq<Json.Value>)
    requires ElementsRun(cfg, filename, xs).outcome.Fail?
    ensures ElementsRun(cfg, filename, xs + ys) == ElementsRun(cfg, filename, xs)
    decreases |ys|
  {
    if ys == [] {
      assert xs + ys == xs;
    } else {
      assert (xs + ys)[..|xs + ys| - 1] == xs + ys[..|ys| - 1];
      ElementsRunStops(cfg, filename, xs, ys[..|ys| - 1]);
    }
  }

  /** One more element after elements that all applied. */
  lemma ElementsRunStep(cfg: Config, filename: string, elems: seq<Json.Value>, i: nat)
    requires i < |elems| && ElementsRun(cfg, filename, elems[..i]).outcome == Pass
    ensures var r := ElementsRun(cfg, filename, elems[..i]);
      ElementsRun(cfg, filename, elems[..i + 1]) ==
        match ElementEffect(cfg, filename, elems[i])
        case Ok(ins) => Run(r.inserts + [ins], Pass)
        case Err(e) => Run(r.inserts, Fail(e))
  {
    assert elems[..i + 1][..i] == elems[..i];
  }

  /** The inserts of an array run are the effects of its first elements, in
      order; on failure the next element is the one that failed. */
  lemma {:induction false} ElementsRunInserts(cfg: Config, filename: string, elems: seq<Json.Value>)
    ensures var r := ElementsRun(cfg, filename, elems);
      |r.inserts| <= |elems| &&
      (forall i :: 0 <= i < |r.inserts| ==> ElementEffect(cfg, filename, elems[i]) == Ok(r.inserts[i])) &&
      (r.outcome == Pass ==> |r.inserts| == |elems|) &&
      (r.outcome.Fail? ==> |r.inserts| < |elems| &&
                           ElementEffect(cfg, filename, elems[|r.inserts|]) == Err(r.outcome.error))
  {
    if elems != [] {
      var n := |elems| - 1;
      var init := elems[..n];
      ElementsRunInserts(cfg, filename, init);
      var r0 := ElementsRun(cfg, filename, init);
      assert forall i :: 0 <= i < |r0.inserts| ==> init[i] == elems[i];
      if r0.outcome.Fail? {
        assert init[|r0.inserts|] == elems[|r0.inserts|];
      }
    }
  }

  /** An array succeeds exactly when every element is an object that applies;
      it then inserts one row per element, in array order. When it fails,
      the elements before the first failing one have been inserted, in
      order, and the error is that element's. */
  lemma ElementsRunSpec(cfg: Config, filename: string, elems: seq<Json.Value>)
    ensures var r := ElementsRun(cfg, filename, elems);
      (r.outcome == Pass <==> forall i :: 0 <= i < |elems| ==> ElementEffect(cfg, filename, elems[i]).Ok?) &&
      |r.inserts| <= |elems| &&
      (forall i :: 0 <= i < |r.inserts| ==> ElementEffect(cfg, filename, elems[i]) == Ok(r.inserts[i])) &&
      (r.outcome == Pass ==> |r.inserts| == |elems|) &&
      (r.outcome.Fail? ==> |r.inserts| < |elems| &&
                           ElementEffect(cfg, filename, elems[|r.inserts|]) == Err(r.outcome.error))
  {
    ElementsRunInserts(cfg, filename, elems);
  }

  /** A top-level value that is neither an array nor an object, and a bare
      object, as spelled out by the file's content. */
  lemma FileRunShapes(cfg: Config, file: SourceFile)
    ensures file.content.None? ==> FileRun(cfg, file) == Run([], Fail(Unreadable(file.name)))
    ensures file.content.Some? && !file.content.value.Array? && !file.content.value.Object? ==>
      FileRun(cfg, file) == Run([], Fail(ExpectedObject(file.content.value)))
    ensures file.content.Some? && file.content.value.Object? ==>
      var r := FileRun(cfg, file);
      var e := ObjectEffect(cfg, file.name, file.content.value);
      (r.outcome == Pass <==> e.Ok?) && (e.Ok? ==> r.inserts == [e.value]) && (e.Err? ==> r.inserts == [])
    ensures file.content.Some? && file.content.value.Array? ==>
      var elems := file.content.value.elements;
      var r := FileRun(cfg, file);
      (r.outcome == Pass <==> forall i :: 0 <= i < |elems| ==> ElementEffect(cfg, file.name, elems[i]).Ok?) &&
      (r.outcome == Pass ==> |r.inserts| == |elems|)
  {
    if file.content.Some? && file.content.value.Array? {
      ElementsRunSpec(cfg, file.name, file.content.value.elements);
    }
  }

  /** One more file after files that all applied. */
  lemma FilesRunStep(cfg: Config, files: seq<SourceFile>, i: nat)
    requires i < |files| && FilesRun(cfg, files[..i]).outcome == Pass
    ensures FilesRun(cfg, files[..i + 1]) ==
      Run(FilesRun(cfg, files[..i]).inserts + FileRun(cfg, files[i]).inserts, FileRun(cfg, files[i]).outcome)
  {
    assert files[..i + 1][..i] == files[..i];
  }

  /** Applying files after one failed applies nothing more. */
  lemma {:induction false} FilesRunStops(cfg: Config, xs: seq<SourceFile>, ys: seq<SourceFile>)
    requires FilesRun(cfg, xs).outcome.Fail?
    ensures FilesRun(cfg, xs + ys) == FilesRun(cfg, xs)
    decreases |ys|
  {
    if ys == [] {
      assert xs + ys == xs;
    } else {
      assert (xs + ys)[..|xs + ys| - 1] == xs + ys[..|ys| - 1];
      FilesRunStops(cfg, xs, ys[..|ys| - 1]);
    }
  }

  /** Files are applied independently of each other: a sequence of files
      applies exactly when each file applies on its own, and otherwise the
      error is that of the first file that fails. */
  lemma {:induction false} FilesRunSpec(cfg: Config, files: seq<SourceFile>)
    ensures FilesRun(cfg, files).outcome == Pass <==>
      forall i :: 0 <= i < |files| ==> FileRun(cfg, files[i]).outcome == Pass
    ensures FilesRun(cfg, files).outcome.Fail? ==>
      exists k :: 0 <= k < |files| && FileRun(cfg, files[k]).outcome == FilesRun(cfg, files).outcome &&
        forall i :: 0 <= i < k ==> FileRun(cfg, files[i]).outcome == Pass
  {
    if files != [] {
      var n := |files| - 1;
      var init := files[..n];
      FilesRunSpec(cfg, init);
      assert forall i :: 0 <= i < n ==> init[i] == files[i];
      if FilesRun(cfg, init).outcome.Fail? {
        var k :| 0 <= k < n && FileRun(cfg, init[k]).outcome == FilesRun(cfg, init).outcome &&
          forall i :: 0 <= i < k ==> FileRun(cfg, init[i]).outcome == Pass;
        assert FileRun(cfg, files[k]).outcome == FilesRun(cfg, files).outcome;
      } else if FileRun(cfg, files[n]).outcome.Fail? {
        assert FileRun(cfg, files[n]).outcome == FilesRun(cfg, files).outcome;
      }
    }
  }

  /** All or nothing: if any one file fails to apply, wherever it stands,
      the load fails and leaves the tables as they were. */
  lemma AnyFailingFileAbortsLoad(
    cfg: Config, constraintsHold: Tables -> bool, m: Tables, files: seq<SourceFile>, k: nat)
    requires k < |files| && FileRun(cfg, files[k]).outcome.Fail?
    ensures Load(cfg, constraintsHold, m, files).1.Fail?
    ensures Load(cfg, constraintsHold, m, files).0 == m
  {
    FilesRunSpec(cfg, files);
  }

  /** A failed load leaves the tables as they were; a successful one leaves
      each table holding its old rows followed by the rows the files inserted
      into it, in the order the files and their records came. */
  lemma LoadAllOrNothing(
    cfg: Config, constraintsHold: Tables -> bool, m: Tables, files: seq<SourceFile>, t: Table)
    ensures Load(cfg, constraintsHold, m, files).1.Fail? ==> Load(cfg, constraintsHold, m, files).0 == m
    ensures Load(cfg, constraintsHold, m, files).1 == Pass ==>
      Rows(Load(cfg, constraintsHold, m, files).0, t) == Rows(m, t) + RowsFor(FilesRun(cfg, files).inserts, t)
  {
    ApplyAllRows(m, FilesRun(cfg, files).inserts, t);
  }

  /** The inserts of a sequence of files that all apply are those of the
      first files followed by those of the rest. */
  lemma {:induction false} FilesRunSplit(cfg: Config, files: seq<SourceFile>, n: nat)
    requires n <= |files| && FilesRun(cfg, files).outcome == Pass
    ensures FilesRun(cfg, files[..n]).outcome == Pass
    ensures FilesRun(cfg, files[..n]).inserts <= FilesRun(cfg, files).inserts
    decreases |files| - n
  {
    if n == |files| {
      assert files[..n] == files;
    } else {
      var m := |files| - 1;
      FilesRunSpec(cfg, files);
      FilesRunSpec(cfg, files[..m]);
      assert forall i :: 0 <= i < m ==> files[..m][i] == files[i];
      FilesRunSplit(cfg, files[..m], n);
      assert files[..m][..n] == files[..n];
    }
  }

  lemma LoadPasses(cfg: Config, constraintsHold: Tables -> bool, m: Tables, files: seq<SourceFile>)
    requires Load(cfg, constraintsHold, m, files).1 == Pass
    ensures FilesRun(cfg, files).outcome == Pass
    ensures Load(cfg, constraintsHold, m, files).0 == ApplyAll(m, FilesRun(cfg, files).inserts)
  {
  }

  /** When all files apply, the `j`-th insert of file `i` follows the inserts
      of the files before it among the inserts of all of them. */
  lemma FileInsertsWithinAll(cfg: Config, files: seq<SourceFile>, i: nat, j: nat)
    requires FilesRun(cfg, files).outcome == Pass
    requires i < |files| && j < |FileRun(cfg, files[i]).inserts|
    ensures |FilesRun(cfg, files[..i]).inserts| + j < |FilesRun(cfg, files).inserts|
    ensures FilesRun(cfg, files).inserts[|FilesRun(cfg, files[..i]).inserts| + j] == FileRun(cfg, files[i]).inserts[j]
  {
    var pre, fi := FilesRun(cfg, files[..i]).inserts, FileRun(cfg, files[i]).inserts;
    var upTo := FilesRun(cfg, files[..i + 1]).inserts;
    assert upTo == pre + fi && upTo <= FilesRun(cfg, files).inserts by {
      FilesRunSplit(cfg, files, i + 1);
      FilesRunSplit(cfg, files, i);
      FilesRunStep(cfg, files, i);
    }
    PrefixIndex(pre, fi, FilesRun(cfg, files).inserts, j);
  }

  lemma PrefixIndex(pre: seq<Insert>, fi: seq<Insert>, all: seq<Insert>, j: nat)
    requires j < |fi| && pre + fi <= all
    ensures |pre| + j < |all| && all[|pre| + j] == fi[j]
  {
    assert (pre + fi)[|pre| + j] == fi[j];
  }

  /** After a successful load every row that any file inserted is in its
      table. */
  lemma LoadHoldsEveryRecord(
    cfg: Config, constraintsHold: Tables -> bool, m: Tables, files: seq<SourceFile>, i: nat, j: nat)
    requires Load(cfg, constraintsHold, m, files).1 == Pass
    requires i < |files| && j < |FileRun(cfg, files[i]).inserts|
    ensures var ins := FileRun(cfg, files[i]).inserts[j];
      ins.row in Rows(Load(cfg, constraintsHold, m, files).0, ins.table)
  {
    LoadPasses(cfg, constraintsHold, m, files);
    FilesHoldEveryRecord(cfg, m, files, i, j);
  }

  lemma FilesHoldEveryRecord(cfg: Config, m: Tables, files: seq<SourceFile>, i: nat, j: nat)
    requires FilesRun(cfg, files).outcome == Pass
    requires i < |files| && j < |FileRun(cfg, files[i]).inserts|
    ensures var ins := FileRun(cfg, files[i]).inserts[j];
      ins.row in Rows(ApplyAll(m, FilesRun(cfg, files).inserts), ins.table)
  {
    FileInsertsWithinAll(cfg, files, i, j);
    InsertedRowPresent(m, FilesRun(cfg, files).inserts, |FilesRun(cfg, files[..i]).inserts| + j,
      FileRun(cfg, files[i]).inserts[j]);
  }

  /** The order in which files are found does not decide whether they load:
      any rearrangement of the same files applies exactly when they do. */
  lemma FilesRunOrderIrrelevant(cfg: Config, files: seq<SourceFile>, files': seq<SourceFile>)
    requires multiset(files) == multiset(files')
    ensures FilesRun(cfg, files).outcome == Pass <==> FilesRun(cfg, files').outcome == Pass
  {
    FilesRunSpec(cfg, files);
    FilesRunSpec(cfg, files');
    forall i | 0 <= i < |files'|
      ensures files'[i] in files
    {
      assert files'[i] in multiset(files');
    }
    forall i | 0 <= i < |files|
      ensures files[i] in files'
    {
      assert files[i] in multiset(files);
    }
  }

  /** The rows one file inserts into table `t`, without their order. */
  function FileRows(cfg: Config, t: Table): SourceFile -> multiset<Row>
  {
    file => multiset(RowsFor(FileRun(cfg, file).inserts, t))
  }

  /** When all files apply, the rows they insert into a table are, as a
      multiset, those of each file taken on its own. */
  lemma {:induction false} FilesRunRows(cfg: Config, files: seq<SourceFile>, t: Table)
    requires FilesRun(cfg, files).outcome == Pass
    ensures multiset(RowsFor(FilesRun(cfg, files).inserts, t)) == Total(FileRows(cfg, t), files)
  {
    if files != [] {
      var n := |files| - 1;
      var init, last := FilesRun(cfg, files[..n]), FileRun(cfg, files[n]);
      assert init.outcome == Pass && FilesRun(cfg, files).inserts == init.inserts + last.inserts;
      FilesRunRows(cfg, files[..n], t);
      RowsForAppend(init.inserts, last.inserts, t);
      assert FileRows(cfg, t)(files[n]) == multiset(RowsFor(last.inserts, t));
    }
  }

  /** Files found in another order insert the same rows into every table:
      only the order of rows within a table can differ. */
  lemma FilesRunSameContents(cfg: Config, m: Tables, files: seq<SourceFile>, files': seq<SourceFile>)
    requires multiset(files) == multiset(files') && FilesRun(cfg, files).outcome == Pass
    ensures FilesRun(cfg, files').outcome == Pass
    ensures SameContents(ApplyAll(m, FilesRun(cfg, files).inserts), ApplyAll(m, FilesRun(cfg, files').inserts))
  {
    FilesRunOrderIrrelevant(cfg, files, files');
    var a, b := FilesRun(cfg, files).inserts, FilesRun(cfg, files').inserts;
    forall t ensures multiset(Rows(ApplyAll(m, a), t)) == multiset(Rows(ApplyAll(m, b), t)) {
      ApplyAllRows(m, a, t);
      ApplyAllRows(m, b, t);
      FilesRunRows(cfg, files, t);
      FilesRunRows(cfg, files', t);
      TotalPermutation(FileRows(cfg, t), files, files');
    }
  }

  /** With constraints that look only at which rows the tables hold, as
      deferred foreign-key checks do, the order in which the files are found
      decides neither whether the load succeeds nor the rows it leaves. */
  lemma LoadOrderIrrelevant(
    cfg: Config, constraintsHold: Tables -> bool, m: Tables, files: seq<SourceFile>, files': seq<SourceFile>)
    requires multiset(files) == multiset(files')
    requires forall a, b :: SameContents(a, b) ==> constraintsHold(a) == constraintsHold(b)
    ensures Load(cfg, constraintsHold, m, files).1 == Pass <==> Load(cfg, constraintsHold, m, files').1 == Pass
    ensures SameContents(Load(cfg, constraintsHold, m, files).0, Load(cfg, constraintsHold, m, files').0)
  {
    if FilesRun(cfg, files).outcome == Pass {
      FilesRunSameContents(cfg, m, files, files');
    } else {
      FilesRunOrderIrrelevant(cfg, files, files');
    }
  }

  /** A name with only two parts has an object type: `users.json` loads
      users. */
  lemma TwoPartNameHasObjectType()
    ensures ObjectTypeTag("users.json") == Some("users")
    ensures Classify("users") == Some(Users)
  {
    ObjectTypeTagOf("", "users", "json");
    assert "users" + "." + "json" == "users.json";
  }

  /** The type is read only when an object is applied: a file whose content
      is an empty array loads without error whatever its name, while an
      object in a file of unknown type is refused. */
  lemma TypeOnlyCheckedPerObject(cfg: Config, filename: string, members: seq<(string, Json.Value)>)
    ensures FileRun(cfg, SourceFile(filename, Some(Json.Array([])))) == Run([], Pass)
    ensures ObjectTypeTag(filename).Some? && Classify(ObjectTypeTag(filename).value).None? ==>
      FileRun(cfg, SourceFile(filename, Some(Json.Object(members))))
        == Run([], Fail(UnknownObjectType(filename)))
  {
  }

  lemma WidgetIsUnknown()
    ensures Classify("widget") == None
    ensures Classify("widgets") == None
  {
  }

  /** A key with only two parts, and a key with a different first part, are
      refused before anything is decoded. */
  lemma MalformedKeysRefused(keyPrefix: string, wrong: string, a: string, b: string)
    requires '.' !in keyPrefix && '.' !in wrong && '.' !in a && '.' !in b && wrong != keyPrefix
    ensures ParseKey(keyPrefix + "." + a, keyPrefix) == Err(KeyPartCount(2))
    ensures ParseKey(wrong + "." + a + "." + b, keyPrefix) == Err(KeyPrefixMismatch)
  {
    Text.JoinSplit([keyPrefix, a], '.');
    assert [keyPrefix, a][1..] == [a];
    assert Text.Join([keyPrefix, a], '.') == keyPrefix + "." + a;
    Text.Join3([wrong, a, b], '.');
    Text.JoinSplit([wrong, a, b], '.');
  }

  // ---------------------------------------------------------------------
  // The loader, statement by statement, on a database connection.
  // ---------------------------------------------------------------------

  /** A database connection: its tables, and the tables as they were when
      the open transaction, if any, began. */
  class Connection {
    var tables: Tables
    var savepoint: Option<Tables>

    constructor (initial: Tables)
      ensures tables == initial && savepoint == None
    {
      tables := initial;
      savepoint := None;
    }

    method BeginTransaction()
      requires savepoint.None?
      modifies this
      ensures tables == old(tables) && savepoint == Some(old(tables))
    {
      savepoint := Some(tables);
    }

    /** Runs one `INSERT`. */
    method Execute(ins: Insert)
      modifies this`tables
      ensures tables == Apply(old(tables), ins)
    {
      tables := Apply(tables, ins);
    }

    method Rollback()
      requires savepoint.Some?
      modifies this
      ensures tables == old(savepoint.value) && savepoint == None
    {
      tables := savepoint.value;
      savepoint := None;
    }

    /** Commits, checking the deferred constraints; a violation rolls back. */
    method Commit(constraintsHold: Tables -> bool) returns (r: Outcome<Error>)
      requires savepoint.Some?
      modifies this
      ensures savepoint == None
      ensures constraintsHold(old(tables)) ==> r == Pass && tables == old(tables)
      ensures !constraintsHold(old(tables)) ==> r == Fail(IntegrityViolation) && tables == old(savepoint.value)
    {
      if constraintsHold(tables) {
        r := Pass;
        savepoint := None;
      } else {
        r := Fail(IntegrityViolation);
        Rollback();
      }
    }
  }

  /** `apply_object`: one object, one insert, or an error and no insert. */
  method ApplyObject(conn: Connection, cfg: Config, filename: string, obj: Json.Value) returns (r: Outcome<Error>)
    modifies conn`tables
    ensures ObjectEffect(cfg, filename, obj).Ok? ==>
      r == Pass && conn.tables == Apply(old(conn.tables), ObjectEffect(cfg, filename, obj).value)
    ensures ObjectEffect(cfg, filename, obj).Err? ==>
      r == Fail(ObjectEffect(cfg, filename, obj).error) && conn.tables == old(conn.tables)
  {
    var tag := ObjectTypeTag(filename);
    if tag.None? {
      return Fail(NoObjectType(filename));
    }
    var table := Classify(tag.value);
    if table.None? {
      return Fail(UnknownObjectType(filename));
    }
    var t := table.value;
    if t == ApiKeys {
      var input := cfg.decodeKeyInput(obj);
      if input.None? {
        return Fail(DecodeFailed(ApiKeys));
      }
      var parsed := ParseKey(input.value.key, cfg.keyPrefix);
      if parsed.Err? {
        return Fail(parsed.error);
      }
      var (id, random) := parsed.value;
      var row := BuildApiKey(input.value, id, random, cfg.keyPrefix, cfg.digest, cfg.now);
      conn.Execute(Insert(ApiKeys, Key(row)));
    } else {
      var fields := cfg.decodeRecord(t, obj);
      if fields.None? {
        return Fail(DecodeFailed(t));
      }
      conn.Execute(Insert(t, Record(fields.value)));
    }
    return Pass;
  }

  /** `apply_file`: the objects of one file, in order, stopping at the first
      error; the inserts made before it stay until the transaction ends. */
  method ApplyFile(conn: Connection, cfg: Config, file: SourceFile) returns (r: Outcome<Error>)
    modifies conn`tables
    ensures r == FileRun(cfg, file).outcome
    ensures conn.tables == ApplyAll(old(conn.tables), FileRun(cfg, file).inserts)
  {
    if file.content.None? {
      return Fail(Unreadable(file.name));
    }
    var value := file.content.value;
    match value {
      case Array(elems) =>
        var i := 0;
        while i < |elems|
          invariant 0 <= i <= |elems|
          invariant ElementsRun(cfg, file.name, elems[..i]).outcome == Pass
          invariant conn.tables == ApplyAll(old(conn.tables), ElementsRun(cfg, file.name, elems[..i]).inserts)
        {
          var obj := elems[i];
          ElementsRunStep(cfg, file.name, elems, i);
          if !obj.Object? {
            r := Fail(ExpectedObject(obj));
            ElementsRunStops(cfg, file.name, elems[..i + 1], elems[i + 1..]);
            assert elems[..i + 1] + elems[i + 1..] == elems;
            return;
          }
          r := ApplyObject(conn, cfg, file.name, obj);
          if r.Fail? {
            ElementsRunStops(cfg, file.name, elems[..i + 1], elems[i + 1..]);
            assert elems[..i + 1] + elems[i + 1..] == elems;
            return;
          }
          i := i + 1;
        }
        assert elems[..i] == elems;
        return Pass;
      case Object(_) =>
        r := ApplyObject(conn, cfg, file.name, value);
        if r == Pass {
          ApplyAllOne(old(conn.tables), ObjectEffect(cfg, file.name, value).value);
        }
      case _ =>
        return Fail(ExpectedObject(value));
    }
  }

  /** `bootstrap`: every file, in the order given, inside one transaction;
      the first error rolls everything back. */
  method RunBootstrap(conn: Connection, cfg: Config, constraintsHold: Tables -> bool, files: seq<SourceFile>)
    returns (r: Outcome<Error>)
    requires conn.savepoint.None?
    modifies conn
    ensures (conn.tables, r) == Load(cfg, constraintsHold, old(conn.tables), files)
    ensures conn.savepoint == None
  {
    conn.BeginTransaction();
    var i := 0;
    while i < |files|
      invariant 0 <= i <= |files|
      invariant conn.savepoint == Some(old(conn.tables))
      invariant FilesRun(cfg, files[..i]).outcome == Pass
      invariant conn.tables == ApplyAll(old(conn.tables), FilesRun(cfg, files[..i]).inserts)
    {
      FilesRunStep(cfg, files, i);
      r := ApplyFile(conn, cfg, files[i]);
      if r.Fail? {
        conn.Rollback();
        FilesRunStops(cfg, files[..i + 1], files[i + 1..]);
        assert files[..i + 1] + files[i + 1..] == files;
        return;
      }
      ApplyAllAppend(old(conn.tables), FilesRun(cfg, files[..i]).inserts, FileRun(cfg, files[i]).inserts);
      i := i + 1;
    }
    assert files[..i] == files;
    r := conn.Commit(constraintsHold);
  }
}
