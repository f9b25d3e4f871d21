/**
 * The schema store: the loader finds the `*.avsc` files below the configured
 * directories and registers each parsed schema under every subject the file yields;
 * the repository keeps what the loader found and answers lookups by subject.
 */
module Schema {
  import opened Wrappers
  import opened Php

  /** A parsed Avro schema, known to the model by its JSON form, which is what `(string) $schema` gives. */
  datatype AvroSchema = AvroSchema(json: string)

  /**
   * A file as the finder reports it: its name, its path, its real path, its contents, what
   * `AvroSchema::parse` makes of the contents and what `json_decode` makes of them.
   */
  datatype SchemaFile = SchemaFile(
    name: string,
    path: string,
    realPath: string,
    contents: string,
    parsed: Result<AvroSchema, string>,
    json: Result<Raw, string>)

  /** The file system: each existing directory with the files below it, in the order the finder lists them. */
  type FileSystem = map<string, seq<SchemaFile>>

  /** The `RuntimeException`s that abort a load, each naming the file. */
  datatype LoadError =
    | ParseFailed(path: string, reason: string)
    | InvalidJson(path: string, reason: string)
    | UnexpectedStructure(path: string)

  /** `filterExistingDirectories`: the configured directories that exist, in their order. */
  function FilterExistingDirectories(fs: FileSystem, directories: seq<string>): (r: seq<string>)
    ensures |r| <= |directories|
    ensures forall d :: d in r <==> d in directories && d in fs
  {
    if directories == [] then []
    else
      assert directories == [directories[0]] + directories[1..];
      (if directories[0] in fs then [directories[0]] else []) + FilterExistingDirectories(fs, directories[1..])
  }

  /** The finder's `name('*.avsc')` with dot files ignored. */
  predicate IsSchemaFileName(name: string) {
    |name| > 5 && name[0] != '.' && name[|name| - 5..] == ".avsc"
  }

  /** `getBasename('.avsc')` of a schema file. */
  function Basename(name: string): (r: string)
    requires IsSchemaFileName(name)
    ensures r != "" && r + ".avsc" == name
  {
    name[..|name| - 5]
  }

  /** The schema files the finder lists below the given directories, directory by directory. */
  function Found(fs: FileSystem, directories: seq<string>): (r: seq<SchemaFile>)
    requires forall d :: d in directories ==> d in fs
    ensures forall f :: f in r ==> IsSchemaFileName(f.name) && exists d :: d in directories && f in fs[d]
  {
    if directories == [] then []
    else
      var d := directories[0];
      Only(fs[d]) + Found(fs, directories[1..])
  }

  /** The entries of `files` whose names are schema file names, in order. */
  function Only(files: seq<SchemaFile>): (r: seq<SchemaFile>)
    ensures forall f :: f in r <==> f in files && IsSchemaFileName(f.name)
  {
    if files == [] then []
    else
      assert files == [files[0]] + files[1..];
      (if IsSchemaFileName(files[0].name) then [files[0]] else []) + Only(files[1..])
  }

  /** `decodeSchemaJson`: the decoded document, which must be valid JSON with an array at the top. */
  function DecodeSchemaJson(json: Result<Raw, string>, path: string): (r: Result<map<Key, Raw>, LoadError>)
    ensures r.Ok? <==> json.Ok? && json.value.Arr?
    ensures r.Ok? ==> r.value == json.value.entries
    ensures json.Err? ==> r == Err(InvalidJson(path, json.error))
    ensures json.Ok? && !json.value.Arr? ==> r == Err(UnexpectedStructure(path))
  {
    match json
    case Err(reason) => Err(InvalidJson(path, reason))
    case Ok(decoded) => if decoded.Arr? then Ok(decoded.entries) else Err(UnexpectedStructure(path))
  }

  function Count(b: bool): nat {
    if b then 1 else 0
  }

  /** `deriveSubjects`: the basename, the explicit subject, the full name and the bare name. */
  function DeriveSubjects(basename: string, decoded: map<Key, Raw>): (r: seq<string>)
    ensures |r| >= 1 && r[0] == basename
    ensures |r| == 1 + Count(IsNonEmptyString(Field(decoded, "subject"))) + Count(IsNonEmptyString(Field(decoded, "name")))
      + Count(IsNonEmptyString(Field(decoded, "name")) && IsNonEmptyString(Field(decoded, "namespace")))
    ensures IsNonEmptyString(Field(decoded, "subject")) ==> r[1] == Field(decoded, "subject").s
    ensures IsNonEmptyString(Field(decoded, "name")) ==> r[|r| - 1] == Field(decoded, "name").s
    ensures IsNonEmptyString(Field(decoded, "name")) && IsNonEmptyString(Field(decoded, "namespace")) ==>
      r[|r| - 2] == Field(decoded, "namespace").s + "." + Field(decoded, "name").s
  {
    var subject := Field(decoded, "subject");
    var withSubject := if IsNonEmptyString(subject) then [basename, subject.s] else [basename];
    var name := Field(decoded, "name");
    if !IsNonEmptyString(name) then withSubject
    else
      var namespace := Field(decoded, "namespace");
      var withFullName := if IsNonEmptyString(namespace) then withSubject + [namespace.s + "." + name.s] else withSubject;
      withFullName + [name.s]
  }

  /** `array_unique`: the first occurrence of each subject, in order. */
  function Unique(subjects: seq<string>): (r: seq<string>)
    ensures forall x :: x in r <==> x in subjects
    ensures forall i, j :: 0 <= i < j < |r| ==> r[i] != r[j]
    decreases |subjects|
  {
    if subjects == [] then []
    else
      var last := subjects[|subjects| - 1];
      assert subjects == subjects[..|subjects| - 1] + [last];
      var before := Unique(subjects[..|subjects| - 1]);
      if last in before then before else before + [last]
  }

  /** The inner loop of `load`: each non-empty subject in turn now names `schema`. */
  function Register(schemas: map<string, AvroSchema>, subjects: seq<string>, schema: AvroSchema): map<string, AvroSchema>
    decreases |subjects|
  {
    if subjects == [] then schemas
    else
      var before := Register(schemas, subjects[..|subjects| - 1], schema);
      var subject := subjects[|subjects| - 1];
      if subject == "" then before else before[subject := schema]
  }

  /** What a non-empty schema file yields: its schema and its subjects, or the error that aborts the load. */
  function Outcome(f: SchemaFile): Result<(AvroSchema, seq<string>), LoadError>
    requires IsSchemaFileName(f.name)
  {
    match f.parsed
    case Err(reason) => Err(ParseFailed(f.realPath, reason))
    case Ok(schema) =>
      var decoded :- DecodeSchemaJson(f.json, f.path);
      Ok((schema, DeriveSubjects(Basename(f.name), decoded)))
  }

  /** One iteration of the outer loop of `load`: an empty file is skipped. */
  function AddFile(schemas: map<string, AvroSchema>, f: SchemaFile): Result<map<string, AvroSchema>, LoadError>
    requires IsSchemaFileName(f.name)
  {
    if f.contents == "" then Ok(schemas)
    else
      var outcome :- Outcome(f);
      Ok(Register(schemas, Unique(outcome.1), outcome.0))
  }

  predicate SchemaFiles(files: seq<SchemaFile>) {
    forall i :: 0 <= i < |files| ==> IsSchemaFileName(files[i].name)
  }

  /** The outer loop of `load`: the files in the finder's order, stopping at the first error. */
  function LoadFiles(files: seq<SchemaFile>): Result<map<string, AvroSchema>, LoadError>
    requires SchemaFiles(files)
    decreases |files|
  {
    if files == [] then Ok(map[])
    else
      var before :- LoadFiles(files[..|files| - 1]);
      AddFile(before, files[|files| - 1])
  }

  /** `load`: the schemas of the files below the configured directories that exist, by subject. */
  function Loaded(fs: FileSystem, directories: seq<string>): Result<map<string, AvroSchema>, LoadError> {
    var existing := FilterExistingDirectories(fs, directories);
    if existing == [] then Ok(map[])
    else
      FoundSchemaFiles(fs, existing);
      LoadFiles(Found(fs, existing))
  }

  /** Every file the finder lists is a schema file. */
  lemma FoundSchemaFiles(fs: FileSystem, directories: seq<string>)
    requires forall d :: d in directories ==> d in fs
    ensures SchemaFiles(Found(fs, directories))
  {
    var files := Found(fs, directories);
    forall i | 0 <= i < |files| ensures IsSchemaFileName(files[i].name) {
      assert files[i] in files;
    }
  }

  /** A file that registers `subject`: not empty, well-formed, and `subject` is one of its non-empty subjects. */
  predicate Contributes(f: SchemaFile, subject: string) {
    IsSchemaFileName(f.name) && f.contents != "" && Outcome(f).Ok? && subject != "" && subject in Outcome(f).value.1
  }

  /** A file that aborts the load. */
  predicate Bad(f: SchemaFile) {
    IsSchemaFileName(f.name) && f.contents != "" && Outcome(f).Err?
  }

  /** A subject names a schema after `Register` exactly when it was there or is a non-empty one of `subjects`. */
  lemma {:induction false} RegisterLookup(schemas: map<string, AvroSchema>, subjects: seq<string>, schema: AvroSchema, subject: string)
    ensures subject in Register(schemas, subjects, schema) <==> subject in schemas || (subject in subjects && subject != "")
    ensures subject in subjects && subject != "" ==> Register(schemas, subjects, schema)[subject] == schema
    ensures subject !in subjects && subject in schemas ==> Register(schemas, subjects, schema)[subject] == schemas[subject]
    decreases |subjects|
  {
    if subjects != [] {
      var n := |subjects| - 1;
      assert subjects == subjects[..n] + [subjects[n]];
      RegisterLookup(schemas, subjects[..n], schema, subject);
    }
  }

  /** Once a prefix of the files has failed, the load fails with that error. */
  lemma {:induction false} ErrorSticks(files: seq<SchemaFile>, k: nat)
    requires SchemaFiles(files) && k <= |files|
    requires LoadFiles(files[..k]).Err?
    ensures LoadFiles(files) == LoadFiles(files[..k])
    decreases |files|
  {
    if k < |files| {
      var n := |files| - 1;
      LoadStep(files, n);
      assert files[..n + 1] == files;
      assert files[..n][..k] == files[..k];
      ErrorSticks(files[..n], k);
    } else {
      assert files[..k] == files;
    }
  }

  /** The load succeeds exactly when no file is bad. */
  lemma {:induction false} LoadSucceeds(files: seq<SchemaFile>)
    requires SchemaFiles(files)
    ensures LoadFiles(files).Ok? <==> forall i :: 0 <= i < |files| ==> !Bad(files[i])
    decreases |files|
  {
    if files != [] {
      var n := |files| - 1;
      LoadSucceeds(files[..n]);
      assert forall i :: 0 <= i < n ==> files[..n][i] == files[i];
    }
  }

  /** The first bad file decides the error the load aborts with. */
  lemma {:induction false} FirstBadFileAborts(files: seq<SchemaFile>, k: nat)
    requires SchemaFiles(files) && k < |files| && Bad(files[k])
    requires forall j :: 0 <= j < k ==> !Bad(files[j])
    ensures LoadFiles(files) == Err(Outcome(files[k]).error)
  {
    var prefix := files[..k];
    assert SchemaFiles(prefix) by {
      forall j | 0 <= j < k ensures IsSchemaFileName(prefix[j].name) {
        assert prefix[j] == files[j];
      }
    }
    LoadSucceeds(prefix);
    assert files[..k + 1][..k] == prefix;
    ErrorSticks(files, k + 1);
  }

  /**
   * After a successful load, a subject names a schema exactly when some file contributes it
   * (so `""` never does), and it names the schema of the last file that contributes it.
   */
  lemma {:induction false} LoadedSubjects(files: seq<SchemaFile>, subject: string)
    requires SchemaFiles(files) && LoadFiles(files).Ok?
    ensures subject in LoadFiles(files).value <==> exists i :: 0 <= i < |files| && Contributes(files[i], subject)
    ensures "" !in LoadFiles(files).value
    decreases |files|
  {
    if files != [] {
      var n := |files| - 1;
      var prefix := files[..n];
      LoadedSubjects(prefix, subject);
      LoadedSubjects(prefix, "");
      var before := LoadFiles(prefix).value;
      var f := files[n];
      assert forall i :: 0 <= i < n ==> prefix[i] == files[i];
      if f.contents != "" {
        var outcome := Outcome(f).value;
        RegisterLookup(before, Unique(outcome.1), outcome.0, subject);
        RegisterLookup(before, Unique(outcome.1), outcome.0, "");
      }
      if subject in LoadFiles(files).value && !Contributes(f, subject) {
        var i :| 0 <= i < n && Contributes(prefix[i], subject);
        assert Contributes(files[i], subject);
      }
    }
  }

  /** Some schema file below the directories that exist contributes `subject`. */
  predicate Contributed(fs: FileSystem, directories: seq<string>, subject: string) {
    var files := Found(fs, FilterExistingDirectories(fs, directories));
    exists i :: 0 <= i < |files| && Contributes(files[i], subject)
  }

  /** A successful load has a subject exactly when some schema file contributes it. */
  lemma LoadedSubjectsOf(fs: FileSystem, directories: seq<string>, subject: string)
    requires Loaded(fs, directories).Ok?
    ensures subject in Loaded(fs, directories).value <==> Contributed(fs, directories, subject)
  {
    var existing := FilterExistingDirectories(fs, directories);
    FoundSchemaFiles(fs, existing);
    if existing != [] {
      LoadedSubjects(Found(fs, existing), subject);
    }
  }

  /** The schema a subject names is that of the last file contributing the subject. */
  lemma {:induction false} LastFileWins(files: seq<SchemaFile>, k: nat, subject: string)
    requires SchemaFiles(files) && LoadFiles(files).Ok?
    requires k < |files| && Contributes(files[k], subject)
    requires forall j :: k < j < |files| ==> !Contributes(files[j], subject)
    ensures subject in LoadFiles(files).value
    ensures LoadFiles(files).value[subject] == Outcome(files[k]).value.0
    decreases |files|
  {
    var n := |files| - 1;
    var prefix := files[..n];
    var f := files[n];
    LoadStep(files, n);
    assert files[..n + 1] == files;
    var before := LoadFiles(prefix).value;
    if k < n {
      assert prefix[k] == files[k];
      assert forall j :: k < j < |prefix| ==> prefix[j] == files[j];
      LastFileWins(prefix, k, subject);
      AddFileKeeps(before, f, subject);
    } else {
      AddFileSets(before, f, subject);
    }
  }

  /** A file that does not contribute `subject` leaves its schema as it was. */
  lemma AddFileKeeps(schemas: map<string, AvroSchema>, f: SchemaFile, subject: string)
    requires IsSchemaFileName(f.name) && AddFile(schemas, f).Ok?
    requires subject != "" && subject in schemas && !Contributes(f, subject)
    ensures subject in AddFile(schemas, f).value && AddFile(schemas, f).value[subject] == schemas[subject]
  {
    if f.contents != "" {
      var outcome := Outcome(f).value;
      RegisterLookup(schemas, Unique(outcome.1), outcome.0, subject);
    }
  }

  /** A file that contributes `subject` makes it name the file's schema. */
  lemma AddFileSets(schemas: map<string, AvroSchema>, f: SchemaFile, subject: string)
    requires Contributes(f, subject)
    ensures AddFile(schemas, f).Ok?
    ensures subject in AddFile(schemas, f).value && AddFile(schemas, f).value[subject] == Outcome(f).value.0
  {
    var outcome := Outcome(f).value;
    RegisterLookup(schemas, Unique(outcome.1), outcome.0, subject);
  }

  /** One more file: the load of the longer prefix is the file added to the load of the shorter. */
  lemma LoadStep(files: seq<SchemaFile>, i: nat)
    requires SchemaFiles(files) && i < |files|
    ensures SchemaFiles(files[..i]) && SchemaFiles(files[..i + 1])
    ensures LoadFiles(files[..i + 1]) == (var before :- LoadFiles(files[..i]); AddFile(before, files[i]))
  {
    assert files[..i + 1][..i] == files[..i];
  }

  /** The inner loop of `load`: each subject in turn, the empty one skipped. */
  method RegisterSubjects(schemas: map<string, AvroSchema>, subjects: seq<string>, schema: AvroSchema)
    returns (r: map<string, AvroSchema>)
    ensures r == Register(schemas, subjects, schema)
  {
    r := schemas;
    for j := 0 to |subjects|
      invariant r == Register(schemas, subjects[..j], schema)
    {
      assert subjects[..j + 1][..j] == subjects[..j];
      if subjects[j] == "" {
        continue;
      }
      r := r[subjects[j] := schema];
    }
    assert subjects[..|subjects|] == subjects;
  }

  /** The loader, configured with its directories. */
  class SchemaLoader {
    const directories: seq<string>
    /** The subjects each subject's schema refers to, as the repository reads them from the loader. */
    const references: map<string, seq<string>>
    /** The full name of each subject's schema, as the repository reads them from the loader. */
    const fullNames: map<string, string>

    constructor (directories: seq<string>, references: map<string, seq<string>>, fullNames: map<string, string>)
      ensures this.directories == directories && this.references == references && this.fullNames == fullNames
    {
      this.directories := directories;
      this.references := references;
      this.fullNames := fullNames;
    }

    /** Reads every schema file below the configured directories that exist, file by file and subject by subject. */
    method Load(fs: FileSystem) returns (r: Result<map<string, AvroSchema>, LoadError>)
      ensures r == Loaded(fs, directories)
    {
      var schemas: map<string, AvroSchema> := map[];
      var existing := FilterExistingDirectories(fs, directories);
      if existing == [] {
        return Ok(schemas);
      }
      var files := Found(fs, existing);
      assert SchemaFiles(files) by {
        forall i | 0 <= i < |files| ensures IsSchemaFileName(files[i].name) {
          assert files[i] in files;
        }
      }
      for i := 0 to |files|
        invariant LoadFiles(files[..i]) == Ok(schemas)
      {
        var file := files[i];
        LoadStep(files, i);
        if file.contents == "" {
          continue;
        }
        if file.parsed.Err? {
          ErrorSticks(files, i + 1);
          return Err(ParseFailed(file.realPath, file.parsed.error));
        }
        var decoded := DecodeSchemaJson(file.json, file.path);
        if decoded.Err? {
          ErrorSticks(files, i + 1);
          return Err(decoded.error);
        }
        schemas := RegisterSubjects(schemas, Unique(DeriveSubjects(Basename(file.name), decoded.value)), file.parsed.value);
      }
      assert files[..|files|] == files;
      return Ok(schemas);
    }
  }

  /** The `RuntimeException` of `get` for an unknown subject. */
  datatype RepositoryError = SchemaNotFound(subject: string)

  /** Why `refresh` as written throws. */
  datatype RefreshFailure = LoadFailed(cause: LoadError) | UndefinedMethod(name: string)

  /** The repository's three fields. */
  datatype Store = Store(schemas: map<string, AvroSchema>, references: map<string, seq<string>>, fullNames: map<string, string>)

  /**
   * `refresh` as written: the loaded schemas are assigned, then the call to the loader's
   * `references()`, which the loader does not define, throws; the new schemas stay beside
   * the old references and full names.
   */
  function RefreshAsWritten(store: Store, loaded: Result<map<string, AvroSchema>, LoadError>): (Result<(), RefreshFailure>, Store) {
    match loaded
    case Err(e) => (Err(LoadFailed(e)), store)
    case Ok(schemas) => (Err(UndefinedMethod("SchemaLoader::references")), store.(schemas := schemas))
  }

  /** As written, no refresh succeeds; a load that succeeds leaves the schemas replaced but the other two maps stale. */
  lemma RefreshAsWrittenAlwaysThrows(store: Store, loaded: Result<map<string, AvroSchema>, LoadError>)
    ensures RefreshAsWritten(store, loaded).0.Err?
    ensures loaded.Ok? ==> RefreshAsWritten(store, loaded).1 == Store(loaded.value, store.references, store.fullNames)
  {
  }

  /**
   * So, as written, constructing a repository always throws: with the loader's error when
   * the load fails, and with the undefined call whenever the configured directories load,
   * which they do at least when none of them exists.
   */
  lemma ConstructionAsWrittenThrows(fs: FileSystem, directories: seq<string>)
    ensures RefreshAsWritten(Store(map[], map[], map[]), Loaded(fs, directories)).0.Err?
    ensures Loaded(fs, directories).Ok? ==>
      RefreshAsWritten(Store(map[], map[], map[]), Loaded(fs, directories)).0 == Err(UndefinedMethod("SchemaLoader::references"))
    ensures FilterExistingDirectories(fs, directories) == [] ==> Loaded(fs, directories) == Ok(map[])
  {
  }

  /** The store of schemas by subject, with what the loader reports about references and full names. */
  class SchemaRepository {
    const schemaLoader: SchemaLoader
    var schemas: map<string, AvroSchema>
    var references: map<string, seq<string>>
    var fullNames: map<string, string>

    /** The object before its first refresh; only `Create` uses it. */
    constructor Empty(schemaLoader: SchemaLoader)
      ensures this.schemaLoader == schemaLoader && schemas == map[] && references == map[] && fullNames == map[]
    {
      this.schemaLoader := schemaLoader;
      schemas := map[];
      references := map[];
      fullNames := map[];
    }

    /** `new SchemaRepository($loader)`: a repository refreshed once, or the load's error. */
    static method Create(schemaLoader: SchemaLoader, fs: FileSystem) returns (r: Result<SchemaRepository, LoadError>)
      ensures Loaded(fs, schemaLoader.directories).Err? ==> r == Err(Loaded(fs, schemaLoader.directories).error)
      ensures Loaded(fs, schemaLoader.directories).Ok? ==>
        && r.Ok? && fresh(r.value) && r.value.schemaLoader == schemaLoader
        && r.value.schemas == Loaded(fs, schemaLoader.directories).value
        && r.value.references == schemaLoader.references && r.value.fullNames == schemaLoader.fullNames
    {
      var repository := new SchemaRepository.Empty(schemaLoader);
      var refreshed := repository.Refresh(fs);
      if refreshed.Err? {
        return Err(refreshed.error);
      }
      return Ok(repository);
    }

    /** Replaces the three maps with what the loader now reports; a failed load changes nothing. */
    method Refresh(fs: FileSystem) returns (r: Result<(), LoadError>)
      modifies this
      ensures Loaded(fs, schemaLoader.directories).Err? ==>
        r == Err(Loaded(fs, schemaLoader.directories).error) && unchanged(this)
      ensures Loaded(fs, schemaLoader.directories).Ok? ==>
        && r == Ok(())
        && schemas == Loaded(fs, schemaLoader.directories).value
        && references == schemaLoader.references && fullNames == schemaLoader.fullNames
    {
      var loaded := schemaLoader.Load(fs);
      if loaded.Err? {
        return Err(loaded.error);
      }
      schemas := loaded.value;
      references := schemaLoader.references;
      fullNames := schemaLoader.fullNames;
      return Ok(());
    }

    predicate Has(subject: string)
      reads this
    {
      subject in schemas
    }

    /** The schema of a subject the repository has, and the not-found error otherwise. */
    function Get(subject: string): (r: Result<AvroSchema, RepositoryError>)
      reads this
      ensures r.Ok? <==> Has(subject)
      ensures r.Ok? ==> subject in All() && r.value == All()[subject]
      ensures r.Err? ==> r.error == SchemaNotFound(subject)
    {
      if !Has(subject) then Err(SchemaNotFound(subject)) else Ok(schemas[subject])
    }

    /** Every schema by subject; its subjects are exactly those the repository has. */
    function All(): (r: map<string, AvroSchema>)
      reads this
      ensures forall subject :: subject in r <==> Has(subject)
    {
      schemas
    }

    /** The subjects a subject's schema refers to; none for a subject without an entry. */
    function References(subject: string): (r: seq<string>)
      reads this
      ensures subject !in references ==> r == []
      ensures subject in references ==> r == references[subject]
    {
      if subject in references then references[subject] else []
    }

    /** The full name of a subject's schema; null for a subject without an entry. */
    function FullName(subject: string): (r: Option<string>)
      reads this
      ensures r.None? <==> subject !in fullNames
      ensures r.Some? ==> r.value == fullNames[subject]
    {
      if subject in fullNames then Some(fullNames[subject]) else None
    }

    /** After a successful refresh, the repository has a subject exactly when some schema file contributes it. */
    lemma HasLoadedSubject(fs: FileSystem, subject: string)
      requires Loaded(fs, schemaLoader.directories) == Ok(schemas)
      ensures Has(subject) <==> Contributed(fs, schemaLoader.directories, subject)
    {
      LoadedSubjectsOf(fs, schemaLoader.directories, subject);
    }
  }
}
