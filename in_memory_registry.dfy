/**
 * The in-memory schema registry of the test fixtures: subjects with their latest
 * schema, id and version, the schemas by id, and the next id to hand out.
 */
module SchemaRegistry {
  import opened Wrappers
  import Schema

  /** What the registry keeps for a subject. */
  datatype Entry = Entry(schema: Schema.AvroSchema, id: int, version: int)

  /** The registry client's not-found exceptions. */
  datatype RegistryError = SubjectNotFound(subject: string) | SchemaNotFound

  /** `makeSchemaKey`: a schema is compared by its JSON form. */
  function SchemaKey(schema: Schema.AvroSchema): string {
    schema.json
  }

  class InMemoryRegistry {
    var subjects: map<string, Entry>
    var schemasById: map<int, Schema.AvroSchema>
    var nextId: int

    /**
     * Every id handed out lies below `nextId`; each subject has version 1 and an id of
     * its own, under which its schema is kept by id.
     */
    ghost predicate Valid()
      reads this
    {
      && nextId >= 1
      && (forall id :: id in schemasById ==> 1 <= id < nextId)
      && (forall s :: s in subjects ==>
            subjects[s].version == 1 && subjects[s].id in schemasById && schemasById[subjects[s].id] == subjects[s].schema)
      && (forall s, t :: s in subjects && t in subjects && s != t ==> subjects[s].id != subjects[t].id)
    }

    constructor ()
      ensures Valid() && subjects == map[] && schemasById == map[] && nextId == 1
    {
      subjects := map[];
      schemasById := map[];
      nextId := 1;
    }

    /**
     * Registers `schema` under `subject`: the subject's id when it already has a schema
     * with the same key, and otherwise the next id, under which the schema is stored.
     */
    method Register(subject: string, schema: Schema.AvroSchema) returns (id: int)
      requires Valid()
      modifies this
      ensures Valid()
      ensures SchemaId(subject, schema) == Ok(id) && SchemaForId(id) == Ok(schema)
      ensures subject in old(subjects) && SchemaKey(old(subjects)[subject].schema) == SchemaKey(schema) ==>
        id == old(subjects)[subject].id && unchanged(this)
      ensures !(subject in old(subjects) && SchemaKey(old(subjects)[subject].schema) == SchemaKey(schema)) ==>
        && id == old(nextId) && nextId == id + 1
        && (forall other :: other in old(schemasById) ==> other < id)
        && subjects == old(subjects)[subject := Entry(schema, id, 1)]
        && schemasById == old(schemasById)[id := schema]
    {
      var key := SchemaKey(schema);
      if subject in subjects && SchemaKey(subjects[subject].schema) == key {
        return subjects[subject].id;
      }
      id := nextId;
      nextId := nextId + 1;
      subjects := subjects[subject := Entry(schema, id, 1)];
      schemasById := schemasById[id := schema];
    }

    /** The version of the subject's schema: always 1; the schema asked about plays no part. */
    function SchemaVersion(subject: string, schema: Schema.AvroSchema): (r: Result<int, RegistryError>)
      reads this
      ensures r.Ok? <==> subject in subjects
      ensures r.Err? ==> r.error == SubjectNotFound(subject)
      ensures Valid() && r.Ok? ==> r.value == 1
    {
      if subject !in subjects then Err(SubjectNotFound(subject)) else Ok(subjects[subject].version)
    }

    /** The subject's schema. */
    function LatestVersion(subject: string): (r: Result<Schema.AvroSchema, RegistryError>)
      reads this
      ensures r.Ok? <==> subject in subjects
      ensures r.Err? ==> r.error == SubjectNotFound(subject)
      ensures Valid() && r.Ok? ==> SchemaForId(subjects[subject].id) == r
    {
      if subject !in subjects then Err(SubjectNotFound(subject)) else Ok(subjects[subject].schema)
    }

    /** The subject's id, provided its schema has the key of `schema`. */
    function SchemaId(subject: string, schema: Schema.AvroSchema): (r: Result<int, RegistryError>)
      reads this
      ensures subject !in subjects ==> r == Err(SubjectNotFound(subject))
      ensures subject in subjects && SchemaKey(subjects[subject].schema) != SchemaKey(schema) ==> r == Err(SchemaNotFound)
      ensures r.Ok? ==> subject in subjects && LatestVersion(subject) == Ok(schema)
      ensures Valid() && r.Ok? ==> SchemaForId(r.value) == Ok(schema)
    {
      if subject !in subjects then Err(SubjectNotFound(subject))
      else if SchemaKey(subjects[subject].schema) != SchemaKey(schema) then Err(SchemaNotFound)
      else Ok(subjects[subject].id)
    }

    /** The schema stored under an id; ids never handed out have none. */
    function SchemaForId(id: int): (r: Result<Schema.AvroSchema, RegistryError>)
      reads this
      ensures r.Ok? <==> id in schemasById
      ensures r.Err? ==> r.error == SchemaNotFound
      ensures Valid() && r.Ok? ==> 1 <= id < nextId
    {
      if id !in schemasById then Err(SchemaNotFound) else Ok(schemasById[id])
    }

    /** The subject's schema, whatever version is asked for. */
    function SchemaForSubjectAndVersion(subject: string, version: int): (r: Result<Schema.AvroSchema, RegistryError>)
      reads this
      ensures r == LatestVersion(subject)
    {
      if subject !in subjects then Err(SubjectNotFound(subject)) else Ok(subjects[subject].schema)
    }
  }
}
