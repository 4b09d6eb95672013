/**
  The saga persister as the program runs it: an object over the document
  store, whose operations change the store in place and, for Save, the
  caller's saga object. Every method is tied to its step function in
  SagaStore, and keeps the store's invariant.
 */
module SagaPersister {
  import opened Wrappers
  import opened Guids
  import opened SagaStore

  /**
    The caller's saga data object. Its runtime type name and whether its type
    implements the version capability (IHaveDocumentVersion) are fixed;
    DocumentVersion and ETag are meaningful only for versioned data.
   */
  class SagaData {
    const TypeName: CollectionName
    const HasDocumentVersion: bool
    var Id: Guid
    var Fields: Fields
    var DocumentVersion: int
    var ETag: string

    constructor (typeName: CollectionName, hasDocumentVersion: bool, id: Guid, fields: Fields,
                 documentVersion: int, etag: string)
      ensures TypeName == typeName && HasDocumentVersion == hasDocumentVersion
      ensures Id == id && Fields == fields && DocumentVersion == documentVersion && ETag == etag
    {
      TypeName, HasDocumentVersion := typeName, hasDocumentVersion;
      Id, Fields, DocumentVersion, ETag := id, fields, documentVersion, etag;
    }
  }

  class MongoSagaPersister {
    /** The saga collections of the database, by saga type name. */
    var collections: map<CollectionName, Collection>
    /** The uniquely indexed fields of each collection. */
    var indexes: map<CollectionName, set<FieldName>>
    /** ComputeETag. */
    const computeETag: ETagFunction

    function Model(): Store
      reads this
    {
      Store(collections, indexes)
    }

    ghost predicate Valid()
      reads this
    {
      Consistent(Model())
    }

    /**
      A persister attached to the database the factory returns, with whatever
      sagas and unique indexes it already holds.
     */
    constructor (db: Store, computeETag: ETagFunction)
      requires Consistent(db)
      ensures Valid() && Model() == db
      ensures this.computeETag == computeETag
    {
      collections, indexes := db.collections, db.indexes;
      this.computeETag := computeETag;
    }

    /**
      Stores a new saga: refuses data without the version capability, sets the
      object's DocumentVersion to 0 and its ETag to the fingerprint, ensures
      the unique index for the correlation property, then inserts.
     */
    method Save(saga: SagaData, correlation: Option<CorrelationProperty>) returns (r: Outcome)
      requires Valid()
      modifies this, saga
      ensures Valid()
      ensures Step(Model(), r)
           == SaveStep(old(Model()), computeETag, saga.HasDocumentVersion, saga.TypeName, saga.Id, saga.Fields, correlation)
      ensures saga.Id == old(saga.Id) && saga.Fields == old(saga.Fields)
      ensures if saga.HasDocumentVersion
              then saga.DocumentVersion == 0 && saga.ETag == computeETag(saga.Id, saga.Fields)
              else unchanged(saga) && r == Failed(NotVersioned) && Model() == old(Model())
    {
      if !saga.HasDocumentVersion {
        return Failed(NotVersioned);
      }
      saga.DocumentVersion := 0;
      saga.ETag := computeETag(saga.Id, saga.Fields);
      if correlation.Some? {
        r := EnsureUniqueIndex(saga, correlation.value);
        if r.Failed? {
          return;
        }
      }
      r := InsertOne(saga.TypeName, Document(saga.Id, saga.Fields, saga.DocumentVersion, saga.ETag));
    }

    /**
      Writes a changed saga back: nothing is written when the fingerprint of
      its fields equals its ETag; otherwise the document with its id and its
      DocumentVersion is replaced, and the update fails when none was. The
      caller's object is left as it was.
     */
    method Update(saga: SagaData) returns (r: Outcome)
      requires Valid()
      modifies this
      ensures Valid()
      ensures Step(Model(), r)
           == UpdateStep(old(Model()), computeETag, saga.HasDocumentVersion, saga.TypeName, saga.Id, saga.Fields,
                         saga.DocumentVersion, saga.ETag)
    {
      var newETag := computeETag(saga.Id, saga.Fields);
      if !saga.HasDocumentVersion {
        return Failed(InvalidCast);
      }
      if saga.ETag == newETag {
        return Ok;
      }
      var t := saga.TypeName;
      var c: Collection := Docs(Model(), t);
      if saga.Id !in c || c[saga.Id].version != saga.DocumentVersion {
        return Failed(UpdateConflict);
      }
      var d := Document(saga.Id, saga.Fields, saga.DocumentVersion + 1, newETag);
      if ClashesWithOther(c, Indexed(Model(), t), d) {
        return Failed(DuplicateKey);
      }
      UpdateKeepsConsistent(Model(), computeETag, true, t, saga.Id, saga.Fields, saga.DocumentVersion, saga.ETag);
      collections := collections[t := c[saga.Id := d]];
      r := Ok;
    }

    /** Finds the saga of type `typeName` with id `sagaId`; None when there is none. */
    method Get(typeName: CollectionName, sagaId: Guid) returns (r: Option<Document>)
      requires Valid()
      ensures r.Some? <==> sagaId in Docs(Model(), typeName)
      ensures r.Some? ==> r.value == Docs(Model(), typeName)[sagaId] && r.value.id == sagaId
    {
      var c: Collection := Docs(Model(), typeName);
      if sagaId in c {
        assert CollectionConsistent(Docs(Model(), typeName), Indexed(Model(), typeName));
        r := Some(c[sagaId]);
      } else {
        r := None;
      }
    }

    /**
      Finds a saga of type `typeName` whose field `propertyName` equals
      `propertyValue`; None when no document matches.
     */
    method GetByProperty(typeName: CollectionName, propertyName: FieldName, propertyValue: Value)
      returns (r: Option<Document>)
      requires Valid()
      ensures r.None? <==> !HasMatch(Docs(Model(), typeName), propertyName, propertyValue)
      ensures r.Some? ==> r.value.id in Docs(Model(), typeName) && Docs(Model(), typeName)[r.value.id] == r.value
      ensures r.Some? ==> FieldValue(r.value, propertyName) == propertyValue
    {
      var c: Collection := Docs(Model(), typeName);
      if HasMatch(c, propertyName, propertyValue) {
        var k :| k in c && FieldValue(c[k], propertyName) == propertyValue;
        assert CollectionConsistent(c, Indexed(Model(), typeName));
        r := Some(c[k]);
      } else {
        r := None;
      }
    }

    /** Deletes the saga's document; succeeds whether or not there was one. */
    method Complete(saga: SagaData)
      requires Valid()
      modifies this
      ensures Valid()
      ensures Model() == CompleteStep(old(Model()), saga.TypeName, saga.Id)
    {
      var t := saga.TypeName;
      CompleteKeepsConsistent(Model(), t, saga.Id);
      if saga.Id in Docs(Model(), t) {
        collections := collections[t := Docs(Model(), t) - {saga.Id}];
      }
    }

    /** Creates a unique index on the correlation property's field in the saga type's collection. */
    method EnsureUniqueIndex(saga: SagaData, correlation: CorrelationProperty) returns (r: Outcome)
      requires Valid()
      modifies this
      ensures Valid()
      ensures Step(Model(), r) == EnsureIndexStep(old(Model()), saga.TypeName, correlation.name)
    {
      var t, f := saga.TypeName, correlation.name;
      EnsureIndexKeepsConsistent(Model(), t, f);
      if f in Indexed(Model(), t) {
        r := Ok;
      } else if DistinctOn(Docs(Model(), t), f) {
        indexes := indexes[t := Indexed(Model(), t) + {f}];
        r := Ok;
      } else {
        r := Failed(IndexBuildFailed);
      }
    }

    /** The store's insert: refused on a duplicate id or a duplicate value of a uniquely indexed field. */
    method InsertOne(t: CollectionName, d: Document) returns (r: Outcome)
      requires Valid()
      modifies this
      ensures Valid()
      ensures Step(Model(), r) == InsertStep(old(Model()), t, d)
    {
      InsertKeepsConsistent(Model(), t, d);
      var c: Collection := Docs(Model(), t);
      if d.id in c || ClashesWithOther(c, Indexed(Model(), t), d) {
        r := Failed(DuplicateKey);
      } else {
        collections := collections[t := c[d.id := d]];
        r := Ok;
      }
    }
  }

  /**
    The scenario of two copies of one saga read at the same version, both
    changed and written back: the first write succeeds and moves the stored
    version on, the second is refused as a conflict and changes nothing.
   */
  method StaleCopyScenario(persister: MongoSagaPersister, copy1: SagaData, copy2: SagaData) returns (r1: Outcome, r2: Outcome)
    requires persister.Valid()
    requires copy1.TypeName == copy2.TypeName && copy1.Id == copy2.Id
    requires copy1.HasDocumentVersion && copy2.HasDocumentVersion
    requires copy1.DocumentVersion == copy2.DocumentVersion && copy1.ETag == copy2.ETag
    requires copy1.ETag != persister.computeETag(copy1.Id, copy1.Fields)
    requires copy2.ETag != persister.computeETag(copy2.Id, copy2.Fields)
    modifies persister
    ensures r1.Ok? ==> r2 == Failed(UpdateConflict)
  {
    r1 := persister.Update(copy1);
    r2 := persister.Update(copy2);
    if r1.Ok? {
      StaleCopyCannotUpdate(old(persister.Model()), persister.computeETag, copy1.TypeName, copy1.Id,
                            copy1.Fields, copy2.Fields, copy1.DocumentVersion, copy1.ETag);
    }
  }
}
