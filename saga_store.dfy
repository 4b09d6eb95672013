/**
  The saga store's state, seen as a value: one document collection per saga
  type name, each a map from saga id to document, and per collection the set
  of field names that carry a unique index. Each operation of the persister
  is a step function from one state to the next together with its outcome;
  the lemmas below state what the persister promises about those steps.
 */
module SagaStore {
  import opened Wrappers
  import opened Guids

  type FieldName = string

  /** A collection is named after the saga's runtime type name. */
  type CollectionName = string

  /** The document values the model distinguishes. A field a document lacks reads as Null. */
  datatype Value = Null | Bool(b: bool) | Int(i: int) | Str(s: string) | Uuid(g: Guid)

  /** The business fields of a saga: every property except Id, DocumentVersion and ETag. */
  type Fields = map<FieldName, Value>

  /**
    The content fingerprint (ComputeETag): a function of the saga's id and
    business fields only, never of its DocumentVersion or ETag.
   */
  type ETagFunction = (Guid, Fields) -> string

  /** A stored saga document. */
  datatype Document = Document(id: Guid, fields: Fields, version: int, etag: string)

  type Collection = map<Guid, Document>

  datatype Store = Store(collections: map<CollectionName, Collection>, indexes: map<CollectionName, set<FieldName>>)

  /** The optional correlation property handed to Save; only its name drives the index. */
  datatype CorrelationProperty = CorrelationProperty(name: FieldName, value: Value)

  /**
    The distinct failures: NotVersioned is Save's InvalidOperationException for
    data without IHaveDocumentVersion, InvalidCast is the cast failure Update
    meets on such data, DuplicateKey is the store's write error for a unique
    index (the id or an indexed field), IndexBuildFailed is the store refusing a
    unique index over documents that already repeat a value, and UpdateConflict
    is Update's InvalidOperationException when no document was modified.
   */
  datatype SagaError = NotVersioned | InvalidCast | DuplicateKey | IndexBuildFailed | UpdateConflict

  datatype Outcome = Ok | Failed(error: SagaError)

  datatype Step = Step(store: Store, outcome: Outcome)

  /** The documents of collection `t`; a collection never written is empty. */
  function Docs(s: Store, t: CollectionName): Collection
  {
    if t in s.collections then s.collections[t] else map[]
  }

  /** The fields of collection `t` that carry a unique index. */
  function Indexed(s: Store, t: CollectionName): set<FieldName>
  {
    if t in s.indexes then s.indexes[t] else {}
  }

  function Lookup(fields: Fields, f: FieldName): Value
  {
    if f in fields then fields[f] else Null
  }

  /** The value a unique index or an equality filter sees for field `f`. */
  function FieldValue(d: Document, f: FieldName): Value
  {
    Lookup(d.fields, f)
  }

  /** No two documents of `c` share a value of `f`. */
  predicate DistinctOn(c: Collection, f: FieldName)
  {
    forall j, k :: j in c && k in c && j != k ==> FieldValue(c[j], f) != FieldValue(c[k], f)
  }

  /** Some document of `c` other than `d`'s own repeats `d`'s value of an indexed field. */
  predicate ClashesWithOther(c: Collection, idx: set<FieldName>, d: Document)
  {
    exists f, k :: f in idx && k in c && k != d.id && FieldValue(c[k], f) == FieldValue(d, f)
  }

  /** Some document of `c` has value `v` for field `f`. */
  predicate HasMatch(c: Collection, f: FieldName, v: Value)
  {
    exists k :: k in c && FieldValue(c[k], f) == v
  }

  ghost predicate CollectionConsistent(c: Collection, idx: set<FieldName>)
  {
    && (forall k :: k in c ==> c[k].id == k)
    && (forall f :: f in idx ==> DistinctOn(c, f))
  }

  /** What the document store maintains: ids are keys, and every unique index holds. */
  ghost predicate Consistent(s: Store)
  {
    forall t :: CollectionConsistent(Docs(s, t), Indexed(s, t))
  }

  /**
    Creating a unique index on `f` in collection `t`: a no-op when it exists,
    refused when the documents already repeat a value of `f`.
   */
  function EnsureIndexStep(s: Store, t: CollectionName, f: FieldName): (r: Step)
    ensures r.store.collections == s.collections
    ensures r.outcome.Ok? <==> f in Indexed(s, t) || DistinctOn(Docs(s, t), f)
    ensures r.outcome.Ok? ==> Indexed(r.store, t) == Indexed(s, t) + {f}
    ensures r.outcome.Failed? ==> r == Step(s, Failed(IndexBuildFailed))
    ensures forall u :: u != t ==> Indexed(r.store, u) == Indexed(s, u)
  {
    if f in Indexed(s, t) then Step(s, Ok)
    else if DistinctOn(Docs(s, t), f) then Step(s.(indexes := s.indexes[t := Indexed(s, t) + {f}]), Ok)
    else Step(s, Failed(IndexBuildFailed))
  }

  /** Inserting one document into collection `t`, subject to the id and the unique indexes. */
  function InsertStep(s: Store, t: CollectionName, d: Document): Step
  {
    var c := Docs(s, t);
    if d.id in c || ClashesWithOther(c, Indexed(s, t), d) then Step(s, Failed(DuplicateKey))
    else Step(s.(collections := s.collections[t := c[d.id := d]]), Ok)
  }

  /** The document Save writes: version 0 and the fingerprint of the content. */
  function NewDocument(etagOf: ETagFunction, id: Guid, fields: Fields): Document
  {
    Document(id, fields, 0, etagOf(id, fields))
  }

  /** Save: the capability gate, then the index for the correlation property, then the insert. */
  function SaveStep(s: Store, etagOf: ETagFunction, versioned: bool, t: CollectionName, id: Guid, fields: Fields,
                    correlation: Option<CorrelationProperty>): Step
  {
    if !versioned then Step(s, Failed(NotVersioned))
    else
      var indexed := if correlation.Some? then EnsureIndexStep(s, t, correlation.value.name) else Step(s, Ok);
      if indexed.outcome.Failed? then indexed
      else InsertStep(indexed.store, t, NewDocument(etagOf, id, fields))
  }

  /**
    Update: skipped when the fingerprint is unchanged; otherwise a
    compare-and-swap on (id, held version) that writes the fields, the new
    fingerprint and the version one above the held one.
   */
  function UpdateStep(s: Store, etagOf: ETagFunction, versioned: bool, t: CollectionName, id: Guid, fields: Fields,
                      heldVersion: int, heldETag: string): Step
  {
    if !versioned then Step(s, Failed(InvalidCast))
    else
      var newETag := etagOf(id, fields);
      if heldETag == newETag then Step(s, Ok)
      else
        var c := Docs(s, t);
        if id !in c || c[id].version != heldVersion then Step(s, Failed(UpdateConflict))
        else
          var d := Document(id, fields, heldVersion + 1, newETag);
          if ClashesWithOther(c, Indexed(s, t), d) then Step(s, Failed(DuplicateKey))
          else Step(s.(collections := s.collections[t := c[id := d]]), Ok)
  }

  /** Complete: deletes the document with that id, if there is one. */
  function CompleteStep(s: Store, t: CollectionName, id: Guid): Store
  {
    if id in Docs(s, t) then s.(collections := s.collections[t := Docs(s, t) - {id}]) else s
  }

  // ---------------------------------------------------------------------------
  // The store's invariant is kept by every step.

  lemma EnsureIndexKeepsConsistent(s: Store, t: CollectionName, f: FieldName)
    requires Consistent(s)
    ensures Consistent(EnsureIndexStep(s, t, f).store)
  {
  }

  lemma InsertKeepsConsistent(s: Store, t: CollectionName, d: Document)
    requires Consistent(s)
    ensures Consistent(InsertStep(s, t, d).store)
  {
    var r := InsertStep(s, t, d);
    if r.outcome.Ok? {
      forall u ensures CollectionConsistent(Docs(r.store, u), Indexed(r.store, u)) {
        assert CollectionConsistent(Docs(s, u), Indexed(s, u));
        if u == t {
          var c := Docs(s, t);
          var c' := c[d.id := d];
          assert Docs(r.store, u) == c';
          forall f | f in Indexed(s, t) ensures DistinctOn(c', f) {
            forall j, k | j in c' && k in c' && j != k ensures FieldValue(c'[j], f) != FieldValue(c'[k], f) {
              if j == d.id {
                assert !(k in c && k != d.id && FieldValue(c[k], f) == FieldValue(d, f));
              } else if k == d.id {
                assert !(j in c && j != d.id && FieldValue(c[j], f) == FieldValue(d, f));
              }
            }
          }
        }
      }
    }
  }

  lemma SaveKeepsConsistent(s: Store, etagOf: ETagFunction, versioned: bool, t: CollectionName, id: Guid,
                            fields: Fields, correlation: Option<CorrelationProperty>)
    requires Consistent(s)
    ensures Consistent(SaveStep(s, etagOf, versioned, t, id, fields, correlation).store)
  {
    if versioned {
      var indexed := if correlation.Some? then EnsureIndexStep(s, t, correlation.value.name) else Step(s, Ok);
      if correlation.Some? {
        EnsureIndexKeepsConsistent(s, t, correlation.value.name);
      }
      if indexed.outcome.Ok? {
        InsertKeepsConsistent(indexed.store, t, NewDocument(etagOf, id, fields));
      }
    }
  }

  lemma UpdateKeepsConsistent(s: Store, etagOf: ETagFunction, versioned: bool, t: CollectionName, id: Guid,
                              fields: Fields, heldVersion: int, heldETag: string)
    requires Consistent(s)
    ensures Consistent(UpdateStep(s, etagOf, versioned, t, id, fields, heldVersion, heldETag).store)
  {
    var r := UpdateStep(s, etagOf, versioned, t, id, fields, heldVersion, heldETag);
    if r.store != s {
      var c := Docs(s, t);
      var d := Document(id, fields, heldVersion + 1, etagOf(id, fields));
      var c': Collection := c[id := d];
      assert r.store == s.(collections := s.collections[t := c']);
      forall u ensures CollectionConsistent(Docs(r.store, u), Indexed(r.store, u)) {
        assert CollectionConsistent(Docs(s, u), Indexed(s, u));
        if u == t {
          forall f | f in Indexed(s, t) ensures DistinctOn(c', f) {
            forall j, k | j in c' && k in c' && j != k ensures FieldValue(c'[j], f) != FieldValue(c'[k], f) {
              if j == id {
                assert !(k in c && k != d.id && FieldValue(c[k], f) == FieldValue(d, f));
              } else if k == id {
                assert !(j in c && j != d.id && FieldValue(c[j], f) == FieldValue(d, f));
              }
            }
          }
        }
      }
    }
  }

  lemma CompleteKeepsConsistent(s: Store, t: CollectionName, id: Guid)
    requires Consistent(s)
    ensures Consistent(CompleteStep(s, t, id))
  {
    var r := CompleteStep(s, t, id);
    forall u ensures CollectionConsistent(Docs(r, u), Indexed(r, u)) {
      assert CollectionConsistent(Docs(s, u), Indexed(s, u));
      if u == t {
        var c := Docs(s, t);
        var c' := Docs(r, t);
        forall f | f in Indexed(s, t) ensures DistinctOn(c', f) {
          assert DistinctOn(c, f);
        }
      }
    }
  }

  // ---------------------------------------------------------------------------
  // Save

  /** Data without the version capability is refused before the store is touched. */
  lemma SaveRejectsUnversioned(s: Store, etagOf: ETagFunction, t: CollectionName, id: Guid, fields: Fields,
                               correlation: Option<CorrelationProperty>)
    ensures SaveStep(s, etagOf, false, t, id, fields, correlation) == Step(s, Failed(NotVersioned))
  {
  }

  /**
    A successful Save adds exactly one document to the saga type's collection,
    under the saga's id, with the saved fields, version 0 and the fingerprint of
    those fields; no other document anywhere changes.
   */
  lemma SaveStoresNewDocument(s: Store, etagOf: ETagFunction, versioned: bool, t: CollectionName, id: Guid,
                              fields: Fields, correlation: Option<CorrelationProperty>)
    requires SaveStep(s, etagOf, versioned, t, id, fields, correlation).outcome.Ok?
    ensures var r := SaveStep(s, etagOf, versioned, t, id, fields, correlation).store;
      && versioned
      && id !in Docs(s, t)
      && Docs(r, t) == Docs(s, t)[id := Document(id, fields, 0, etagOf(id, fields))]
      && (forall u :: u != t ==> Docs(r, u) == Docs(s, u))
  {
  }

  /**
    Index provisioning: a Save without a correlation property leaves the index
    sets alone; one with a correlation property that gets past the index step
    leaves that field indexed in the saga type's collection, whatever the insert
    then does. No other collection's indexes change.
   */
  lemma SaveProvisionsIndex(s: Store, etagOf: ETagFunction, t: CollectionName, id: Guid, fields: Fields,
                            correlation: Option<CorrelationProperty>)
    ensures var r := SaveStep(s, etagOf, true, t, id, fields, correlation);
      && (correlation.None? ==> r.store.indexes == s.indexes)
      && (correlation.Some? && r.outcome != Failed(IndexBuildFailed) ==>
            Indexed(r.store, t) == Indexed(s, t) + {correlation.value.name})
      && (forall u :: u != t ==> Indexed(r.store, u) == Indexed(s, u))
  {
  }

  /** Ensuring an index twice is the same as ensuring it once. */
  lemma EnsureIndexIdempotent(s: Store, t: CollectionName, f: FieldName)
    ensures var once := EnsureIndexStep(s, t, f);
      once.outcome.Ok? ==> EnsureIndexStep(once.store, t, f) == Step(once.store, Ok)
  {
  }

  /**
    For versioned data, Save succeeds exactly when the correlation property's
    index can be built (or exists, or there is none), the id is new to the
    collection, and the new document repeats no value of a field that is then
    uniquely indexed.
   */
  lemma SaveSucceedsExactlyWhen(s: Store, etagOf: ETagFunction, t: CollectionName, id: Guid, fields: Fields,
                                correlation: Option<CorrelationProperty>)
    ensures var names := if correlation.Some? then {correlation.value.name} else {};
      SaveStep(s, etagOf, true, t, id, fields, correlation).outcome.Ok? <==>
        && (correlation.None? || correlation.value.name in Indexed(s, t) || DistinctOn(Docs(s, t), correlation.value.name))
        && id !in Docs(s, t)
        && !ClashesWithOther(Docs(s, t), Indexed(s, t) + names, NewDocument(etagOf, id, fields))
  {
  }

  /** Saving under an id the collection already holds fails and leaves every document as it was. */
  lemma SaveOfExistingIdFails(s: Store, etagOf: ETagFunction, t: CollectionName, id: Guid, fields: Fields,
                              correlation: Option<CorrelationProperty>)
    requires id in Docs(s, t)
    ensures var r := SaveStep(s, etagOf, true, t, id, fields, correlation);
      r.outcome.Failed? && r.store.collections == s.collections
  {
  }

  /**
    Saving a document whose value of a uniquely indexed field, or of the
    correlation property's field, is already held by a stored document fails
    and leaves every document as it was.
   */
  lemma SaveOfTakenValueFails(s: Store, etagOf: ETagFunction, t: CollectionName, id: Guid, fields: Fields,
                              correlation: Option<CorrelationProperty>, f: FieldName, other: Guid)
    requires f in Indexed(s, t) || (correlation.Some? && correlation.value.name == f)
    requires other in Docs(s, t) && other != id && FieldValue(Docs(s, t)[other], f) == Lookup(fields, f)
    ensures var r := SaveStep(s, etagOf, true, t, id, fields, correlation);
      r.outcome.Failed? && r.store.collections == s.collections
  {
  }

  /**
    Two Saves of distinct sagas that carry the same correlation value, run one
    after the other: once the first has succeeded, the second fails with a
    duplicate key, so at most one saga claims the correlation value.
   */
  lemma SecondSaveOfCorrelationValueFails(s: Store, etagOf: ETagFunction, t: CollectionName,
                                          a: Guid, fieldsA: Fields, b: Guid, fieldsB: Fields,
                                          correlation: CorrelationProperty)
    requires Lookup(fieldsA, correlation.name) == Lookup(fieldsB, correlation.name)
    requires SaveStep(s, etagOf, true, t, a, fieldsA, Some(correlation)).outcome.Ok?
    ensures var first := SaveStep(s, etagOf, true, t, a, fieldsA, Some(correlation)).store;
      SaveStep(first, etagOf, true, t, b, fieldsB, Some(correlation)).outcome == Failed(DuplicateKey)
  {
    var first := SaveStep(s, etagOf, true, t, a, fieldsA, Some(correlation)).store;
    var f := correlation.name;
    SaveStoresNewDocument(s, etagOf, true, t, a, fieldsA, Some(correlation));
    SaveProvisionsIndex(s, etagOf, t, a, fieldsA, Some(correlation));
    assert f in Indexed(first, t);
    assert a in Docs(first, t);
    var d := NewDocument(etagOf, b, fieldsB);
    if b != a {
      assert ClashesWithOther(Docs(first, t), Indexed(first, t), d) by {
        assert f in Indexed(first, t) && a in Docs(first, t) && a != d.id
            && FieldValue(Docs(first, t)[a], f) == FieldValue(d, f);
      }
    }
  }

  // ---------------------------------------------------------------------------
  // Update

  /** Update of data without the version capability fails at the cast and writes nothing. */
  lemma UpdateRejectsUnversioned(s: Store, etagOf: ETagFunction, t: CollectionName, id: Guid, fields: Fields,
                                 heldVersion: int, heldETag: string)
    ensures UpdateStep(s, etagOf, false, t, id, fields, heldVersion, heldETag) == Step(s, Failed(InvalidCast))
  {
  }

  /** When the recomputed fingerprint equals the held ETag, Update succeeds without writing. */
  lemma UpdateUnchangedIsNoOp(s: Store, etagOf: ETagFunction, t: CollectionName, id: Guid, fields: Fields,
                              heldVersion: int)
    ensures UpdateStep(s, etagOf, true, t, id, fields, heldVersion, etagOf(id, fields)) == Step(s, Ok)
  {
  }

  /**
    Update with a changed fingerprint is a compare-and-swap: it succeeds
    exactly when the collection holds a document with the saga's id at the held
    version and the new fields break no unique index. Then that document alone
    is replaced: the new fields, the new fingerprint, the version one above the
    held one. Otherwise nothing changes, and a missing id or a stale version is
    an UpdateConflict.
   */
  lemma UpdateCompareAndSwap(s: Store, etagOf: ETagFunction, t: CollectionName, id: Guid, fields: Fields,
                             heldVersion: int, heldETag: string)
    requires heldETag != etagOf(id, fields)
    ensures var r := UpdateStep(s, etagOf, true, t, id, fields, heldVersion, heldETag);
      var d := Document(id, fields, heldVersion + 1, etagOf(id, fields));
      && (r.outcome.Ok? <==>
            id in Docs(s, t) && Docs(s, t)[id].version == heldVersion && !ClashesWithOther(Docs(s, t), Indexed(s, t), d))
      && (r.outcome.Ok? ==>
            && Docs(r.store, t) == Docs(s, t)[id := d]
            && r.store.indexes == s.indexes
            && (forall u :: u != t ==> Docs(r.store, u) == Docs(s, u)))
      && (r.outcome.Failed? ==> r.store == s)
      && ((id !in Docs(s, t) || Docs(s, t)[id].version != heldVersion) ==> r.outcome == Failed(UpdateConflict))
  {
  }

  /** A successful writing Update moves the stored version up by exactly one and stores the new fingerprint. */
  lemma UpdateBumpsVersion(s: Store, etagOf: ETagFunction, t: CollectionName, id: Guid, fields: Fields,
                           heldVersion: int, heldETag: string)
    requires Consistent(s)
    requires heldETag != etagOf(id, fields)
    requires UpdateStep(s, etagOf, true, t, id, fields, heldVersion, heldETag).outcome.Ok?
    ensures var r := UpdateStep(s, etagOf, true, t, id, fields, heldVersion, heldETag).store;
      && id in Docs(s, t) && id in Docs(r, t)
      && Docs(r, t)[id].version == Docs(s, t)[id].version + 1
      && Docs(r, t)[id].etag == etagOf(id, fields) != heldETag
      && Consistent(r)
  {
    UpdateKeepsConsistent(s, etagOf, true, t, id, fields, heldVersion, heldETag);
  }

  /**
    Two copies of a saga read at the same version, both changed: once the
    first copy's Update succeeds, the second copy's Update fails with an
    UpdateConflict and changes nothing.
   */
  lemma StaleCopyCannotUpdate(s: Store, etagOf: ETagFunction, t: CollectionName, id: Guid,
                              fields1: Fields, fields2: Fields, heldVersion: int, heldETag: string)
    requires heldETag != etagOf(id, fields1) && heldETag != etagOf(id, fields2)
    requires UpdateStep(s, etagOf, true, t, id, fields1, heldVersion, heldETag).outcome.Ok?
    ensures var first := UpdateStep(s, etagOf, true, t, id, fields1, heldVersion, heldETag).store;
      UpdateStep(first, etagOf, true, t, id, fields2, heldVersion, heldETag) == Step(first, Failed(UpdateConflict))
  {
  }

  // ---------------------------------------------------------------------------
  // Complete

  /**
    Complete removes the saga's document from its collection, and only that
    one; when there is none it changes nothing and still succeeds.
   */
  lemma CompleteRemovesDocument(s: Store, t: CollectionName, id: Guid)
    ensures var r := CompleteStep(s, t, id);
      && id !in Docs(r, t)
      && Docs(r, t) == Docs(s, t) - {id}
      && (forall u :: u != t ==> Docs(r, u) == Docs(s, u))
      && r.indexes == s.indexes
      && (id !in Docs(s, t) ==> r == s)
  {
  }

  /**
    Completing the saga that holds a correlation value frees that value: while
    it is stored, another saga carrying the same value cannot be saved; once it
    is completed, the other saga's Save succeeds.
   */
  lemma CompleteFreesCorrelationValue(s: Store, etagOf: ETagFunction, t: CollectionName, holder: Guid,
                                      id: Guid, fields: Fields, correlation: CorrelationProperty)
    requires Consistent(s)
    requires correlation.name in Indexed(s, t)
    requires holder in Docs(s, t) && FieldValue(Docs(s, t)[holder], correlation.name) == Lookup(fields, correlation.name)
    requires id !in Docs(s, t)
    requires !ClashesWithOther(Docs(s, t) - {holder}, Indexed(s, t), NewDocument(etagOf, id, fields))
    ensures SaveStep(s, etagOf, true, t, id, fields, Some(correlation)).outcome == Failed(DuplicateKey)
    ensures SaveStep(CompleteStep(s, t, holder), etagOf, true, t, id, fields, Some(correlation)).outcome == Ok
  {
  }

  // ---------------------------------------------------------------------------
  // Get

  /** On a uniquely indexed field, at most one document matches a value, so Get by that field is determined. */
  lemma IndexedLookupIsUnique(s: Store, t: CollectionName, f: FieldName, v: Value, j: Guid, k: Guid)
    requires Consistent(s)
    requires f in Indexed(s, t)
    requires j in Docs(s, t) && FieldValue(Docs(s, t)[j], f) == v
    requires k in Docs(s, t) && FieldValue(Docs(s, t)[k], f) == v
    ensures j == k
  {
  }
}
