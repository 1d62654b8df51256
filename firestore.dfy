/** The part of the document store the handler touches: the `users`
    collection, read one document at a time and written with
    `set(fields, { merge: true })`. */
module Firestore {
  import opened Base

  /** A field value as the handler reads or writes it. `ServerTimestamp` is the
      opaque placeholder `FieldValue.serverTimestamp()`; `Other` stands for any
      value of another type (number, map, array, ...). */
  datatype Value = Null | Bool(b: bool) | Str(s: string) | ServerTimestamp | Other

  /** A document: its top-level fields. */
  type Doc = map<string, Value>

  /** The document that a merge-write of `fields` leaves behind: a missing
      document is created, an existing one keeps every field the write does
      not name, and every named field takes the written value. */
  function Merge(existing: Option<Doc>, fields: Doc): (d: Doc)
    ensures d.Keys == fields.Keys + (if existing.Some? then existing.value.Keys else {})
    ensures forall k :: k in fields ==> d[k] == fields[k]
    ensures existing.Some? ==> forall k :: k in existing.value && k !in fields ==> d[k] == existing.value[k]
  {
    match existing
    case None => fields
    case Some(prior) => prior + fields
  }

  /** Merging the same fields twice leaves the same document as merging them once. */
  lemma MergeIdempotent(existing: Option<Doc>, fields: Doc)
    ensures Merge(Some(Merge(existing, fields)), fields) == Merge(existing, fields)
  {
  }

  /** One request the handler makes of the store, in the order it makes them. */
  datatype Op = Read(key: string) | MergeWrite(key: string, fields: Doc)

  /** The `users` collection: documents keyed by uid. `ops` records, for the
      proof only, every request made to the collection. */
  class Collection {
    var docs: map<string, Doc>
    ghost var ops: seq<Op>

    constructor (initial: map<string, Doc>)
      ensures docs == initial && ops == []
    {
      docs := initial;
      ops := [];
    }

    /** `doc(key).get()`: the snapshot of the document under `key`. */
    method Get(key: string) returns (snap: Option<Doc>)
      modifies this`ops
      ensures snap == Lookup(docs, key)
      ensures ops == old(ops) + [Read(key)]
    {
      snap := Lookup(docs, key);
      ops := ops + [Read(key)];
    }

    /** `doc(key).set(fields, { merge: true })`. The store's own answer is the
        parameter `fault`: `None` when the write succeeds, otherwise the error
        it throws, in which case nothing is written. */
    method SetMerge(key: string, fields: Doc, fault: Option<BackendError>) returns (err: Option<BackendError>)
      modifies this
      ensures err == fault
      ensures fault.None? ==> docs == old(docs)[key := Merge(Lookup(old(docs), key), fields)]
      ensures fault.Some? ==> docs == old(docs)
      ensures ops == old(ops) + [MergeWrite(key, fields)]
    {
      if fault.None? {
        docs := docs[key := Merge(Lookup(docs, key), fields)];
      }
      ops := ops + [MergeWrite(key, fields)];
      err := fault;
    }
  }
}
