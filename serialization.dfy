/**
 * The transport form of stored documents: every top-level identifier value becomes
 * its string form and the store's own identity field `_id` is renamed to `id`.
 * Values nested inside lists or sub-documents are left as they are.
 */
module Serialization {
  import opened Documents

  const StoreIdKey: string := "_id"
  const PublicIdKey: string := "id"

  /** True when no top-level value of `doc` is an identifier. */
  predicate NoObjectIds(doc: Doc) {
    forall k :: k in doc ==> !doc[k].Oid?
  }

  /** One value in transport form: identifiers become strings, the rest is kept. */
  function SerializeValue(v: Value): (r: Value)
    ensures !r.Oid?
    ensures v.Oid? ==> r.Str? && |r.s| == 24
    ensures v.Oid? ==> r == Str(IdString(v.id))
    ensures !v.Oid? ==> r == v
  {
    match v
    case Oid(id) => Str(IdString(id))
    case _ => v
  }

  /** Every value of `doc` in transport form, under the same keys. */
  function SerializeValues(doc: Doc): (out: Doc)
    ensures out.Keys == doc.Keys
    ensures forall k :: k in doc ==> out[k] == SerializeValue(doc[k])
    ensures NoObjectIds(out)
  {
    map k | k in doc :: SerializeValue(doc[k])
  }

  /** What `serialize_doc` returns for `doc`. */
  function Serialized(doc: Doc): (out: Doc)
    ensures NoObjectIds(out)
    ensures StoreIdKey !in out
    ensures StoreIdKey in doc ==> out.Keys == doc.Keys - {StoreIdKey} + {PublicIdKey}
    ensures StoreIdKey in doc ==> out[PublicIdKey] == SerializeValue(doc[StoreIdKey])
    ensures StoreIdKey !in doc ==> out.Keys == doc.Keys
    ensures StoreIdKey !in doc && PublicIdKey in doc ==> out[PublicIdKey] == SerializeValue(doc[PublicIdKey])
    ensures forall k :: k in doc && k != StoreIdKey && k != PublicIdKey ==> k in out && out[k] == SerializeValue(doc[k])
  {
    var values := SerializeValues(doc);
    if StoreIdKey in values then (values - {StoreIdKey})[PublicIdKey := values[StoreIdKey]]
    else values
  }

  /**
   * `serialize_doc`: copies the document value by value, turning identifiers into
   * strings, then moves the `_id` entry to `id` (overwriting an `id` already there).
   */
  method SerializeDoc(doc: Doc) returns (out: Doc)
    ensures out == Serialized(doc)
  {
    out := map[];
    var pending := doc.Keys;
    while pending != {}
      invariant pending <= doc.Keys
      invariant out.Keys == doc.Keys - pending
      invariant forall k :: k in out ==> out[k] == SerializeValue(doc[k])
      decreases pending
    {
      var k :| k in pending;
      var v := doc[k];
      if v.Oid? {
        out := out[k := Str(IdString(v.id))];
      } else {
        out := out[k := v];
      }
      pending := pending - {k};
    }
    assert out == SerializeValues(doc);
    if StoreIdKey in out {
      var id := out[StoreIdKey];
      out := out - {StoreIdKey};
      out := out[PublicIdKey := id];
    }
  }

  /** Serializing a serialized document changes nothing: no double rename, no second conversion. */
  lemma SerializedIdempotent(doc: Doc)
    ensures Serialized(Serialized(doc)) == Serialized(doc)
  {
  }

  /** Two documents whose identities are distinct identifiers get distinct public `id`s. */
  lemma SerializedIdsDistinct(d1: Doc, d2: Doc)
    requires StoreIdKey in d1 && d1[StoreIdKey].Oid?
    requires StoreIdKey in d2 && d2[StoreIdKey].Oid?
    requires d1[StoreIdKey] != d2[StoreIdKey]
    ensures Serialized(d1)[PublicIdKey] != Serialized(d2)[PublicIdKey]
  {
    IdStringInjective(d1[StoreIdKey].id, d2[StoreIdKey].id);
  }

  /**
   * Identifiers held by any other field (references to other documents) also stay
   * distinct once serialized.
   */
  lemma SerializedRefsDistinct(d1: Doc, d2: Doc, k: string)
    requires k != StoreIdKey && k != PublicIdKey
    requires k in d1 && d1[k].Oid? && k in d2 && d2[k].Oid?
    requires d1[k] != d2[k]
    ensures k in Serialized(d1) && k in Serialized(d2)
    ensures Serialized(d1)[k] != Serialized(d2)[k]
  {
    IdStringInjective(d1[k].id, d2[k].id);
  }

  /** `serialize_list`: each document serialized, in the same order. */
  function SerializeList(docs: seq<Doc>): (out: seq<Doc>)
    ensures |out| == |docs|
    ensures forall i :: 0 <= i < |docs| ==> out[i] == Serialized(docs[i]) && NoObjectIds(out[i])
  {
    seq(|docs|, i requires 0 <= i < |docs| => Serialized(docs[i]))
  }

  /** Serializing a list element by element: it commutes with concatenation, so order is kept. */
  lemma SerializeListAppend(a: seq<Doc>, b: seq<Doc>)
    ensures SerializeList(a + b) == SerializeList(a) + SerializeList(b)
  {
  }

  lemma SerializeListIdempotent(docs: seq<Doc>)
    ensures SerializeList(SerializeList(docs)) == SerializeList(docs)
  {
    var once := SerializeList(docs);
    forall i | 0 <= i < |docs|
      ensures SerializeList(once)[i] == once[i]
    {
      SerializedIdempotent(docs[i]);
    }
  }
}
