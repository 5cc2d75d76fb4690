/** Response extraction of `SolrSerializer` (addon/serializers/solr.js): picking the
    document of a single-record response, the documents of a query response, and
    the paging metadata. What the base JSON serializer then does with the selected
    documents is not part of this model. */
module SolrSerializer {
  import opened Wrappers
  import opened Js
  import opened SolrErrors

  /** `keyForAttribute`: the attribute name in Solr's underscore convention.
      `underscore` is `Ember.String.underscore`. */
  function KeyForAttribute(underscore: string -> string, attr: string): string {
    underscore(attr)
  }

  const MissingDocMessage := "Expected Solr response payload to contain property `doc` or `response.docs`."

  const MissingDocsMessage := "Expected Solr response payload to contain property `response.docs`."

  /** The error for a response without `doc` whose `response.docs` does not hold one
      document; `docLength` is shown as JavaScript prints it. */
  function WrongCountMessage(docLength: Value): string {
    "Expected Solr response array with exactly one document but got `" + ToJsString(docLength) + "`."
  }

  // ---------------------------------------------------------------------------
  // extractSingle

  /** `response && response.docs ? response.docs.length : undefined`. */
  function DocLength(response: Value): Value {
    if Truthy(response) then
      var docs := Member(response, "docs").value;
      if Truthy(docs) then Member(docs, "length").value else Undefined
    else Undefined
  }

  /** `extractSingle(store, type, payload)`: the document handed on to the base
      serializer, or the error thrown. */
  function ExtractSingle(payload: Value): (r: Result<Value, Failure>)
    ensures payload == Undefined || payload == Null ==> r == Failure(TypeError)
    ensures r.Success? ==> Truthy(r.value)
  {
    match Member(payload, "response")
    case None => Failure(TypeError)
    case Some(response) =>
      var doc := Member(payload, "doc").value;
      var docLength := DocLength(response);
      if !Truthy(doc) && docLength != Num(1) then
        Failure(Error(WrongCountMessage(docLength)))
      else
        // `docLength === 1` implies that `response` and `response.docs` are truthy
        var selected := if Truthy(doc) then doc else Index(Member(response, "docs").value, 0);
        if !Truthy(selected) then Failure(Error(MissingDocMessage)) else Success(selected)
  }

  /** A truthy `doc` is selected, whatever `response.docs` holds. */
  lemma ExtractSingleDoc(fields: Props)
    requires Truthy(Get(fields, "doc"))
    ensures ExtractSingle(Obj(fields)) == Success(Get(fields, "doc"))
  {
  }

  /** Without `doc`, `response.docs` must be an array of exactly one document,
      which is then selected; otherwise the error names the length found. */
  lemma ExtractSingleDocs(fields: Props, responseFields: Props, docs: seq<Value>)
    requires !Truthy(Get(fields, "doc"))
    requires Get(fields, "response") == Obj(responseFields)
    requires Get(responseFields, "docs") == Arr(docs)
    ensures |docs| != 1 ==> ExtractSingle(Obj(fields)) == Failure(Error(WrongCountMessage(Num(|docs|))))
    ensures |docs| == 1 && Truthy(docs[0]) ==> ExtractSingle(Obj(fields)) == Success(docs[0])
    ensures |docs| == 1 && !Truthy(docs[0]) ==> ExtractSingle(Obj(fields)) == Failure(Error(MissingDocMessage))
  {
  }

  /** Without `doc` and without `response.docs`, the length reported is `undefined`. */
  lemma ExtractSingleNoDocs(fields: Props)
    requires !Truthy(Get(fields, "doc"))
    requires var response := Get(fields, "response");
      !Truthy(response) || (response.Obj? && !Truthy(Get(response.fields, "docs")))
    ensures ExtractSingle(Obj(fields)) == Failure(Error(WrongCountMessage(Undefined)))
    ensures WrongCountMessage(Undefined)
      == "Expected Solr response array with exactly one document but got `undefined`."
  {
  }

  // ---------------------------------------------------------------------------
  // extractArray

  /** `extractArray(store, type, arrayPayload)`: the documents handed on to the base
      serializer, or the error thrown. */
  function ExtractArray(payload: Value): (r: Result<seq<Value>, Failure>)
    ensures payload == Undefined || payload == Null ==> r == Failure(TypeError)
  {
    match Member(payload, "response")
    case None => Failure(TypeError)
    case Some(response) =>
      if !Truthy(response) then Failure(Error(MissingDocsMessage))
      else
        var docs := Member(response, "docs").value;
        if !IsArray(docs) then Failure(Error(MissingDocsMessage)) else Success(docs.items)
  }

  /** The documents are passed on unchanged and in order exactly when `response.docs`
      is an array; every other payload object is refused with the same message. */
  lemma ExtractArrayDocs(fields: Props)
    ensures var response := Get(fields, "response");
      && (Truthy(response) && Member(response, "docs").value.Arr? ==>
            ExtractArray(Obj(fields)) == Success(Member(response, "docs").value.items))
      && (!(Truthy(response) && Member(response, "docs").value.Arr?) ==>
            ExtractArray(Obj(fields)) == Failure(Error(MissingDocsMessage)))
  {
  }

  // ---------------------------------------------------------------------------
  // extractMeta

  /** The metadata `extractMeta` stores for a payload: `None` when it stores nothing.
      `meta` is `payload.responseHeader || {}` with `offset` and `total` written into it;
      writing a property on a truthy primitive is a TypeError in strict-mode code. */
  function MetaFor(payload: Value): Result<Option<Props>, Failure> {
    match Member(payload, "response")
    case None => Failure(TypeError)
    case Some(response) =>
      if !Truthy(response) then Success(None)
      else
        var header := Member(payload, "responseHeader").value;
        var base :=
          if !Truthy(header) then Success(Empty)
          else match header
            case Obj(f) => Success(f)
            case Bool(_) => Failure(TypeError)
            case Num(_) => Failure(TypeError)
            case Str(_) => Failure(TypeError)
            case _ => Success(Empty);
        if base.Failure? then Failure(base.error)
        else
          var meta := Put(base.value, "offset", Member(response, "start").value);
          Success(Some(Put(meta, "total", Member(response, "numFound").value)))
  }

  /** Without a response nothing is stored; with one, `offset` is `response.start` and
      `total` is `response.numFound`, and the rest of the response header is kept. */
  lemma MetaForResponse(fields: Props)
    ensures !Truthy(Get(fields, "response")) ==> MetaFor(Obj(fields)) == Success(None)
    ensures var response := Get(fields, "response");
      var header := Get(fields, "responseHeader");
      Truthy(response) && (header.Obj? || !Truthy(header)) ==>
        && MetaFor(Obj(fields)).Success? && MetaFor(Obj(fields)).value.Some?
        && var meta := MetaFor(Obj(fields)).value.value;
        && Get(meta, "offset") == Member(response, "start").value
        && Get(meta, "total") == Member(response, "numFound").value
        && (forall k :: k != "offset" && k != "total" ==>
              Get(meta, k) == (if header.Obj? then Get(header.fields, k) else Undefined))
  {
  }

  /** `setMetadataFor` merges the new metadata into what the store holds for the type. */
  function Merge(current: Props, meta: Props, keys: seq<string>): (r: Props)
    ensures forall k :: k in keys ==> Get(r, k) == Get(meta, k)
    ensures forall k :: k !in keys ==> Get(r, k) == Get(current, k)
    decreases |keys|
  {
    if |keys| == 0 then current
    else Merge(Put(current, keys[0], Get(meta, keys[0])), meta, keys[1..])
  }

  /** The store's per-type metadata records. */
  class MetadataStore {
    var metadata: map<string, Props>

    constructor ()
      ensures metadata == map[]
    {
      metadata := map[];
    }

    /** `metadataFor(type)`: an empty record for a type nothing was stored for. */
    function MetadataFor(typeKey: string): Props
      reads this
    {
      if typeKey in metadata then metadata[typeKey] else Empty
    }

    method SetMetadataFor(typeKey: string, meta: Props)
      modifies this
      ensures metadata == old(metadata)[typeKey := Merge(old(MetadataFor(typeKey)), meta, meta.keys)]
    {
      metadata := metadata[typeKey := Merge(MetadataFor(typeKey), meta, meta.keys)];
    }
  }

  /** `extractMeta(store, type, payload)`. */
  method ExtractMeta(store: MetadataStore, typeKey: string, payload: Value) returns (r: Result<(), Failure>)
    modifies store
    ensures MetaFor(payload).Failure? ==> r == Failure(MetaFor(payload).error) && store.metadata == old(store.metadata)
    ensures MetaFor(payload) == Success(None) ==> r == Success(()) && store.metadata == old(store.metadata)
    ensures MetaFor(payload).Success? && MetaFor(payload).value.Some? ==>
      && r == Success(())
      && var meta := MetaFor(payload).value.value;
      && store.metadata == old(store.metadata)[typeKey := Merge(old(store.MetadataFor(typeKey)), meta, meta.keys)]
  {
    var m := MetaFor(payload);
    if m.Failure? {
      return Failure(m.error);
    }
    if m.value.None? {
      return Success(());
    }
    store.SetMetadataFor(typeKey, m.value.value);
    return Success(());
  }

  /** After `extractMeta` on a payload with a response, the store reports the
      response's `start` and `numFound` for the type. */
  lemma StoredPaging(current: Props, fields: Props)
    requires Truthy(Get(fields, "response"))
    requires var header := Get(fields, "responseHeader");
      !Truthy(header) || (header.Obj? && WellFormed(header.fields))
    ensures MetaFor(Obj(fields)).Success? && MetaFor(Obj(fields)).value.Some?
    ensures var meta := MetaFor(Obj(fields)).value.value;
      var stored := Merge(current, meta, meta.keys);
      && Get(stored, "offset") == Member(Get(fields, "response"), "start").value
      && Get(stored, "total") == Member(Get(fields, "response"), "numFound").value
  {
    var response := Get(fields, "response");
    var header := Get(fields, "responseHeader");
    var base := if header.Obj? then header.fields else Empty;
    var withOffset := Put(base, "offset", Member(response, "start").value);
    var meta := Put(withOffset, "total", Member(response, "numFound").value);
    MetaForHeader(fields);
    PutListsKey(base, "offset", Member(response, "start").value);
    PutListsKey(withOffset, "total", Member(response, "numFound").value);
  }

  /** The metadata of a payload with a response and an object (or falsy) header. */
  lemma MetaForHeader(fields: Props)
    requires Truthy(Get(fields, "response"))
    requires var header := Get(fields, "responseHeader"); !Truthy(header) || header.Obj?
    ensures var response := Get(fields, "response");
      var header := Get(fields, "responseHeader");
      var base := if header.Obj? then header.fields else Empty;
      MetaFor(Obj(fields)) == Success(Some(Put(Put(base, "offset", Member(response, "start").value),
                                               "total", Member(response, "numFound").value)))
  {
  }

  /** Assigning a property of a well-formed object lists its name, and keeps the names
      listed before. */
  lemma PutListsKey(p: Props, k: string, v: Value)
    requires WellFormed(p)
    ensures k in Put(p, k, v).keys && WellFormed(Put(p, k, v))
    ensures forall k' | k' in p.keys :: k' in Put(p, k, v).keys
  {
    PutKeepsWellFormed(p, k, v);
  }
}
