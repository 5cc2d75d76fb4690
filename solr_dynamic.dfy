/** Dynamic-field key mapping of `SolrDynamicSerializer`
    (addon/serializers/solr-dynamic.js): an attribute's Solr field name carries a
    prefix and a suffix chosen by the attribute's declared type. */
module SolrDynamic {
  import opened Wrappers
  import opened Js
  import opened SolrErrors

  const NoTypeMetadataMessage := "Cannot determine dynamic field without type metadata"

  /** The suffix table the serializer ships with, after Solr's example schema. */
  const DefaultSuffixes: map<string, string> := map[
    "boolean" := "_b", "booleans" := "_bs",
    "date" := "_dt", "dates" := "_dts",
    "double" := "_d", "doubles" := "_ds",
    "float" := "_f", "floats" := "_fs",
    "int" := "_i", "ints" := "_is",
    "long" := "_l", "longs" := "_ls",
    "number" := "_i", "numbers" := "_is",
    "string" := "_s", "strings" := "_ss",
    "text" := "_txt"]

  /** A model class as `metaForProperty` sees it: the declared type of each attribute,
      `None` for an attribute declared without one. */
  datatype ModelType = ModelType(typeKey: string, attributeTypes: map<string, Option<string>>)

  /** `table && table[key]`, as the text it contributes. */
  function Affix(table: Option<map<string, string>>, key: string): string {
    if table.Some? && key in table.value then table.value[key] else ""
  }

  class DynamicSerializer {
    /** `dynamicFieldPrefixes`; `None` is null. */
    var prefixes: Option<map<string, string>>
    /** `dynamicFieldSuffixes`; `None` is null. */
    var suffixes: Option<map<string, string>>
    /** The model class last normalized or serialized. */
    var currentType: Option<ModelType>

    /** A serializer with the shipped tables and no type metadata yet. */
    constructor ()
      ensures prefixes == None && suffixes == Some(DefaultSuffixes) && currentType == None
    {
      prefixes := None;
      suffixes := Some(DefaultSuffixes);
      currentType := None;
    }

    /** `this.currentType.metaForProperty(attr).type || 'string'`. An attribute the
        type does not declare has no metadata to read, a TypeError here. */
    function AttrType(attr: string): (r: Result<string, Failure>)
      reads this
      requires currentType.Some?
      ensures r.Success? ==> r.value != ""
    {
      var types := currentType.value.attributeTypes;
      if attr !in types then Failure(TypeError)
      else if types[attr].None? || types[attr].value == "" then Success("string")
      else Success(types[attr].value)
    }

    /** `dynamicKeyForAttribute(attr)`. */
    function DynamicKeyForAttribute(attr: string): (r: Result<string, Failure>)
      reads this
    {
      if prefixes.None? && suffixes.None? then Success(attr)
      else if currentType.None? then Failure(Error(NoTypeMetadataMessage))
      else
        var t := AttrType(attr);
        if t.Failure? then Failure(t.error)
        else Success(Affix(prefixes, t.value) + attr + Affix(suffixes, t.value))
    }

    /** `keyForAttribute(attr)`: `underscore` (`Ember.String.underscore`) applied to the
        dynamic key. */
    function KeyForAttribute(underscore: string -> string, attr: string): (r: Result<string, Failure>)
      reads this
    {
      var k := DynamicKeyForAttribute(attr);
      if k.Failure? then Failure(k.error) else Success(underscore(k.value))
    }

    /** The attribute record the base serializer reads out of a payload: for each
        attribute in declaration order whose key the payload has, the value under that key. */
    function Renamed(underscore: string -> string, hash: Props, names: seq<string>, out: Props): Result<Props, Failure>
      reads this
      decreases |names|
    {
      if |names| == 0 then Success(out)
      else
        var k := KeyForAttribute(underscore, names[0]);
        if k.Failure? then Failure(k.error)
        else
          var out' := if HasKey(hash, k.value) then Put(out, names[0], Get(hash, k.value)) else out;
          Renamed(underscore, hash, names[1..], out')
    }

    /** `normalize(type, hash)`: records the type, then reads each declared attribute
        (`names`, in declaration order) from the payload under its dynamic key, as the
        base serializer does. */
    method Normalize(underscore: string -> string, t: ModelType, names: seq<string>, hash: Props)
      returns (r: Result<Props, Failure>)
      modifies this
      ensures currentType == Some(t) && prefixes == old(prefixes) && suffixes == old(suffixes)
      ensures r == Renamed(underscore, hash, names, Empty)
    {
      currentType := Some(t);
      var record := new JsObject(Empty);
      var i := 0;
      while i < |names|
        modifies record
        invariant 0 <= i <= |names|
        invariant Renamed(underscore, hash, names, Empty) == Renamed(underscore, hash, names[i..], record.props)
      {
        assert names[i..][1..] == names[i + 1..];
        var k := KeyForAttribute(underscore, names[i]);
        if k.Failure? {
          return Failure(k.error);
        }
        if HasKey(hash, k.value) {
          record.Assign(names[i], Get(hash, k.value));
        }
        i := i + 1;
      }
      return Success(record.props);
    }

    /** The payload the base serializer builds: each attribute's value under its key. */
    function Payload(underscore: string -> string, json: Props, attrs: seq<(string, Value)>): Result<Props, Failure>
      reads this
      decreases |attrs|
    {
      if |attrs| == 0 then Success(json)
      else
        var k := KeyForAttribute(underscore, attrs[0].0);
        if k.Failure? then Failure(k.error)
        else Payload(underscore, Put(json, k.value, attrs[0].1), attrs[1..])
    }

    /** `serialize(snapshot)`: records the snapshot's type, then writes each attribute
        under its dynamic key, as the base serializer does. */
    method Serialize(underscore: string -> string, t: ModelType, attrs: seq<(string, Value)>)
      returns (r: Result<Props, Failure>)
      modifies this
      ensures currentType == Some(t) && prefixes == old(prefixes) && suffixes == old(suffixes)
      ensures r == Payload(underscore, Empty, attrs)
    {
      currentType := Some(t);
      var json := new JsObject(Empty);
      var i := 0;
      while i < |attrs|
        modifies json
        invariant 0 <= i <= |attrs|
        invariant Payload(underscore, Empty, attrs) == Payload(underscore, json.props, attrs[i..])
      {
        assert attrs[i..][1..] == attrs[i + 1..];
        var k := KeyForAttribute(underscore, attrs[i].0);
        if k.Failure? {
          return Failure(k.error);
        }
        json.Assign(k.value, attrs[i].1);
        i := i + 1;
      }
      return Success(json.props);
    }
  }

  /** Every name has a key, and no two names share one. */
  ghost predicate KeysDistinct(s: DynamicSerializer, underscore: string -> string, names: seq<string>)
    reads s
  {
    && (forall i | 0 <= i < |names| :: s.KeyForAttribute(underscore, names[i]).Success?)
    && (forall i, j | 0 <= i < j < |names| ::
          s.KeyForAttribute(underscore, names[i]).value != s.KeyForAttribute(underscore, names[j]).value)
  }

  /** The attribute names of a snapshot's attribute list. */
  function NamesOf(attrs: seq<(string, Value)>): (names: seq<string>)
    ensures |names| == |attrs| && forall i | 0 <= i < |attrs| :: names[i] == attrs[i].0
  {
    seq(|attrs|, i requires 0 <= i < |attrs| => attrs[i].0)
  }

  /** `payload` holds each attribute's value under the attribute's key. */
  ghost predicate HoldsUnderKeys(s: DynamicSerializer, underscore: string -> string, payload: Props,
                                 attrs: seq<(string, Value)>)
    reads s
    requires forall i | 0 <= i < |attrs| :: s.KeyForAttribute(underscore, attrs[i].0).Success?
  {
    forall i | 0 <= i < |attrs| ::
      var k := s.KeyForAttribute(underscore, attrs[i].0).value;
      HasKey(payload, k) && Get(payload, k) == attrs[i].1
  }

  /** Serializing leaves a payload property that is no attribute's key as it was. */
  lemma {:induction false} PayloadKeepsOthers(s: DynamicSerializer, underscore: string -> string, json: Props,
                                              attrs: seq<(string, Value)>, other: string)
    requires forall i | 0 <= i < |attrs| :: s.KeyForAttribute(underscore, attrs[i].0).Success?
    requires forall i | 0 <= i < |attrs| :: s.KeyForAttribute(underscore, attrs[i].0).value != other
    ensures s.Payload(underscore, json, attrs).Success?
    ensures var r := s.Payload(underscore, json, attrs).value;
      Get(r, other) == Get(json, other) && (HasKey(r, other) <==> HasKey(json, other))
    decreases |attrs|
  {
    if |attrs| > 0 {
      var k0 := s.KeyForAttribute(underscore, attrs[0].0).value;
      GetPut(json, k0, attrs[0].1);
      var tail := attrs[1..];
      forall j | 0 <= j < |tail|
        ensures s.KeyForAttribute(underscore, tail[j].0).Success?
        ensures s.KeyForAttribute(underscore, tail[j].0).value != other
      {
        assert tail[j] == attrs[j + 1];
      }
      PayloadKeepsOthers(s, underscore, Put(json, k0, attrs[0].1), tail, other);
    }
  }

  /** Serializing writes each attribute's value under its key. */
  lemma {:induction false} PayloadWritesKeys(s: DynamicSerializer, underscore: string -> string, json: Props,
                                             attrs: seq<(string, Value)>)
    requires KeysDistinct(s, underscore, NamesOf(attrs))
    ensures s.Payload(underscore, json, attrs).Success?
    ensures HoldsUnderKeys(s, underscore, s.Payload(underscore, json, attrs).value, attrs)
    decreases |attrs|
  {
    if |attrs| > 0 {
      var k0 := s.KeyForAttribute(underscore, attrs[0].0).value;
      var json' := Put(json, k0, attrs[0].1);
      GetPut(json, k0, attrs[0].1);
      var tail := attrs[1..];
      assert NamesOf(tail) == NamesOf(attrs)[1..];
      PayloadWritesKeys(s, underscore, json', tail);
      var r := s.Payload(underscore, json, attrs).value;
      assert r == s.Payload(underscore, json', tail).value;
      forall j | 0 <= j < |tail|
        ensures s.KeyForAttribute(underscore, tail[j].0).Success?
        ensures s.KeyForAttribute(underscore, tail[j].0).value != k0
      {
        assert tail[j] == attrs[j + 1];
        assert NamesOf(attrs)[0] == attrs[0].0 && NamesOf(attrs)[j + 1] == attrs[j + 1].0;
      }
      PayloadKeepsOthers(s, underscore, json', tail, k0);
      forall i | 0 <= i < |attrs|
        ensures var k := s.KeyForAttribute(underscore, attrs[i].0).value;
          HasKey(r, k) && Get(r, k) == attrs[i].1
      {
        if i > 0 {
          assert tail[i - 1] == attrs[i];
        }
      }
      assert HoldsUnderKeys(s, underscore, r, attrs);
    }
  }

  /** Reading attributes out of a payload takes each one from under its key when the
      payload has that key, and otherwise keeps what the record already held. */
  lemma {:induction false} RenamedReadsKeys(s: DynamicSerializer, underscore: string -> string, hash: Props,
                                            names: seq<string>, out: Props)
    requires KeysDistinct(s, underscore, names)
    ensures s.Renamed(underscore, hash, names, out).Success?
    ensures var r := s.Renamed(underscore, hash, names, out).value;
      forall i | 0 <= i < |names| ::
        var k := s.KeyForAttribute(underscore, names[i]).value;
        Get(r, names[i]) == if HasKey(hash, k) then Get(hash, k) else Get(out, names[i])
    decreases |names|
  {
    if |names| > 0 {
      var k0 := s.KeyForAttribute(underscore, names[0]).value;
      var out' := if HasKey(hash, k0) then Put(out, names[0], Get(hash, k0)) else out;
      GetPut(out, names[0], Get(hash, k0));
      var tail := names[1..];
      RenamedReadsKeys(s, underscore, hash, tail, out');
      var r := s.Renamed(underscore, hash, names, out).value;
      assert r == s.Renamed(underscore, hash, tail, out').value;
      forall i | 0 <= i < |names|
        ensures var k := s.KeyForAttribute(underscore, names[i]).value;
          Get(r, names[i]) == if HasKey(hash, k) then Get(hash, k) else Get(out, names[i])
      {
        if i == 0 {
          forall j | 0 <= j < |tail|
            ensures tail[j] != names[0]
          {
            assert tail[j] == names[j + 1];
          }
          assert names[0] !in tail;
          RenamedKeepsOthers(s, underscore, hash, tail, out', names[0]);
        } else {
          assert tail[i - 1] == names[i];
          assert names[i] != names[0];
        }
      }
    }
  }

  /** Reading attributes leaves a record entry for any other name as it was. */
  lemma {:induction false} RenamedKeepsOthers(s: DynamicSerializer, underscore: string -> string, hash: Props,
                                              names: seq<string>, out: Props, other: string)
    requires forall i | 0 <= i < |names| :: s.KeyForAttribute(underscore, names[i]).Success?
    requires other !in names
    ensures s.Renamed(underscore, hash, names, out).Success?
    ensures Get(s.Renamed(underscore, hash, names, out).value, other) == Get(out, other)
    decreases |names|
  {
    if |names| > 0 {
      var k0 := s.KeyForAttribute(underscore, names[0]).value;
      var out' := if HasKey(hash, k0) then Put(out, names[0], Get(hash, k0)) else out;
      GetPut(out, names[0], Get(hash, k0));
      assert names[1..] == names[1..];
      RenamedKeepsOthers(s, underscore, hash, names[1..], out', other);
    }
  }

  /** `record` holds each attribute's value under the attribute's own name. */
  ghost predicate RecordHolds(record: Props, attrs: seq<(string, Value)>) {
    forall i | 0 <= i < |attrs| :: Get(record, attrs[i].0) == attrs[i].1
  }

  /** Reading the attributes back out of a payload that holds each one under its key. */
  lemma ReadBack(s: DynamicSerializer, underscore: string -> string, attrs: seq<(string, Value)>, payload: Props)
    requires KeysDistinct(s, underscore, NamesOf(attrs))
    requires HoldsUnderKeys(s, underscore, payload, attrs)
    ensures s.Renamed(underscore, payload, NamesOf(attrs), Empty).Success?
    ensures RecordHolds(s.Renamed(underscore, payload, NamesOf(attrs), Empty).value, attrs)
  {
    RenamedReadsKeys(s, underscore, payload, NamesOf(attrs), Empty);
    var record := s.Renamed(underscore, payload, NamesOf(attrs), Empty).value;
    forall i | 0 <= i < |attrs|
      ensures Get(record, attrs[i].0) == attrs[i].1
    {
      assert NamesOf(attrs)[i] == attrs[i].0;
    }
  }

  /** Normalizing a serialized payload gives back every attribute's value, provided no
      two attributes share a key. */
  lemma SerializeNormalizeRoundTrip(s: DynamicSerializer, underscore: string -> string, attrs: seq<(string, Value)>)
    requires KeysDistinct(s, underscore, NamesOf(attrs))
    ensures s.Payload(underscore, Empty, attrs).Success?
    ensures var payload := s.Payload(underscore, Empty, attrs).value;
      && s.Renamed(underscore, payload, NamesOf(attrs), Empty).Success?
      && RecordHolds(s.Renamed(underscore, payload, NamesOf(attrs), Empty).value, attrs)
  {
    PayloadWritesKeys(s, underscore, Empty, attrs);
    var payload := s.Payload(underscore, Empty, attrs).value;
    assert HoldsUnderKeys(s, underscore, payload, attrs);
    ReadBack(s, underscore, attrs, payload);
  }

  /** With neither table configured, the attribute name is used as it is. */
  lemma NoTablesNoChange(s: DynamicSerializer, attr: string)
    requires s.prefixes.None? && s.suffixes.None?
    ensures s.DynamicKeyForAttribute(attr) == Success(attr)
  {
  }

  /** With a table configured and no type metadata, the mapping fails. */
  lemma NoTypeMetadataFails(s: DynamicSerializer, attr: string)
    requires s.prefixes.Some? || s.suffixes.Some?
    requires s.currentType.None?
    ensures s.DynamicKeyForAttribute(attr) == Failure(Error(NoTypeMetadataMessage))
  {
  }

  /** With type metadata, the type's prefix comes first and its suffix last, each
      only if configured; an attribute declared without a type counts as a string.
      This case split is what the source promises; `SerializeNormalizeRoundTrip`
      shows that the keys it produces give every attribute back. */
  lemma PrefixThenSuffix(s: DynamicSerializer, attr: string)
    requires s.prefixes.Some? || s.suffixes.Some?
    requires s.currentType.Some? && attr in s.currentType.value.attributeTypes
    ensures var declared := s.currentType.value.attributeTypes[attr];
      var t := if declared.None? || declared.value == "" then "string" else declared.value;
      s.DynamicKeyForAttribute(attr) == Success(Affix(s.prefixes, t) + attr + Affix(s.suffixes, t))
  {
  }

  /** The shipped suffixes: a string attribute gets `_s` and a number attribute `_i`. */
  lemma DefaultSuffixExamples()
    ensures Affix(Some(DefaultSuffixes), "string") == "_s"
    ensures Affix(Some(DefaultSuffixes), "number") == "_i"
    ensures Affix(Some(DefaultSuffixes), "boolean") == "_b"
    ensures Affix(Some(DefaultSuffixes), "date") == "_dt"
    ensures Affix(Some(DefaultSuffixes), "strings") == "_ss"
  {
  }

  /** A custom suffix table is used as given: `{string: '(string)'}` maps a string
      attribute `bar` to `bar(string)`. */
  lemma CustomSuffixExample(s: DynamicSerializer)
    requires s.prefixes == None && s.suffixes == Some(map["string" := "(string)"])
    requires s.currentType.Some? && "bar" in s.currentType.value.attributeTypes
    requires s.currentType.value.attributeTypes["bar"] == Some("string")
    ensures s.DynamicKeyForAttribute("bar") == Success("bar(string)")
  {
    assert "" + "bar" + "(string)" == "bar(string)";
  }

  /** A prefix table alone: `{number: 'int_'}` maps a number attribute `flags` to `int_flags`. */
  lemma CustomPrefixExample(s: DynamicSerializer)
    requires s.prefixes == Some(map["number" := "int_"]) && s.suffixes == None
    requires s.currentType.Some? && "flags" in s.currentType.value.attributeTypes
    requires s.currentType.value.attributeTypes["flags"] == Some("number")
    ensures s.DynamicKeyForAttribute("flags") == Success("int_flags")
  {
    assert "int_" + "flags" + "" == "int_flags";
  }

  /** The keys the shipped tables give a model with a string `title` and a number `flags`. */
  lemma DummyKeys(s: DynamicSerializer, dummy: ModelType)
    requires s.prefixes == None && s.suffixes == Some(DefaultSuffixes)
    requires dummy.attributeTypes == map["title" := Some("string"), "flags" := Some("number")]
    requires s.currentType == Some(dummy)
    ensures s.DynamicKeyForAttribute("title") == Success("title_s")
    ensures s.DynamicKeyForAttribute("flags") == Success("flags_i")
  {
    DefaultSuffixExamples();
    assert s.AttrType("title") == Success("string");
    assert s.AttrType("flags") == Success("number");
    assert "" + "title" + "_s" == "title_s";
    assert "" + "flags" + "_i" == "flags_i";
  }

  /** A fresh serializer serializing `{title: 'My Dummy', flags: 37}` of a model with a
      string `title` and a number `flags` writes `title_s` and `flags_i`. */
  method SerializeDummy(underscore: string -> string) returns (r: Result<Props, Failure>)
    requires underscore("title_s") == "title_s" && underscore("flags_i") == "flags_i"
    ensures r.Success? && r.value.keys == ["title_s", "flags_i"]
    ensures Get(r.value, "title_s") == Str("My Dummy") && Get(r.value, "flags_i") == Num(37)
  {
    var s := new DynamicSerializer();
    var dummy := ModelType("dummy", map["title" := Some("string"), "flags" := Some("number")]);
    var attrs := [("title", Str("My Dummy")), ("flags", Num(37))];
    r := s.Serialize(underscore, dummy, attrs);
    DummyKeys(s, dummy);
    var first := Put(Empty, "title_s", Str("My Dummy"));
    assert s.Payload(underscore, Empty, attrs) == s.Payload(underscore, first, attrs[1..]);
    assert attrs[1..][1..] == [];
    assert s.Payload(underscore, first, attrs[1..])
      == s.Payload(underscore, Put(first, "flags_i", Num(37)), []);
    assert r == Success(Put(first, "flags_i", Num(37)));
  }
}
