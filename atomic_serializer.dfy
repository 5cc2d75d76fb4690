/** Atomic-update serialization of `AtomicSerializerMixin`
    (addon/mixins/atomic-serializer.js): only modified attributes are written, each as
    an atomic-update operation, and a record without changes is refused. The set
    arithmetic of `AtomicMultiValuedSerializerMixin` plugs in through `ArrayMode`. */
module AtomicSerializer {
  import opened Wrappers
  import opened Js
  import opened SolrErrors
  import opened AtomicMultiValued

  /** Which mixin serializes: arrays as ordered sequences (`AtomicSerializerMixin`) or
      as sets of distinct values (`AtomicMultiValuedSerializerMixin`). */
  datatype ArrayMode = Ordered | DistinctValues

  /** One attribute of the snapshot: its name, its declared transform type, its value
      (`snapshot.attr(key)`) and its value before the change (`record.data[key]`). */
  datatype Attribute = Attribute(key: string, attrType: Option<string>, value: Value, previous: Value)

  /** A snapshot: the model's type key, the record id and its attributes in
      declaration order. */
  datatype Snapshot = Snapshot(typeKey: string, id: Value, attributes: seq<Attribute>)

  /** The serializer's hooks. `None` stands for a hook that is not a function.
      `transform(type, v)` is `this.transformFor(type).serialize(v)`. */
  datatype Hooks = Hooks(
    mode: ArrayMode,
    canSerialize: Option<string -> bool>,
    getMappedKey: Option<string -> string>,
    keyForAttribute: Option<string -> string>,
    transform: (string, Value) -> Value,
    primaryKey: Value)

  // ---------------------------------------------------------------------------
  // isAttributeModified, ordered

  /** `v || []`. */
  function OrEmpty(v: Value): (r: Value)
    ensures Truthy(r)
  {
    Or(v, Arr([]))
  }

  /** Some index below `n` holds different values. */
  predicate SomeIndexDiffers(v: Value, p: Value, n: int) {
    exists i: nat :: i < n && Index(v, i) != Index(p, i)
  }

  /** `isAttributeModified` of `AtomicSerializerMixin`: `!==` unless one side is an
      array; then both sides, `|| []`, are compared by `length` and index by index. */
  ghost predicate OrderedModified(value: Value, previous: Value) {
    if !IsArray(value) && !IsArray(previous) then value != previous
    else
      var v, p := OrEmpty(value), OrEmpty(previous);
      var lv, lp := Member(v, "length").value, Member(p, "length").value;
      if lv != lp then true
      else lv.Num? && SomeIndexDiffers(v, p, lv.n)
  }

  /** The loop of `isAttributeModified`, with its early returns. */
  method IsAttributeModified(value: Value, previous: Value) returns (modified: bool)
    ensures modified == OrderedModified(value, previous)
  {
    if !IsArray(value) && !IsArray(previous) {
      return value != previous;
    }
    var v, p := OrEmpty(value), OrEmpty(previous);
    var lv, lp := Member(v, "length").value, Member(p, "length").value;
    if lv != lp {
      return true;
    }
    if !lv.Num? {
      return false;
    }
    var i: nat := 0;
    while i < lv.n
      invariant forall j: nat :: j < i ==> Index(v, j) == Index(p, j)
      decreases lv.n - i
    {
      if Index(v, i) != Index(p, i) {
        return true;
      }
      i := i + 1;
    }
    return false;
  }

  /** Arrays (with null and undefined read as `[]`) are modified exactly when they
      differ as sequences: in length, or in the value at some index. */
  lemma OrderedModifiedArrays(value: Value, previous: Value)
    requires value.Arr? || value == Null || value == Undefined
    requires previous.Arr? || previous == Null || previous == Undefined
    requires value.Arr? || previous.Arr?
    ensures OrderedModified(value, previous)
      <==> (if value.Arr? then value.items else []) != (if previous.Arr? then previous.items else [])
  {
    var vs := if value.Arr? then value.items else [];
    var ps := if previous.Arr? then previous.items else [];
    var v, p := OrEmpty(value), OrEmpty(previous);
    assert v == Arr(vs) && p == Arr(ps);
    if |vs| == |ps| && vs != ps {
      var i :| 0 <= i < |vs| && vs[i] != ps[i];
      assert Index(v, i) != Index(p, i);
    }
    if |vs| == |ps| && SomeIndexDiffers(v, p, |vs|) {
      var i: nat :| i < |vs| && Index(v, i) != Index(p, i);
      assert vs[i] != ps[i];
    }
  }

  /** Values neither of which is an array are modified exactly when they differ. */
  lemma OrderedModifiedScalars(value: Value, previous: Value)
    requires !value.Arr? && !previous.Arr?
    ensures OrderedModified(value, previous) <==> value != previous
  {
  }

  // ---------------------------------------------------------------------------
  // serializeAttribute

  /** The key written to the payload: `_getMappedKey`'s result, or `keyForAttribute`'s
      when the mapping leaves the name as it was. */
  function PayloadKey(hooks: Hooks, key: string): (k: string)
    ensures hooks.getMappedKey.Some? && hooks.getMappedKey.value(key) != key ==> k == hooks.getMappedKey.value(key)
    ensures (hooks.getMappedKey.None? || hooks.getMappedKey.value(key) == key) && hooks.keyForAttribute.Some?
      ==> k == hooks.keyForAttribute.value(key)
    ensures (hooks.getMappedKey.None? || hooks.getMappedKey.value(key) == key) && hooks.keyForAttribute.None?
      ==> k == key
  {
    var mapped := if hooks.getMappedKey.Some? then hooks.getMappedKey.value(key) else key;
    if mapped == key && hooks.keyForAttribute.Some? then hooks.keyForAttribute.value(key) else mapped
  }

  /** `{set: value}`. */
  function SetOperation(value: Value): Props {
    Put(Empty, "set", value)
  }

  /** The mixin's `isAttributeModified`. */
  ghost function Modified(mode: ArrayMode, value: Value, previous: Value): Result<bool, Failure> {
    match mode
    case Ordered => Success(OrderedModified(value, previous))
    case DistinctValues => DistinctModified(value, previous)
  }

  /** The mixin's `serializeArrayAttribute`: the whole array to `set`, or the
      `add`/`remove` diff. */
  function ArrayDiff(mode: ArrayMode, value: Value, previous: Value): Result<Props, Failure> {
    match mode
    case Ordered => Success(SetOperation(value))
    case DistinctValues => DistinctDiff(value, previous)
  }

  /** The attribute's value and previous value after the transform of its type, if any. */
  function Transformed(hooks: Hooks, a: Attribute): (Value, Value) {
    if a.attrType.Some? && a.attrType.value != "" then
      (hooks.transform(a.attrType.value, a.value), hooks.transform(a.attrType.value, a.previous))
    else (a.value, a.previous)
  }

  /** `serializeAttribute(snapshot, json, key, attribute)`: the payload after the
      attribute is considered. */
  ghost function SerializeAttributeSpec(hooks: Hooks, json: Props, a: Attribute): Result<Props, Failure> {
    if hooks.canSerialize.Some? && !hooks.canSerialize.value(a.key) then Success(json)
    else
      var (value, previous) := Transformed(hooks, a);
      var modified := Modified(hooks.mode, value, previous);
      if modified.Failure? then Failure(modified.error)
      else if !modified.value then Success(json)
      else
        var payloadKey := PayloadKey(hooks, a.key);
        if IsArray(value) || IsArray(previous) then
          // the values passed `isAttributeModified`, so the diff can be computed
          var diff := ArrayDiff(hooks.mode, value, previous).value;
          if |diff.keys| == 0 then Success(json)
          else Success(Put(json, payloadKey, Obj(diff)))
        else Success(Put(json, payloadKey, Obj(SetOperation(value))))
  }

  /** `serializeAttribute`, writing into the shared `json` object. */
  method SerializeAttribute(hooks: Hooks, json: JsObject, a: Attribute) returns (r: Result<(), Failure>)
    modifies json
    ensures SerializeAttributeSpec(hooks, old(json.props), a).Failure? ==>
      r == Failure(SerializeAttributeSpec(hooks, old(json.props), a).error) && json.props == old(json.props)
    ensures SerializeAttributeSpec(hooks, old(json.props), a).Success? ==>
      r == Success(()) && json.props == SerializeAttributeSpec(hooks, old(json.props), a).value
  {
    if hooks.canSerialize.Some? && !hooks.canSerialize.value(a.key) {
      return Success(());
    }
    var (value, previous) := Transformed(hooks, a);
    var modified: bool;
    match hooks.mode {
      case Ordered =>
        modified := IsAttributeModified(value, previous);
      case DistinctValues =>
        var m := DistinctModified(value, previous);
        if m.Failure? {
          return Failure(m.error);
        }
        modified := m.value;
    }
    if !modified {
      return Success(());
    }
    var payloadKey := PayloadKey(hooks, a.key);
    if IsArray(value) || IsArray(previous) {
      var diff := ArrayDiff(hooks.mode, value, previous).value;
      if |diff.keys| != 0 {
        json.Assign(payloadKey, Obj(diff));
      }
    } else {
      json.Assign(payloadKey, Obj(SetOperation(value)));
    }
    return Success(());
  }

  /** An attribute `_canSerialize` rejects, or one that is not modified, adds nothing. */
  lemma SkippedAttributeAddsNothing(hooks: Hooks, json: Props, a: Attribute)
    requires (hooks.canSerialize.Some? && !hooks.canSerialize.value(a.key))
      || Modified(hooks.mode, Transformed(hooks, a).0, Transformed(hooks, a).1) == Success(false)
    ensures SerializeAttributeSpec(hooks, json, a) == Success(json)
  {
  }

  /** A modified attribute whose values are not arrays is written as `{set: value}`,
      whatever the value, null included. */
  lemma ModifiedScalarIsSet(hooks: Hooks, json: Props, a: Attribute)
    requires hooks.canSerialize.None? || hooks.canSerialize.value(a.key)
    requires var (value, previous) := Transformed(hooks, a);
      !IsArray(value) && !IsArray(previous) && value != previous
    ensures SerializeAttributeSpec(hooks, json, a)
      == Success(Put(json, PayloadKey(hooks, a.key), Obj(Put(Empty, "set", Transformed(hooks, a).0))))
  {
    var (value, previous) := Transformed(hooks, a);
    assert Modified(hooks.mode, value, previous) == Success(true) by {
      if hooks.mode.DistinctValues? {
        assert DistinctModified(value, previous) == Success(true);
      }
    }
  }

  /** In ordered mode a changed array is sent whole as `{set: value}`. */
  lemma OrderedArrayIsSet(hooks: Hooks, json: Props, a: Attribute)
    requires hooks.mode == Ordered
    requires hooks.canSerialize.None? || hooks.canSerialize.value(a.key)
    requires var (value, previous) := Transformed(hooks, a);
      (IsArray(value) || IsArray(previous)) && OrderedModified(value, previous)
    ensures SerializeAttributeSpec(hooks, json, a)
      == Success(Put(json, PayloadKey(hooks, a.key), Obj(Put(Empty, "set", Transformed(hooks, a).0))))
  {
  }

  /** In distinct mode a changed array is sent as its `add`/`remove` diff, which is
      never empty. */
  lemma DistinctArrayIsDiff(hooks: Hooks, json: Props, a: Attribute, vs: seq<Value>, ps: seq<Value>)
    requires hooks.mode == DistinctValues
    requires hooks.canSerialize.None? || hooks.canSerialize.value(a.key)
    requires Transformed(hooks, a) == (Arr(vs), Arr(ps))
    requires SetOf(vs) != SetOf(ps)
    ensures SerializeAttributeSpec(hooks, json, a)
      == Success(Put(json, PayloadKey(hooks, a.key), Obj(DistinctDiff(Arr(vs), Arr(ps)).value)))
  {
    DistinctModifiedIffSetsDiffer(vs, ps);
    DistinctModifiedIffDiff(vs, ps);
  }

  // ---------------------------------------------------------------------------
  // serialize

  /** The base serializer's pass over the attributes, in order. */
  ghost function AttributesSpec(hooks: Hooks, json: Props, attrs: seq<Attribute>): Result<Props, Failure>
    decreases |attrs|
  {
    if |attrs| == 0 then Success(json)
    else
      var next := SerializeAttributeSpec(hooks, json, attrs[0]);
      if next.Failure? then next else AttributesSpec(hooks, next.value, attrs[1..])
  }

  /** The property name the id is written under: `primaryKey || 'id'`. */
  function IdKey(hooks: Hooks): string {
    ToJsString(Or(hooks.primaryKey, Str("id")))
  }

  /** `serialize(snapshot, options)`. */
  ghost function SerializeSpec(hooks: Hooks, snapshot: Snapshot): Result<Props, Failure> {
    var json := AttributesSpec(hooks, Empty, snapshot.attributes);
    if json.Failure? then json
    else if |json.value.keys| == 0 then Failure(NotDirty(snapshot.typeKey, snapshot.id))
    else if Truthy(snapshot.id) then Success(Put(json.value, IdKey(hooks), snapshot.id))
    else json
  }

  /** `serialize` over a fresh payload object. */
  method Serialize(hooks: Hooks, snapshot: Snapshot) returns (r: Result<Props, Failure>)
    ensures r == SerializeSpec(hooks, snapshot)
  {
    var json := new JsObject(Empty);
    var attrs := snapshot.attributes;
    var i := 0;
    while i < |attrs|
      invariant 0 <= i <= |attrs|
      invariant AttributesSpec(hooks, Empty, attrs) == AttributesSpec(hooks, json.props, attrs[i..])
    {
      assert attrs[i..][1..] == attrs[i + 1..];
      var step := SerializeAttribute(hooks, json, attrs[i]);
      if step.Failure? {
        return Failure(step.error);
      }
      i := i + 1;
    }
    if |json.props.keys| == 0 {
      return Failure(NotDirty(snapshot.typeKey, snapshot.id));
    }
    if Truthy(snapshot.id) {
      json.Assign(IdKey(hooks), snapshot.id);
    }
    return Success(json.props);
  }

  /** NotDirty is raised exactly when no attribute wrote anything; the id is not
      counted, since it is added only afterwards. */
  lemma NotDirtyIffNothingWritten(hooks: Hooks, snapshot: Snapshot)
    ensures SerializeSpec(hooks, snapshot) == Failure(NotDirty(snapshot.typeKey, snapshot.id))
      <==> (AttributesSpec(hooks, Empty, snapshot.attributes).Success?
            && |AttributesSpec(hooks, Empty, snapshot.attributes).value.keys| == 0)
  {
    AttributesFailOnlyWithTypeError(hooks, Empty, snapshot.attributes);
  }

  /** The attribute pass fails only with a TypeError. */
  lemma {:induction false} AttributesFailOnlyWithTypeError(hooks: Hooks, json: Props, attrs: seq<Attribute>)
    ensures AttributesSpec(hooks, json, attrs).Failure? ==> AttributesSpec(hooks, json, attrs).error == TypeError
    decreases |attrs|
  {
    if |attrs| > 0 {
      var next := SerializeAttributeSpec(hooks, json, attrs[0]);
      if next.Success? {
        AttributesFailOnlyWithTypeError(hooks, next.value, attrs[1..]);
      }
    }
  }

  /** A record whose attributes are all unmodified or rejected is refused. */
  lemma {:induction false} NothingModifiedNothingWritten(hooks: Hooks, json: Props, attrs: seq<Attribute>)
    requires forall i | 0 <= i < |attrs| :: SerializeAttributeSpec(hooks, json, attrs[i]) == Success(json)
    ensures AttributesSpec(hooks, json, attrs) == Success(json)
    decreases |attrs|
  {
    if |attrs| > 0 {
      assert SerializeAttributeSpec(hooks, json, attrs[0]) == Success(json);
      NothingModifiedNothingWritten(hooks, json, attrs[1..]);
    }
  }

  /** With a truthy id the payload carries it under `primaryKey || 'id'`; with a
      falsy id the attributes' payload is returned as it is. */
  lemma SerializeWritesId(hooks: Hooks, snapshot: Snapshot)
    requires SerializeSpec(hooks, snapshot).Success?
    ensures var json := AttributesSpec(hooks, Empty, snapshot.attributes).value;
      && |json.keys| > 0
      && (Truthy(snapshot.id) ==>
            && Get(SerializeSpec(hooks, snapshot).value, IdKey(hooks)) == snapshot.id
            && forall k :: k != IdKey(hooks) ==> Get(SerializeSpec(hooks, snapshot).value, k) == Get(json, k))
      && (!Truthy(snapshot.id) ==> SerializeSpec(hooks, snapshot).value == json)
  {
  }

  /** The default primary key is `id`. */
  lemma DefaultIdKey(hooks: Hooks)
    requires !Truthy(hooks.primaryKey)
    ensures IdKey(hooks) == "id"
  {
  }
}
