/** The multi-valued attribute transform (addon/transforms/multi-valued.js): converts
    each element of an array with the transform registered for the element type,
    leaving elements that already have that type as they are. */
module MultiValued {
  import opened Wrappers
  import opened Js
  import opened SolrErrors

  /** A registered element transform: its `serialize` and `deserialize` functions. */
  datatype ElementTransform = ElementTransform(serialize: Value -> Value, deserialize: Value -> Value)

  /** Which of the element transform's functions `convert` applies. */
  datatype Direction = Serializing | Deserializing

  function Apply(transform: ElementTransform, dir: Direction): Value -> Value {
    match dir
    case Serializing => transform.serialize
    case Deserializing => transform.deserialize
  }

  const DefaultElementType := "string"

  /** The error `elementTransform` throws when nothing is registered for the type. */
  function MissingTransformMessage(elementType: string): string {
    "Unable to find transform for '" + elementType + "'"
  }

  /** The container key the element transform is registered under. */
  function TransformKey(elementType: string): string {
    "transform:" + elementType
  }

  /** Every element already has the element type, so nothing is converted. */
  predicate AllOfType(items: seq<Value>, elementType: string) {
    forall i | 0 <= i < |items| :: TypeOf(items[i]) == elementType
  }

  /** The array `convert` builds: each element of another type is passed through `f`.
      The position-wise rule is what `array.map` promises; `Convert` is proved to
      build exactly this array, and `ConvertCorresponds` states it for `ConvertSpec`. */
  function ConvertItems(items: seq<Value>, elementType: string, f: Value -> Value): (r: seq<Value>)
    ensures |r| == |items|
    ensures forall i | 0 <= i < |items| ::
      r[i] == if TypeOf(items[i]) == elementType then items[i] else f(items[i])
  {
    seq(|items|, i requires 0 <= i < |items| => if TypeOf(items[i]) == elementType then items[i] else f(items[i]))
  }

  /** What `convert(array, funcName)` returns or throws, given the element transform
      `get(this, 'elementTransform')` would produce (`None` when it throws). */
  function ConvertSpec(v: Value, dir: Direction, elementType: string, transform: Option<ElementTransform>)
    : Result<Value, Failure>
  {
    if !IsArray(v) then Success(v)
    else if AllOfType(v.items, elementType) then Success(v)
    else if transform.None? then Failure(Error(MissingTransformMessage(elementType)))
    else Success(Arr(ConvertItems(v.items, elementType, Apply(transform.value, dir))))
  }

  /** A `DS.Transform` instance of the multi-valued transform. */
  class MultiValuedTransform {
    /** `elementType`. */
    var elementType: string
    /** A value `set` on `elementTransform`. The computed property has no setter, so
        Ember replaces it with this plain value for good. */
    var overridden: Option<ElementTransform>
    /** The cached value of the computed property `elementTransform`. */
    var cached: Option<ElementTransform>
    /** The owner's container: `lookup(key)`, `None` where nothing is registered. */
    const registry: string -> Option<ElementTransform>
    /** How many times the container has been asked for the element transform. */
    ghost var lookups: nat

    constructor (registry: string -> Option<ElementTransform>)
      ensures elementType == DefaultElementType && overridden == None && cached == None
      ensures this.registry == registry && lookups == 0
    {
      elementType := DefaultElementType;
      overridden := None;
      cached := None;
      this.registry := registry;
      lookups := 0;
    }

    /** The value the computed property produces: the cached one, or the container's;
        `None` when the getter throws. */
    function Computed(): Option<ElementTransform>
      reads this
    {
      if cached.Some? then cached else registry(TransformKey(elementType))
    }

    /** The value `get(this, 'elementTransform')` produces: an overriding value, or
        the computed one. */
    function Transform(): Option<ElementTransform>
      reads this
    {
      if overridden.Some? then overridden else Computed()
    }

    /** `get(this, 'elementTransform')` has to ask the container. */
    predicate NeedsLookup()
      reads this
    {
      overridden.None? && cached.None?
    }

    /** `set(this, 'elementType', t)`: the computed transform depends on it, so a
        change drops its cached value; setting the current value notifies nothing and
        keeps it. An overriding value is never dropped. */
    method SetElementType(t: string)
      modifies this
      ensures elementType == t && cached == (if t == old(elementType) then old(cached) else None)
      ensures overridden == old(overridden) && lookups == old(lookups)
    {
      if t != elementType {
        elementType := t;
        cached := None;
      }
    }

    /** `set(this, 'elementTransform', transform)`: replaces the computed property. */
    method SetElementTransform(transform: ElementTransform)
      modifies this
      ensures overridden == Some(transform)
      ensures elementType == old(elementType) && cached == old(cached) && lookups == old(lookups)
    {
      overridden := Some(transform);
    }

    /** `get(this, 'elementTransform')`: an overriding value, the cached value, or a
        container lookup whose result is cached when something is registered. */
    method GetElementTransform() returns (r: Result<ElementTransform, Failure>)
      modifies this
      ensures old(Transform()).Some? ==> r == Success(old(Transform()).value)
      ensures old(Transform()).None? ==> r == Failure(Error(MissingTransformMessage(elementType)))
      ensures cached == (if old(overridden).None? then old(Computed()) else old(cached))
      ensures elementType == old(elementType) && overridden == old(overridden)
      ensures lookups == old(lookups) + (if old(NeedsLookup()) then 1 else 0)
    {
      if overridden.Some? {
        return Success(overridden.value);
      }
      if cached.Some? {
        return Success(cached.value);
      }
      lookups := lookups + 1;
      var found := registry(TransformKey(elementType));
      if found.None? {
        return Failure(Error(MissingTransformMessage(elementType)));
      }
      cached := found;
      return Success(found.value);
    }

    /** `convert(array, funcName)`: the element transform is fetched lazily, the first
        time an element of another type is met. */
    method Convert(v: Value, dir: Direction) returns (r: Result<Value, Failure>)
      modifies this
      ensures r == ConvertSpec(v, dir, old(elementType), old(Transform()))
      ensures elementType == old(elementType) && overridden == old(overridden)
      ensures var fetched := IsArray(v) && !AllOfType(v.items, elementType);
        && lookups == old(lookups) + (if fetched && old(NeedsLookup()) then 1 else 0)
        && cached == (if fetched && old(overridden).None? then old(Computed()) else old(cached))
    {
      if !v.Arr? {
        return Success(v);
      }
      var items := v.items;
      var t := elementType;
      var out: seq<Value> := [];
      var func: Option<Value -> Value> := None;
      for i := 0 to |items|
        invariant elementType == t && overridden == old(overridden)
        invariant func.None? ==> && AllOfType(items[..i], t) && out == items[..i]
                                 && cached == old(cached) && lookups == old(lookups)
        invariant func.Some? ==> && old(Transform()).Some?
                                 && func.value == Apply(old(Transform()).value, dir)
                                 && cached == (if old(overridden).None? then old(Computed()) else old(cached))
                                 && lookups == old(lookups) + (if old(NeedsLookup()) then 1 else 0)
                                 && !AllOfType(items[..i], t)
                                 && out == ConvertItems(items[..i], t, func.value)
      {
        if TypeOf(items[i]) == t {
          out := out + [items[i]];
        } else {
          if func.None? {
            var element := GetElementTransform();
            if element.Failure? {
              PrefixStep(items, i, t, x => x);
              return Failure(element.error);
            }
            func := Some(Apply(element.value, dir));
            PrefixStep(items, i, t, func.value);
          }
          out := out + [func.value(items[i])];
        }
        PrefixStep(items, i, t, if func.Some? then func.value else x => x);
      }
      assert items[..|items|] == items;
      if func.None? {
        return Success(v);
      }
      return Success(Arr(out));
    }

    /** `deserialize(serialized)`. */
    method Deserialize(serialized: Value) returns (r: Result<Value, Failure>)
      modifies this
      ensures r == ConvertSpec(serialized, Deserializing, old(elementType), old(Transform()))
      ensures elementType == old(elementType) && overridden == old(overridden)
    {
      r := Convert(serialized, Deserializing);
    }

    /** `serialize(deserialized)`. */
    method Serialize(deserialized: Value) returns (r: Result<Value, Failure>)
      modifies this
      ensures r == ConvertSpec(deserialized, Serializing, old(elementType), old(Transform()))
      ensures elementType == old(elementType) && overridden == old(overridden)
    {
      r := Convert(deserialized, Serializing);
    }
  }

  /** How the converted prefix grows by one element, and that a prefix of elements
      all of the element type converts to itself. */
  lemma PrefixStep(items: seq<Value>, i: nat, t: string, f: Value -> Value)
    requires i < |items|
    ensures ConvertItems(items[..i + 1], t, f)
      == ConvertItems(items[..i], t, f) + [if TypeOf(items[i]) == t then items[i] else f(items[i])]
    ensures AllOfType(items[..i + 1], t) <==> AllOfType(items[..i], t) && TypeOf(items[i]) == t
    ensures AllOfType(items[..i], t) ==> ConvertItems(items[..i], t, f) == items[..i]
  {
    ConvertAppend(items[..i], items[i], t, f);
    assert items[..i + 1] == items[..i] + [items[i]];
    if AllOfType(items[..i], t) {
      ConvertAllOfType(items[..i], t, f);
    }
  }

  lemma ConvertAppend(pre: seq<Value>, x: Value, t: string, f: Value -> Value)
    ensures ConvertItems(pre + [x], t, f) == ConvertItems(pre, t, f) + [if TypeOf(x) == t then x else f(x)]
  {
    var conv := ConvertItems(pre + [x], t, f);
    var step := ConvertItems(pre, t, f) + [if TypeOf(x) == t then x else f(x)];
    forall k | 0 <= k < |conv| ensures conv[k] == step[k] {
      if k < |pre| {
        assert (pre + [x])[k] == pre[k];
      }
    }
  }

  lemma ConvertAllOfType(pre: seq<Value>, t: string, f: Value -> Value)
    requires AllOfType(pre, t)
    ensures ConvertItems(pre, t, f) == pre
  {
    var same := ConvertItems(pre, t, f);
    forall k | 0 <= k < |pre| ensures same[k] == pre[k] {
      assert TypeOf(pre[k]) == t;
    }
  }

  /** Anything but an array, null included, is returned as it is. */
  lemma NonArrayUnchanged(v: Value, dir: Direction, elementType: string, transform: Option<ElementTransform>)
    requires !IsArray(v)
    ensures ConvertSpec(v, dir, elementType, transform) == Success(v)
  {
  }

  /** A converted array has the input's length; each element of the element type is
      kept and each other one is replaced by the transform's result for it. */
  lemma ConvertCorresponds(items: seq<Value>, dir: Direction, elementType: string, transform: ElementTransform)
    ensures var r := ConvertSpec(Arr(items), dir, elementType, Some(transform));
      && r.Success? && r.value.Arr? && |r.value.items| == |items|
      && forall i | 0 <= i < |items| ::
           r.value.items[i] == if TypeOf(items[i]) == elementType then items[i] else Apply(transform, dir)(items[i])
  {
    if AllOfType(items, elementType) {
      var r := ConvertSpec(Arr(items), dir, elementType, Some(transform));
      assert r == Success(Arr(items));
    }
  }

  /** The conversion fails only when an element needs the transform and none is
      registered, and then with the message naming the element type. */
  lemma ConvertFailsOnlyWithoutTransform(v: Value, dir: Direction, elementType: string,
                                         transform: Option<ElementTransform>)
    ensures ConvertSpec(v, dir, elementType, transform).Failure? <==>
      IsArray(v) && !AllOfType(v.items, elementType) && transform.None?
    ensures ConvertSpec(v, dir, elementType, transform).Failure? ==>
      ConvertSpec(v, dir, elementType, transform).error == Error(MissingTransformMessage(elementType))
  {
  }

  /** Elements already of the element type need no transform at all. */
  lemma NumbersNeedNoTransform(dir: Direction)
    ensures ConvertSpec(Arr([Num(1), Num(3)]), dir, "number", None) == Success(Arr([Num(1), Num(3)]))
  {
    assert AllOfType([Num(1), Num(3)], "number");
  }

  /** With element type `fred` and nothing registered for it, `['1', '3']` is refused
      with "Unable to find transform for 'fred'". */
  lemma MissingFredTransform(dir: Direction)
    ensures ConvertSpec(Arr([Str("1"), Str("3")]), dir, "fred", None)
      == Failure(Error("Unable to find transform for 'fred'"))
  {
    assert TypeOf([Str("1"), Str("3")][0]) != "fred";
    assert MissingTransformMessage("fred") == "Unable to find transform for 'fred'";
  }

  /** With a number transform that maps null and undefined to null, `[null, undefined]`
      becomes `[null, null]`: neither has type `number`. */
  lemma NullsThroughNumberTransform(transform: ElementTransform)
    requires transform.deserialize(Null) == Null && transform.deserialize(Undefined) == Null
    ensures ConvertSpec(Arr([Null, Undefined]), Deserializing, "number", Some(transform)) == Success(Arr([Null, Null]))
  {
    assert TypeOf([Null, Undefined][0]) != "number";
    assert ConvertItems([Null, Undefined], "number", transform.deserialize) == [Null, Null];
  }

  /** A fresh transform set to `number`, with nothing registered, converting `[1, 3]`
      succeeds without asking the container. */
  method NumbersWithoutRegistry() returns (r: Result<Value, Failure>)
    ensures r == Success(Arr([Num(1), Num(3)]))
  {
    var t := new MultiValuedTransform(_ => None);
    t.SetElementType("number");
    NumbersNeedNoTransform(Deserializing);
    r := t.Deserialize(Arr([Num(1), Num(3)]));
  }

  /** A transform set on the property is still used after the element type changes,
      without asking the container: `'1'` goes through its `deserialize`. */
  method OverrideSurvivesElementType(transform: ElementTransform) returns (r: Result<Value, Failure>)
    ensures r == Success(Arr([transform.deserialize(Str("1"))]))
  {
    var t := new MultiValuedTransform(_ => None);
    t.SetElementTransform(transform);
    t.SetElementType("fred");
    assert !AllOfType([Str("1")], "fred") by {
      assert TypeOf([Str("1")][0]) != "fred";
    }
    assert ConvertItems([Str("1")], "fred", transform.deserialize) == [transform.deserialize(Str("1"))];
    r := t.Deserialize(Arr([Str("1")]));
  }
}
