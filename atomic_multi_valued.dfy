/** Set arithmetic of `AtomicMultiValuedSerializerMixin`
    (addon/mixins/atomic-multi-valued-serializer.js): multi-valued fields are compared
    as sets of distinct values, and a change is sent as the values to `add` and the
    values to `remove`. */
module AtomicMultiValued {
  import opened Wrappers
  import opened Js
  import opened SolrErrors

  /** No value occurs twice. */
  predicate Distinct(s: seq<Value>) {
    forall i, j | 0 <= i < j < |s| :: s[i] != s[j]
  }

  /** The values of a sequence, as a set. */
  function SetOf(s: seq<Value>): set<Value> {
    set x | x in s
  }

  /** `Ember.A(v)` with Ember's array prototype extensions, which is `v || []`: an
      array is kept and every falsy value (null, undefined, 0, "", false) becomes the
      empty array. A truthy value that is no array has no `uniq` method, so calling it
      is a TypeError. */
  function AsArray(v: Value): (r: Result<seq<Value>, Failure>)
    ensures v.Arr? ==> r == Success(v.items)
    ensures !v.Arr? && !Truthy(v) ==> r == Success([])
    ensures !v.Arr? && Truthy(v) ==> r == Failure(TypeError)
  {
    if v.Arr? then Success(v.items)
    else if !Truthy(v) then Success([])
    else Failure(TypeError)
  }

  /** `Ember.A(v).uniq()` throws: `v` is truthy and no array. */
  predicate HasNoUniq(v: Value) {
    !IsArray(v) && Truthy(v)
  }

  /** `uniq()`: the first occurrence of every value, in order. */
  function Uniq(s: seq<Value>): (r: seq<Value>)
    ensures forall x :: x in r <==> x in s
    ensures Distinct(r)
    ensures |r| <= |s|
    decreases |s|
  {
    if |s| == 0 then []
    else
      var u := Uniq(s[..|s| - 1]);
      var last := s[|s| - 1];
      assert forall x :: x in s <==> x in s[..|s| - 1] || x == last by {
        assert s == s[..|s| - 1] + [last];
      }
      if last in u then u else u + [last]
  }

  /** `i` is where the value `s[i]` first occurs in `s`. */
  predicate FirstAt(s: seq<Value>, i: int) {
    0 <= i < |s| && forall j | 0 <= j < i :: s[j] != s[i]
  }

  /** `uniq()` keeps the first occurrence of every value, in order: `pos` lists the
      positions of the first occurrences in `s`, increasing, and `Uniq(s)` holds the
      values found there. */
  lemma {:induction false} UniqPositions(s: seq<Value>) returns (pos: seq<int>)
    ensures |pos| == |Uniq(s)|
    ensures forall k | 0 <= k < |pos| :: FirstAt(s, pos[k]) && s[pos[k]] == Uniq(s)[k]
    ensures forall k, l | 0 <= k < l < |pos| :: pos[k] < pos[l]
    ensures forall i | FirstAt(s, i) :: i in pos
    decreases |s|
  {
    if |s| == 0 {
      pos := [];
    } else {
      var init := s[..|s| - 1];
      var last := s[|s| - 1];
      var p := UniqPositions(init);
      assert forall j | 0 <= j < |init| :: init[j] == s[j];
      assert forall k | 0 <= k < |p| :: FirstAt(s, p[k]) by {
        forall k | 0 <= k < |p| ensures FirstAt(s, p[k]) {
          assert FirstAt(init, p[k]);
        }
      }
      if last in Uniq(init) {
        pos := p;
      } else {
        pos := p + [|s| - 1];
        assert last !in init;
        assert FirstAt(s, |s| - 1) by {
          forall j | 0 <= j < |s| - 1 ensures s[j] != last {
            assert s[j] == init[j];
          }
        }
      }
      forall i | FirstAt(s, i) ensures i in pos {
        if i < |s| - 1 {
          assert FirstAt(init, i);
        } else {
          assert last !in init;
        }
      }
    }
  }

  /** `values.reject(i => withoutValues.contains(i))`, in the order of `values`. */
  function Reject(values: seq<Value>, without: seq<Value>): (r: seq<Value>)
    ensures forall x :: x in r <==> x in values && x !in without
    ensures Distinct(values) ==> Distinct(r)
    ensures |r| <= |values|
    decreases |values|
  {
    if |values| == 0 then []
    else
      var rest := Reject(values[1..], without);
      assert forall x :: x in values <==> x == values[0] || x in values[1..] by {
        assert values == [values[0]] + values[1..];
      }
      if values[0] in without then rest else [values[0]] + rest
  }

  /** The values `Reject` keeps appear in the order they have in `values`: `pos`
      gives, for each kept value, an increasing position in `values` that holds it. */
  lemma {:induction false} RejectPositions(values: seq<Value>, without: seq<Value>) returns (pos: seq<int>)
    ensures |pos| == |Reject(values, without)|
    ensures forall k | 0 <= k < |pos| :: 0 <= pos[k] < |values| && values[pos[k]] == Reject(values, without)[k]
    ensures forall k, l | 0 <= k < l < |pos| :: pos[k] < pos[l]
    decreases |values|
  {
    if |values| == 0 {
      pos := [];
    } else {
      var rest := RejectPositions(values[1..], without);
      var rr := Reject(values[1..], without);
      var shifted := Shift(values, rr, rest);
      if values[0] in without {
        pos := shifted;
      } else {
        pos := [0] + shifted;
        assert Reject(values, without) == [values[0]] + rr;
        forall k | 0 < k < |pos|
          ensures 0 <= pos[k] < |values| && values[pos[k]] == Reject(values, without)[k]
        {
          assert pos[k] == shifted[k - 1];
        }
      }
    }
  }

  /** Positions in `values[1..]` moved to positions in `values`. */
  lemma Shift(values: seq<Value>, kept: seq<Value>, rest: seq<int>) returns (shifted: seq<int>)
    requires |values| > 0 && |rest| == |kept|
    requires forall k | 0 <= k < |rest| :: 0 <= rest[k] < |values| - 1 && values[1..][rest[k]] == kept[k]
    requires forall k, l | 0 <= k < l < |rest| :: rest[k] < rest[l]
    ensures |shifted| == |kept|
    ensures forall k | 0 <= k < |shifted| :: 0 < shifted[k] < |values| && values[shifted[k]] == kept[k]
    ensures forall k, l | 0 <= k < l < |shifted| :: shifted[k] < shifted[l]
  {
    shifted := seq(|rest|, k requires 0 <= k < |rest| => rest[k] + 1);
    forall k | 0 <= k < |shifted|
      ensures 0 < shifted[k] < |values| && values[shifted[k]] == kept[k]
    {
      assert values[1..][rest[k]] == values[rest[k] + 1];
    }
  }

  /** The values to add come in the order of their first occurrences in the new
      array, and the values to remove in that of the previous array. */
  lemma AddedInNewOrder(vs: seq<Value>, ps: seq<Value>) returns (posAdd: seq<int>, posRemove: seq<int>)
    ensures |posAdd| == |Added(vs, ps)|
    ensures forall k | 0 <= k < |posAdd| :: FirstAt(vs, posAdd[k]) && vs[posAdd[k]] == Added(vs, ps)[k]
    ensures forall k, l | 0 <= k < l < |posAdd| :: posAdd[k] < posAdd[l]
    ensures |posRemove| == |Removed(vs, ps)|
    ensures forall k | 0 <= k < |posRemove| :: FirstAt(ps, posRemove[k]) && ps[posRemove[k]] == Removed(vs, ps)[k]
    ensures forall k, l | 0 <= k < l < |posRemove| :: posRemove[k] < posRemove[l]
  {
    posAdd := KeptInOrder(vs, Uniq(ps));
    posRemove := KeptInOrder(ps, Uniq(vs));
  }

  /** `Reject(Uniq(s), without)` keeps first occurrences of `s`, in order. */
  lemma KeptInOrder(s: seq<Value>, without: seq<Value>) returns (pos: seq<int>)
    ensures |pos| == |Reject(Uniq(s), without)|
    ensures forall k | 0 <= k < |pos| :: FirstAt(s, pos[k]) && s[pos[k]] == Reject(Uniq(s), without)[k]
    ensures forall k, l | 0 <= k < l < |pos| :: pos[k] < pos[l]
  {
    var u := UniqPositions(s);
    var r := RejectPositions(Uniq(s), without);
    pos := seq(|r|, k requires 0 <= k < |r| => u[r[k]]);
    forall k, l | 0 <= k < l < |pos| ensures pos[k] < pos[l] {
      assert r[k] < r[l];
    }
  }

  /** A sequence without repetitions has as many values as elements. */
  lemma {:induction false} DistinctCard(s: seq<Value>)
    requires Distinct(s)
    ensures |SetOf(s)| == |s|
    decreases |s|
  {
    if |s| > 0 {
      var init := s[..|s| - 1];
      var last := s[|s| - 1];
      assert Distinct(init);
      DistinctCard(init);
      assert s == init + [last];
      assert SetOf(s) == SetOf(init) + {last};
      assert last !in SetOf(init);
    }
  }

  /** A subset as large as its superset is the whole superset. */
  lemma SubsetSameSize(a: set<Value>, b: set<Value>)
    requires a <= b && |a| == |b|
    ensures a == b
  {
    if a != b {
      var x :| x in b && x !in a;
      assert a <= b - {x};
      assert |a| <= |b - {x}| by {
        SubsetCard(a, b - {x});
      }
    }
  }

  /** A subset has at most as many elements. */
  lemma {:induction false} SubsetCard(a: set<Value>, b: set<Value>)
    requires a <= b
    ensures |a| <= |b|
    decreases |b|
  {
    if b != {} {
      var x :| x in b;
      SubsetCard(a - {x}, b - {x});
    }
  }

  /** `isAttributeModified` of the mixin. Values neither of which is an array are
      compared with `!==`; otherwise the distinct values are compared by count and
      by containment. */
  function DistinctModified(value: Value, previous: Value): (r: Result<bool, Failure>)
    ensures !IsArray(value) && !IsArray(previous) ==> r == Success(value != previous)
    ensures r.Failure? <==> (IsArray(value) || IsArray(previous)) && (HasNoUniq(value) || HasNoUniq(previous))
    ensures r.Failure? ==> r.error == TypeError
  {
    if !IsArray(value) && !IsArray(previous) then Success(value != previous)
    else
      match (AsArray(value), AsArray(previous))
      case (Failure(e), _) => Failure(e)
      case (_, Failure(e)) => Failure(e)
      case (Success(vs), Success(ps)) =>
        var v := Uniq(vs);
        var p := Uniq(ps);
        if |v| != |p| then Success(true)
        else Success(!(forall i | 0 <= i < |v| :: v[i] in p))
  }

  /** Arrays are modified exactly when their sets of values differ: order and
      repetitions do not count. */
  lemma DistinctModifiedIffSetsDiffer(vs: seq<Value>, ps: seq<Value>)
    ensures DistinctModified(Arr(vs), Arr(ps)) == Success(SetOf(vs) != SetOf(ps))
  {
    var v := Uniq(vs);
    var p := Uniq(ps);
    assert SetOf(v) == SetOf(vs) && SetOf(p) == SetOf(ps);
    DistinctCard(v);
    DistinctCard(p);
    assert DistinctModified(Arr(vs), Arr(ps))
      == if |v| != |p| then Success(true) else Success(!(forall i | 0 <= i < |v| :: v[i] in p));
    if |v| != |p| {
      assert |SetOf(v)| != |SetOf(p)|;
    } else if forall i | 0 <= i < |v| :: v[i] in p {
      assert SetOf(v) <= SetOf(p);
      SubsetSameSize(SetOf(v), SetOf(p));
    } else {
      var i :| 0 <= i < |v| && v[i] !in p;
      assert v[i] in SetOf(v) && v[i] !in SetOf(p);
    }
  }

  /** `normalize`'s value for one key: nothing when no value is left, the bare value
      when one is left, the array otherwise. The three cases are the promise itself;
      `DistinctDiffShape` shows how they shape the whole diff. */
  function Collapse(values: seq<Value>): (r: Option<Value>)
    ensures |values| == 0 <==> r.None?
    ensures |values| == 1 ==> r == Some(values[0])
    ensures |values| > 1 ==> r == Some(Arr(values))
  {
    if |values| == 0 then None
    else if |values| == 1 then Some(values[0])
    else Some(Arr(values))
  }

  /** `normalize(key, values, withoutValues)` writing into `json`. */
  function NormalizeInto(json: Props, key: string, values: seq<Value>, without: seq<Value>): Props {
    var c := Collapse(Reject(values, without));
    if c.Some? then Put(json, key, c.value) else json
  }

  /** The values to add: the new distinct values that were not there before. */
  function Added(vs: seq<Value>, ps: seq<Value>): seq<Value> {
    Reject(Uniq(vs), Uniq(ps))
  }

  /** The values to remove: the previous distinct values that are gone. */
  function Removed(vs: seq<Value>, ps: seq<Value>): seq<Value> {
    Reject(Uniq(ps), Uniq(vs))
  }

  /** `serializeArrayAttribute` of the mixin: the `{add, remove}` diff. */
  function DistinctDiff(value: Value, previous: Value): (r: Result<Props, Failure>)
    ensures r.Failure? <==> HasNoUniq(value) || HasNoUniq(previous)
    ensures r.Failure? ==> r.error == TypeError
  {
    match (AsArray(value), AsArray(previous))
    case (Failure(e), _) => Failure(e)
    case (_, Failure(e)) => Failure(e)
    case (Success(vs), Success(ps)) =>
      var json := NormalizeInto(Empty, "add", Uniq(vs), Uniq(ps));
      Success(NormalizeInto(json, "remove", Uniq(ps), Uniq(vs)))
  }

  /** `add` and `remove` hold distinct values, never share one, and turn the previous
      set of values into the new one. */
  lemma AddRemoveSets(vs: seq<Value>, ps: seq<Value>)
    ensures var add, rem := Added(vs, ps), Removed(vs, ps);
      && Distinct(add) && Distinct(rem)
      && (forall x :: x in add <==> x in vs && x !in ps)
      && (forall x :: x in rem <==> x in ps && x !in vs)
      && SetOf(add) * SetOf(rem) == {}
      && (SetOf(ps) + SetOf(add)) - SetOf(rem) == SetOf(vs)
  {
  }

  /** The diff lists `add` before `remove`; each key is present only when it has
      values, and a single value is sent bare. */
  lemma DistinctDiffShape(vs: seq<Value>, ps: seq<Value>)
    ensures var d := DistinctDiff(Arr(vs), Arr(ps));
      var add, rem := Added(vs, ps), Removed(vs, ps);
      && d.Success?
      && d.value.keys == (if |add| > 0 then ["add"] else []) + (if |rem| > 0 then ["remove"] else [])
      && (|add| > 0 ==> Get(d.value, "add") == Collapse(add).value)
      && (|rem| > 0 ==> Get(d.value, "remove") == Collapse(rem).value)
  {
  }

  /** The sets of values differ exactly when there is something to add or to remove. */
  lemma SetsDifferIffChanges(vs: seq<Value>, ps: seq<Value>)
    ensures SetOf(vs) != SetOf(ps) <==> |Added(vs, ps)| > 0 || |Removed(vs, ps)| > 0
  {
    var add, rem := Added(vs, ps), Removed(vs, ps);
    AddRemoveSets(vs, ps);
    if |add| > 0 {
      assert add[0] in SetOf(vs) && add[0] !in SetOf(ps);
    } else if |rem| > 0 {
      assert rem[0] in SetOf(ps) && rem[0] !in SetOf(vs);
    } else {
      forall x | x in SetOf(vs) ensures x in SetOf(ps) {
        assert x !in add;
      }
      forall x | x in SetOf(ps) ensures x in SetOf(vs) {
        assert x !in rem;
      }
    }
  }

  /** Arrays are reported modified exactly when the diff has a key, so a modified
      array is never dropped for an empty diff. */
  lemma DistinctModifiedIffDiff(vs: seq<Value>, ps: seq<Value>)
    ensures DistinctModified(Arr(vs), Arr(ps)).value <==> |DistinctDiff(Arr(vs), Arr(ps)).value.keys| > 0
  {
    DistinctModifiedIffSetsDiffer(vs, ps);
    DistinctDiffShape(vs, ps);
    SetsDifferIffChanges(vs, ps);
  }

  /** A falsy value that is no array (null, undefined, 0, "", false) is compared and
      diffed against an array as the empty array, on either side. */
  lemma FalsyIsEmpty(vs: seq<Value>, v: Value)
    requires !IsArray(v) && !Truthy(v)
    ensures DistinctModified(Arr(vs), v) == DistinctModified(Arr(vs), Arr([]))
    ensures DistinctModified(v, Arr(vs)) == DistinctModified(Arr([]), Arr(vs))
    ensures DistinctDiff(Arr(vs), v) == DistinctDiff(Arr(vs), Arr([]))
    ensures DistinctDiff(v, Arr(vs)) == DistinctDiff(Arr([]), Arr(vs))
  {
  }

  /** An empty array against `""` is not modified, and `['a']` against `0` adds `a`. */
  lemma FalsyExamples()
    ensures DistinctModified(Arr([]), Str("")) == Success(false)
    ensures DistinctDiff(Arr([Str("a")]), Num(0)) == Success(Put(Empty, "add", Str("a")))
  {
    assert Uniq([Str("a")]) == [Str("a")] by {
      assert [Str("a")][..0] == [];
    }
    assert Reject([Str("a")], []) == [Str("a")] by {
      assert [Str("a")][1..] == [];
    }
  }

  /** The multi-valued test case: `['a','b','c']` becoming `['c','d','e']` adds
      `['d','e']` and removes `['a','b']`. */
  lemma AddRemoveExample()
    ensures var d := DistinctDiff(Arr([Str("c"), Str("d"), Str("e")]), Arr([Str("a"), Str("b"), Str("c")]));
      && d.Success? && d.value.keys == ["add", "remove"]
      && Get(d.value, "add") == Arr([Str("d"), Str("e")])
      && Get(d.value, "remove") == Arr([Str("a"), Str("b")])
  {
    DiffExample();
  }

  lemma DiffExample()
    ensures DistinctDiff(Arr([Str("c"), Str("d"), Str("e")]), Arr([Str("a"), Str("b"), Str("c")]))
      == Success(Put(Put(Empty, "add", Arr([Str("d"), Str("e")])), "remove", Arr([Str("a"), Str("b")])))
  {
    var vs, ps := [Str("c"), Str("d"), Str("e")], [Str("a"), Str("b"), Str("c")];
    UniqOfThree(Str("c"), Str("d"), Str("e"));
    UniqOfThree(Str("a"), Str("b"), Str("c"));
    DiffOfDistinct(vs, ps);
    AddedExample();
    RemovedExample();
  }

  lemma DiffOfDistinct(vs: seq<Value>, ps: seq<Value>)
    requires Uniq(vs) == vs && Uniq(ps) == ps
    ensures DistinctDiff(Arr(vs), Arr(ps))
      == Success(NormalizeInto(NormalizeInto(Empty, "add", vs, ps), "remove", ps, vs))
  {
  }

  lemma UniqOfThree(x: Value, y: Value, z: Value)
    requires x != y && y != z && x != z
    ensures Uniq([x, y, z]) == [x, y, z]
  {
    assert [x, y, z][..2] == [x, y] && [x, y][..1] == [x] && [x][..0] == [];
    assert Uniq([x]) == [x];
    assert Uniq([x, y]) == [x, y];
  }

  lemma AddedExample()
    ensures Reject([Str("c"), Str("d"), Str("e")], [Str("a"), Str("b"), Str("c")]) == [Str("d"), Str("e")]
  {
    var d, e := Str("d"), Str("e");
    assert [Str("c"), d, e][1..] == [d, e] && [d, e][1..] == [e] && [e][1..] == [];
    assert Reject([e], [Str("a"), Str("b"), Str("c")]) == [e];
  }

  lemma RemovedExample()
    ensures Reject([Str("a"), Str("b"), Str("c")], [Str("c"), Str("d"), Str("e")]) == [Str("a"), Str("b")]
  {
    var b, c := Str("b"), Str("c");
    assert [Str("a"), b, c][1..] == [b, c] && [b, c][1..] == [c] && [c][1..] == [];
    assert Reject([c], [c, Str("d"), Str("e")]) == [];
  }
}
