/** The JSON encoder that writes BigNumber values as bare digits
    (addon/lib/big-number-stringify.js). Leaves go to `JSON.stringify`; arrays and
    objects are written element by element, recursively. */
module BigNumberStringify {
  import opened Wrappers
  import opened Js

  const HexDigits := "0123456789abcdef"

  /** The JSON text of one character inside a string literal, as `JSON.stringify`
      writes it: the short escapes, `\u00XX` for the other control characters. */
  function EscapeChar(c: char): (r: string)
    ensures |r| >= 1
    ensures c >= ' ' && c != '"' && c != '\\' ==> r == [c]
  {
    if c == '"' then "\\\""
    else if c == '\\' then "\\\\"
    else if c == '\U{8}' then "\\b"
    else if c == '\U{C}' then "\\f"
    else if c == '\n' then "\\n"
    else if c == '\r' then "\\r"
    else if c == '\t' then "\\t"
    else if c < ' ' then "\\u00" + [HexDigits[c as int / 16], HexDigits[c as int % 16]]
    else [c]
  }

  function Escape(s: string): string {
    if |s| == 0 then "" else EscapeChar(s[0]) + Escape(s[1..])
  }

  /** `JSON.stringify` of a string. */
  function JsonString(s: string): (r: string)
    ensures |r| >= 2 && r[0] == '"' && r[|r| - 1] == '"'
  {
    "\"" + Escape(s) + "\""
  }

  /** `JSON.stringify(v)` for the values the encoder hands to it: a Date or anything
      whose `typeof` is not `object`. `dateJson` is the text a Date's `toJSON` result
      encodes to. The result is `undefined` for `undefined`. */
  function Leaf(dateJson: string -> string, v: Value): Value {
    match v
    case Undefined => Undefined
    case Bool(b) => Str(if b then "true" else "false")
    case Num(n) => Str(ToJsString(v))
    case Str(s) => Str(JsonString(s))
    case Date(text) => Str(dateJson(text))
    case _ => Undefined
  }

  /** `stringify(data)`: a string, or `undefined` where `JSON.stringify` gives it. */
  function Encode(dateJson: string -> string, v: Value): Value
    decreases v, 2
  {
    match v
    case BigNum(repr) => Str(repr)
    case Arr(items) => Str("[" + EncodeItems(dateJson, items) + "]")
    case Obj(p) => Str("{" + EncodeFields(dateJson, p, p.keys) + "}")
    // `typeof` is `object` for null and Error instances, which have no enumerable properties
    case Null => Str("{}")
    case ErrorObj(_) => Str("{}")
    case _ => Leaf(dateJson, v)
  }

  /** What `buffer += stringify(x)` appends. */
  function Text(dateJson: string -> string, v: Value): string
    decreases v, 3
  {
    ToJsString(Encode(dateJson, v))
  }

  /** The elements' encodings joined by commas. */
  function EncodeItems(dateJson: string -> string, items: seq<Value>): string
    decreases items, 0
  {
    if |items| == 0 then ""
    else if |items| == 1 then Text(dateJson, items[0])
    else EncodeItems(dateJson, items[..|items| - 1]) + "," + Text(dateJson, items[|items| - 1])
  }

  /** `"k":v` for one property. */
  function Entry(dateJson: string -> string, p: Props, k: string): string
    decreases p, 0
  {
    "\"" + k + "\":" + (if k in p.vals then Text(dateJson, p.vals[k]) else "undefined")
  }

  /** The entries for `keys`, joined by commas. */
  function EncodeFields(dateJson: string -> string, p: Props, keys: seq<string>): string
    decreases p, |keys| + 1
  {
    if |keys| == 0 then ""
    else if |keys| == 1 then Entry(dateJson, p, keys[0])
    else EncodeFields(dateJson, p, keys[..|keys| - 1]) + "," + Entry(dateJson, p, keys[|keys| - 1])
  }

  /** `stringify(data)`. */
  method Stringify(dateJson: string -> string, data: Value) returns (r: Value)
    ensures r == Encode(dateJson, data)
    decreases data, 1
  {
    if data.BigNum? {
      return Str(data.repr);
    }
    if data.Date? || TypeOf(data) != "object" {
      return Leaf(dateJson, data);
    }
    if data.Arr? {
      var s := StringifyArray(dateJson, data.items);
      return Str(s);
    }
    if data.Obj? {
      var s := StringifyObject(dateJson, data.fields);
      return Str(s);
    }
    // null and Error instances: the `for … in` loop finds no enumerable property
    return Str("{}");
  }

  /** The object branch of `stringify`: the `for … in` loop over the own enumerable
      properties, in insertion order. */
  method StringifyObject(dateJson: string -> string, p: Props) returns (s: string)
    ensures s == "{" + EncodeFields(dateJson, p, p.keys) + "}"
    decreases p, 0
  {
    var buffer := "{";
    var keys := p.keys;
    for i := 0 to |keys|
      invariant buffer == "{" + EncodeFields(dateJson, p, keys[..i])
      invariant i > 0 ==> |buffer| > 1
    {
      if |buffer| > 1 {
        buffer := buffer + ",";
      }
      var value := Undefined;
      if keys[i] in p.vals {
        value := Stringify(dateJson, p.vals[keys[i]]);
      }
      var entry := "\"" + keys[i] + "\":" + ToJsString(value);
      assert entry == Entry(dateJson, p, keys[i]);
      FieldsStep(dateJson, p, keys, i);
      buffer := buffer + entry;
    }
    assert keys[..|keys|] == keys;
    return buffer + "}";
  }

  /** How the entries grow by one property: a comma first unless it is the first. */
  lemma FieldsStep(dateJson: string -> string, p: Props, keys: seq<string>, i: nat)
    requires i < |keys|
    ensures "{" + EncodeFields(dateJson, p, keys[..i + 1])
      == (if i == 0 then "{" else "{" + EncodeFields(dateJson, p, keys[..i]) + ",") + Entry(dateJson, p, keys[i])
  {
    assert keys[..i + 1][..i] == keys[..i];
  }

  /** `stringifyArray(arr)`. */
  method StringifyArray(dateJson: string -> string, arr: seq<Value>) returns (s: string)
    ensures s == "[" + EncodeItems(dateJson, arr) + "]"
    decreases arr, 0
  {
    var buffer := "[";
    for i := 0 to |arr|
      invariant buffer == "[" + EncodeItems(dateJson, arr[..i])
    {
      if i != 0 {
        buffer := buffer + ",";
      }
      var item := Stringify(dateJson, arr[i]);
      buffer := buffer + ToJsString(item);
      assert arr[..i + 1][..i] == arr[..i];
    }
    assert arr[..|arr|] == arr;
    return buffer + "]";
  }

  /** Dates and the values whose `typeof` is not `object` are left to `JSON.stringify`. */
  lemma LeavesDelegate(dateJson: string -> string, v: Value)
    requires v.Date? || v.Undefined? || v.Bool? || v.Num? || v.Str?
    ensures Encode(dateJson, v) == Leaf(dateJson, v)
    ensures v.Date? ==> Encode(dateJson, v) == Str(dateJson(v.text))
    ensures v.Str? ==> Encode(dateJson, v) == Str(JsonString(v.s))
  {
  }

  /** `null` reaches the object branch and encodes as `{}`, as do an empty object and
      an Error; an empty array encodes as `[]`. */
  lemma EmptyContainers(dateJson: string -> string, message: string)
    ensures Encode(dateJson, Null) == Str("{}")
    ensures Encode(dateJson, Obj(Empty)) == Str("{}")
    ensures Encode(dateJson, ErrorObj(message)) == Str("{}")
    ensures Encode(dateJson, Arr([])) == Str("[]")
  {
  }

  /** A BigNumber is written as its digits, without quotes, wherever it is. */
  lemma BigNumberUnquoted(dateJson: string -> string, repr: string, k: string)
    ensures Text(dateJson, BigNum(repr)) == repr
    ensures Encode(dateJson, Obj(Props([k], map[k := BigNum(repr)]))) == Str("{\"" + k + "\":" + repr + "}")
  {
    var p := Props([k], map[k := BigNum(repr)]);
    assert Entry(dateJson, p, k) == "\"" + k + "\":" + repr;
    assert "{" + ("\"" + k + "\":" + repr) + "}" == "{\"" + k + "\":" + repr + "}";
  }

  /** Encoding two runs of elements one after the other puts a comma between them. */
  lemma {:induction false} EncodeItemsAppend(dateJson: string -> string, a: seq<Value>, b: seq<Value>)
    requires |a| > 0 && |b| > 0
    ensures EncodeItems(dateJson, a + b) == EncodeItems(dateJson, a) + "," + EncodeItems(dateJson, b)
    decreases |b|
  {
    if |b| == 1 {
      assert (a + b)[..|a + b| - 1] == a;
    } else {
      var b' := b[..|b| - 1];
      assert (a + b)[..|a + b| - 1] == a + b';
      EncodeItemsAppend(dateJson, a, b');
    }
  }

  /** An array's encoding is `[`, the first element's encoding, then `,` and the
      encoding of the rest, and `]`. */
  lemma EncodeArrayCons(dateJson: string -> string, x: Value, rest: seq<Value>)
    requires |rest| > 0
    ensures Encode(dateJson, Arr([x] + rest)) == Str("[" + Text(dateJson, x) + "," + EncodeItems(dateJson, rest) + "]")
  {
    EncodeItemsAppend(dateJson, [x], rest);
  }

  /** `stringify([1, 5])` is `[1,5]`. */
  lemma ArrayExample(dateJson: string -> string)
    ensures Encode(dateJson, Arr([Num(1), Num(5)])) == Str("[1,5]")
  {
    assert Text(dateJson, Num(1)) == "1";
    assert Text(dateJson, Num(5)) == "5";
    assert [Num(1), Num(5)][..1] == [Num(1)];
  }

  /** The characters `JSON.stringify` writes as they are inside a string literal. */
  predicate Plain(s: string) {
    forall i | 0 <= i < |s| :: s[i] >= ' ' && s[i] != '"' && s[i] != '\\'
  }

  /** A string of plain characters needs no escaping. */
  lemma {:induction false} EscapePlain(s: string)
    requires Plain(s)
    ensures Escape(s) == s
  {
    if |s| > 0 {
      assert Plain(s[1..]) by {
        forall i | 0 <= i < |s[1..]| ensures s[1..][i] >= ' ' && s[1..][i] != '"' && s[1..][i] != '\\' {
          assert s[1..][i] == s[i + 1];
        }
      }
      EscapePlain(s[1..]);
      assert s == [s[0]] + s[1..];
    }
  }

  /** The entry of a property holding a string of plain characters. */
  lemma PlainStringEntry(dateJson: string -> string, p: Props, k: string, str: string)
    requires k in p.vals && p.vals[k] == Str(str) && Plain(str)
    ensures Entry(dateJson, p, k) == "\"" + k + "\":" + "\"" + str + "\""
  {
    EscapePlain(str);
    assert Text(dateJson, p.vals[k]) == "\"" + str + "\"";
  }

  /** `stringify({a: 'b', x: 'q'})` is `{"a":"b","x":"q"}`. */
  lemma ObjectExample(dateJson: string -> string)
    ensures Encode(dateJson, Obj(Props(["a", "x"], map["a" := Str("b"), "x" := Str("q")])))
      == Str("{\"a\":\"b\",\"x\":\"q\"}")
  {
    var p := Props(["a", "x"], map["a" := Str("b"), "x" := Str("q")]);
    PlainStringEntry(dateJson, p, "a", "b");
    PlainStringEntry(dateJson, p, "x", "q");
    assert p.keys[..1] == ["a"];
    assert EncodeFields(dateJson, p, p.keys) == "\"a\":\"b\"" + "," + "\"x\":\"q\"";
  }

  /** A string leaf is quoted with its quotes and backslashes escaped. */
  lemma QuotesEscaped()
    ensures JsonString("a\"b") == "\"a\\\"b\""
  {
    assert Escape("a\"b") == "a\\\"b" by {
      assert "a\"b"[1..] == "\"b" && "\"b"[1..] == "b";
    }
  }

  /** `{d: 'd1'}` is `{"d":"d1"}`. */
  lemma InnerObjectExample(dateJson: string -> string)
    ensures Text(dateJson, Obj(Props(["d"], map["d" := Str("d1")]))) == "{\"d\":\"d1\"}"
  {
    var p := Props(["d"], map["d" := Str("d1")]);
    PlainStringEntry(dateJson, p, "d", "d1");
  }

  /** Elements nested in an array are encoded by the same rules: `[{d: 'd1'}]` is
      `[{"d":"d1"}]`. */
  lemma NestedExample(dateJson: string -> string)
    ensures Encode(dateJson, Arr([Obj(Props(["d"], map["d" := Str("d1")]))])) == Str("[{\"d\":\"d1\"}]")
  {
    InnerObjectExample(dateJson);
  }
}
