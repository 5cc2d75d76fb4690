/** Request building of the Solr adapter (addon/adapters/solr.js): the request URL,
    the Solr query parameters, the jQuery ajax hash and the rejected jqXHR. */
module SolrAdapter {
  import opened Wrappers
  import opened Js

  /** The adapter's configuration properties. `None` stands for `null`. */
  datatype Config = Config(baseURL: string, defaultCore: Option<string>, defaultHandler: Option<string>, dataType: Value)

  /** The defaults: `/solr`, no core, `/select`, `jsonp`. */
  const DefaultConfig: Config := Config("/solr", None, Some("/select"), Str("jsonp"))

  /** `coreForType`: the default core, whatever the type. */
  function CoreForType(cfg: Config, typeKey: string): Option<string> {
    cfg.defaultCore
  }

  /** `handlerForType`: the default handler, whatever the type. */
  function HandlerForType(cfg: Config, typeKey: string): Option<string> {
    cfg.defaultHandler
  }

  /** `filterQueryForType`: no filter by default. */
  function FilterQueryForType(typeKey: string): Value {
    Null
  }

  // ---------------------------------------------------------------------------
  // combinePath

  predicate EndsWithSlash(s: string) {
    |s| > 0 && s[|s| - 1] == '/'
  }

  predicate StartsWithSlash(s: string) {
    |s| > 0 && s[0] == '/'
  }

  /** A path segment that `if (!part) continue;` skips: null or empty. */
  predicate Skipped(part: Option<string>) {
    part.None? || part.value == ""
  }

  function DropTrailingSlash(s: string): string {
    if EndsWithSlash(s) then s[..|s| - 1] else s
  }

  function DropLeadingSlash(s: string): string {
    if StartsWithSlash(s) then s[1..] else s
  }

  /** One pass of the loop body: append `part` to `s`. */
  function Junction(s: string, part: string): string {
    if !EndsWithSlash(s) && !StartsWithSlash(part) then s + "/" + part
    else if EndsWithSlash(s) && StartsWithSlash(part) then s + part[1..]
    else s + part
  }

  /** Whatever the slashes at the junction, exactly one `/` separates the two sides. */
  lemma JunctionHasOneSlash(s: string, part: string)
    ensures Junction(s, part) == DropTrailingSlash(s) + "/" + DropLeadingSlash(part)
  {
    if EndsWithSlash(s) {
      assert s == s[..|s| - 1] + "/";
    }
    if StartsWithSlash(part) {
      assert part == "/" + part[1..];
    }
  }

  /** The loop of `combinePath`, as a left fold over the segments. */
  function Combine(s: string, parts: seq<Option<string>>): string
    decreases |parts|
  {
    if |parts| == 0 then s
    else if Skipped(parts[0]) then Combine(s, parts[1..])
    else Combine(Junction(s, parts[0].value), parts[1..])
  }

  /** `combinePath(path1, ...parts)`. */
  method CombinePath(path1: string, parts: seq<Option<string>>) returns (s: string)
    ensures s == Combine(path1, parts)
  {
    s := path1;
    var i := 0;
    while i < |parts|
      invariant 0 <= i <= |parts|
      invariant Combine(s, parts[i..]) == Combine(path1, parts)
    {
      var part := parts[i];
      assert parts[i..][1..] == parts[i + 1..];
      if Skipped(part) {
        i := i + 1;
        continue;
      }
      var p := part.value;
      if !EndsWithSlash(s) && !StartsWithSlash(p) {
        s := s + "/";
      } else if EndsWithSlash(s) && StartsWithSlash(p) {
        p := p[1..];
      }
      s := s + p;
      i := i + 1;
    }
  }

  /** The joined path always begins with `path1`. */
  lemma {:induction false} CombineExtendsPath1(path1: string, parts: seq<Option<string>>)
    ensures path1 <= Combine(path1, parts)
    decreases |parts|
  {
    if |parts| > 0 {
      if Skipped(parts[0]) {
        CombineExtendsPath1(path1, parts[1..]);
      } else {
        var next := Junction(path1, parts[0].value);
        assert path1 <= next;
        CombineExtendsPath1(next, parts[1..]);
      }
    }
  }

  /** The segments that are not skipped. */
  function Kept(parts: seq<Option<string>>): (r: seq<Option<string>>)
    ensures forall i :: 0 <= i < |r| ==> !Skipped(r[i])
  {
    if |parts| == 0 then []
    else if Skipped(parts[0]) then Kept(parts[1..])
    else [parts[0]] + Kept(parts[1..])
  }

  /** Null and empty segments have no effect on the joined path. */
  lemma {:induction false} CombineIgnoresSkipped(s: string, parts: seq<Option<string>>)
    ensures Combine(s, parts) == Combine(s, Kept(parts))
    decreases |parts|
  {
    if |parts| > 0 {
      if Skipped(parts[0]) {
        CombineIgnoresSkipped(s, parts[1..]);
      } else {
        var k := [parts[0]] + Kept(parts[1..]);
        assert k[1..] == Kept(parts[1..]);
        CombineIgnoresSkipped(Junction(s, parts[0].value), parts[1..]);
      }
    }
  }

  /** `buildURL`: base URL, core and handler joined. */
  function BuildURL(cfg: Config, typeKey: string): string {
    Combine(cfg.baseURL, [CoreForType(cfg, typeKey), HandlerForType(cfg, typeKey)])
  }

  /** With the default configuration every type is routed to `/solr/select`. */
  lemma DefaultBuildURL(typeKey: string)
    ensures BuildURL(DefaultConfig, typeKey) == "/solr/select"
  {
    var parts := [None, Some("/select")];
    assert parts[1..] == [Some("/select")];
    assert Combine("/solr", parts) == Combine("/solr", [Some("/select")]);
    assert Junction("/solr", "/select") == "/solr/select";
    assert Combine("/solr", [Some("/select")]) == Combine("/solr/select", []);
  }

  // ---------------------------------------------------------------------------
  // buildSolrQuery, findQuery, find

  /** `buildSolrQuery(type, query)`, with the `filterQueryForType` hook as a parameter.
      The result lists `wt`, `fq`, then `rows` and `start` when given, then `q`. */
  function BuildSolrQuery(filterQueryForType: string -> Value, typeKey: string, query: Props): (r: Props)
    ensures Get(r, "wt") == Str("json")
    ensures Get(r, "q") == (if Truthy(Get(query, "q")) then Get(query, "q") else Str("*:*"))
    ensures HasKey(r, "rows") <==> Truthy(Get(query, "limit"))
    ensures Truthy(Get(query, "limit")) ==> Get(r, "rows") == Get(query, "limit")
    ensures HasKey(r, "start") <==> Truthy(Get(query, "offset"))
    ensures Truthy(Get(query, "offset")) ==> Get(r, "start") == Get(query, "offset")
    ensures Get(r, "fq") == Arr(if Truthy(filterQueryForType(typeKey)) then [filterQueryForType(typeKey)] else [])
    ensures r.keys == ["wt", "fq"] + (if Truthy(Get(query, "limit")) then ["rows"] else [])
                     + (if Truthy(Get(query, "offset")) then ["start"] else []) + ["q"]
  {
    var base := Put(Put(Empty, "wt", Str("json")), "fq", Arr([]));
    var limit := Get(query, "limit");
    var withRows := if Truthy(limit) then Put(base, "rows", limit) else base;
    var offset := Get(query, "offset");
    var withStart := if Truthy(offset) then Put(withRows, "start", offset) else withRows;
    var typeFilter := filterQueryForType(typeKey);
    assert Get(withStart, "fq").items + [typeFilter] == [typeFilter];
    // `solrQuery.fq.push(typeFilter)`: the array held under `fq` gains one element
    var withFilter := if Truthy(typeFilter) then Put(withStart, "fq", Arr(Get(withStart, "fq").items + [typeFilter])) else withStart;
    Put(withFilter, "q", Or(Get(query, "q"), Str("*:*")))
  }

  /** The arguments `findQuery` passes to `ajax`. */
  datatype AjaxCall = AjaxCall(url: string, httpMethod: string, options: Props)

  /** `findQuery(store, type, query)`: a GET to the type's URL whose `data` is the Solr query. */
  function FindQuery(cfg: Config, filterQueryForType: string -> Value, typeKey: string, query: Props): (c: AjaxCall)
    ensures c.url == BuildURL(cfg, typeKey) && c.httpMethod == "GET"
    ensures Get(c.options, "data") == Obj(BuildSolrQuery(filterQueryForType, typeKey, query))
    ensures c.options.keys == ["data"]
  {
    AjaxCall(BuildURL(cfg, typeKey), "GET", Put(Empty, "data", Obj(BuildSolrQuery(filterQueryForType, typeKey, query))))
  }

  /** `find(store, type, id)`: a search for `id:<id>`. */
  function Find(cfg: Config, filterQueryForType: string -> Value, typeKey: string, id: Value): (c: AjaxCall)
    ensures c.url == BuildURL(cfg, typeKey) && c.httpMethod == "GET"
    ensures Get(c.options, "data").Obj?
    ensures Get(Get(c.options, "data").fields, "q") == Str("id:" + ToJsString(id))
    ensures Get(Get(c.options, "data").fields, "wt") == Str("json")
    ensures Get(Get(c.options, "data").fields, "fq")
      == Arr(if Truthy(filterQueryForType(typeKey)) then [filterQueryForType(typeKey)] else [])
    ensures c.options.keys == ["data"] && Get(c.options, "data").fields.keys == ["wt", "fq", "q"]
  {
    var query := Put(Empty, "q", Str("id:" + ToJsString(id)));
    FindQuery(cfg, filterQueryForType, typeKey, query)
  }

  /** `find` with the default configuration, for id 101: `/solr/select` with
      `q=id:101`, `wt=json` and an empty `fq`. */
  lemma DefaultFindById()
    ensures var c := Find(DefaultConfig, FilterQueryForType, "dummy", Num(101));
      && c.url == "/solr/select" && c.httpMethod == "GET" && c.options.keys == ["data"]
      && var data := Get(c.options, "data").fields;
      && data.keys == ["wt", "fq", "q"]
      && Get(data, "wt") == Str("json") && Get(data, "fq") == Arr([]) && Get(data, "q") == Str("id:101")
  {
    DefaultBuildURL("dummy");
    DefaultFindData();
  }

  lemma DefaultFindData()
    ensures var data := Get(Find(DefaultConfig, FilterQueryForType, "dummy", Num(101)).options, "data").fields;
      && data.keys == ["wt", "fq", "q"]
      && Get(data, "wt") == Str("json") && Get(data, "fq") == Arr([]) && Get(data, "q") == Str("id:101")
  {
    assert !Truthy(FilterQueryForType("dummy"));
    DefaultFindQ();
  }

  lemma DefaultFindQ()
    ensures Get(Get(Find(DefaultConfig, FilterQueryForType, "dummy", Num(101)).options, "data").fields, "q") == Str("id:101")
  {
    Decimal101();
    assert "id:" + "101" == "id:101";
  }

  lemma Decimal101()
    ensures ToJsString(Num(101)) == "101"
  {
    assert NatToString(101) == NatToString(10) + "1";
    assert NatToString(10) == NatToString(1) + "0";
  }

  // ---------------------------------------------------------------------------
  // ajaxOptions

  /** The settings `ajaxOptions` writes whatever the request, over the properties
      `base` of `options || {}`. `adapter` is the value stored as `hash.context`
      (the adapter itself). */
  function AjaxSettings(cfg: Config, url: string, httpMethod: string, base: Props, adapter: Value): Props
  {
    var h := Put(base, "url", Str(url));
    var h := Put(h, "type", Str(httpMethod));
    var h := Put(h, "dataType", Or(cfg.dataType, Str("json")));
    var h := Put(h, "context", adapter);
    var h := Put(h, "traditional", Bool(true));
    if Get(h, "dataType") == Str("jsonp") then Put(h, "jsonp", Str("json.wrf")) else h
  }

  /** The hash `ajaxOptions` leaves behind; `jsonStringify` is `JSON.stringify`. */
  function AjaxOptionsProps(cfg: Config, url: string, httpMethod: string, base: Props,
                            adapter: Value, jsonStringify: Value -> string): Props
  {
    var h := AjaxSettings(cfg, url, httpMethod, base, adapter);
    if Truthy(Get(h, "data")) && httpMethod != "GET" then
      var h := Put(h, "contentType", Str("application/json; charset=utf-8"));
      Put(h, "data", Str(jsonStringify(Get(h, "data"))))
    else h
  }

  /** `ajaxOptions(url, type, options)`: fills in `options` (or a fresh hash when it is
      absent) in place and returns it. */
  method AjaxOptions(cfg: Config, url: string, httpMethod: string, options: JsObject?,
                     adapter: Value, jsonStringify: Value -> string) returns (hash: JsObject)
    modifies if options == null then {} else {options}
    ensures options != null ==> hash == options
    ensures options == null ==> fresh(hash)
    ensures hash.props == AjaxOptionsProps(cfg, url, httpMethod,
                                           if options == null then Empty else old(options.props),
                                           adapter, jsonStringify)
  {
    if options == null {
      hash := new JsObject(Empty);
    } else {
      hash := options;
    }
    hash.Assign("url", Str(url));
    hash.Assign("type", Str(httpMethod));
    hash.Assign("dataType", Or(cfg.dataType, Str("json")));
    hash.Assign("context", adapter);
    hash.Assign("traditional", Bool(true));
    if Get(hash.props, "dataType") == Str("jsonp") {
      hash.Assign("jsonp", Str("json.wrf"));
    }
    var data := Get(hash.props, "data");
    if Truthy(data) && httpMethod != "GET" {
      hash.Assign("contentType", Str("application/json; charset=utf-8"));
      hash.Assign("data", Str(jsonStringify(data)));
    }
  }

  /** The settings written, and the properties of `options` that they leave alone. */
  lemma AjaxSettingsValues(cfg: Config, url: string, httpMethod: string, base: Props, adapter: Value)
    ensures var h := AjaxSettings(cfg, url, httpMethod, base, adapter);
      && Get(h, "url") == Str(url) && Get(h, "type") == Str(httpMethod)
      && Get(h, "dataType") == (if Truthy(cfg.dataType) then cfg.dataType else Str("json"))
      && Get(h, "context") == adapter
      && Get(h, "traditional") == Bool(true)
      && Get(h, "jsonp") == (if Or(cfg.dataType, Str("json")) == Str("jsonp") then Str("json.wrf") else Get(base, "jsonp"))
      && Get(h, "data") == Get(base, "data")
      && Get(h, "contentType") == Get(base, "contentType")
  {
    var dt := Or(cfg.dataType, Str("json"));
    var h := Put(Put(Put(Put(Put(base, "url", Str(url)), "type", Str(httpMethod)), "dataType", dt), "context", adapter), "traditional", Bool(true));
    assert Get(h, "dataType") == dt;
    assert Get(h, "data") == Get(base, "data") && Get(h, "contentType") == Get(base, "contentType");
    assert Get(h, "jsonp") == Get(base, "jsonp");
    if dt == Str("jsonp") {
      assert AjaxSettings(cfg, url, httpMethod, base, adapter) == Put(h, "jsonp", Str("json.wrf"));
    } else {
      assert AjaxSettings(cfg, url, httpMethod, base, adapter) == h;
    }
  }

  /** Every property of `options` other than the settings keeps its value. */
  lemma AjaxSettingsKeepOthers(cfg: Config, url: string, httpMethod: string, base: Props, adapter: Value)
    ensures forall k | !IsSettingKey(k) :: Get(AjaxSettings(cfg, url, httpMethod, base, adapter), k) == Get(base, k)
  {
    forall k | !IsSettingKey(k)
      ensures Get(AjaxSettings(cfg, url, httpMethod, base, adapter), k) == Get(base, k)
    {
      SettingKeepsOther(cfg, url, httpMethod, base, adapter, k);
    }
  }

  /** The names `ajaxOptions` may write whatever the request. */
  predicate IsSettingKey(k: string) {
    k == "url" || k == "type" || k == "dataType" || k == "context" || k == "traditional" || k == "jsonp"
  }

  /** A property that is no setting keeps its value. */
  lemma SettingKeepsOther(cfg: Config, url: string, httpMethod: string, base: Props, adapter: Value, k: string)
    requires !IsSettingKey(k)
    ensures Get(AjaxSettings(cfg, url, httpMethod, base, adapter), k) == Get(base, k)
  {
    var h1 := Put(base, "url", Str(url));
    var h2 := Put(h1, "type", Str(httpMethod));
    var h3 := Put(h2, "dataType", Or(cfg.dataType, Str("json")));
    var h4 := Put(h3, "context", adapter);
    var h5 := Put(h4, "traditional", Bool(true));
    GetPut(base, "url", Str(url));
    GetPut(h1, "type", Str(httpMethod));
    GetPut(h2, "dataType", Or(cfg.dataType, Str("json")));
    GetPut(h3, "context", adapter);
    GetPut(h4, "traditional", Bool(true));
    GetPut(h5, "jsonp", Str("json.wrf"));
  }

  /** Besides the settings, `data` and `contentType`, every property of `options` is
      left as it was. */
  lemma AjaxOptionsKeepsOthers(cfg: Config, url: string, httpMethod: string, base: Props,
                               adapter: Value, jsonStringify: Value -> string)
    ensures var h := AjaxOptionsProps(cfg, url, httpMethod, base, adapter, jsonStringify);
      forall k | !IsSettingKey(k) && k != "data" && k != "contentType" :: Get(h, k) == Get(base, k)
  {
    var s := AjaxSettings(cfg, url, httpMethod, base, adapter);
    var s1 := Put(s, "contentType", Str("application/json; charset=utf-8"));
    var v := Str(jsonStringify(Get(s1, "data")));
    GetPut(s, "contentType", Str("application/json; charset=utf-8"));
    GetPut(s1, "data", v);
    forall k | !IsSettingKey(k) && k != "data" && k != "contentType"
      ensures Get(AjaxOptionsProps(cfg, url, httpMethod, base, adapter, jsonStringify), k) == Get(base, k)
    {
      SettingKeepsOther(cfg, url, httpMethod, base, adapter, k);
    }
  }

  /** What the hash says about the request, whatever `options` held before. */
  lemma AjaxOptionsSettings(cfg: Config, url: string, httpMethod: string, base: Props,
                            adapter: Value, jsonStringify: Value -> string)
    ensures var h := AjaxOptionsProps(cfg, url, httpMethod, base, adapter, jsonStringify);
      && Get(h, "url") == Str(url) && Get(h, "type") == Str(httpMethod)
      && Get(h, "dataType") == (if Truthy(cfg.dataType) then cfg.dataType else Str("json"))
      && Get(h, "context") == adapter
      && Get(h, "traditional") == Bool(true)
      && Get(h, "jsonp") == (if Or(cfg.dataType, Str("json")) == Str("jsonp") then Str("json.wrf") else Get(base, "jsonp"))
  {
    AjaxSettingsValues(cfg, url, httpMethod, base, adapter);
    var s := AjaxSettings(cfg, url, httpMethod, base, adapter);
    if Truthy(Get(s, "data")) && httpMethod != "GET" {
      var s1 := Put(s, "contentType", Str("application/json; charset=utf-8"));
      var v := Str(jsonStringify(Get(s1, "data")));
      SettingsKept(s, "contentType", Str("application/json; charset=utf-8"));
      SettingsKept(s1, "data", v);
      assert AjaxOptionsProps(cfg, url, httpMethod, base, adapter, jsonStringify) == Put(s1, "data", v);
    }
  }

  /** Writing `data` or `contentType` leaves the other settings alone. */
  lemma SettingsKept(h: Props, k: string, v: Value)
    requires k == "data" || k == "contentType"
    ensures && Get(Put(h, k, v), "url") == Get(h, "url") && Get(Put(h, k, v), "type") == Get(h, "type")
      && Get(Put(h, k, v), "dataType") == Get(h, "dataType") && Get(Put(h, k, v), "context") == Get(h, "context")
      && Get(Put(h, k, v), "traditional") == Get(h, "traditional") && Get(Put(h, k, v), "jsonp") == Get(h, "jsonp")
  {
    GetPut(h, k, v);
  }

  /** A request with data that is not a GET sends the data as a JSON string. */
  lemma AjaxOptionsJsonBody(cfg: Config, url: string, httpMethod: string, base: Props,
                            adapter: Value, jsonStringify: Value -> string)
    requires Truthy(Get(base, "data")) && httpMethod != "GET"
    ensures var h := AjaxOptionsProps(cfg, url, httpMethod, base, adapter, jsonStringify);
      && Get(h, "contentType") == Str("application/json; charset=utf-8")
      && Get(h, "data") == Str(jsonStringify(Get(base, "data")))
  {
    AjaxSettingsValues(cfg, url, httpMethod, base, adapter);
  }

  /** A GET request, or one without data, leaves `data` and `contentType` as they were. */
  lemma AjaxOptionsKeepsData(cfg: Config, url: string, httpMethod: string, base: Props,
                             adapter: Value, jsonStringify: Value -> string)
    requires httpMethod == "GET" || !Truthy(Get(base, "data"))
    ensures var h := AjaxOptionsProps(cfg, url, httpMethod, base, adapter, jsonStringify);
      && Get(h, "data") == Get(base, "data")
      && Get(h, "contentType") == Get(base, "contentType")
  {
    AjaxSettingsValues(cfg, url, httpMethod, base, adapter);
  }

  // ---------------------------------------------------------------------------
  // ajaxError

  /** `jqXHR` as `ajaxError` receives it: an object, changed in place, or anything else. */
  datatype XhrArg = Primitive(v: Value) | Object(obj: JsObject)

  /** The properties of an object `jqXHR` after `ajaxError`. */
  function AjaxErrorProps(props: Props, errorThrown: Value): (r: Props)
  {
    var p := Put(props, "then", Null);
    if Truthy(Get(p, "errorThrown")) then p
    else Put(p, "errorThrown", if errorThrown.Str? then ErrorObj(errorThrown.s) else errorThrown)
  }

  /** `ajaxError(jqXHR, responseText, errorThrown)`. */
  method AjaxError(jqXHR: XhrArg, responseText: Value, errorThrown: Value) returns (r: XhrArg)
    requires jqXHR.Primitive? ==> IsPrimitive(jqXHR.v)
    modifies if jqXHR.Object? then {jqXHR.obj} else {}
    ensures r == jqXHR
    ensures jqXHR.Object? ==> jqXHR.obj.props == AjaxErrorProps(old(jqXHR.obj.props), errorThrown)
  {
    var isObject := jqXHR.Object?;
    if isObject {
      var x := jqXHR.obj;
      x.Assign("then", Null);
      if !Truthy(Get(x.props, "errorThrown")) {
        if TypeOf(errorThrown) == "string" {
          x.Assign("errorThrown", ErrorObj(errorThrown.s));
        } else {
          x.Assign("errorThrown", errorThrown);
        }
      }
    }
    r := jqXHR;
  }

  /** `then` is cleared; an existing truthy `errorThrown` is kept; otherwise a string
      is wrapped in an Error and any other value stored as it is. */
  lemma AjaxErrorSettings(props: Props, errorThrown: Value)
    ensures Get(AjaxErrorProps(props, errorThrown), "then") == Null
    ensures Truthy(Get(props, "errorThrown")) ==>
      Get(AjaxErrorProps(props, errorThrown), "errorThrown") == Get(props, "errorThrown")
    ensures !Truthy(Get(props, "errorThrown")) && errorThrown.Str? ==>
      Get(AjaxErrorProps(props, errorThrown), "errorThrown") == ErrorObj(errorThrown.s)
    ensures !Truthy(Get(props, "errorThrown")) && !errorThrown.Str? ==>
      Get(AjaxErrorProps(props, errorThrown), "errorThrown") == errorThrown
    ensures forall k :: k != "then" && k != "errorThrown" ==>
      Get(AjaxErrorProps(props, errorThrown), k) == Get(props, k)
  {
  }
}
