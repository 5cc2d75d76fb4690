/** `SolrRequest` of addon/lib/request.js: a core, a handler and an options hash
    whose `data` entry is the request's `data`. */
module Requests {
  import opened Wrappers
  import opened Js
  import opened SolrErrors
  import opened Handlers

  const BothDataMessage := "SolrRequest accepts `data` or `options.data` but not both."

  /** The options hash. Its `data` entry is held as a reference, apart from the
      other entries, so that `options.data` and the request's `data` are one object. */
  class RequestOptions {
    var others: Props
    var data: JsObject?

    constructor (others: Props, data: JsObject?)
      ensures this.others == others && this.data == data
    {
      this.others := others;
      this.data := data;
    }
  }

  class SolrRequest {
    var core: Value
    var handler: Option<RequestHandler>
    var options: RequestOptions

    /** After initialisation `options.data` is always present. */
    ghost predicate Valid()
      reads this, options
    {
      options.data != null
    }

    /** The `data` property: after `_init` it reads through to `options.data`. */
    function Data(): JsObject?
      reads this, options
    {
      options.data
    }

    /** `method`, a one-way binding of `handler.method`. */
    function Method(): (m: Value)
      reads this
      ensures handler.Some? ==> m == Str(handler.value.httpMethod)
      ensures handler.None? ==> m == Undefined
    {
      if handler.Some? then Str(handler.value.httpMethod) else Undefined
    }

    constructor (core: Value, handler: Option<RequestHandler>, options: RequestOptions)
      ensures this.core == core && this.handler == handler && this.options == options
    {
      this.core := core;
      this.handler := handler;
      this.options := options;
    }

    /** `SolrRequest.create({core, handler, data, options})` followed by its `_init` hook.
        `data == null` and `options == null` stand for properties that were not supplied. */
    static method Create(core: Value, handler: Option<RequestHandler>, data: JsObject?, options: RequestOptions?)
      returns (r: Result<SolrRequest, Failure>)
      modifies if options == null then {} else {options}
      ensures r.Failure? <==> options != null && old(options.data) != null && data != null
      ensures r.Failure? ==> r.error == Error(BothDataMessage) && (options != null ==> unchanged(options))
      ensures r.Success? ==> fresh(r.value) && r.value.core == core && r.value.handler == handler
      ensures r.Success? ==> r.value.Valid()
      // no options supplied: a fresh options object per instance, holding `data` or `{}`
      ensures r.Success? && options == null ==>
        fresh(r.value.options) && r.value.options.others == Empty
        && (data != null ==> r.value.options.data == data)
        && (data == null ==> fresh(r.value.options.data) && r.value.options.data.props == Empty)
      // options supplied: the same object, its other keys kept, `data` filled in when absent
      ensures r.Success? && options != null ==>
        r.value.options == options && options.others == old(options.others)
        && (old(options.data) != null ==> options.data == old(options.data))
        && (old(options.data) == null && data != null ==> options.data == data)
        && (old(options.data) == null && data == null ==> fresh(options.data) && options.data.props == Empty)
    {
      if options != null && options.data != null && data != null {
        return Failure(Error(BothDataMessage));
      }
      var opts: RequestOptions;
      if options == null {
        var d := data;
        if d == null {
          d := new JsObject(Empty);
        }
        opts := new RequestOptions(Empty, d);
      } else {
        opts := options;
        if opts.data == null {
          var d := data;
          if d == null {
            d := new JsObject(Empty);
          }
          opts.data := d;
        }
      }
      var req := new SolrRequest(core, handler, opts);
      return Success(req);
    }

    /** `set(request, 'data.' + k, v)`: the write lands in `options.data`. */
    method SetDataKey(k: string, v: Value)
      requires Valid()
      modifies Data()
      ensures Valid() && Data() == old(Data())
      ensures options.data.props == Put(old(options.data.props), k, v)
      ensures Get(options.data.props, k) == v
    {
      options.data.Assign(k, v);
    }
  }

  /** Two requests created without options never share an options hash. */
  method CreateTwice() returns (a: SolrRequest, b: SolrRequest)
    ensures a.options != b.options && a.Data() != b.Data()
  {
    var ra := SolrRequest.Create(Null, None, null, null);
    var rb := SolrRequest.Create(Null, None, null, null);
    a, b := ra.value, rb.value;
  }
}
