/** URI details with query-parameter conflict resolution, and the mutable
    `InterfaceConfig` record filled from them. The URI components and the query
    map are inputs here: they are what `urlparse`/`parse_qs` produce from a URI
    shaped per section 3 of RFC 3986. */
module Structs {
  import opened Results
  import Text

  /** How `param` picks among repeated query values. */
  datatype URIConflictResolution = First | Last | Array | Error

  datatype URIDetails = URIDetails(
    uri: string,
    scheme: string,
    netloc: Option<string>,
    path: Option<string>,
    host: Option<string>,
    port: Option<int>,
    username: Option<string>,
    password: Option<string>,
    params: Option<string>,
    query: map<string, seq<string>>)

  /** What `param` returns: one string (or the default) or the whole list. */
  datatype ParamValue = Single(value: string) | Values(values: seq<string>)

  function AsParam(default: Option<string>): Option<ParamValue>
  {
    match default
    case None => None
    case Some(s) => Some(Single(s))
  }

  predicate HasValues(d: URIDetails, key: string)
  {
    key in d.query && d.query[key] != []
  }

  /** `URIDetails.param` as written: the ERROR strategy raises on several values,
      but with exactly one value it falls through to the default. */
  function ParamAsWritten(d: URIDetails, key: string, default: Option<string>, resolve: URIConflictResolution)
    : (r: Result<Option<ParamValue>>)
    ensures r.Err? <==> resolve == Error && HasValues(d, key) && |d.query[key]| > 1
    ensures !HasValues(d, key) ==> r == Ok(AsParam(default))
  {
    if HasValues(d, key) then
      var vs := d.query[key];
      if resolve == Error && |vs| > 1 then Err(ValueError)
      else if resolve == First then Ok(Some(Single(vs[0])))
      else if resolve == Last then Ok(Some(Single(vs[|vs| - 1])))
      else if resolve == Array then Ok(Some(Values(vs)))
      else Ok(AsParam(default))
    else Ok(AsParam(default))
  }

  /** The ERROR strategy as written drops the one value it was given. */
  lemma ParamAsWrittenErrorDropsSingle()
    ensures ParamAsWritten(URIDetails("x://?k=v", "x", None, None, None, None, None, None, None, map["k" := ["v"]]),
                           "k", None, Error) == Ok(None)
  {
  }

  /** `URIDetails.param` with the ERROR strategy returning the one value it allows. */
  function Param(d: URIDetails, key: string, default: Option<string>, resolve: URIConflictResolution)
    : (r: Result<Option<ParamValue>>)
    ensures r.Err? <==> resolve == Error && HasValues(d, key) && |d.query[key]| > 1
    ensures resolve != Error ==> r == ParamAsWritten(d, key, default, resolve)
    ensures resolve == Error && r.Ok? ==> r == ParamAsWritten(d, key, default, First)
  {
    if HasValues(d, key) && resolve == Error && |d.query[key]| == 1 then Ok(Some(Single(d.query[key][0])))
    else ParamAsWritten(d, key, default, resolve)
  }

  /** The strategies agree with each other: FIRST and LAST are the ends of the
      ARRAY list, and ERROR, when it does not raise, gives what FIRST gives. */
  lemma ParamStrategiesAgree(d: URIDetails, key: string, default: Option<string>)
    ensures HasValues(d, key) ==>
      && Param(d, key, default, Array) == Ok(Some(Values(d.query[key])))
      && Param(d, key, default, First) == Ok(Some(Single(d.query[key][0])))
      && Param(d, key, default, Last) == Ok(Some(Single(d.query[key][|d.query[key]| - 1])))
    ensures Param(d, key, default, Error).Ok? ==> Param(d, key, default, Error) == Param(d, key, default, First)
  {
  }

  /** The configuration fields, `None` meaning "not set". */
  datatype ConfigValues = ConfigValues(
    rows: Option<int>,
    cols: Option<int>,
    title: Option<string>,
    encoding: Option<string>,
    convertEol: Option<bool>,
    autoShutdown: Option<bool>,
    scrollbackBufferSize: Option<int>)

  const Unset := ConfigValues(None, None, None, None, None, None, None)

  function Pick<T>(current: Option<T>, given: Option<T>): Option<T>
  {
    if given.Some? then given else current
  }

  /** `a` updated by `b`: every field `b` sets replaces the one in `a`. */
  function Overlay(a: ConfigValues, b: ConfigValues): (r: ConfigValues)
  {
    ConfigValues(Pick(a.rows, b.rows), Pick(a.cols, b.cols), Pick(a.title, b.title),
                 Pick(a.encoding, b.encoding), Pick(a.convertEol, b.convertEol),
                 Pick(a.autoShutdown, b.autoShutdown), Pick(a.scrollbackBufferSize, b.scrollbackBufferSize))
  }

  /** Python's `bool(s)` for a string. */
  function Truthy(s: string): bool { s != "" }

  /** The first query value of `key`, as `param(key)` with the default strategy gives it. */
  function FirstParam(d: URIDetails, key: string): (r: Option<string>)
    ensures r.Some? <==> HasValues(d, key)
    ensures r.Some? ==> Param(d, key, None, First) == Ok(Some(Single(r.value)))
    ensures r.None? ==> Param(d, key, None, First) == Ok(None)
  {
    if HasValues(d, key) then Some(d.query[key][0]) else None
  }

  /** `load_uri_details` on the configuration values `v`: the fields after the call
      and whether `int()` raised. The assignments run in order, so when `cols` fails
      to parse, a `rows` already parsed has been stored. */
  function LoadFromUri(v: ConfigValues, d: URIDetails): (r: (ConfigValues, Outcome))
    ensures r.0.scrollbackBufferSize == v.scrollbackBufferSize
  {
    var rowsRaw := FirstParam(d, "rows");
    var rowsParsed := if rowsRaw.Some? then Text.ParseInt(rowsRaw.value) else Ok(0);
    if rowsParsed.Err? then (v, Fail(ValueError))
    else
      var v1 := if rowsRaw.Some? then v.(rows := Some(rowsParsed.value)) else v;
      var colsRaw := FirstParam(d, "cols");
      var colsParsed := if colsRaw.Some? then Text.ParseInt(colsRaw.value) else Ok(0);
      if colsParsed.Err? then (v1, Fail(ValueError))
      else
        var v2 := if colsRaw.Some? then v1.(cols := Some(colsParsed.value)) else v1;
        var enc := FirstParam(d, "encoding");
        var eol := FirstParam(d, "convertEol");
        var auto := FirstParam(d, "auto_shutdown");
        var title := FirstParam(d, "title");
        var v3 := v2.(encoding := Pick(v2.encoding, enc),
                      convertEol := if eol.Some? then Some(Truthy(eol.value)) else v2.convertEol,
                      autoShutdown := if auto.Some? then Some(Truthy(auto.value)) else v2.autoShutdown,
                      title := Pick(v2.title, title));
        (v3, Pass)
  }

  /** What loading does to each field: a present value replaces it (integers
      parsed, booleans by the truthiness of the raw string, so `"0"` gives true),
      an absent one leaves it, and `scrollback_buffer_size` is never read. */
  lemma LoadUriDetailsFields(v: ConfigValues, d: URIDetails)
    requires LoadFromUri(v, d).1 == Pass
    ensures var w := LoadFromUri(v, d).0;
      && (HasValues(d, "rows") ==> w.rows == Some(Text.ParseInt(d.query["rows"][0]).value))
      && (!HasValues(d, "rows") ==> w.rows == v.rows)
      && (HasValues(d, "cols") ==> w.cols == Some(Text.ParseInt(d.query["cols"][0]).value))
      && (!HasValues(d, "cols") ==> w.cols == v.cols)
      && (HasValues(d, "convertEol") ==> w.convertEol == Some(d.query["convertEol"][0] != ""))
      && (!HasValues(d, "convertEol") ==> w.convertEol == v.convertEol)
      && (HasValues(d, "auto_shutdown") ==> w.autoShutdown == Some(d.query["auto_shutdown"][0] != ""))
      && (!HasValues(d, "auto_shutdown") ==> w.autoShutdown == v.autoShutdown)
      && w.scrollbackBufferSize == v.scrollbackBufferSize
  {
  }

  /** Loading fails exactly when a present `rows` or `cols` is not an integer. */
  lemma LoadUriDetailsFailure(v: ConfigValues, d: URIDetails)
    ensures LoadFromUri(v, d).1 != Pass <==>
      (HasValues(d, "rows") && Text.ParseInt(d.query["rows"][0]).Err?) ||
      (HasValues(d, "cols") && Text.ParseInt(d.query["cols"][0]).Err?)
  {
  }

  /** A query written from a geometry loads back as that geometry. */
  lemma LoadUriDetailsGeometryRoundTrip(v: ConfigValues, d: URIDetails, rows: int, cols: int)
    requires d.query == map["rows" := [Text.IntToString(rows)], "cols" := [Text.IntToString(cols)]]
    ensures LoadFromUri(v, d) == (v.(rows := Some(rows), cols := Some(cols)), Pass)
  {
    assert HasValues(d, "rows") && HasValues(d, "cols");
    assert FirstParam(d, "rows") == Some(Text.IntToString(rows));
    assert FirstParam(d, "cols") == Some(Text.IntToString(cols));
    assert FirstParam(d, "encoding") == FirstParam(d, "convertEol") == None;
    assert FirstParam(d, "auto_shutdown") == FirstParam(d, "title") == None;
    Text.ParseIntToString(rows);
    Text.ParseIntToString(cols);
  }

  /** The dataclass `InterfaceConfig` of this module, updated in place. */
  class InterfaceConfig {
    var rows: Option<int>
    var cols: Option<int>
    var title: Option<string>
    var encoding: Option<string>
    var convertEol: Option<bool>
    var autoShutdown: Option<bool>
    var scrollbackBufferSize: Option<int>

    function Values(): ConfigValues
      reads this
    {
      ConfigValues(rows, cols, title, encoding, convertEol, autoShutdown, scrollbackBufferSize)
    }

    /** The dataclass constructor: every field given as a keyword, `None` otherwise. */
    constructor (v: ConfigValues)
      ensures Values() == v
    {
      rows, cols, title, encoding := v.rows, v.cols, v.title, v.encoding;
      convertEol, autoShutdown, scrollbackBufferSize := v.convertEol, v.autoShutdown, v.scrollbackBufferSize;
    }

    method SetValues(v: ConfigValues)
      modifies this
      ensures Values() == v
    {
      rows, cols, title, encoding := v.rows, v.cols, v.title, v.encoding;
      convertEol, autoShutdown, scrollbackBufferSize := v.convertEol, v.autoShutdown, v.scrollbackBufferSize;
    }

    /** `load_uri_details`: assigns the fields the query carries, in order, and
        stops at the first value `int()` rejects. */
    method LoadUriDetails(d: URIDetails) returns (o: Outcome)
      modifies this
      ensures (Values(), o) == LoadFromUri(old(Values()), d)
    {
      var rowsRaw := FirstParam(d, "rows");
      if rowsRaw.Some? {
        var n := Text.ParseInt(rowsRaw.value);
        if n.Err? { return Fail(ValueError); }
        rows := Some(n.value);
      }
      var colsRaw := FirstParam(d, "cols");
      if colsRaw.Some? {
        var n := Text.ParseInt(colsRaw.value);
        if n.Err? { return Fail(ValueError); }
        cols := Some(n.value);
      }
      var enc := FirstParam(d, "encoding");
      if enc.Some? { encoding := enc; }
      var eol := FirstParam(d, "convertEol");
      if eol.Some? { convertEol := Some(Truthy(eol.value)); }
      var auto := FirstParam(d, "auto_shutdown");
      if auto.Some? { autoShutdown := Some(Truthy(auto.value)); }
      var t := FirstParam(d, "title");
      if t.Some? { title := t; }
      return Pass;
    }

    /** `update`: copies every field that is set in `options`. */
    method Update(options: InterfaceConfig)
      modifies this
      ensures Values() == Overlay(old(Values()), old(options.Values()))
    {
      var o := options.Values();
      if o.rows.Some? { rows := o.rows; }
      if o.cols.Some? { cols := o.cols; }
      if o.title.Some? { title := o.title; }
      if o.encoding.Some? { encoding := o.encoding; }
      if o.convertEol.Some? { convertEol := o.convertEol; }
      if o.autoShutdown.Some? { autoShutdown := o.autoShutdown; }
      if o.scrollbackBufferSize.Some? { scrollbackBufferSize := o.scrollbackBufferSize; }
    }

    /** `copy`: a new instance with the same field values. */
    method Copy() returns (c: InterfaceConfig)
      ensures fresh(c) && c.Values() == Values()
    {
      c := new InterfaceConfig(Values());
    }
  }

  /** Updating replaces exactly the fields the argument sets; updating with a
      copy of oneself changes nothing, and later updates win over earlier ones. */
  lemma OverlayLaws(a: ConfigValues, b: ConfigValues, c: ConfigValues)
    ensures Overlay(a, Unset) == a && Overlay(a, a) == a
    ensures Overlay(Overlay(a, b), c) == Overlay(a, Overlay(b, c))
    ensures b.rows.Some? ==> Overlay(a, b).rows == b.rows
    ensures b.rows.None? ==> Overlay(a, b).rows == a.rows
  {
  }
}
