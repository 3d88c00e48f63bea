/** `InterfaceContext`: a dataclass of interface settings built from a parsed URI.
    A dataclass instance is modelled as its field list (`fields(cls)`, the schema)
    and its attribute dictionary; values are Python values of the kinds that occur. */
module Context {
  import opened Results
  import Text
  import Structs

  /** The field annotations `cast_str_to_type` distinguishes. `UnionOf` holds the
      members of a `Union` (so `Optional[T]` is `UnionOf([T, NoneType])`). */
  datatype TypeExpr =
    | StrType
    | IntType
    | BoolType
    | NoneType
    | DictType
    | UnionOf(args: seq<TypeExpr>)
    | OtherType

  /** Python values stored in context fields. */
  datatype Value =
    | NoneV
    | StrV(s: string)
    | IntV(i: int)
    | BoolV(b: bool)
    | QueryV(q: map<string, seq<string>>)
    | ListV(items: seq<string>)
    | DictV(d: map<string, Value>)

  function Optional(t: TypeExpr): TypeExpr { UnionOf([t, NoneType]) }

  function NonNone(args: seq<TypeExpr>): (r: seq<TypeExpr>)
    ensures forall t | t in r :: t in args && t != NoneType
    ensures forall t | t in args && t != NoneType :: t in r
  {
    if args == [] then []
    else if args[0] == NoneType then NonNone(args[1..])
    else [args[0]] + NonNone(args[1..])
  }

  /** The boolean vocabulary of `cast_str_to_type`. */
  predicate TrueWord(raw: string)
  {
    Text.Lower(raw) in {"1", "true", "yes"}
  }

  /** `cast_str_to_type` without its float branch. */
  function Cast(raw: string, typ: TypeExpr): (r: Result<Value>)
    ensures r.Err? ==> r.error == ValueError
    decreases typ
  {
    match typ
    case UnionOf(args) =>
      var nn := NonNone(args);
      if NoneType in args && |nn| == 1 then
        assert nn[0] in args;
        Cast(raw, nn[0])
      else Ok(StrV(raw))
    case StrType => Ok(StrV(raw))
    case IntType =>
      (match Text.ParseInt(raw)
       case Ok(n) => Ok(IntV(n))
       case Err(e) => Err(e))
    case BoolType => Ok(BoolV(TrueWord(raw)))
    case _ => Ok(StrV(raw))
  }

  /** The type a cast actually targets once `Optional[...]` layers are removed. */
  function Unwrapped(typ: TypeExpr): TypeExpr
    decreases typ
  {
    match typ
    case UnionOf(args) =>
      var nn := NonNone(args);
      if NoneType in args && |nn| == 1 then
        assert nn[0] in args;
        Unwrapped(nn[0])
      else typ
    case _ => typ
  }

  /** The casts of the plain types, one case each. */
  function CastPlain(raw: string, typ: TypeExpr): Result<Value>
  {
    if typ == IntType then
      (if Text.ParseInt(raw).Ok? then Ok(IntV(Text.ParseInt(raw).value)) else Err(ValueError))
    else if typ == BoolType then Ok(BoolV(TrueWord(raw)))
    else Ok(StrV(raw))
  }

  /** Casting to `Optional[T]` is casting to `T`: only integer targets can fail,
      booleans follow the vocabulary, and everything else is the raw string. */
  lemma {:induction false} CastIsPlainCastOfUnwrapped(raw: string, typ: TypeExpr)
    ensures Cast(raw, typ) == CastPlain(raw, Unwrapped(typ))
    decreases typ
  {
    match typ
    case UnionOf(args) =>
      var nn := NonNone(args);
      if NoneType in args && |nn| == 1 {
        assert nn[0] in args;
        CastIsPlainCastOfUnwrapped(raw, nn[0]);
      }
    case _ =>
  }

  /** Boolean casts: "1", "true", "yes" in any letter case are true; "0" is false. */
  lemma CastBoolExamples()
    ensures Cast("0", Optional(BoolType)) == Ok(BoolV(false))
    ensures Cast("TRUE", BoolType) == Ok(BoolV(true))
    ensures Cast("Yes", Optional(BoolType)) == Ok(BoolV(true))
    ensures Cast("no", BoolType) == Ok(BoolV(false))
  {
    assert Text.Lower("0") == "0";
    assert Text.Lower("TRUE") == "true";
    assert Text.Lower("Yes") == "yes";
    assert Text.Lower("no") == "no";
  }

  /** An integer written in decimal casts back to itself, also through `Optional`. */
  lemma CastIntRoundTrip(n: int)
    ensures Cast(Text.IntToString(n), Optional(IntType)) == Ok(IntV(n))
  {
    Text.ParseIntToString(n);
  }

  /** One dataclass field: its name, its annotation, its default. */
  datatype Field = Field(name: string, typ: TypeExpr, default: Value)

  function Names(schema: seq<Field>): set<string>
  {
    set f | f in schema :: f.name
  }

  /** Field names are unique and the class has `extra_params`, as every subclass of
      `InterfaceContext` does. */
  predicate SchemaOk(schema: seq<Field>)
  {
    && (forall i, j | 0 <= i < j < |schema| :: schema[i].name != schema[j].name)
    && "extra_params" in Names(schema)
  }

  function DefaultOf(schema: seq<Field>, name: string): (v: Value)
    requires name in Names(schema)
  {
    if schema[0].name == name then schema[0].default else DefaultOf(schema[1..], name)
  }

  /** The fields of `InterfaceContext`, in declaration order, with their defaults. */
  const ContextSchema: seq<Field> := [
    Field("uri", Optional(StrType), NoneV),
    Field("scheme", Optional(StrType), NoneV),
    Field("netloc", Optional(StrType), NoneV),
    Field("path", Optional(StrType), NoneV),
    Field("host", Optional(StrType), NoneV),
    Field("port", Optional(IntType), NoneV),
    Field("username", Optional(StrType), NoneV),
    Field("password", Optional(StrType), NoneV),
    Field("params", Optional(StrType), NoneV),
    Field("query", Optional(DictType), NoneV),
    Field("rows", IntType, IntV(24)),
    Field("cols", IntType, IntV(80)),
    Field("title", StrType, StrV("")),
    Field("cursor_row", IntType, IntV(0)),
    Field("cursor_col", IntType, IntV(0)),
    Field("encoding", StrType, StrV("utf-8")),
    Field("convertEol", BoolType, BoolV(false)),
    Field("auto_shutdown", BoolType, BoolV(true)),
    Field("scrollback_buffer_uri", Optional(StrType), NoneV),
    Field("scrollback_buffer_size", IntType, IntV(10000)),
    Field("extra_params", DictType, DictV(map[]))
  ]

  /** The dataclass constructor `cls(**kwargs)`: an unknown keyword raises
      `TypeError`; a field not given takes its default. */
  function Construct(schema: seq<Field>, kwargs: map<string, Value>): (r: Result<map<string, Value>>)
    ensures r.Err? <==> !(kwargs.Keys <= Names(schema))
    ensures r.Ok? ==> r.value.Keys == Names(schema)
    ensures r.Ok? ==> forall k | k in kwargs :: r.value[k] == kwargs[k]
  {
    if kwargs.Keys <= Names(schema) then
      Ok(map n | n in Names(schema) :: if n in kwargs then kwargs[n] else DefaultOf(schema, n))
    else Err(TypeError)
  }

  lemma ConstructField(schema: seq<Field>, kwargs: map<string, Value>, n: string)
    requires Construct(schema, kwargs).Ok? && n in Names(schema)
    ensures Construct(schema, kwargs).value[n] == if n in kwargs then kwargs[n] else DefaultOf(schema, n)
  {
  }

  function OptStr(s: Option<string>): Value
  {
    if s.Some? then StrV(s.value) else NoneV
  }

  /** The keyword arguments `from_uri` takes from the parsed URI itself. */
  function UriKwargs(d: Structs.URIDetails): map<string, Value>
  {
    map["uri" := StrV(d.uri), "scheme" := StrV(d.scheme), "netloc" := OptStr(d.netloc),
        "path" := OptStr(d.path), "host" := OptStr(d.host),
        "port" := (if d.port.Some? then IntV(d.port.value) else NoneV),
        "username" := OptStr(d.username), "password" := OptStr(d.password),
        "query" := QueryV(d.query)]
  }

  /** The loop of `from_uri` over the declared fields from `fields` on: each one
      named in the query is cast from its first value. */
  function CastQueryFields(fields: seq<Field>, query: map<string, seq<string>>, kwargs: map<string, Value>)
    : (r: Result<map<string, Value>>)
  {
    if fields == [] then Ok(kwargs)
    else
      var f := fields[0];
      if f.name !in query then CastQueryFields(fields[1..], query, kwargs)
      else if query[f.name] == [] then Err(IndexError)
      else
        match Cast(query[f.name][0], f.typ)
        case Err(e) => Err(e)
        case Ok(v) => CastQueryFields(fields[1..], query, kwargs[f.name := v])
  }

  /** `from_uri(uri, **extra)` after parsing: URI components, then cast query
      values of declared fields, then the explicit keywords, then construction. */
  function FromUriAttrs(schema: seq<Field>, d: Structs.URIDetails, extra: map<string, Value>)
    : (r: Result<map<string, Value>>)
  {
    match CastQueryFields(schema, d.query, UriKwargs(d))
    case Err(e) => Err(e)
    case Ok(kwargs) => Construct(schema, kwargs + extra)
  }

  lemma {:induction false} CastQueryFieldsKeeps(fields: seq<Field>, query: map<string, seq<string>>,
                                                kwargs: map<string, Value>, k: string)
    requires CastQueryFields(fields, query, kwargs).Ok?
    requires forall f | f in fields && f.name in query :: f.name != k
    ensures k in kwargs <==> k in CastQueryFields(fields, query, kwargs).value
    ensures k in kwargs ==> CastQueryFields(fields, query, kwargs).value[k] == kwargs[k]
  {
    if fields != [] {
      var f := fields[0];
      if f.name !in query {
        CastQueryFieldsKeeps(fields[1..], query, kwargs, k);
      } else {
        CastQueryFieldsKeeps(fields[1..], query, kwargs[f.name := Cast(query[f.name][0], f.typ).value], k);
      }
    }
  }

  lemma {:induction false} CastQueryFieldsSets(fields: seq<Field>, query: map<string, seq<string>>,
                                               kwargs: map<string, Value>, i: nat)
    requires CastQueryFields(fields, query, kwargs).Ok?
    requires forall a, b | 0 <= a < b < |fields| :: fields[a].name != fields[b].name
    requires i < |fields| && fields[i].name in query
    ensures query[fields[i].name] != []
    ensures Cast(query[fields[i].name][0], fields[i].typ).Ok?
    ensures fields[i].name in CastQueryFields(fields, query, kwargs).value
    ensures CastQueryFields(fields, query, kwargs).value[fields[i].name]
            == Cast(query[fields[i].name][0], fields[i].typ).value
  {
    var f := fields[0];
    if i == 0 {
      var next := kwargs[f.name := Cast(query[f.name][0], f.typ).value];
      CastQueryFieldsKeeps(fields[1..], query, next, f.name);
    } else if f.name !in query {
      CastQueryFieldsSets(fields[1..], query, kwargs, i - 1);
    } else {
      CastQueryFieldsSets(fields[1..], query, kwargs[f.name := Cast(query[f.name][0], f.typ).value], i - 1);
    }
  }

  /** What `from_uri` stores: an explicit keyword wins; otherwise a declared field
      named in the query holds its first value cast to the field's type; otherwise
      the URI components; otherwise the default. */
  lemma FromUriFields(schema: seq<Field>, d: Structs.URIDetails, extra: map<string, Value>, i: nat)
    requires SchemaOk(schema) && i < |schema|
    requires FromUriAttrs(schema, d, extra).Ok?
    ensures FromUriAttrs(schema, d, extra).value.Keys == Names(schema)
    ensures schema[i].name in extra ==>
      FromUriAttrs(schema, d, extra).value[schema[i].name] == extra[schema[i].name]
    ensures schema[i].name !in extra && schema[i].name in d.query ==>
      && d.query[schema[i].name] != []
      && Cast(d.query[schema[i].name][0], schema[i].typ).Ok?
      && FromUriAttrs(schema, d, extra).value[schema[i].name]
         == Cast(d.query[schema[i].name][0], schema[i].typ).value
    ensures schema[i].name !in extra && schema[i].name !in d.query && schema[i].name in UriKwargs(d) ==>
      FromUriAttrs(schema, d, extra).value[schema[i].name] == UriKwargs(d)[schema[i].name]
    ensures schema[i].name !in extra && schema[i].name !in d.query && schema[i].name !in UriKwargs(d) ==>
      FromUriAttrs(schema, d, extra).value[schema[i].name] == DefaultOf(schema, schema[i].name)
  {
    var uk := UriKwargs(d);
    var kw := CastQueryFields(schema, d.query, uk).value;
    var f := schema[i];
    ConstructField(schema, kw + extra, f.name);
    if f.name in d.query {
      CastQueryFieldsSets(schema, d.query, uk, i);
    } else {
      CastQueryFieldsKeeps(schema, d.query, uk, f.name);
    }
  }

  /** Query keys that are not declared fields stay only in `query`. */
  lemma FromUriKeepsQuery(schema: seq<Field>, d: Structs.URIDetails, extra: map<string, Value>)
    requires SchemaOk(schema) && "query" in Names(schema)
    requires "query" !in d.query && "query" !in extra
    requires FromUriAttrs(schema, d, extra).Ok?
    ensures FromUriAttrs(schema, d, extra).value["query"] == QueryV(d.query)
    ensures forall k | k in d.query && k !in Names(schema) :: k !in FromUriAttrs(schema, d, extra).value
  {
    var i :| 0 <= i < |schema| && schema[i].name == "query";
    FromUriFields(schema, d, extra, i);
  }

  predicate CastsCleanly(fields: seq<Field>, query: map<string, seq<string>>)
  {
    forall f | f in fields && f.name in query :: query[f.name] != [] && Cast(query[f.name][0], f.typ).Ok?
  }

  lemma {:induction false} CastQueryFieldsOk(fields: seq<Field>, query: map<string, seq<string>>,
                                             kwargs: map<string, Value>)
    ensures CastQueryFields(fields, query, kwargs).Ok? <==> CastsCleanly(fields, query)
    ensures CastQueryFields(fields, query, kwargs).Ok? ==>
      CastQueryFields(fields, query, kwargs).value.Keys
      == kwargs.Keys + set f | f in fields && f.name in query :: f.name
  {
    if fields != [] {
      var f := fields[0];
      assert forall g | g in fields[1..] :: g in fields;
      assert forall g | g in fields :: g == f || g in fields[1..];
      if f.name !in query {
        CastQueryFieldsOk(fields[1..], query, kwargs);
      } else if query[f.name] != [] && Cast(query[f.name][0], f.typ).Ok? {
        CastQueryFieldsOk(fields[1..], query, kwargs[f.name := Cast(query[f.name][0], f.typ).value]);
      }
    }
  }

  /** `from_uri` raises exactly when a declared field's query value does not cast
      (or its value list is empty), or when a keyword names no field. */
  lemma FromUriFailure(schema: seq<Field>, d: Structs.URIDetails, extra: map<string, Value>)
    ensures FromUriAttrs(schema, d, extra).Err? <==>
      !CastsCleanly(schema, d.query) || !(UriKwargs(d).Keys + extra.Keys <= Names(schema))
  {
    CastQueryFieldsOk(schema, d.query, UriKwargs(d));
  }

  lemma SameNameSameField(schema: seq<Field>, k: nat, l: nat)
    requires SchemaOk(schema) && k < |schema| && l < |schema| && schema[k].name == schema[l].name
    ensures k == l
  {
  }

  lemma GeometryCastsCleanly(schema: seq<Field>, query: map<string, seq<string>>, r: int, c: int, i: nat, j: nat)
    requires SchemaOk(schema)
    requires i < |schema| && schema[i].name == "rows" && schema[i].typ == IntType
    requires j < |schema| && schema[j].name == "cols" && schema[j].typ == IntType
    requires query == map["rows" := [Text.IntToString(r)], "cols" := [Text.IntToString(c)]]
    ensures CastsCleanly(schema, query)
  {
    Text.ParseIntToString(r);
    Text.ParseIntToString(c);
    forall f | f in schema && f.name in query
      ensures query[f.name] != [] && Cast(query[f.name][0], f.typ).Ok?
    {
      var k :| 0 <= k < |schema| && schema[k] == f;
      assert f.name in {"rows", "cols"};
      if f.name == "rows" {
        SameNameSameField(schema, k, i);
      } else {
        SameNameSameField(schema, k, j);
      }
    }
  }

  /** The URI's `rows=` and `cols=` become the integer fields `rows` and `cols`
      and the whole query stays in `query`, for `InterfaceContext` and every
      subclass that keeps those fields. */
  lemma FromUriGeometry(schema: seq<Field>, d: Structs.URIDetails, r: int, c: int, i: nat, j: nat)
    requires SchemaOk(schema) && UriKwargs(d).Keys <= Names(schema)
    requires i < |schema| && schema[i].name == "rows" && schema[i].typ == IntType
    requires j < |schema| && schema[j].name == "cols" && schema[j].typ == IntType
    requires d.query == map["rows" := [Text.IntToString(r)], "cols" := [Text.IntToString(c)]]
    ensures FromUriAttrs(schema, d, map[]).Ok?
    ensures FromUriAttrs(schema, d, map[]).value["rows"] == IntV(r)
    ensures FromUriAttrs(schema, d, map[]).value["cols"] == IntV(c)
    ensures FromUriAttrs(schema, d, map[]).value["query"] == QueryV(d.query)
  {
    Text.ParseIntToString(r);
    Text.ParseIntToString(c);
    GeometryCastsCleanly(schema, d.query, r, c, i, j);
    FromUriFailure(schema, d, map[]);
    FromUriFields(schema, d, map[], i);
    FromUriFields(schema, d, map[], j);
    assert "query" in Names(schema);
    var k :| 0 <= k < |schema| && schema[k].name == "query";
    FromUriFields(schema, d, map[], k);
  }

  /** A dataclass instance: the class's fields and the attribute dictionary. */
  class InterfaceContext {
    const schema: seq<Field>
    var attrs: map<string, Value>

    ghost predicate Valid()
      reads this
    {
      SchemaOk(schema) && Names(schema) <= attrs.Keys
    }

    constructor (schema: seq<Field>, attrs: map<string, Value>)
      requires SchemaOk(schema) && Names(schema) <= attrs.Keys
      ensures Valid() && this.schema == schema && this.attrs == attrs
    {
      this.schema := schema;
      this.attrs := attrs;
    }

    /** `asdict(self)`: the declared fields only. */
    function AsDict(): (r: map<string, Value>)
      reads this
      requires Valid()
      ensures r.Keys == Names(schema)
      ensures forall n | n in r :: r[n] == attrs[n]
    {
      map n | n in Names(schema) :: attrs[n]
    }

    /** `update`: every declared field of `options` that is not `None` is set on self. */
    method Update(options: InterfaceContext)
      requires Valid() && options.Valid()
      modifies this
      ensures Valid()
      ensures attrs == old(attrs) + map k | k in old(options.AsDict()) && old(options.AsDict())[k] != NoneV
                                          :: old(options.AsDict())[k]
    {
      var o := options.AsDict();
      attrs := attrs + map k | k in o && o[k] != NoneV :: o[k];
    }

    /** `copy`: a distinct instance of the same class with the same field values. */
    method Copy() returns (c: InterfaceContext)
      requires Valid()
      ensures fresh(c) && c.Valid() && c.schema == schema && c.attrs == AsDict()
    {
      c := new InterfaceContext(schema, AsDict());
    }

    /** `get` as written: a declared field (or any attribute set on the instance),
        else a lookup in a non-empty `extra_params`, else `None` — not `default`.
        A parsed query stored there answers with the list of values for the key;
        a value without a `get` method raises `AttributeError`. */
    function GetAsWritten(key: string, default: Value): (r: Result<Value>)
      reads this
      requires Valid()
      ensures key in attrs ==> r == Ok(attrs[key])
      ensures key !in attrs && !Truthy(attrs["extra_params"]) ==> r == Ok(NoneV)
      ensures key !in attrs && Truthy(attrs["extra_params"]) ==>
        (r.Err? <==> !(attrs["extra_params"].DictV? || attrs["extra_params"].QueryV?))
      ensures key !in attrs && Truthy(attrs["extra_params"]) && attrs["extra_params"].QueryV? ==>
        r == Ok(if key in attrs["extra_params"].q then ListV(attrs["extra_params"].q[key]) else default)
    {
      if key in attrs then Ok(attrs[key])
      else
        var extra := attrs["extra_params"];
        if !Truthy(extra) then Ok(NoneV)
        else if extra.DictV? then Ok(if key in extra.d then extra.d[key] else default)
        else if extra.QueryV? then Ok(if key in extra.q then ListV(extra.q[key]) else default)
        else Err(AttributeError)
    }

    /** `get` returning `default` for a missing key whether or not the mapping in
        `extra_params` is empty. */
    function Get(key: string, default: Value): (r: Result<Value>)
      reads this
      requires Valid()
      ensures key in attrs ==> r == Ok(attrs[key])
      ensures key !in attrs && attrs["extra_params"].DictV? ==>
        r == Ok(if key in attrs["extra_params"].d then attrs["extra_params"].d[key] else default)
      ensures key !in attrs && attrs["extra_params"].QueryV? ==>
        r == Ok(if key in attrs["extra_params"].q then ListV(attrs["extra_params"].q[key]) else default)
      ensures Truthy(attrs["extra_params"]) ==> r == GetAsWritten(key, default)
    {
      if key in attrs then Ok(attrs[key])
      else
        var extra := attrs["extra_params"];
        if extra == DictV(map[]) || extra == QueryV(map[]) then Ok(default)
        else GetAsWritten(key, default)
    }
  }

  /** Python truthiness of a value. */
  predicate Truthy(v: Value)
  {
    match v
    case NoneV => false
    case StrV(s) => s != ""
    case IntV(i) => i != 0
    case BoolV(b) => b
    case QueryV(q) => |q| > 0
    case ListV(items) => |items| > 0
    case DictV(d) => |d| > 0
  }

  /** With an empty `extra_params`, `get` as written ignores the default it is given. */
  lemma GetAsWrittenIgnoresDefault(c: InterfaceContext)
    requires c.Valid() && c.attrs["extra_params"] == DictV(map[]) && "colour" !in c.attrs
    ensures c.GetAsWritten("colour", StrV("blue")) == Ok(NoneV)
    ensures c.Get("colour", StrV("blue")) == Ok(StrV("blue"))
  {
  }

  /** `from_uri` fails exactly when a cast or an unknown keyword fails. */
  method FromUri(schema: seq<Field>, d: Structs.URIDetails, extra: map<string, Value>)
    returns (r: Result<InterfaceContext>)
    requires SchemaOk(schema)
    ensures FromUriAttrs(schema, d, extra).Err? ==> r == Err(FromUriAttrs(schema, d, extra).error)
    ensures FromUriAttrs(schema, d, extra).Ok? ==>
      r.Ok? && fresh(r.value) && r.value.Valid() && r.value.schema == schema
      && r.value.attrs == FromUriAttrs(schema, d, extra).value
  {
    var kwargs := UriKwargs(d);
    var i := 0;
    while i < |schema|
      invariant 0 <= i <= |schema|
      invariant CastQueryFields(schema, d.query, UriKwargs(d)) == CastQueryFields(schema[i..], d.query, kwargs)
    {
      assert schema[i..][1..] == schema[i + 1..];
      var f := schema[i];
      if f.name in d.query {
        if d.query[f.name] == [] {
          return Err(IndexError);
        }
        var v := Cast(d.query[f.name][0], f.typ);
        if v.Err? {
          return Err(v.error);
        }
        kwargs := kwargs[f.name := v.value];
      }
      i := i + 1;
    }
    assert schema[i..] == [];
    kwargs := kwargs + extra;
    if !(kwargs.Keys <= Names(schema)) {
      return Err(TypeError);
    }
    var attrs := map n | n in Names(schema) :: if n in kwargs then kwargs[n] else DefaultOf(schema, n);
    var c := new InterfaceContext(schema, attrs);
    return Ok(c);
  }
}
