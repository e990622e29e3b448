/** The backend router's pure parts: the path normalisation every route URL goes through,
    the URL a controller route is registered under, and the translation of a route's schema
    into the web framework's schema object. */
module HttpRouter {
  import opened Wrappers
  import opened Strings
  import opened JsonValues

  /** The prefix of every route. */
  const RootPath := "/api"

  predicate NoDoubleSlash(s: string) {
    forall i :: 0 <= i < |s| - 1 ==> !(s[i] == '/' && s[i + 1] == '/')
  }

  /** The string with every '/' deleted. */
  function DeleteSlashes(s: string): (r: string)
    ensures '/' !in r
    decreases |s|
  {
    if s == [] then []
    else (if s[0] == '/' then [] else [s[0]]) + DeleteSlashes(s[1..])
  }

  lemma {:induction false} DeleteSlashesAppend(a: string, b: string)
    ensures DeleteSlashes(a + b) == DeleteSlashes(a) + DeleteSlashes(b)
    decreases |a|
  {
    if a == [] {
      assert a + b == b;
    } else {
      var head := if a[0] == '/' then [] else [a[0]];
      assert (a + b)[0] == a[0] && (a + b)[1..] == a[1..] + b;
      DeleteSlashesAppend(a[1..], b);
      calc {
        DeleteSlashes(a + b);
        head + DeleteSlashes(a[1..] + b);
        head + (DeleteSlashes(a[1..]) + DeleteSlashes(b));
        (head + DeleteSlashes(a[1..])) + DeleteSlashes(b);
      }
    }
  }

  /** `path.replace(/(\/+)/g, '/')`: every run of '/' becomes a single '/'. The result
      starts and ends with the same characters as the input. */
  function CollapseSlashes(s: string): (r: string)
    ensures s != [] ==> r != [] && r[0] == s[0] && r[|r| - 1] == s[|s| - 1]
    ensures s == [] ==> r == []
    decreases |s|
  {
    if |s| <= 1 then s
    else if s[0] == '/' && s[1] == '/' then CollapseSlashes(s[1..])
    else [s[0]] + CollapseSlashes(s[1..])
  }

  /** No run of '/' survives the collapse. */
  lemma {:induction false} CollapseSlashesNoDouble(s: string)
    ensures NoDoubleSlash(CollapseSlashes(s))
    decreases |s|
  {
    if |s| > 1 {
      CollapseSlashesNoDouble(s[1..]);
      if !(s[0] == '/' && s[1] == '/') {
        var rest := CollapseSlashes(s[1..]);
        var r := [s[0]] + rest;
        assert CollapseSlashes(s) == r;
        forall i | 0 <= i < |r| - 1 ensures !(r[i] == '/' && r[i + 1] == '/') {
          if i > 0 {
            assert r[i] == rest[i - 1] && r[i + 1] == rest[i];
          }
        }
      }
    }
  }

  /** The collapse removes only '/' characters. */
  lemma {:induction false} CollapseSlashesKeepsContent(s: string)
    ensures DeleteSlashes(CollapseSlashes(s)) == DeleteSlashes(s)
    decreases |s|
  {
    if |s| > 1 {
      var rest := CollapseSlashes(s[1..]);
      CollapseSlashesKeepsContent(s[1..]);
      if s[0] == '/' && s[1] == '/' {
        assert DeleteSlashes(s) == DeleteSlashes(s[1..]);
      } else {
        var r := [s[0]] + rest;
        assert r[0] == s[0] && r[1..] == rest;
        assert DeleteSlashes(r) == (if s[0] == '/' then [] else [s[0]]) + DeleteSlashes(rest);
      }
    }
  }

  /** A string already without runs of '/' is left alone. */
  lemma {:induction false} CollapseSlashesFixesNormal(s: string)
    requires NoDoubleSlash(s)
    ensures CollapseSlashes(s) == s
    decreases |s|
  {
    if |s| > 1 {
      assert !(s[0] == '/' && s[1] == '/');
      CollapseSlashesFixesNormal(s[1..]);
    }
  }

  /** `normalizePath`: runs of '/' collapsed, then one trailing '/' removed. */
  function NormalizePath(path: string): (r: string)
    ensures NoDoubleSlash(r)
    ensures r == [] || r[|r| - 1] != '/'
    ensures DeleteSlashes(r) == DeleteSlashes(path)
  {
    var collapsed := CollapseSlashes(path);
    CollapseSlashesNoDouble(path);
    CollapseSlashesKeepsContent(path);
    if collapsed != [] && collapsed[|collapsed| - 1] == '/' then
      var r := collapsed[..|collapsed| - 1];
      assert collapsed == r + "/";
      DeleteSlashesAppend(r, "/");
      assert r != [] ==> r[|r| - 1] == collapsed[|collapsed| - 2];
      r
    else collapsed
  }

  /** Normalising a normalised path changes nothing. */
  lemma NormalizePathIdempotent(path: string)
    ensures NormalizePath(NormalizePath(path)) == NormalizePath(path)
  {
    CollapseSlashesFixesNormal(NormalizePath(path));
  }

  /** Collapsing works piecewise when the first piece does not end with '/'. */
  lemma {:induction false} CollapseSlashesAppend(a: string, b: string)
    requires a != [] && a[|a| - 1] != '/'
    ensures CollapseSlashes(a + b) == CollapseSlashes(a) + CollapseSlashes(b)
    decreases |a|
  {
    var s := a + b;
    if |a| == 1 {
      if b == [] {
        assert s == a;
      } else {
        assert s[0] == a[0] && s[1..] == b && |s| > 1;
        assert s[0] != '/';
        assert CollapseSlashes(s) == [s[0]] + CollapseSlashes(b);
        assert CollapseSlashes(a) == a == [s[0]];
      }
    } else {
      var tail := a[1..];
      assert s[0] == a[0] && s[1] == a[1] && s[1..] == tail + b && |s| > 1;
      CollapseSlashesAppend(tail, b);
      var rest := CollapseSlashes(tail + b);
      assert rest == CollapseSlashes(tail) + CollapseSlashes(b);
      if a[0] == '/' && a[1] == '/' {
        assert CollapseSlashes(s) == rest;
        assert CollapseSlashes(a) == CollapseSlashes(tail);
      } else {
        assert CollapseSlashes(s) == [a[0]] + rest;
        assert CollapseSlashes(a) == [a[0]] + CollapseSlashes(tail);
        assert [a[0]] + rest == ([a[0]] + CollapseSlashes(tail)) + CollapseSlashes(b);
      }
    }
  }

  /** The URL a controller route is registered under:
      `normalizePath('/' + rootPath + '/' + basePath + '/' + controllerPath)`. */
  function RouteUrl(basePath: string, controllerPath: string): string {
    NormalizePath("/" + RootPath + "/" + basePath + "/" + controllerPath)
  }

  lemma CollapseRootPrefix()
    ensures CollapseSlashes("//api") == RootPath
  {
    assert "//api"[1..] == RootPath;
    assert RootPath[1..] == "api";
    assert "api"[1..] == "pi";
    assert "pi"[1..] == "i";
  }

  /** Every route URL starts with `/api`. */
  lemma RouteUrlStartsWithRoot(basePath: string, controllerPath: string)
    ensures StartsWith(RouteUrl(basePath, controllerPath), RootPath)
  {
    var head := "//api";
    var tail := "/" + basePath + "/" + controllerPath;
    assert "/" + RootPath + "/" + basePath + "/" + controllerPath == head + tail;
    CollapseSlashesAppend(head, tail);
    CollapseRootPrefix();
    var collapsed := CollapseSlashes(head + tail);
    assert collapsed == RootPath + CollapseSlashes(tail);
    assert |CollapseSlashes(tail)| >= 1;
    assert collapsed[..4] == RootPath;
  }

  /** Joining with '/' adds nothing but separators. */
  lemma DeleteSlashesOfJoined(x: string, y: string)
    ensures DeleteSlashes(x + "/" + y) == DeleteSlashes(x) + DeleteSlashes(y)
  {
    var slash := "/";
    var xs := x + slash;
    assert DeleteSlashes(slash) == [] by {
      assert slash[1..] == [];
    }
    DeleteSlashesAppend(x, slash);
    assert DeleteSlashes(xs) == DeleteSlashes(x);
    DeleteSlashesAppend(xs, y);
  }

  lemma DeleteSlashesOfRoot()
    ensures DeleteSlashes("/" + RootPath) == "api"
  {
    assert ("/" + RootPath)[1..] == RootPath;
    assert RootPath[1..] == "api";
  }

  /** Apart from the separators, a route URL is `api` followed by the base path and the
      route's own path. */
  lemma RouteUrlContent(basePath: string, controllerPath: string)
    ensures DeleteSlashes(RouteUrl(basePath, controllerPath))
      == "api" + DeleteSlashes(basePath) + DeleteSlashes(controllerPath)
  {
    var root := "/" + RootPath;
    DeleteSlashesOfJoined(root + "/" + basePath, controllerPath);
    DeleteSlashesOfJoined(root, basePath);
    DeleteSlashesOfRoot();
  }

  /** A TypeBox schema: its properties in order. */
  type Schema = seq<(string, Json)>

  /** `{...props, [key]: value}`: an existing property is overwritten where it stands, a
      new one is appended. */
  function SetProperty(props: Schema, key: string, value: Json): (r: Schema)
    ensures Keys(r) == Keys(props) || Keys(r) == Keys(props) + [key]
    ensures key in Keys(r)
    decreases |props|
  {
    if props == [] then [(key, value)]
    else if props[0].0 == key then
      assert Keys([(key, value)] + props[1..]) == Keys(props) && Keys(props)[0] == key;
      [(key, value)] + props[1..]
    else
      var rest := SetProperty(props[1..], key, value);
      assert Keys([props[0]] + rest) == [props[0].0] + Keys(rest);
      assert Keys(props) == [props[0].0] + Keys(props[1..]);
      [props[0]] + rest
  }

  /** The value of the first property called `key`. */
  function Property(props: Schema, key: string): Option<Json>
    decreases |props|
  {
    if props == [] then None
    else if props[0].0 == key then Some(props[0].1)
    else Property(props[1..], key)
  }

  /** Setting a property makes it read back, and leaves every other property as it was. */
  lemma {:induction false} SetPropertyReads(props: Schema, key: string, value: Json, other: string)
    ensures Property(SetProperty(props, key, value), key) == Some(value)
    ensures other != key ==> Property(SetProperty(props, key, value), other) == Property(props, other)
    decreases |props|
  {
    if props != [] && props[0].0 != key {
      SetPropertyReads(props[1..], key, value, other);
    }
  }

  datatype ResponseSchema = ResponseSchema(schema: Schema, description: string)

  datatype RequestSchema = RequestSchema(body: Option<Schema>, queryParams: Option<Schema>, pathParams: Option<Schema>)

  /** A route's schema; `response` lists the status codes in the record's order. */
  datatype RouteSchema = RouteSchema(request: RequestSchema, response: seq<(int, ResponseSchema)>)

  datatype FastifySchema = FastifySchema(
    params: Option<Schema>, querystring: Option<Schema>, body: Option<Schema>,
    response: map<int, Schema>)

  /** `{...schema, description}` */
  function Described(entry: ResponseSchema): Schema {
    SetProperty(entry.schema, "description", JString(entry.description))
  }

  /** The status codes a response record lists. */
  function Codes(entries: seq<(int, ResponseSchema)>): set<int> {
    set i | 0 <= i < |entries| :: entries[i].0
  }

  /** Entry `i` is the last one listing its status code. */
  predicate LastForCode(entries: seq<(int, ResponseSchema)>, i: int)
    requires 0 <= i < |entries|
  {
    forall j :: i < j < |entries| ==> entries[j].0 != entries[i].0
  }

  /** The `reduce` over the response record's entries: each step spreads the accumulated
      object and adds one status code. */
  function ResponseMap(entries: seq<(int, ResponseSchema)>): (r: map<int, Schema>)
    ensures r.Keys == Codes(entries)
    decreases |entries|
  {
    if entries == [] then map[]
    else
      var last := entries[|entries| - 1];
      var before := ResponseMap(entries[..|entries| - 1]);
      assert Codes(entries) == Codes(entries[..|entries| - 1]) + {last.0};
      before[last.0 := Described(last.1)]
  }

  /** Each status code is mapped to its (last) entry's schema with that entry's
      description. */
  lemma {:induction false} ResponseMapEntries(entries: seq<(int, ResponseSchema)>, i: int)
    requires 0 <= i < |entries| && LastForCode(entries, i)
    ensures entries[i].0 in ResponseMap(entries) && ResponseMap(entries)[entries[i].0] == Described(entries[i].1)
    decreases |entries|
  {
    if i < |entries| - 1 {
      var init := entries[..|entries| - 1];
      assert LastForCode(init, i);
      ResponseMapEntries(init, i);
    }
  }

  /** `mapToFastifySchema`. */
  function MapToFastifySchema(routeSchema: RouteSchema): FastifySchema {
    var request := routeSchema.request;
    FastifySchema(
      if request.pathParams.Some? then request.pathParams else None,
      if request.queryParams.Some? then request.queryParams else None,
      if request.body.Some? then request.body else None,
      ResponseMap(routeSchema.response))
  }

  /** The request parts appear exactly when the route supplies them, unchanged; the
      response map has exactly the route's status codes, each with its schema's properties
      and its description. */
  lemma MapToFastifySchemaSpec(routeSchema: RouteSchema, i: int, key: string)
    requires 0 <= i < |routeSchema.response| && LastForCode(routeSchema.response, i)
    ensures var s := MapToFastifySchema(routeSchema);
      && s.params == routeSchema.request.pathParams
      && s.querystring == routeSchema.request.queryParams
      && s.body == routeSchema.request.body
      && s.response.Keys == Codes(routeSchema.response)
      && var entry := routeSchema.response[i];
         && Property(s.response[entry.0], "description") == Some(JString(entry.1.description))
         && (key != "description" ==> Property(s.response[entry.0], key) == Property(entry.1.schema, key))
  {
    var entry := routeSchema.response[i];
    ResponseMapEntries(routeSchema.response, i);
    SetPropertyReads(entry.1.schema, "description", JString(entry.1.description), key);
  }
}
