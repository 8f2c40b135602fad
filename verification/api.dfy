/**
 * frontend/securitybot_api.py: the functions behind the web front end's
 * `query`, `ignored` and `blacklist` endpoints. Each merges its keyword
 * arguments with defaults, assembles a parameterised SQL statement and its
 * parameter list, hands both to the database and wraps the rows it gets
 * back in a response dictionary.
 *
 * The database is a function from the statement to its rows, or to `None`
 * when it raises `SQLEngineException`. An exception that escapes an
 * endpoint (a `TypeError` from `len`, a `KeyError`, an `AttributeError`)
 * is an `Err` carrying the exception's name.
 */
module Api {
  import opened Wrappers
  import opened SqlText
  import Strings
  import Util

  /** The response dictionary: `ok`, `error`, `info` and `content`. */
  datatype Response = Response(ok: bool, error: string, info: string, content: map<string, seq<map<string, Value>>>)

  /** `build_response()`: not ok, no error, no info and no content. */
  function BuildResponse(): (r: Response)
    ensures !r.ok && r.error == "" && r.info == "" && |r.content| == 0
  {
    Response(false, "", "", map[])
  }

  // Arguments.

  /** `keys` is the iteration order of the dictionary `args`: each key once. */
  predicate Order(keys: seq<string>, args: map<string, Value>)
  {
    Distinct(keys) && args.Keys == set k | k in keys
  }

  /** The supplied arguments that no default names, in iteration order. */
  function Unknown(keys: seq<string>, default: map<string, Value>): (u: seq<string>)
    ensures forall k :: k in u <==> k in keys && k !in default
  {
    if |keys| == 0 then []
    else
      var last := keys[|keys| - 1];
      assert forall k :: k in keys <==> k in keys[..|keys| - 1] || k == last;
      Unknown(keys[..|keys| - 1], default) + (if last in default then [] else [last])
  }

  /** Distinct supplied keys give distinct unknown keys: one warning per unknown argument. */
  lemma {:induction false} UnknownOnce(keys: seq<string>, default: map<string, Value>)
    requires Distinct(keys)
    ensures Distinct(Unknown(keys, default))
  {
    if |keys| > 0 {
      var init := keys[..|keys| - 1];
      assert Distinct(init);
      UnknownOnce(init, default);
      assert keys[|keys| - 1] !in init;
    }
  }

  /** The line `build_arguments` adds to `info` for an unknown argument. */
  function Warning(arg: string): string
  {
    "WARNING: unknown argument " + arg + "\n"
  }

  /** One warning line per argument, in order. */
  function Lines(args: seq<string>): string
  {
    if |args| == 0 then "" else Lines(args[..|args| - 1]) + Warning(args[|args| - 1])
  }

  /** `args` after the loop over the defaults. */
  function Merged(default: map<string, Value>, args: map<string, Value>): (m: map<string, Value>)
    ensures m.Keys == args.Keys + default.Keys
    ensures forall k :: k in args ==> m[k] == args[k]
    ensures forall k :: k in default && k !in args ==> m[k] == default[k]
  {
    map k | k in args.Keys + default.Keys :: if k in args then args[k] else default[k]
  }

  /**
   * `build_arguments(default, args, response)`: every missing default is
   * filled in, no supplied value is overwritten, and `info` gains one
   * warning per supplied argument that no default names, in order.
   */
  method BuildArguments(default: map<string, Value>, args: map<string, Value>, keys: seq<string>, response: Response)
    returns (args': map<string, Value>, response': Response)
    requires Order(keys, args)
    ensures args' == Merged(default, args)
    ensures response' == response.(info := response.info + Lines(Unknown(keys, default)))
  {
    args' := FillDefaults(default, args);
    response' := WarnUnknown(default, keys, response);
  }

  /** The loop over the defaults: each one missing from `args` is added. */
  method FillDefaults(default: map<string, Value>, args: map<string, Value>) returns (args': map<string, Value>)
    ensures args' == Merged(default, args)
  {
    args' := args;
    var todo := default.Keys;
    while todo != {}
      invariant todo <= default.Keys
      invariant args'.Keys == args.Keys + (default.Keys - todo)
      invariant forall k :: k in args' ==> args'[k] == Merged(default, args)[k]
      decreases todo
    {
      var arg :| arg in todo;
      if arg !in args' {
        args' := args'[arg := default[arg]];
      }
      todo := todo - {arg};
    }
  }

  /**
   * The loop over the arguments: one warning per key no default names. It
   * walks the supplied keys: the keys the defaults loop adds are all
   * defaults and would warn about nothing.
   */
  method WarnUnknown(default: map<string, Value>, keys: seq<string>, response: Response) returns (response': Response)
    ensures response' == response.(info := response.info + Lines(Unknown(keys, default)))
  {
    var added := "";
    var i := 0;
    while i < |keys|
      invariant 0 <= i <= |keys|
      invariant added == Lines(Unknown(keys[..i], default))
    {
      UnknownSnoc(keys, i, default);
      if keys[i] !in default {
        added := added + Warning(keys[i]);
      }
      i := i + 1;
    }
    assert keys[..i] == keys;
    response' := response.(info := response.info + added);
  }

  /** One more argument adds its warning, if any, after the earlier ones. */
  lemma UnknownSnoc(keys: seq<string>, i: nat, default: map<string, Value>)
    requires i < |keys|
    ensures Lines(Unknown(keys[..i + 1], default))
         == Lines(Unknown(keys[..i], default)) + (if keys[i] in default then "" else Warning(keys[i]))
  {
    assert keys[..i + 1][..i] == keys[..i];
    var u := Unknown(keys[..i], default);
    if keys[i] !in default {
      assert (u + [keys[i]])[..|u|] == u;
    } else {
      assert u + [] == u;
    }
  }

  // Filters and statements.

  /** The parameters a list (or, character by character, a string) expands to; `len` raises on anything else. */
  function Items(v: Value): (r: Result<seq<Value>, string>)
    ensures v.List? ==> r == Ok(v.items)
    ensures v.Text? ==> r.Ok? && |r.value| == |v.s|
    ensures (v.Int? || v.Time? || v.Null?) ==> r == Err("TypeError")
  {
    match v
    case List(xs) => Ok(xs)
    case Text(s) => Ok(seq(|s|, i requires 0 <= i < |s| => Text([s[i]])))
    case _ => Err("TypeError")
  }

  /** The `IN` filter of `template` over the items of `v`. */
  function InFilter(template: Template, v: Value): Result<Filter, string>
  {
    match Items(v)
    case Err(e) => Err(e)
    case Ok(xs) => Ok(Filter(BuildIn(template, |xs|), xs))
  }

  // `query`.

  const ALERTS_QUERY: string :=
    "\nSELECT HEX(alerts.hash),\n       title,\n       ldap,\n       reason,\n       description,\n       url,\n"
    + "       comment,\n       performed,\n       authenticated,\n       status,\n       event_time\nFROM alerts\n"
    + "JOIN user_responses ON alerts.hash = user_responses.hash\nJOIN alert_status ON alerts.hash = alert_status.hash\n"

  const ALERTS_FIELDS: seq<string> :=
    ["hash", "title", "ldap", "reason", "description", "url", "comment", "performed", "authenticated", "status", "event_time"]

  const STATUS_WHERE: string := WithParam("status = ", "")
  const PERFORMED_WHERE: string := WithParam("performed = ", "")
  const TITLE_IN: Template := Template("title IN (", ")")
  const LDAP_IN: Template := Template("ldap IN (", ")")
  const BEFORE: string := WithParam("event_time <= FROM_UNIXTIME(", ")")
  const AFTER: string := WithParam("event_time >= FROM_UNIXTIME(", ")")
  const ALERTS_ORDER_BY: string := "ORDER BY event_time DESC\n"
  const LIMIT: string := WithParam("LIMIT ", "")

  const DEFAULT_QUERY_ARGUMENTS: map<string, Value> :=
    map["limit" := Int(50), "titles" := Null, "ldap" := Null, "status" := Null, "performed" := Null,
        "authenticated" := Null, "after" := Null, "before" := Null]

  /** The arguments `query` reads are all present. */
  predicate QueryArgs(args: map<string, Value>)
  {
    "limit" in args && "titles" in args && "ldap" in args && "status" in args && "performed" in args
    && "after" in args && "before" in args
  }

  /** The merged arguments hold every default key. */
  lemma QueryDefaults(kwargs: map<string, Value>)
    ensures QueryArgs(Merged(DEFAULT_QUERY_ARGUMENTS, kwargs))
  {
    assert "limit" in DEFAULT_QUERY_ARGUMENTS && "titles" in DEFAULT_QUERY_ARGUMENTS;
    assert "ldap" in DEFAULT_QUERY_ARGUMENTS && "status" in DEFAULT_QUERY_ARGUMENTS;
    assert "performed" in DEFAULT_QUERY_ARGUMENTS && "after" in DEFAULT_QUERY_ARGUMENTS;
    assert "before" in DEFAULT_QUERY_ARGUMENTS;
  }

  /** A filter with one plain parameter, present when the argument is not `None`. */
  function Single(condition: string, v: Value): seq<Filter>
  {
    if v == Null then [] else [Filter(condition, [v])]
  }

  /** The `IN` filter over the items of `v`, present when the argument is not `None`. */
  function Multiple(template: Template, v: Value): Result<seq<Filter>, string>
  {
    if v == Null then Ok([])
    else match InFilter(template, v)
      case Err(e) => Err(e)
      case Ok(f) => Ok([f])
  }

  /** The filters of `query`, in the order status, performed, titles, ldap, before, after. */
  function AlertFilters(args: map<string, Value>): Result<seq<Filter>, string>
    requires QueryArgs(args)
  {
    match Multiple(TITLE_IN, args["titles"])
    case Err(e) => Err(e)
    case Ok(titles) =>
      match Multiple(LDAP_IN, args["ldap"])
      case Err(e) => Err(e)
      case Ok(ldap) =>
        Ok(Single(STATUS_WHERE, args["status"]) + Single(PERFORMED_WHERE, args["performed"]) + titles + ldap
           + Single(BEFORE, args["before"]) + Single(AFTER, args["after"]))
  }

  /** The statement `query` sends: the filters, then the ordering and the limit, whose value is the last parameter. */
  function AlertsStatement(args: map<string, Value>): Result<Statement, string>
    requires QueryArgs(args)
  {
    match AlertFilters(args)
    case Err(e) => Err(e)
    case Ok(fs) => Ok(Statement(ALERTS_QUERY + Conditions(fs, false) + ALERTS_ORDER_BY + LIMIT, Params(fs) + [args["limit"]]))
  }

  /** The text after `base` holds the chained conditions of `fs`, whose parameters are `params`. */
  ghost predicate Built(base: string, query: string, params: seq<Value>, hasWhere: bool, fs: seq<Filter>)
  {
    query == base + Conditions(fs, false) && params == Params(fs) && hasWhere == (|fs| > 0)
  }

  /** `query += build_where(condition, has_where)`, the parameters added, `has_where = True`. */
  method AddFilter(query: string, params: seq<Value>, hasWhere: bool, f: Filter, ghost base: string, ghost fs: seq<Filter>)
    returns (query': string, params': seq<Value>)
    requires Built(base, query, params, hasWhere, fs)
    ensures Built(base, query', params', true, fs + [f])
  {
    ConditionsSnoc(fs, f, false);
    query' := query + BuildWhere(f.condition, hasWhere);
    params' := params + f.params;
    Util.AppendAssoc(base, Conditions(fs, false), BuildWhere(f.condition, hasWhere));
  }

  /** `if value is not None:` one filter with one parameter. */
  method AddSingle(query: string, params: seq<Value>, hasWhere: bool, condition: string, v: Value,
                   ghost base: string, ghost fs: seq<Filter>)
    returns (query': string, params': seq<Value>, hasWhere': bool)
    requires Built(base, query, params, hasWhere, fs)
    ensures Built(base, query', params', hasWhere', fs + Single(condition, v))
  {
    query', params', hasWhere' := query, params, hasWhere;
    if v != Null {
      query', params' := AddFilter(query, params, hasWhere, Filter(condition, [v]), base, fs);
      hasWhere' := true;
    } else {
      assert fs + [] == fs;
    }
  }

  /** `if value is not None:` the `IN` filter over the value's items; `len` raises on a value without items. */
  method AddMultiple(query: string, params: seq<Value>, hasWhere: bool, template: Template, v: Value,
                     ghost base: string, ghost fs: seq<Filter>)
    returns (r: Result<(string, seq<Value>), string>, hasWhere': bool)
    requires Built(base, query, params, hasWhere, fs)
    ensures r.Err? <==> Multiple(template, v).Err?
    ensures r.Err? ==> r.error == Multiple(template, v).error
    ensures r.Ok? ==> Built(base, r.value.0, r.value.1, hasWhere', fs + Multiple(template, v).value)
  {
    r, hasWhere' := Ok((query, params)), hasWhere;
    if v != Null {
      var items := Items(v);
      if items.Err? {
        return Err(items.error), hasWhere;
      }
      var f := Filter(BuildIn(template, |items.value|), items.value);
      var query', params' := AddFilter(query, params, hasWhere, f, base, fs);
      r, hasWhere' := Ok((query', params')), true;
    } else {
      assert fs + [] == fs;
    }
  }

  /** The statement-building part of `query`, clause by clause. */
  method BuildAlertsQuery(args: map<string, Value>) returns (r: Result<Statement, string>)
    requires QueryArgs(args)
    ensures r == AlertsStatement(args)
  {
    var query, params, hasWhere := ALERTS_QUERY, [], false;
    ghost var fs: seq<Filter> := [];
    query, params, hasWhere := AddSingle(query, params, hasWhere, STATUS_WHERE, args["status"], ALERTS_QUERY, fs);
    assert fs + Single(STATUS_WHERE, args["status"]) == Single(STATUS_WHERE, args["status"]);
    fs := Single(STATUS_WHERE, args["status"]);
    query, params, hasWhere := AddSingle(query, params, hasWhere, PERFORMED_WHERE, args["performed"], ALERTS_QUERY, fs);
    fs := fs + Single(PERFORMED_WHERE, args["performed"]);
    var titles;
    titles, hasWhere := AddMultiple(query, params, hasWhere, TITLE_IN, args["titles"], ALERTS_QUERY, fs);
    if titles.Err? {
      return Err(titles.error);
    }
    query, params := titles.value.0, titles.value.1;
    fs := fs + Multiple(TITLE_IN, args["titles"]).value;
    var ldap;
    ldap, hasWhere := AddMultiple(query, params, hasWhere, LDAP_IN, args["ldap"], ALERTS_QUERY, fs);
    if ldap.Err? {
      return Err(ldap.error);
    }
    query, params := ldap.value.0, ldap.value.1;
    fs := fs + Multiple(LDAP_IN, args["ldap"]).value;
    query, params, hasWhere := AddSingle(query, params, hasWhere, BEFORE, args["before"], ALERTS_QUERY, fs);
    fs := fs + Single(BEFORE, args["before"]);
    query, params, hasWhere := AddSingle(query, params, hasWhere, AFTER, args["after"], ALERTS_QUERY, fs);
    fs := fs + Single(AFTER, args["after"]);
    assert AlertFilters(args) == Ok(fs);
    query := query + ALERTS_ORDER_BY;
    query := query + LIMIT;
    params := params + [args["limit"]];
    r := Ok(Statement(query, params));
  }

  /** The status condition holds one placeholder. */
  lemma StatusHoles()
    ensures Holes(STATUS_WHERE) == 1 && Holes(PERFORMED_WHERE) == 1
  {
    OneHole("status = ", "");
    OneHole("performed = ", "");
  }

  /** The time conditions hold one placeholder each. */
  lemma TimeHoles()
    ensures Holes(BEFORE) == 1 && Holes(AFTER) == 1
  {
    OneHole("event_time <= FROM_UNIXTIME(", ")");
    OneHole("event_time >= FROM_UNIXTIME(", ")");
  }

  /** The `IN` templates hold no placeholder of their own. */
  lemma InTemplates()
    ensures '%' !in TITLE_IN.head && '%' !in TITLE_IN.tail && '%' !in LDAP_IN.head && '%' !in LDAP_IN.tail
  {
  }

  /** The orderings hold no `%`, and the limit one placeholder; none of them can join a placeholder with what precedes it. */
  lemma TailHoles()
    ensures '%' !in ALERTS_ORDER_BY && '%' !in IGNORED_ORDER_BY && Holes(LIMIT) == 1
    ensures ALERTS_ORDER_BY[0] == 'O' && IGNORED_ORDER_BY[0] == 'O' && LIMIT[0] == 'L'
  {
    OneHole("LIMIT ", "");
  }

  /** Every filter of `query` has one placeholder per parameter. */
  lemma AlertFiltersBalanced(args: map<string, Value>)
    requires QueryArgs(args) && AlertFilters(args).Ok?
    ensures Balanced(AlertFilters(args).value)
  {
    StatusHoles();
    TimeHoles();
    InTemplates();
    MultipleBalanced(TITLE_IN, args["titles"]);
    MultipleBalanced(LDAP_IN, args["ldap"]);
    var titles, ldap := Multiple(TITLE_IN, args["titles"]).value, Multiple(LDAP_IN, args["ldap"]).value;
    SingleBalanced(STATUS_WHERE, args["status"]);
    SingleBalanced(PERFORMED_WHERE, args["performed"]);
    SingleBalanced(BEFORE, args["before"]);
    SingleBalanced(AFTER, args["after"]);
    BalancedSix(Single(STATUS_WHERE, args["status"]), Single(PERFORMED_WHERE, args["performed"]), titles, ldap,
                Single(BEFORE, args["before"]), Single(AFTER, args["after"]));
  }

  /** A filter with one placeholder and its one parameter is balanced. */
  lemma SingleBalanced(condition: string, v: Value)
    requires Holes(condition) == 1
    ensures Balanced(Single(condition, v))
  {
  }

  /** Six balanced lists of filters, one after the other, are balanced. */
  lemma BalancedSix(a: seq<Filter>, b: seq<Filter>, c: seq<Filter>, d: seq<Filter>, e: seq<Filter>, f: seq<Filter>)
    requires Balanced(a) && Balanced(b) && Balanced(c) && Balanced(d) && Balanced(e) && Balanced(f)
    ensures Balanced(a + b + c + d + e + f)
  {
    BalancedAppend(a, b);
    BalancedAppend(a + b, c);
    BalancedAppend(a + b + c, d);
    BalancedAppend(a + b + c + d, e);
    BalancedAppend(a + b + c + d + e, f);
  }

  /** An `IN` filter has one placeholder per item. */
  lemma MultipleBalanced(template: Template, v: Value)
    requires '%' !in template.head && '%' !in template.tail
    ensures Multiple(template, v).Ok? ==> Balanced(Multiple(template, v).value)
  {
    match Items(v)
    case Err(_) =>
    case Ok(xs) => BuildInHoles(template, |xs|);
  }

  /** A statement whose text after `base` is balanced conditions, the ordering and the limit. */
  lemma StatementHoles(base: string, fs: seq<Filter>, orderBy: string, limit: Value)
    requires Balanced(fs) && '%' !in orderBy && |orderBy| > 0 && orderBy[0] != 's'
    ensures Holes(base + Conditions(fs, false) + orderBy + LIMIT) == Holes(base) + |Params(fs) + [limit]|
  {
    TailHoles();
    NoPercentNoHoles(orderBy);
    ConditionsHoles(fs, false);
    HolesAppend(base, Conditions(fs, false));
    HolesAppend(base + Conditions(fs, false), orderBy);
    HolesAppend(base + Conditions(fs, false) + orderBy, LIMIT);
  }

  /**
   * The statement `query` sends holds, after the fixed SELECT text, exactly
   * one placeholder per parameter, and its last parameter is the limit.
   */
  lemma QueryPlaceholders(args: map<string, Value>)
    requires QueryArgs(args) && AlertsStatement(args).Ok?
    ensures Holes(AlertsStatement(args).value.sql) == Holes(ALERTS_QUERY) + |AlertsStatement(args).value.params|
    ensures AlertsStatement(args).value.params[|AlertsStatement(args).value.params| - 1] == args["limit"]
  {
    AlertFiltersBalanced(args);
    TailHoles();
    StatementHoles(ALERTS_QUERY, AlertFilters(args).value, ALERTS_ORDER_BY, args["limit"]);
  }

  /** `authenticated` is accepted as an argument but filters nothing: the statement does not depend on it. */
  lemma AuthenticatedIgnored(args: map<string, Value>, v: Value)
    requires QueryArgs(args)
    ensures AlertsStatement(args["authenticated" := v]) == AlertsStatement(args)
  {
    var args' := args["authenticated" := v];
    assert args'["status"] == args["status"] && args'["performed"] == args["performed"];
    assert args'["titles"] == args["titles"] && args'["ldap"] == args["ldap"];
    assert args'["before"] == args["before"] && args'["after"] == args["after"] && args'["limit"] == args["limit"];
  }

  // Results.

  /** `int(value.strftime('%s'))`: a DATETIME becomes its unix time; anything else has no `strftime`. */
  function UnixTime(v: Value): Result<Value, string>
  {
    match v
    case Time(t) => Ok(Int(t))
    case _ => Err("AttributeError")
  }

  /** One row with `field` converted to unix time; a missing field raises `KeyError`. */
  function ConvertRow(row: map<string, Value>, field: string): (r: Result<map<string, Value>, string>)
  {
    if field !in row then Err("KeyError")
    else match UnixTime(row[field])
      case Err(e) => Err(e)
      case Ok(t) => Ok(row[field := t])
  }

  /** Every row converted in order; the first row that fails ends the loop with its exception. */
  function ConvertRows(rows: seq<map<string, Value>>, field: string): Result<seq<map<string, Value>>, string>
  {
    if |rows| == 0 then Ok([])
    else match ConvertRows(rows[..|rows| - 1], field)
      case Err(e) => Err(e)
      case Ok(done) =>
        match ConvertRow(rows[|rows| - 1], field)
        case Err(e) => Err(e)
        case Ok(row) => Ok(done + [row])
  }

  /** Conversion succeeds iff every row holds a DATETIME under `field`, and then changes only that field. */
  lemma {:induction false} ConvertRowsExactly(rows: seq<map<string, Value>>, field: string)
    ensures ConvertRows(rows, field).Ok? <==> forall i :: 0 <= i < |rows| ==> field in rows[i] && rows[i][field].Time?
    ensures ConvertRows(rows, field).Ok? ==>
              var out := ConvertRows(rows, field).value;
              |out| == |rows| && forall i :: 0 <= i < |rows| ==> out[i] == rows[i][field := Int(rows[i][field].unix)]
  {
    if |rows| > 0 {
      var init := rows[..|rows| - 1];
      ConvertRowsExactly(init, field);
      assert forall i :: 0 <= i < |init| ==> init[i] == rows[i];
    }
  }

  /** `for row in results: row[field] = int(row[field].strftime('%s'))`. */
  method ConvertTimes(rows: seq<map<string, Value>>, field: string) returns (r: Result<seq<map<string, Value>>, string>)
    ensures r == ConvertRows(rows, field)
  {
    var done: seq<map<string, Value>> := [];
    var i := 0;
    while i < |rows|
      invariant 0 <= i <= |rows|
      invariant ConvertRows(rows[..i], field) == Ok(done)
    {
      assert rows[..i + 1][..i] == rows[..i];
      var row := ConvertRow(rows[i], field);
      if row.Err? {
        ConvertRowsFail(rows, i, field);
        return Err(row.error);
      }
      done := done + [row.value];
      i := i + 1;
    }
    assert rows[..i] == rows;
    r := Ok(done);
  }

  /** A row that fails after rows that convert is the exception of the whole loop. */
  lemma {:induction false} ConvertRowsFail(rows: seq<map<string, Value>>, i: nat, field: string)
    requires i < |rows| && ConvertRows(rows[..i], field).Ok? && ConvertRow(rows[i], field).Err?
    ensures ConvertRows(rows, field) == Err(ConvertRow(rows[i], field).error)
  {
    if i == |rows| - 1 {
      assert rows[..i] == rows[..|rows| - 1];
    } else {
      assert rows[..|rows| - 1][..i] == rows[..i];
      assert rows[..|rows| - 1][i] == rows[i];
      ConvertRowsFail(rows[..|rows| - 1], i, field);
    }
  }

  /**
   * `query(**kwargs)`: `keys` is the keyword arguments' order and `db` the
   * database. A statement the database rejects gives error 'Invalid
   * parameters'; otherwise the response is ok with the alerts, event times
   * converted, under 'alerts'.
   */
  method Query(kwargs: map<string, Value>, keys: seq<string>, db: Statement -> Option<seq<seq<Value>>>)
    returns (r: Result<Response, string>)
    requires Order(keys, kwargs)
    ensures var args := Merged(DEFAULT_QUERY_ARGUMENTS, kwargs);
            var info := Lines(Unknown(keys, DEFAULT_QUERY_ARGUMENTS));
            QueryArgs(args) &&
            match AlertsStatement(args)
            case Err(e) => r == Err(e)
            case Ok(st) =>
              match db(st)
              case None => r == Ok(Response(false, "Invalid parameters", info, map[]))
              case Some(rows) =>
                match ConvertRows(BuildQueryDict(ALERTS_FIELDS, rows), "event_time")
                case Err(e) => r == Err(e)
                case Ok(alerts) => r == Ok(Response(true, "", info, map["alerts" := alerts]))
  {
    var response := BuildResponse();
    var args;
    args, response := BuildArguments(DEFAULT_QUERY_ARGUMENTS, kwargs, keys, response);
    assert response.info == Lines(Unknown(keys, DEFAULT_QUERY_ARGUMENTS));
    QueryDefaults(kwargs);
    var statement := BuildAlertsQuery(args);
    if statement.Err? {
      return Err(statement.error);
    }
    var rows := db(statement.value);
    if rows.None? {
      return Ok(Response(false, "Invalid parameters", response.info, map[]));
    }
    var alerts := ConvertTimes(BuildQueryDict(ALERTS_FIELDS, rows.value), "event_time");
    if alerts.Err? {
      return Err(alerts.error);
    }
    r := Ok(Response(true, "", response.info, map["alerts" := alerts.value]));
  }

  // `ignored`.

  const IGNORED_QUERY: string := "\nSELECT ldap, title, reason, until\nFROM ignored\n"
  const IGNORED_ORDER_BY: string := "ORDER BY until DESC\n"
  const IGNORED_FIELDS: seq<string> := ["ldap", "title", "reason", "until"]
  const DEFAULT_IGNORED_ARGUMENTS: map<string, Value> := map["limit" := Int(50), "ldap" := Null]

  /** The arguments `ignored` reads are present once its defaults are filled in. */
  lemma IgnoredDefaults(kwargs: map<string, Value>)
    ensures "limit" in Merged(DEFAULT_IGNORED_ARGUMENTS, kwargs) && "ldap" in Merged(DEFAULT_IGNORED_ARGUMENTS, kwargs)
  {
    assert "limit" in DEFAULT_IGNORED_ARGUMENTS && "ldap" in DEFAULT_IGNORED_ARGUMENTS;
  }

  /** The statement `ignored` sends: the optional `ldap IN` filter, always opened by `WHERE`, the ordering and the limit. */
  function IgnoredStatement(args: map<string, Value>): Result<Statement, string>
    requires "limit" in args && "ldap" in args
  {
    match Multiple(LDAP_IN, args["ldap"])
    case Err(e) => Err(e)
    case Ok(fs) => Ok(Statement(IGNORED_QUERY + Conditions(fs, false) + IGNORED_ORDER_BY + LIMIT, Params(fs) + [args["limit"]]))
  }

  /** The statement-building part of `ignored`. */
  method BuildIgnoredQuery(args: map<string, Value>) returns (r: Result<Statement, string>)
    requires "limit" in args && "ldap" in args
    ensures r == IgnoredStatement(args)
  {
    var ldap, _ := AddMultiple(IGNORED_QUERY, [], false, LDAP_IN, args["ldap"], IGNORED_QUERY, []);
    if ldap.Err? {
      return Err(ldap.error);
    }
    assert [] + Multiple(LDAP_IN, args["ldap"]).value == Multiple(LDAP_IN, args["ldap"]).value;
    var query, params := ldap.value.0, ldap.value.1;
    query := query + IGNORED_ORDER_BY;
    query := query + LIMIT;
    params := params + [args["limit"]];
    r := Ok(Statement(query, params));
  }

  /** The statement `ignored` sends holds, after its SELECT text, one placeholder per parameter. */
  lemma IgnoredPlaceholders(args: map<string, Value>)
    requires "limit" in args && "ldap" in args && IgnoredStatement(args).Ok?
    ensures Holes(IgnoredStatement(args).value.sql) == Holes(IGNORED_QUERY) + |IgnoredStatement(args).value.params|
  {
    InTemplates();
    TailHoles();
    MultipleBalanced(LDAP_IN, args["ldap"]);
    StatementHoles(IGNORED_QUERY, Multiple(LDAP_IN, args["ldap"]).value, IGNORED_ORDER_BY, args["limit"]);
  }

  /** `ignored(**kwargs)`: as `query`, with the rows' `until` converted and listed under 'ignored'. */
  method Ignored(kwargs: map<string, Value>, keys: seq<string>, db: Statement -> Option<seq<seq<Value>>>)
    returns (r: Result<Response, string>)
    requires Order(keys, kwargs)
    ensures var args := Merged(DEFAULT_IGNORED_ARGUMENTS, kwargs);
            var info := Lines(Unknown(keys, DEFAULT_IGNORED_ARGUMENTS));
            "limit" in args && "ldap" in args &&
            match IgnoredStatement(args)
            case Err(e) => r == Err(e)
            case Ok(st) =>
              match db(st)
              case None => r == Ok(Response(false, "Invalid parameters", info, map[]))
              case Some(rows) =>
                match ConvertRows(BuildQueryDict(IGNORED_FIELDS, rows), "until")
                case Err(e) => r == Err(e)
                case Ok(ignored) => r == Ok(Response(true, "", info, map["ignored" := ignored]))
  {
    var response := BuildResponse();
    var args;
    args, response := BuildArguments(DEFAULT_IGNORED_ARGUMENTS, kwargs, keys, response);
    assert response.info == Lines(Unknown(keys, DEFAULT_IGNORED_ARGUMENTS));
    IgnoredDefaults(kwargs);
    var statement := BuildIgnoredQuery(args);
    if statement.Err? {
      return Err(statement.error);
    }
    var rows := db(statement.value);
    if rows.None? {
      return Ok(Response(false, "Invalid parameters", response.info, map[]));
    }
    var ignored := ConvertTimes(BuildQueryDict(IGNORED_FIELDS, rows.value), "until");
    if ignored.Err? {
      return Err(ignored.error);
    }
    r := Ok(Response(true, "", response.info, map["ignored" := ignored.value]));
  }

  // `blacklist`.

  const BLACKLIST_QUERY: string := WithParam("\nSELECT ldap\nFROM blacklist\n" + "ORDER BY ldap\nLIMIT ", "\n")
  const BLACKLIST_FIELDS: seq<string> := ["ldap"]
  const DEFAULT_BLACKLIST_ARGUMENTS: map<string, Value> := map["limit" := Int(50)]

  /** The limit is present once the defaults of `blacklist` are filled in. */
  lemma BlacklistDefaults(kwargs: map<string, Value>)
    ensures "limit" in Merged(DEFAULT_BLACKLIST_ARGUMENTS, kwargs)
  {
    assert "limit" in DEFAULT_BLACKLIST_ARGUMENTS;
  }

  /** `blacklist(**kwargs)`: the fixed statement with the limit as its one parameter; the rows listed under 'blacklist'. */
  method Blacklist(kwargs: map<string, Value>, keys: seq<string>, db: Statement -> Option<seq<seq<Value>>>)
    returns (r: Response)
    requires Order(keys, kwargs)
    ensures var args := Merged(DEFAULT_BLACKLIST_ARGUMENTS, kwargs);
            var info := Lines(Unknown(keys, DEFAULT_BLACKLIST_ARGUMENTS));
            "limit" in args &&
            match db(Statement(BLACKLIST_QUERY, [args["limit"]]))
            case None => r == Response(false, "Invalid parameters", info, map[])
            case Some(rows) => r == Response(true, "", info, map["blacklist" := BuildQueryDict(BLACKLIST_FIELDS, rows)])
  {
    var response := BuildResponse();
    var args;
    args, response := BuildArguments(DEFAULT_BLACKLIST_ARGUMENTS, kwargs, keys, response);
    assert response.info == Lines(Unknown(keys, DEFAULT_BLACKLIST_ARGUMENTS));
    BlacklistDefaults(kwargs);
    var rows := db(Statement(BLACKLIST_QUERY, [args["limit"]]));
    if rows.None? {
      return Response(false, "Invalid parameters", response.info, map[]);
    }
    r := Response(true, "", response.info, map["blacklist" := BuildQueryDict(BLACKLIST_FIELDS, rows.value)]);
  }

  /** The blacklist statement holds exactly its one placeholder, for the limit. */
  lemma BlacklistPlaceholders()
    ensures Holes(BLACKLIST_QUERY) == 1
  {
    assert '%' !in "\nSELECT ldap\nFROM blacklist\n";
    assert '%' !in "ORDER BY ldap\nLIMIT ";
    OneHole("\nSELECT ldap\nFROM blacklist\n" + "ORDER BY ldap\nLIMIT ", "\n");
  }
}
