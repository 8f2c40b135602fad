/**
 * scripts/query_db.py: a command-line explorer of the alert tables. For the
 * alerts table it builds a parameterised statement from its options (with
 * a process-wide `HAS_WHERE` flag choosing between `WHERE` and `AND`),
 * drops the columns the options hide and lays the rows out as a text table.
 *
 * The module-level flag is the one field of class `Script`. The database is
 * a function from the statement to its rows; option values arrive already
 * parsed (argparse's `nargs=1` lists are their one element).
 */
module QueryDb {
  import opened Wrappers
  import opened SqlText
  import Strings
  import Util

  const MAIN_QUERY: string :=
    "\nSELECT HEX(alerts.hash),\n       title,\n       ldap,\n       reason,\n       description,\n       splunk_url,\n"
    + "       comment,\n       performed,\n       authenticated,\n       status,\n       event_time\nFROM alerts\n"
    + "JOIN user_responses ON alerts.hash = user_responses.hash\nJOIN alert_status ON alerts.hash = alert_status.hash\n"

  const QUERY_FIELDS: seq<string> :=
    ["hash", "title", "ldap", "reason", "description", "splunk_url", "comment", "performed", "authenticated", "status", "event_time"]

  const STATUS_WHERE: string := WithParam("status = ", "")
  const PERFORMED_WHERE: string := WithParam("performed = ", "")
  const TITLE_WHERE: Template := Template("title IN (", ")")
  const BEFORE: string := WithParam("event_time <= DATE_ADD(NOW(), INTERVAL ", " HOUR)")
  const AFTER: string := WithParam("event_time >= DATE_ADD(NOW(), INTERVAL ", " HOUR)")
  const LIMIT: string := WithParam("LIMIT ", "")

  /** `build_in(num_titles)`: the title condition over `n` placeholders. */
  function TitleIn(n: nat): string
  {
    BuildIn(TITLE_WHERE, n)
  }

  /** The title condition lists exactly `n` comma-separated placeholders, and no other. */
  lemma TitleInPlaceholders(n: nat)
    ensures TitleIn(n) == "title IN (" + Strings.Join(seq(n, _ => PARAM), ",") + ")"
    ensures Holes(TitleIn(n)) == n
  {
    PlaceholdersJoin(n);
    assert '%' !in TITLE_WHERE.head && '%' !in TITLE_WHERE.tail;
    BuildInHoles(TITLE_WHERE, n);
  }

  // `build_order_by`.

  /** The columns the rows can be ordered by. */
  const ORDER_COLUMNS: seq<string> := ["event_time", "ldap", "title"]

  /**
   * `build_order_by(order)`: only a whitelisted column is formatted into the
   * statement, so no placeholder (and no other text) can enter through it.
   */
  function BuildOrderBy(order: string): (r: Result<string, string>)
    ensures r.Ok? <==> order in ORDER_COLUMNS
    ensures r.Ok? ==> '%' !in r.value && |r.value| > 0 && r.value[0] == 'O'
  {
    if order in ORDER_COLUMNS then
      OrderColumnsPlain(order);
      Ok("ORDER BY " + order + (if order == "event_time" then " DESC" else ""))
    else
      Err("ValueError")
  }

  /** The whitelisted column names hold no `%`. */
  lemma OrderColumnsPlain(order: string)
    ensures order in ORDER_COLUMNS ==> '%' !in "ORDER BY " + order + (if order == "event_time" then " DESC" else "")
    ensures ("ORDER BY " + order)[0] == 'O'
  {
    assert '%' !in "ORDER BY " && '%' !in " DESC";
    assert '%' !in "event_time" && '%' !in "ldap" && '%' !in "title";
  }

  /** Newest first by event time; ascending by ldap or by title. */
  lemma OrderByDirections()
    ensures BuildOrderBy("event_time") == Ok("ORDER BY event_time DESC")
    ensures BuildOrderBy("ldap") == Ok("ORDER BY ldap")
    ensures BuildOrderBy("title") == Ok("ORDER BY title")
  {
    assert "event_time" in ORDER_COLUMNS && "ldap" in ORDER_COLUMNS && "title" in ORDER_COLUMNS;
    assert "ORDER BY " + "event_time" + " DESC" == "ORDER BY event_time DESC";
    assert "ORDER BY " + "ldap" + "" == "ORDER BY ldap";
    assert "ORDER BY " + "title" + "" == "ORDER BY title";
  }

  // `parse_time`.

  /** Where the digits start: after a leading `-`, if there is one. */
  function DigitsStart(time: string): nat
  {
    if |time| > 0 && time[0] == '-' then 1 else 0
  }

  /** `(-?[0-9]+)h`, case-insensitive, matches `time[..k + 1]`, the unit sitting at `k`. */
  predicate TimeMatch(time: string, k: int)
  {
    DigitsStart(time) < k < |time|
    && (forall i :: DigitsStart(time) <= i < k ==> Strings.IsDigit(time[i]))
    && time[k] in {'h', 'H'}
  }

  /** `int(m.group(1))`: the digits' value, negated after a `-`. */
  function Hours(time: string, k: int): int
    requires TimeMatch(time, k)
  {
    var n: int := Strings.DigitsValue(time[DigitsStart(time)..k]);
    if DigitsStart(time) == 1 then -n else n
  }

  /**
   * `parse_time(time)`: the signed hours of the `-Xh` prefix of `time`, or
   * `ValueError` when `time` does not start with one.
   */
  function ParseTime(time: string): (r: Result<int, string>)
    ensures r.Ok? <==> exists k :: TimeMatch(time, k)
    ensures forall k :: TimeMatch(time, k) ==> r == Ok(Hours(time, k))
    ensures r.Err? ==> r.error == "ValueError"
  {
    var start := DigitsStart(time);
    var d := Strings.LeadingDigits(time[start..]);
    TimeMatchUnique(time, start + |d|);
    if |d| > 0 && start + |d| < |time| && time[start + |d|] in {'h', 'H'} then
      assert time[start..start + |d|] == d;
      assert forall i :: start <= i < start + |d| ==> time[i] == d[i - start];
      assert TimeMatch(time, start + |d|);
      var n: int := Strings.DigitsValue(d);
      Ok(if start == 1 then -n else n)
    else
      Err("ValueError")
  }

  /** Greedy digits decide the match: the unit can only sit right after the longest run of digits. */
  lemma TimeMatchUnique(time: string, end: int)
    requires DigitsStart(time) <= end <= |time|
    requires end == DigitsStart(time) + |Strings.LeadingDigits(time[DigitsStart(time)..])|
    ensures forall k :: TimeMatch(time, k) ==> k == end
  {
  }

  /** The text `str(n) + 'h'` a user types for `n` hours. */
  function HoursText(n: int): string
  {
    (if n < 0 then "-" else "") + Strings.NatDigits(if n < 0 then -n else n) + "h"
  }

  /** Parsing the typed text gives back the hours, whatever follows it. */
  lemma ParseTimeRoundTrip(n: int, rest: string)
    ensures ParseTime(HoursText(n) + rest) == Ok(n)
  {
    var sign := if n < 0 then "-" else "";
    var d := Strings.NatDigits(if n < 0 then -n else n);
    var time := HoursText(n) + rest;
    assert time == sign + d + "h" + rest;
    var k := |sign| + |d|;
    assert time[k] == 'h';
    assert DigitsStart(time) == |sign|;
    assert time[|sign|..k] == d;
    assert TimeMatch(time, k);
  }

  // `alerts`.

  /** The options of the script that shape the alerts statement and the columns shown. */
  datatype AlertArgs = AlertArgs(
    titles: Option<seq<string>>, order: string, status: Option<int>, performed: Option<int>, limit: int,
    hash: bool, time: bool, url: bool, anon: bool, drop: Option<seq<string>>,
    after: Option<string>, before: Option<string>)

  /** Whether any filter option is given: each calls `build_where` once, before anything can fail. */
  predicate AnyFilter(args: AlertArgs)
  {
    args.status.Some? || args.performed.Some? || args.titles.Some? || args.before.Some? || args.after.Some?
  }

  /** The filter of an optional number: one placeholder, one parameter. */
  function NumberFilter(condition: string, v: Option<int>): seq<Filter>
  {
    if v.None? then [] else [Filter(condition, [Int(v.value)])]
  }

  /** The title filter: one placeholder per title, the titles as its parameters. */
  function TitlesFilter(titles: Option<seq<string>>): seq<Filter>
  {
    match titles
    case None => []
    case Some(ts) => [Filter(TitleIn(|ts|), seq(|ts|, i requires 0 <= i < |ts| => Text(ts[i])))]
  }

  /** The filter of an optional time bound; `parse_time` raises `ValueError` on a malformed one. */
  function TimeFilter(condition: string, time: Option<string>): Result<seq<Filter>, string>
  {
    match time
    case None => Ok([])
    case Some(t) =>
      match ParseTime(t)
      case Err(e) => Err(e)
      case Ok(h) => Ok([Filter(condition, [Int(h)])])
  }

  /** The filters of the options that need no parsing: status, performed, titles. */
  function ChoiceFilters(args: AlertArgs): seq<Filter>
  {
    NumberFilter(STATUS_WHERE, args.status) + NumberFilter(PERFORMED_WHERE, args.performed) + TitlesFilter(args.titles)
  }

  /** The filters of `alerts`, in the order status, performed, titles, before, after. */
  function AlertFilters(args: AlertArgs): Result<seq<Filter>, string>
  {
    match TimeFilter(BEFORE, args.before)
    case Err(e) => Err(e)
    case Ok(before) =>
      match TimeFilter(AFTER, args.after)
      case Err(e) => Err(e)
      case Ok(after) =>
        Ok(ChoiceFilters(args) + before + after)
  }

  /**
   * The statement `alerts` sends when `HAS_WHERE` starts as `hasWhere`: the
   * filters, the ordering and the limit, whose value is the last parameter.
   */
  function AlertsStatement(args: AlertArgs, hasWhere: bool): Result<Statement, string>
  {
    match AlertFilters(args)
    case Err(e) => Err(e)
    case Ok(fs) =>
      match BuildOrderBy(args.order)
      case Err(e) => Err(e)
      case Ok(orderBy) => Ok(Statement(MAIN_QUERY + Conditions(fs, hasWhere) + orderBy + "\n" + LIMIT, Params(fs) + [Int(args.limit)]))
  }

  /** The number conditions hold one placeholder each. */
  lemma NumberHoles()
    ensures Holes(STATUS_WHERE) == 1 && Holes(PERFORMED_WHERE) == 1
  {
    OneHole("status = ", "");
    OneHole("performed = ", "");
  }

  /** The upper time bound holds one placeholder. */
  lemma BeforeHoles()
    ensures Holes(BEFORE) == 1
  {
    OneHole("event_time <= DATE_ADD(NOW(), INTERVAL ", " HOUR)");
  }

  /** The lower time bound holds one placeholder. */
  lemma AfterHoles()
    ensures Holes(AFTER) == 1
  {
    OneHole("event_time >= DATE_ADD(NOW(), INTERVAL ", " HOUR)");
  }

  /** A number filter over a one-placeholder condition is balanced. */
  lemma NumberFilterBalanced(condition: string, v: Option<int>)
    requires Holes(condition) == 1
    ensures Balanced(NumberFilter(condition, v))
  {
  }

  /** A time filter over a one-placeholder condition is balanced. */
  lemma TimeFilterBalanced(condition: string, time: Option<string>)
    requires Holes(condition) == 1 && TimeFilter(condition, time).Ok?
    ensures Balanced(TimeFilter(condition, time).value)
  {
  }

  /** The title filter has one placeholder per title. */
  lemma TitlesFilterBalanced(titles: Option<seq<string>>)
    ensures Balanced(TitlesFilter(titles))
  {
    if titles.Some? {
      TitleInPlaceholders(|titles.value|);
    }
  }

  /** Five balanced lists of filters, one after the other, are balanced. */
  lemma BalancedFive(a: seq<Filter>, b: seq<Filter>, c: seq<Filter>, d: seq<Filter>, e: seq<Filter>)
    requires Balanced(a) && Balanced(b) && Balanced(c) && Balanced(d) && Balanced(e)
    ensures Balanced(a + b + c + d + e)
  {
    BalancedAppend(a, b);
    BalancedAppend(a + b, c);
    BalancedAppend(a + b + c, d);
    BalancedAppend(a + b + c + d, e);
  }

  /** Every filter of `alerts` has one placeholder per parameter. */
  lemma AlertFiltersBalanced(args: AlertArgs)
    requires AlertFilters(args).Ok?
    ensures Balanced(AlertFilters(args).value)
  {
    NumberHoles();
    BeforeHoles();
    AfterHoles();
    NumberFilterBalanced(STATUS_WHERE, args.status);
    NumberFilterBalanced(PERFORMED_WHERE, args.performed);
    TitlesFilterBalanced(args.titles);
    TimeFilterBalanced(BEFORE, args.before);
    TimeFilterBalanced(AFTER, args.after);
    BalancedFive(NumberFilter(STATUS_WHERE, args.status), NumberFilter(PERFORMED_WHERE, args.performed),
                 TitlesFilter(args.titles), TimeFilter(BEFORE, args.before).value, TimeFilter(AFTER, args.after).value);
  }

  /**
   * The statement `alerts` sends holds, after the fixed SELECT text, exactly
   * one placeholder per parameter, and its last parameter is the limit.
   */
  lemma AlertsPlaceholders(args: AlertArgs, hasWhere: bool)
    requires AlertsStatement(args, hasWhere).Ok?
    ensures Holes(AlertsStatement(args, hasWhere).value.sql) == Holes(MAIN_QUERY) + |AlertsStatement(args, hasWhere).value.params|
    ensures AlertsStatement(args, hasWhere).value.params[|AlertsStatement(args, hasWhere).value.params| - 1] == Int(args.limit)
  {
    var fs := AlertFilters(args).value;
    var orderBy := BuildOrderBy(args.order).value;
    AlertFiltersBalanced(args);
    ConditionsHoles(fs, hasWhere);
    NoPercentNoHoles(orderBy);
    NoPercentNoHoles("\n");
    OneHole("LIMIT ", "");
    var c := MAIN_QUERY + Conditions(fs, hasWhere);
    HolesAppend(MAIN_QUERY, Conditions(fs, hasWhere));
    HolesAppend(c, orderBy);
    HolesAppend(c + orderBy, "\n");
    HolesAppend(c + orderBy + "\n", LIMIT);
  }

  /**
   * `HAS_WHERE` is never cleared: the conditions open with `WHERE` only when
   * no earlier `build_where` ran in the process, and with `AND` otherwise.
   */
  lemma AlertsWhereOnce(args: AlertArgs, hasWhere: bool) returns (rest: string)
    requires AlertsStatement(args, hasWhere).Ok? && AnyFilter(args)
    ensures AlertsStatement(args, hasWhere).value.sql == MAIN_QUERY + (if hasWhere then "AND " else "WHERE ") + rest
  {
    var fs := AlertFilters(args).value;
    var orderBy := BuildOrderBy(args.order).value;
    assert |fs| > 0;
    var word := if hasWhere then "AND " else "WHERE ";
    ConditionsOpen(fs, hasWhere);
    rest := SliceAfter(MAIN_QUERY, Conditions(fs, hasWhere), word, orderBy, "\n", LIMIT);
  }

  /** Non-empty conditions open with `WHERE` or, after an earlier one, `AND`. */
  lemma ConditionsOpen(fs: seq<Filter>, hasWhere: bool)
    requires |fs| > 0
    ensures var word := if hasWhere then "AND " else "WHERE ";
            |word| <= |Conditions(fs, hasWhere)| && Conditions(fs, hasWhere)[..|word|] == word
  {
    var word := if hasWhere then "AND " else "WHERE ";
    WhereWords(fs[0].condition, hasWhere);
    var rest := fs[0].condition + "\n" + Conditions(fs[1..], true);
    assert Conditions(fs, hasWhere) == word + rest;
  }

  /** The text right after `base` is the start of what follows it. */
  lemma SliceAfter(base: string, cond: string, word: string, a: string, b: string, c: string) returns (rest: string)
    requires |word| <= |cond| && cond[..|word|] == word
    ensures base + cond + a + b + c == base + word + rest
  {
    rest := cond[|word|..] + a + b + c;
    assert cond == word + cond[|word|..];
    assert base + cond + a + b + c == base + word + rest;
  }

  /** The text after `base` holds the chained conditions of `fs`, `HAS_WHERE` having started as `start`. */
  ghost predicate Chained(base: string, query: string, params: seq<Value>, fs: seq<Filter>, start: bool, hasWhere: bool)
  {
    query == base + Conditions(fs, start) && params == Params(fs) && hasWhere == (start || |fs| > 0)
  }

  // The process-wide flag and the statement built with it.

  /** The process-wide state of the script. */
  class Script {
    /** `HAS_WHERE`: set by the first `build_where` of the process and never cleared. */
    var hasWhere: bool

    constructor()
      ensures !hasWhere
    {
      hasWhere := false;
    }

    /** `build_where(condition)`: `WHERE` the first time, `AND` ever after. */
    method BuildWhere(condition: string) returns (s: string)
      modifies this
      ensures s == SqlText.BuildWhere(condition, old(hasWhere))
      ensures hasWhere
    {
      var word := "";
      if hasWhere {
        word := word + "AND";
      } else {
        hasWhere := true;
        word := word + "WHERE";
      }
      s := word + " " + condition + "\n";
    }

    /** `query += build_where(condition)` and the filter's parameters appended. */
    method AddFilter(query: string, params: seq<Value>, f: Filter, ghost base: string, ghost fs: seq<Filter>, ghost start: bool)
      returns (query': string, params': seq<Value>)
      requires Chained(base, query, params, fs, start, hasWhere)
      modifies this
      ensures Chained(base, query', params', fs + [f], start, hasWhere)
    {
      ConditionsSnoc(fs, f, start);
      var clause := BuildWhere(f.condition);
      query' := query + clause;
      params' := params + f.params;
      Util.AppendAssoc(base, Conditions(fs, start), clause);
    }

    /** `if value is not None:` the condition with the value as its one parameter. */
    method AddNumber(query: string, params: seq<Value>, condition: string, v: Option<int>,
                     ghost base: string, ghost fs: seq<Filter>, ghost start: bool)
      returns (query': string, params': seq<Value>)
      requires Chained(base, query, params, fs, start, hasWhere)
      modifies this
      ensures Chained(base, query', params', fs + NumberFilter(condition, v), start, hasWhere)
      ensures hasWhere == (old(hasWhere) || v.Some?)
    {
      query', params' := query, params;
      if v.Some? {
        query', params' := AddFilter(query, params, Filter(condition, [Int(v.value)]), base, fs, start);
      } else {
        assert fs + [] == fs;
      }
    }

    /** `if args.titles is not None:` the title condition with the titles as its parameters. */
    method AddTitles(query: string, params: seq<Value>, titles: Option<seq<string>>,
                     ghost base: string, ghost fs: seq<Filter>, ghost start: bool)
      returns (query': string, params': seq<Value>)
      requires Chained(base, query, params, fs, start, hasWhere)
      modifies this
      ensures Chained(base, query', params', fs + TitlesFilter(titles), start, hasWhere)
      ensures hasWhere == (old(hasWhere) || titles.Some?)
    {
      query', params' := query, params;
      if titles.Some? {
        var ts := titles.value;
        var f := Filter(TitleIn(|ts|), seq(|ts|, i requires 0 <= i < |ts| => Text(ts[i])));
        query', params' := AddFilter(query, params, f, base, fs, start);
      } else {
        assert fs + [] == fs;
      }
    }

    /**
     * `if bound is not None:` the time condition is appended (and `HAS_WHERE`
     * set) before `parse_time` runs, so a malformed bound raises after the flag
     * has changed.
     */
    method AddTime(query: string, params: seq<Value>, condition: string, time: Option<string>,
                   ghost base: string, ghost fs: seq<Filter>, ghost start: bool)
      returns (r: Result<(string, seq<Value>), string>)
      requires Chained(base, query, params, fs, start, hasWhere)
      modifies this
      ensures hasWhere == (old(hasWhere) || time.Some?)
      ensures r.Err? <==> TimeFilter(condition, time).Err?
      ensures r.Err? ==> r.error == TimeFilter(condition, time).error
      ensures r.Ok? ==> Chained(base, r.value.0, r.value.1, fs + TimeFilter(condition, time).value, start, hasWhere)
    {
      if time.None? {
        assert fs + [] == fs;
        return Ok((query, params));
      }
      var clause := BuildWhere(condition);
      var h := ParseTime(time.value);
      if h.Err? {
        return Err(h.error);
      }
      var f := Filter(condition, [Int(h.value)]);
      ConditionsSnoc(fs, f, start);
      Util.AppendAssoc(base, Conditions(fs, start), clause);
      r := Ok((query + clause, params + f.params));
    }

    /** The status, performed and title filters, after the fixed SELECT text. */
    method AddChoices(args: AlertArgs) returns (query: string, params: seq<Value>)
      modifies this
      ensures Chained(MAIN_QUERY, query, params, ChoiceFilters(args), old(hasWhere), hasWhere)
      ensures hasWhere == (old(hasWhere) || args.status.Some? || args.performed.Some? || args.titles.Some?)
    {
      ghost var start := hasWhere;
      query, params := MAIN_QUERY, [];
      assert MAIN_QUERY + Conditions([], start) == MAIN_QUERY;
      query, params := AddNumber(query, params, STATUS_WHERE, args.status, MAIN_QUERY, [], start);
      assert [] + NumberFilter(STATUS_WHERE, args.status) == NumberFilter(STATUS_WHERE, args.status);
      ghost var fs := NumberFilter(STATUS_WHERE, args.status);
      query, params := AddNumber(query, params, PERFORMED_WHERE, args.performed, MAIN_QUERY, fs, start);
      fs := fs + NumberFilter(PERFORMED_WHERE, args.performed);
      query, params := AddTitles(query, params, args.titles, MAIN_QUERY, fs, start);
    }

    /** The filters of `alerts`, clause by clause, after the fixed SELECT text. */
    method BuildFilters(args: AlertArgs) returns (r: Result<(string, seq<Value>), string>)
      modifies this
      ensures hasWhere == (old(hasWhere) || AnyFilter(args))
      ensures r.Err? <==> AlertFilters(args).Err?
      ensures r.Err? ==> r.error == AlertFilters(args).error
      ensures r.Ok? ==> Chained(MAIN_QUERY, r.value.0, r.value.1, AlertFilters(args).value, old(hasWhere), hasWhere)
    {
      ghost var start := hasWhere;
      var query, params := AddChoices(args);
      ghost var fs := ChoiceFilters(args);
      var before := AddTime(query, params, BEFORE, args.before, MAIN_QUERY, fs, start);
      if before.Err? {
        return Err(before.error);
      }
      fs := fs + TimeFilter(BEFORE, args.before).value;
      var after := AddTime(before.value.0, before.value.1, AFTER, args.after, MAIN_QUERY, fs, start);
      if after.Err? {
        return Err(after.error);
      }
      fs := fs + TimeFilter(AFTER, args.after).value;
      assert AlertFilters(args) == Ok(fs);
      r := after;
    }

    /** The statement-building part of `alerts`: the filters, the ordering and the limit. */
    method BuildAlertsQuery(args: AlertArgs) returns (r: Result<Statement, string>)
      modifies this
      ensures r == AlertsStatement(args, old(hasWhere))
      ensures hasWhere == (old(hasWhere) || AnyFilter(args))
    {
      var filters := BuildFilters(args);
      if filters.Err? {
        return Err(filters.error);
      }
      var orderBy := BuildOrderBy(args.order);
      if orderBy.Err? {
        return Err(orderBy.error);
      }
      var query := filters.value.0 + orderBy.value + "\n";
      query := query + LIMIT;
      var params := filters.value.1 + [Int(args.limit)];
      r := Ok(Statement(query, params));
    }

    /**
     * `alerts(args)`: the statement sent to `db`, its rows as dictionaries,
     * the hidden columns dropped and the rest laid out as `fields` and a
     * matrix.
     */
    method Alerts(args: AlertArgs, db: Statement -> seq<seq<Value>>)
      returns (r: Result<(seq<string>, seq<seq<Value>>), string>)
      modifies this
      ensures hasWhere == (old(hasWhere) || AnyFilter(args))
      ensures match AlertsStatement(args, old(hasWhere))
              case Err(e) => r == Err(e)
              case Ok(st) => r == Table(args, db(st))
    {
      var statement := BuildAlertsQuery(args);
      if statement.Err? {
        return Err(statement.error);
      }
      var results := BuildQueryDict(QUERY_FIELDS, db(statement.value));
      var toRemove := ToRemove(args);
      results := DropColumns(results, toRemove);
      var fields := Kept(QUERY_FIELDS, toRemove);
      var matrix := Matrix(results, fields);
      if matrix.Err? {
        return Err(matrix.error);
      }
      r := Ok((fields, matrix.value));
    }
  }

  // The columns shown.

  /** Whether the options hide column `c`: a `--drop` name, or a column a flag hides. */
  predicate Hidden(args: AlertArgs, c: string)
  {
    (args.drop.Some? && c in args.drop.value) || (c == "hash" && !args.hash) || (c == "status" && args.status.Some?)
    || (c == "event_time" && !args.time) || (c == "splunk_url" && !args.url) || (c == "ldap" && args.anon)
  }

  /** `to_remove`: the `--drop` names, then the columns the flags hide. */
  function ToRemove(args: AlertArgs): (r: seq<string>)
    ensures forall c :: c in r <==> Hidden(args, c)
  {
    var drop := if args.drop.Some? then args.drop.value else [];
    var hash := if args.hash then [] else ["hash"];
    var status := if args.status.Some? then ["status"] else [];
    var time := if args.time then [] else ["event_time"];
    var url := if args.url then [] else ["splunk_url"];
    var anon := if args.anon then ["ldap"] else [];
    drop + hash + status + time + url + anon
  }

  /** Each row without the removed columns. */
  function Dropped(rows: seq<map<string, Value>>, toRemove: seq<string>): (r: seq<map<string, Value>>)
    ensures |r| == |rows|
    ensures forall i, k :: 0 <= i < |rows| ==> (k in r[i] <==> k in rows[i] && k !in toRemove)
    ensures forall i, k :: 0 <= i < |rows| && k in r[i] ==> k in rows[i] && r[i][k] == rows[i][k]
  {
    var r := seq(|rows|, i requires 0 <= i < |rows| => rows[i] - Names(toRemove));
    assert forall i :: 0 <= i < |rows| ==> r[i] == rows[i] - Names(toRemove);
    r
  }

  /** The names listed in `s`. */
  function Names(s: seq<string>): (r: set<string>)
    ensures forall c :: c in r <==> c in s
  {
    set c | c in s
  }

  /** `for row in results: for col in to_remove: row.pop(col, None)`. */
  method DropColumns(rows: seq<map<string, Value>>, toRemove: seq<string>) returns (rows': seq<map<string, Value>>)
    ensures rows' == Dropped(rows, toRemove)
  {
    rows' := rows;
    var i := 0;
    while i < |rows'|
      invariant 0 <= i <= |rows'| == |rows|
      invariant forall j :: 0 <= j < i ==> rows'[j] == rows[j] - Names(toRemove)
      invariant forall j :: i <= j < |rows| ==> rows'[j] == rows[j]
    {
      var row := rows'[i];
      var k := 0;
      while k < |toRemove|
        invariant 0 <= k <= |toRemove|
        invariant row == rows[i] - Names(toRemove[..k])
      {
        assert toRemove[..k + 1] == toRemove[..k] + [toRemove[k]];
        row := row - {toRemove[k]};
        k := k + 1;
      }
      assert toRemove[..k] == toRemove;
      rows' := rows'[i := row];
      i := i + 1;
    }
  }

  /** `[field for field in fields if field not in to_remove]`. */
  function Kept(fields: seq<string>, toRemove: seq<string>): (r: seq<string>)
    ensures forall f :: f in r <==> f in fields && f !in toRemove
    ensures |r| <= |fields|
  {
    if |fields| == 0 then []
    else (if fields[0] in toRemove then [] else [fields[0]]) + Kept(fields[1..], toRemove)
  }

  /** Keeping distributes over concatenation: the kept fields stay in their original order. */
  lemma {:induction false} KeptAppend(a: seq<string>, b: seq<string>, toRemove: seq<string>)
    ensures Kept(a + b, toRemove) == Kept(a, toRemove) + Kept(b, toRemove)
  {
    if |a| == 0 {
      assert a + b == b;
    } else {
      assert (a + b)[1..] == a[1..] + b;
      KeptAppend(a[1..], b, toRemove);
    }
  }

  /** `[[row[field] for field in fields] for row in results]`: `KeyError` when a row lacks a field. */
  function Matrix(rows: seq<map<string, Value>>, fields: seq<string>): (r: Result<seq<seq<Value>>, string>)
    ensures r.Ok? <==> forall i, j :: 0 <= i < |rows| && 0 <= j < |fields| ==> fields[j] in rows[i]
    ensures r.Ok? ==> |r.value| == |rows| && forall i :: 0 <= i < |rows| ==> |r.value[i]| == |fields|
    ensures r.Ok? ==> forall i, j :: 0 <= i < |rows| && 0 <= j < |fields| ==> r.value[i][j] == rows[i][fields[j]]
  {
    if forall i, j :: 0 <= i < |rows| && 0 <= j < |fields| ==> fields[j] in rows[i] then
      Ok(seq(|rows|, i requires 0 <= i < |rows| =>
        seq(|fields|, j requires 0 <= j < |fields| && fields[j] in rows[i] => rows[i][fields[j]])))
    else
      Err("KeyError")
  }

  /** What `alerts` returns for the rows `raw` the database gave back. */
  function Table(args: AlertArgs, raw: seq<seq<Value>>): Result<(seq<string>, seq<seq<Value>>), string>
  {
    var toRemove := ToRemove(args);
    var fields := Kept(QUERY_FIELDS, toRemove);
    match Matrix(Dropped(BuildQueryDict(QUERY_FIELDS, raw), toRemove), fields)
    case Err(e) => Err(e)
    case Ok(m) => Ok((fields, m))
  }

  /**
   * Rows with a value for every column give a table: the kept columns, and
   * per row their values, taken positionally from the row.
   */
  lemma FullRowsTable(args: AlertArgs, raw: seq<seq<Value>>)
    requires forall i :: 0 <= i < |raw| ==> |raw[i]| >= |QUERY_FIELDS|
    ensures Table(args, raw).Ok?
    ensures var (fields, m) := Table(args, raw).value;
            fields == Kept(QUERY_FIELDS, ToRemove(args)) && |m| == |raw|
            && forall i, j :: 0 <= i < |raw| && 0 <= j < |fields| ==>
                 |m[i]| == |fields| && m[i][j] == BuildQueryDict(QUERY_FIELDS, raw)[i][fields[j]]
  {
    var toRemove := ToRemove(args);
    var fields := Kept(QUERY_FIELDS, toRemove);
    var dicts := BuildQueryDict(QUERY_FIELDS, raw);
    var rows := Dropped(dicts, toRemove);
    forall i, j | 0 <= i < |raw| && 0 <= j < |fields|
      ensures fields[j] in rows[i] && rows[i][fields[j]] == dicts[i][fields[j]]
    {
      KeptField(fields[j], toRemove, raw[i]);
    }
  }

  /** A kept field has a value in every dictionary built from a full row. */
  lemma KeptField(f: string, toRemove: seq<string>, row: seq<Value>)
    requires f in Kept(QUERY_FIELDS, toRemove) && |row| >= |QUERY_FIELDS|
    ensures f in RowDict(QUERY_FIELDS, row) && f !in toRemove
  {
    var k :| 0 <= k < |QUERY_FIELDS| && QUERY_FIELDS[k] == f;
  }

  /** Every matrix row has one value per shown field. */
  lemma TableShape(args: AlertArgs, raw: seq<seq<Value>>)
    ensures Table(args, raw).Ok? ==>
              var (fields, m) := Table(args, raw).value;
              |m| == |raw| && forall i :: 0 <= i < |m| ==> |m[i]| == |fields|
  {
  }

  // `pretty_print`.

  /** How many columns `zip(*contents)` yields: the length of the shortest row. */
  function ColumnCount(contents: seq<seq<string>>): (n: nat)
    requires |contents| > 0
    ensures forall i :: 0 <= i < |contents| ==> n <= |contents[i]|
    ensures exists i :: 0 <= i < |contents| && n == |contents[i]|
  {
    if |contents| == 1 then |contents[0]|
    else
      var m := ColumnCount(contents[1..]);
      assert forall i :: 1 <= i < |contents| ==> contents[i] == contents[1..][i - 1];
      if |contents[0]| < m then |contents[0]| else m
  }

  /** `max([len(item) for item in col])`: the width of column `c`. */
  function Width(contents: seq<seq<string>>, c: nat): (w: nat)
    requires |contents| > 0 && forall i :: 0 <= i < |contents| ==> c < |contents[i]|
    ensures forall i :: 0 <= i < |contents| ==> |contents[i][c]| <= w
    ensures exists i :: 0 <= i < |contents| && |contents[i][c]| == w
  {
    if |contents| == 1 then |contents[0][c]|
    else
      var m := Width(contents[1..], c);
      assert forall i :: 1 <= i < |contents| ==> contents[i] == contents[1..][i - 1];
      if |contents[0][c]| > m then |contents[0][c]| else m
  }

  /** `lens`: one width per column. */
  function Widths(contents: seq<seq<string>>): (ws: seq<nat>)
    requires |contents| > 0
    ensures |ws| == ColumnCount(contents)
    ensures forall i, c :: 0 <= i < |contents| && 0 <= c < |ws| ==> |contents[i][c]| <= ws[c]
  {
    seq(ColumnCount(contents), c requires 0 <= c < ColumnCount(contents) => Width(contents, c))
  }

  /** `s` left-aligned and padded with spaces to width `w`. */
  function Padded(s: string, w: nat): (r: string)
    ensures |r| == if |s| < w then w else |s|
    ensures r[..|s|] == s && forall i :: |s| <= i < |r| ==> r[i] == ' '
  {
    if |s| < w then s + seq(w - |s|, _ => ' ') else s
  }

  /**
   * `'{:w}'.format(s)`: `s` left-aligned, padded with spaces to width `w`.
   * A width of 0 writes the spec `'{:0}'`, whose leading `0` asks for zero
   * padding after the sign, an alignment Python 2.7 refuses for strings
   * with ValueError.
   */
  function Pad(s: string, w: nat): (r: Result<string, string>)
    ensures r.Err? <==> w == 0
    ensures r.Err? ==> r.error == "ValueError"
    ensures r.Ok? ==> |r.value| == (if |s| < w then w else |s|) && r.value[..|s|] == s
    ensures r.Ok? ==> forall i :: |s| <= i < |r.value| ==> r.value[i] == ' '
  {
    if w == 0 then Err("ValueError") else Ok(Padded(s, w))
  }

  /** Every column width gives a format spec that strings accept. */
  predicate Formattable(widths: seq<nat>)
  {
    forall c :: 0 <= c < |widths| ==> widths[c] > 0
  }

  /** The padded cells of the first `|widths|` columns of a row. */
  function Cells(row: seq<string>, widths: seq<nat>): seq<string>
    requires |widths| <= |row|
  {
    seq(|widths|, c requires 0 <= c < |widths| => Padded(row[c], widths[c]))
  }

  /** The padded cells joined with `' | '`. */
  function Line(row: seq<string>, widths: seq<nat>): string
    requires |widths| <= |row|
  {
    Strings.Join(Cells(row, widths), " | ")
  }

  /** `fmt.format(*row)`: each cell as `Pad` formats it, joined with `' | '`; a zero width raises ValueError. */
  function FormatRow(row: seq<string>, widths: seq<nat>): (r: Result<string, string>)
    requires |widths| <= |row|
    ensures r.Err? <==> exists c :: 0 <= c < |widths| && Pad(row[c], widths[c]).Err?
    ensures r.Err? ==> r.error == "ValueError"
    ensures r.Ok? ==> forall c :: 0 <= c < |widths| ==> Pad(row[c], widths[c]) == Ok(Cells(row, widths)[c])
  {
    if Formattable(widths) then Ok(Line(row, widths)) else Err("ValueError")
  }

  /** The length of a line of cells of the given widths. */
  function LineWidth(widths: seq<nat>): nat
  {
    if |widths| == 0 then 0 else if |widths| == 1 then widths[0] else widths[0] + 3 + LineWidth(widths[1..])
  }

  /** A row whose cells fit their widths is formatted to exactly the line width. */
  lemma {:induction false} FormatRowWidth(row: seq<string>, widths: seq<nat>)
    requires |widths| <= |row| && forall c :: 0 <= c < |widths| ==> |row[c]| <= widths[c]
    ensures |Line(row, widths)| == LineWidth(widths)
    ensures FormatRow(row, widths).Ok? ==> |FormatRow(row, widths).value| == LineWidth(widths)
  {
    if |widths| > 1 {
      assert Cells(row, widths)[1..] == Cells(row[1..], widths[1..]);
      FormatRowWidth(row[1..], widths[1..]);
    }
  }

  /** The dashes under the header. */
  function Dashes(n: nat): string
  {
    seq(n, _ => '-')
  }

  /**
   * `table`: every row of `[fields] + matrix` formatted with the column
   * widths, and a line of dashes as long as the header inserted after it;
   * ValueError when a column has width 0.
   */
  function TableLines(fields: seq<string>, matrix: seq<seq<string>>): (r: Result<seq<string>, string>)
    ensures r.Err? <==> !Formattable(Widths([fields] + matrix))
    ensures r.Err? ==> r.error == "ValueError"
    ensures r.Ok? ==>
              var t := r.value;
              && |t| == |matrix| + 2
              && FormatRow(fields, Widths([fields] + matrix)) == Ok(t[0])
              && t[1] == Dashes(|t[0]|)
              && forall i :: 0 <= i < |t| ==> |t[i]| == |t[0]|
  {
    match Formatted([fields] + matrix)
    case Err(e) => Err(e)
    case Ok(table) =>
      InsertSecond(table, Dashes(|table[0]|));
      Ok(table[..1] + [Dashes(|table[0]|)] + table[1..])
  }

  /** Below the dashes, line `i + 2` is matrix row `i` formatted with the widths of the whole table. */
  lemma TableLinesRow(fields: seq<string>, matrix: seq<seq<string>>, i: nat)
    requires i < |matrix|
    ensures var contents := [fields] + matrix;
            && |Widths(contents)| <= |matrix[i]|
            && (TableLines(fields, matrix).Ok? ==> FormatRow(matrix[i], Widths(contents)) == Ok(TableLines(fields, matrix).value[i + 2]))
  {
    var contents := [fields] + matrix;
    assert contents[i + 1] == matrix[i];
    var f := Formatted(contents);
    if f.Ok? {
      InsertSecond(f.value, Dashes(|f.value[0]|));
    }
  }

  /** Column `c` holds only empty cells, the header's included. */
  predicate EmptyColumn(contents: seq<seq<string>>, c: nat)
  {
    forall i :: 0 <= i < |contents| ==> c < |contents[i]| && |contents[i][c]| == 0
  }

  /** A column is too narrow to format exactly when every cell of it, the header's included, is empty. */
  lemma TableLinesFails(fields: seq<string>, matrix: seq<seq<string>>)
    ensures TableLines(fields, matrix).Err? <==>
              exists c :: 0 <= c < ColumnCount([fields] + matrix) && EmptyColumn([fields] + matrix, c)
  {
    var contents := [fields] + matrix;
    var ws := Widths(contents);
    if TableLines(fields, matrix).Err? {
      var c :| 0 <= c < |ws| && ws[c] == 0;
      assert EmptyColumn(contents, c);
    }
    if exists c :: 0 <= c < ColumnCount(contents) && EmptyColumn(contents, c) {
      var c :| 0 <= c < ColumnCount(contents) && EmptyColumn(contents, c);
      WidthsTight(contents, c);
      assert ws[c] == 0;
    }
  }

  /** Non-empty field names, as every table of the script has, always format. */
  lemma NamedFieldsFormat(fields: seq<string>, matrix: seq<seq<string>>)
    requires forall j :: 0 <= j < |fields| ==> |fields[j]| > 0
    ensures TableLines(fields, matrix).Ok?
  {
    var contents := [fields] + matrix;
    var ws := Widths(contents);
    forall c | 0 <= c < |ws|
      ensures ws[c] > 0
    {
      assert |contents[0][c]| <= ws[c];
    }
  }

  /** A single empty field name is a column of width 0: printing the table raises ValueError. */
  lemma EmptyFieldFails()
    ensures TableLines([""], []) == Err("ValueError")
  {
    TableLinesFails([""], []);
    var contents: seq<seq<string>> := [[""]] + [];
    assert ColumnCount(contents) == 1;
    assert EmptyColumn(contents, 0);
  }

  /** `table.insert(1, x)`: `x` becomes the second element and the rest move up by one. */
  lemma InsertSecond<X>(table: seq<X>, x: X)
    requires |table| > 0
    ensures var t := table[..1] + [x] + table[1..];
            |t| == |table| + 1 && t[0] == table[0] && t[1] == x && forall i :: 2 <= i < |t| ==> t[i] == table[i - 1]
  {
  }

  /**
   * `[fmt.format(*row) for row in contents]`: every line as wide as the
   * widths make it, or the ValueError the header row already raises when a
   * column has width 0.
   */
  function Formatted(contents: seq<seq<string>>): (f: Result<seq<string>, string>)
    requires |contents| > 0
    ensures f.Err? <==> !Formattable(Widths(contents))
    ensures f.Err? ==> FormatRow(contents[0], Widths(contents)) == Err(f.error)
    ensures f.Ok? ==> |f.value| == |contents|
    ensures f.Ok? ==> forall i :: 0 <= i < |contents| ==> FormatRow(contents[i], Widths(contents)) == Ok(f.value[i])
    ensures f.Ok? ==> forall i :: 0 <= i < |contents| ==> |f.value[i]| == LineWidth(Widths(contents))
  {
    var widths := Widths(contents);
    if !Formattable(widths) then Err("ValueError")
    else
      forall i | 0 <= i < |contents|
        ensures |Line(contents[i], widths)| == LineWidth(widths)
      {
        FormatRowWidth(contents[i], widths);
      }
      Ok(seq(|contents|, i requires 0 <= i < |contents| => Line(contents[i], widths)))
  }

  /** `pretty_print(fields, matrix)`: the lines joined with newlines (printed by the script). */
  function PrettyPrint(fields: seq<string>, matrix: seq<seq<string>>): (r: Result<string, string>)
    ensures r.Err? <==> TableLines(fields, matrix).Err?
  {
    match TableLines(fields, matrix)
    case Err(e) => Err(e)
    case Ok(t) => Ok(Strings.Join(t, "\n"))
  }

  /** Each column is as wide as its widest cell, header included, and no wider. */
  lemma WidthsTight(contents: seq<seq<string>>, c: nat)
    requires |contents| > 0 && c < ColumnCount(contents)
    ensures forall i :: 0 <= i < |contents| ==> |contents[i][c]| <= Widths(contents)[c]
    ensures exists i :: 0 <= i < |contents| && |contents[i][c]| == Widths(contents)[c]
  {
    var w := Width(contents, c);
  }
}

