/**
 * The pieces of query text the two query builders share
 * (frontend/securitybot_api.py and scripts/query_db.py): the `%s`
 * placeholders of a parameterised statement, the WHERE/AND chaining of its
 * conditions, and the conversion of result rows to dictionaries.
 */
module SqlText {
  import Strings

  /** A value handed to or returned by the database: NULL, a number, a string, a DATETIME (as unix seconds) or a list. */
  datatype Value = Null | Int(i: int) | Text(s: string) | Time(unix: int) | List(items: seq<Value>)

  /** The placeholder the database driver substitutes one parameter for. */
  const PARAM: string := "%s"

  /** The number of `%s` placeholders in `s`. */
  function Holes(s: string): nat
  {
    if |s| < 2 then 0 else (if s[0] == '%' && s[1] == 's' then 1 else 0) + Holes(s[1..])
  }

  /** Two texts that do not form a placeholder where they meet. */
  predicate Joinable(a: string, b: string)
  {
    |a| == 0 || |b| == 0 || a[|a| - 1] != '%' || b[0] != 's'
  }

  /** Placeholders of a concatenation are those of its parts when no new one forms at the seam. */
  lemma {:induction false} HolesAppend(a: string, b: string)
    requires Joinable(a, b)
    ensures Holes(a + b) == Holes(a) + Holes(b)
  {
    if |a| == 0 {
      assert a + b == b;
    } else if |a| == 1 {
      assert (a + b)[1..] == b;
    } else {
      assert (a + b)[1..] == a[1..] + b;
      HolesAppend(a[1..], b);
    }
  }

  /** Text without a `%` holds no placeholder. */
  lemma {:induction false} NoPercentNoHoles(s: string)
    requires '%' !in s
    ensures Holes(s) == 0
  {
    if |s| >= 2 {
      assert s[0] in s;
      assert forall c :: c in s[1..] ==> c in s;
      NoPercentNoHoles(s[1..]);
    }
  }

  /** `head + "%s" + tail` with no `%` in `head` or `tail` holds exactly one placeholder. */
  lemma OneHole(head: string, tail: string)
    requires '%' !in head && '%' !in tail
    ensures Holes(head + PARAM + tail) == 1
  {
    HolesAppend(head + PARAM, tail);
    HolesAppend(head, PARAM);
    NoPercentNoHoles(head);
    NoPercentNoHoles(tail);
  }

  /** `','.join(['%s' for _ in range(n)])`, spelled out from the front. */
  function Placeholders(n: nat): string
  {
    if n == 0 then "" else if n == 1 then PARAM else PARAM + "," + Placeholders(n - 1)
  }

  /** The placeholder list is the comma-join of `n` placeholders. */
  lemma {:induction false} PlaceholdersJoin(n: nat)
    ensures Placeholders(n) == Strings.Join(seq(n, _ => PARAM), ",")
  {
    if n > 1 {
      assert seq(n, _ => PARAM)[1..] == seq(n - 1, _ => PARAM);
      PlaceholdersJoin(n - 1);
    }
  }

  /** The placeholder list holds `n` placeholders. */
  lemma {:induction false} PlaceholdersHoles(n: nat)
    ensures Holes(Placeholders(n)) == n
  {
    if n > 1 {
      var p := Placeholders(n - 1);
      PlaceholdersHoles(n - 1);
      HolesAppend(",", p);
      HolesAppend(PARAM, "," + p);
      assert PARAM + "," + p == PARAM + ("," + p);
    }
  }

  /** The placeholder list is three characters per placeholder less the last comma, and ends in a placeholder. */
  lemma {:induction false} PlaceholdersShape(n: nat)
    ensures n > 0 ==> |Placeholders(n)| == 3 * n - 1 && Placeholders(n)[|Placeholders(n)| - 1] == 's'
  {
    if n > 1 {
      PlaceholdersShape(n - 1);
    }
  }

  /** A `str.format` template with one `{0}` field: the text before and after it. */
  datatype Template = Template(head: string, tail: string)

  /** `template.format(x)`. */
  function Format(t: Template, x: string): string
  {
    t.head + x + t.tail
  }

  /** `build_in(clause, n)`: the template filled with `n` placeholders. */
  function BuildIn(t: Template, n: nat): string
  {
    Format(t, Placeholders(n))
  }

  /** A template without a `%` of its own, filled by `build_in`, holds exactly the `n` placeholders. */
  lemma BuildInHoles(t: Template, n: nat)
    requires '%' !in t.head && '%' !in t.tail
    ensures Holes(BuildIn(t, n)) == n
  {
    PlaceholdersHoles(n);
    PlaceholdersShape(n);
    NoPercentNoHoles(t.head);
    NoPercentNoHoles(t.tail);
    HolesAppend(t.head, Placeholders(n));
    HolesAppend(t.head + Placeholders(n), t.tail);
  }

  /** `'{0} {1}\n'.format('AND' if has_where else 'WHERE', condition)`. */
  function BuildWhere(condition: string, hasWhere: bool): (r: string)
    ensures Holes(r) == Holes(condition)
    ensures |r| > 0 && r[0] != 's' && r[|r| - 1] == '\n'
  {
    var word := if hasWhere then "AND " else "WHERE ";
    HolesAppend(word, condition);
    HolesAppend(word + condition, "\n");
    NoPercentNoHoles(word);
    word + condition + "\n"
  }

  /** `WHERE` starts the first condition and `AND` every later one. */
  lemma WhereWords(condition: string, hasWhere: bool)
    ensures hasWhere ==> BuildWhere(condition, hasWhere) == "AND " + condition + "\n"
    ensures !hasWhere ==> BuildWhere(condition, hasWhere) == "WHERE " + condition + "\n"
  {
  }

  /** `{field: value for field, value in zip(fields, row)}`: pairs stop at the shorter side, and a later field wins. */
  function RowDict(fields: seq<string>, row: seq<Value>): (d: map<string, Value>)
    ensures forall k :: k in d <==> exists i :: 0 <= i < |fields| && i < |row| && fields[i] == k
  {
    var n := if |fields| < |row| then |fields| else |row|;
    if n == 0 then map[]
    else
      var d := RowDict(fields[..n - 1], row[..n - 1]);
      assert forall k :: k in d ==> k in fields[..n - 1];
      d[fields[n - 1] := row[n - 1]]
  }

  /** Names that are pairwise different. */
  predicate Distinct(names: seq<string>)
  {
    forall i, j :: 0 <= i < j < |names| ==> names[i] != names[j]
  }

  /** With distinct field names, the dictionary holds each field's own value. */
  lemma {:induction false} RowDictAt(fields: seq<string>, row: seq<Value>, i: nat)
    requires Distinct(fields) && i < |fields| && i < |row|
    ensures fields[i] in RowDict(fields, row) && RowDict(fields, row)[fields[i]] == row[i]
  {
    var n := if |fields| < |row| then |fields| else |row|;
    if i < n - 1 {
      RowDictAt(fields[..n - 1], row[..n - 1], i);
    }
  }

  /** `build_query_dict(fields, results)`. */
  function BuildQueryDict(fields: seq<string>, results: seq<seq<Value>>): (r: seq<map<string, Value>>)
    ensures |r| == |results|
  {
    seq(|results|, i requires 0 <= i < |results| => RowDict(fields, results[i]))
  }

  /** Each row becomes the dictionary of its own values, keyed by the fields it has a value for. */
  lemma QueryDictRows(fields: seq<string>, results: seq<seq<Value>>, i: nat, j: nat)
    requires Distinct(fields) && i < |results| && j < |fields| && j < |results[i]|
    ensures BuildQueryDict(fields, results)[i][fields[j]] == results[i][j]
  {
    RowDictAt(fields, results[i], j);
  }

  // Statements and their filters.

  /** A statement and the parameters its placeholders stand for. */
  datatype Statement = Statement(sql: string, params: seq<Value>)

  /** One filter of a statement: its condition and the parameters it consumes. */
  datatype Filter = Filter(condition: string, params: seq<Value>)

  /** Every filter's condition has one placeholder per parameter. */
  predicate Balanced(fs: seq<Filter>)
  {
    forall i :: 0 <= i < |fs| ==> Holes(fs[i].condition) == |fs[i].params|
  }

  /** The conditions chained with `WHERE` then `AND`, `hasWhere` saying whether one came before. */
  function Conditions(fs: seq<Filter>, hasWhere: bool): (r: string)
    ensures |r| == 0 || r[0] != 's'
  {
    if |fs| == 0 then "" else BuildWhere(fs[0].condition, hasWhere) + Conditions(fs[1..], true)
  }

  /** The parameters of the filters, in order. */
  function Params(fs: seq<Filter>): seq<Value>
  {
    if |fs| == 0 then [] else fs[0].params + Params(fs[1..])
  }

  /** Appending one filter appends its `WHERE`/`AND` line and its parameters. */
  lemma {:induction false} ConditionsSnoc(fs: seq<Filter>, f: Filter, hasWhere: bool)
    ensures Conditions(fs + [f], hasWhere) == Conditions(fs, hasWhere) + BuildWhere(f.condition, hasWhere || |fs| > 0)
    ensures Params(fs + [f]) == Params(fs) + f.params
  {
    if |fs| > 0 {
      assert (fs + [f])[1..] == fs[1..] + [f];
      ConditionsSnoc(fs[1..], f, true);
    } else {
      assert [f][1..] == [];
    }
  }

  /** The first condition opens with `WHERE` (unless one came before) and every later one with `AND`. */
  lemma {:induction false} ConditionsChain(fs: seq<Filter>, hasWhere: bool)
    ensures Conditions(fs, hasWhere)
         == Strings.Join(seq(|fs|, i requires 0 <= i < |fs| => BuildWhere(fs[i].condition, hasWhere || i > 0)), "")
  {
    if |fs| > 1 {
      ConditionsChain(fs[1..], true);
      var lines := seq(|fs|, i requires 0 <= i < |fs| => BuildWhere(fs[i].condition, hasWhere || i > 0));
      assert lines[1..] == seq(|fs| - 1, i requires 0 <= i < |fs| - 1 => BuildWhere(fs[1..][i].condition, true || i > 0));
    } else if |fs| == 1 {
      assert Conditions(fs[1..], true) == "";
    }
  }

  /** Balanced filters put exactly as many placeholders in the text as parameters in the list. */
  lemma {:induction false} ConditionsHoles(fs: seq<Filter>, hasWhere: bool)
    requires Balanced(fs)
    ensures Holes(Conditions(fs, hasWhere)) == |Params(fs)|
  {
    if |fs| > 0 {
      ConditionsHoles(fs[1..], true);
      HolesAppend(BuildWhere(fs[0].condition, hasWhere), Conditions(fs[1..], true));
    }
  }

  /** A condition text with one placeholder between `head` and `tail`. */
  function WithParam(head: string, tail: string): string
  {
    head + PARAM + tail
  }

  /** Filters from two balanced lists stay balanced. */
  lemma BalancedAppend(a: seq<Filter>, b: seq<Filter>)
    requires Balanced(a) && Balanced(b)
    ensures Balanced(a + b)
  {
    forall i | 0 <= i < |a + b|
      ensures Holes((a + b)[i].condition) == |(a + b)[i].params|
    {
      if i >= |a| {
        assert (a + b)[i] == b[i - |a|];
      }
    }
  }
}
