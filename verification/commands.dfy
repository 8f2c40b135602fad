/**
 * securitybot/commands.py: the functions a chat command runs. Each takes the
 * bot's parts it needs (the blacklist, the user, the ignored table) and
 * returns what the Python function returns, read as truthy or falsy; a
 * function that returns nothing (`None`) is falsy.
 */
module Commands {
  import opened Wrappers
  import Strings
  import Util
  import T = Tasker
  import Blacklist
  import U = User

  /** What calling a command function ends with. */
  datatype Outcome =
    | Returned(truthy: bool)
    | Raised(error: string)

  /** The command functions an entry of the commands configuration can name. */
  datatype Fn = Hi | Help | AddToBlacklist | RemoveFromBlacklist | PositiveResponse | NegativeResponse | Ignore | Test

  /**
   * One configured command. A missing `usage` is the empty list, and a
   * missing success or failure message is `None`.
   */
  datatype CommandInfo = CommandInfo(fn: Fn, info: string, hidden: bool, usage: seq<string>,
                                     successMsg: Option<string>, failureMsg: Option<string>)

  // ---------------------------------------------------------------- hi

  /** `hi`: greets the user by name; returns nothing. */
  method SayHi(user: U.User) returns (out: Outcome)
    requires user.Valid()
    modifies user
    ensures user.Valid() && out == Returned(false)
    ensures user.Data(map[]) == old(user.Data(map[])).(effects := old(user.effects) + [U.Formatted("hi", U.GetName(user.info))])
  {
    user.Record(U.Formatted("hi", U.GetName(user.info)), map[]);
    out := Returned(false);
  }

  // -------------------------------------------------------------- help

  /** A command is listed when it is not hidden or when '-a' is among the arguments. */
  predicate Shown(c: CommandInfo, args: seq<string>)
  {
    !c.hidden || "-a" in args
  }

  /** Each usage line quoted with "> " and a tab. */
  function UsageLines(usage: seq<string>): seq<string>
  {
    seq(|usage|, i requires 0 <= i < |usage| => "> \t" + usage[i])
  }

  /** The lines `help` writes for one listed command. */
  function Entry(name: string, c: CommandInfo, usageLabel: string): string
  {
    "`" + name + "`: " + c.info + "\n"
    + (if |c.usage| > 0 then "> " + usageLabel + ":\n" + Strings.Join(UsageLines(c.usage), "\n") + "\n" else "")
  }

  /** The entries of the listed commands among `names`, in the order of `names`. */
  function Listing(names: seq<string>, commands: map<string, CommandInfo>, args: seq<string>, usageLabel: string): string
    requires forall i :: 0 <= i < |names| ==> names[i] in commands
  {
    if |names| == 0 then ""
    else
      var last := names[|names| - 1];
      Listing(names[..|names| - 1], commands, args, usageLabel)
      + (if Shown(commands[last], args) then Entry(last, commands[last], usageLabel) else "")
  }

  /** The text `help` sends: the header, each listed command in sorted order, the footer. */
  ghost function HelpText(commands: map<string, CommandInfo>, args: seq<string>, header: string, usageLabel: string, footer: string): string
  {
    header + "\n\n" + Listing(Strings.Sorted(commands.Keys), commands, args, usageLabel) + footer
  }

  /** The names of `commands` in sorted order, as `sorted(commands.items())` visits them. */
  method SortedNames(commands: map<string, CommandInfo>) returns (names: seq<string>)
    ensures Strings.StrictlySorted(names)
    ensures forall n :: n in names <==> n in commands
  {
    names := [];
    var remaining := commands.Keys;
    while remaining != {}
      invariant Strings.StrictlySorted(names)
      invariant forall n :: n in commands <==> n in names || n in remaining
      invariant forall i, n :: 0 <= i < |names| && n in remaining ==> Strings.LexLess(names[i], n)
      decreases |remaining|
    {
      ghost var least := Strings.Least(remaining);
      var m :| m in remaining && forall n :: n in remaining ==> Strings.LexLessEq(m, n);
      forall n | n in remaining - {m}
        ensures Strings.LexLess(m, n)
      {
        assert n in remaining && n != m;
        assert Strings.LexLessEq(m, n);
      }
      names := names + [m];
      remaining := remaining - {m};
    }
  }

  /** The text `help` sends: the header, each listed command in sorted order, the footer; `names` is the order visited. */
  method HelpMessage(commands: map<string, CommandInfo>, args: seq<string>, header: string, usageLabel: string, footer: string)
    returns (msg: string, names: seq<string>)
    ensures Strings.StrictlySorted(names) && forall n :: n in names <==> n in commands
    ensures msg == header + "\n\n" + Listing(names, commands, args, usageLabel) + footer
  {
    var sorted := SortedNames(commands);
    msg := header + "\n\n";
    var i := 0;
    while i < |sorted|
      invariant 0 <= i <= |sorted|
      invariant msg == header + "\n\n" + Listing(sorted[..i], commands, args, usageLabel)
    {
      var name := sorted[i];
      assert sorted[..i + 1][..i] == sorted[..i];
      if Shown(commands[name], args) {
        msg := msg + Entry(name, commands[name], usageLabel);
      }
      i := i + 1;
    }
    assert sorted[..i] == sorted;
    names := sorted;
    msg := msg + footer;
  }

  /** `help`: sends the help text; returns nothing. */
  method SendHelp(user: U.User, commands: map<string, CommandInfo>, args: seq<string>, header: string, usageLabel: string, footer: string)
    returns (out: Outcome)
    requires user.Valid()
    modifies user
    ensures user.Valid() && out == Returned(false)
    ensures user.Data(map[]) == old(user.Data(map[])).(effects := old(user.effects) + [U.Say(HelpText(commands, args, header, usageLabel, footer))])
  {
    var msg, names := HelpMessage(commands, args, header, usageLabel, footer);
    Strings.StrictlySortedUnique(names, Strings.Sorted(commands.Keys));
    user.Record(U.Say(msg), map[]);
    out := Returned(false);
  }

  /** The listing of a concatenation is the concatenation of the listings. */
  lemma {:induction false} ListingAppend(a: seq<string>, b: seq<string>, commands: map<string, CommandInfo>, args: seq<string>, usageLabel: string)
    requires forall i :: 0 <= i < |a| ==> a[i] in commands
    requires forall i :: 0 <= i < |b| ==> b[i] in commands
    ensures forall i :: 0 <= i < |a + b| ==> (a + b)[i] in commands
    ensures Listing(a + b, commands, args, usageLabel) == Listing(a, commands, args, usageLabel) + Listing(b, commands, args, usageLabel)
  {
    forall i | 0 <= i < |a + b|
      ensures (a + b)[i] in commands
    {
      if i < |a| { assert (a + b)[i] == a[i]; } else { assert (a + b)[i] == b[i - |a|]; }
    }
    if |b| == 0 {
      assert a + b == a;
    } else {
      var b', last := b[..|b| - 1], b[|b| - 1];
      var piece := if Shown(commands[last], args) then Entry(last, commands[last], usageLabel) else "";
      assert forall i :: 0 <= i < |b'| ==> b'[i] == b[i];
      ListingAppend(a, b', commands, args, usageLabel);
      calc {
        Listing(a + b, commands, args, usageLabel);
      == { assert (a + b)[..|a + b| - 1] == a + b' && (a + b)[|a + b| - 1] == last; }
        Listing(a + b', commands, args, usageLabel) + piece;
      ==
        Listing(a, commands, args, usageLabel) + Listing(b', commands, args, usageLabel) + piece;
      ==
        Listing(a, commands, args, usageLabel) + Listing(b, commands, args, usageLabel);
      }
    }
  }

  /**
   * The help listing is the entries of the commands in the order given, one
   * command at a time: a listed command contributes its entry, a hidden one
   * nothing.
   */
  lemma ListingAt(names: seq<string>, k: int, commands: map<string, CommandInfo>, args: seq<string>, usageLabel: string)
    requires forall i :: 0 <= i < |names| ==> names[i] in commands
    requires 0 <= k < |names|
    ensures Listing(names, commands, args, usageLabel)
         == Listing(names[..k], commands, args, usageLabel)
          + (if Shown(commands[names[k]], args) then Entry(names[k], commands[names[k]], usageLabel) else "")
          + Listing(names[k + 1..], commands, args, usageLabel)
  {
    assert names == names[..k + 1] + names[k + 1..];
    ListingAppend(names[..k + 1], names[k + 1..], commands, args, usageLabel);
    assert names[..k + 1][..k] == names[..k];
  }

  // ---------------------------------------------------------- blacklist

  /** `add_to_blacklist`: adds the user's name and returns True exactly when it was absent. */
  method AddToBlacklistFor(bl: Blacklist.SqlBlacklist, name: string) returns (out: Outcome)
    modifies bl
    ensures out == Returned(name !in old(bl.names))
    ensures name !in old(bl.names) ==> bl.names == old(bl.names) + {name}
    ensures name in old(bl.names) ==> bl.names == old(bl.names)
  {
    if !bl.IsPresent(name) {
      bl.Add(name);
      return Returned(true);
    }
    return Returned(false);
  }

  /** `remove_from_blacklist`: removes the user's name and returns True exactly when it was present. */
  method RemoveFromBlacklistFor(bl: Blacklist.SqlBlacklist, name: string) returns (out: Outcome)
    modifies bl
    ensures out == Returned(name in old(bl.names))
    ensures name in old(bl.names) ==> bl.names == old(bl.names) - {name}
    ensures name !in old(bl.names) ==> bl.names == old(bl.names)
  {
    if bl.IsPresent(name) {
      bl.Remove(name);
      return Returned(true);
    }
    return Returned(false);
  }

  // ---------------------------------------------------------- responses

  /** `positive_response`: the arguments joined by single spaces become the user's "yes" text; returns nothing. */
  method Positive(user: U.User, args: seq<string>) returns (out: Outcome)
    requires user.Valid()
    modifies user
    ensures user.Valid() && out == Returned(false)
    ensures user.Data(map[]) == old(user.Data(map[])).(lastMessage := Util.TupleBuilder(Some(true), Some(Strings.Join(args, " "))))
  {
    user.PositiveResponse(Strings.Join(args, " "), map[]);
    out := Returned(false);
  }

  /** `negative_response`: the arguments joined by single spaces become the user's "no" text; returns nothing. */
  method Negative(user: U.User, args: seq<string>) returns (out: Outcome)
    requires user.Valid()
    modifies user
    ensures user.Valid() && out == Returned(false)
    ensures user.Data(map[]) == old(user.Data(map[])).(lastMessage := Util.TupleBuilder(Some(false), Some(Strings.Join(args, " "))))
  {
    user.NegativeResponse(Strings.Join(args, " "), map[]);
    out := Returned(false);
  }

  // ------------------------------------------------------------- ignore

  /** `TIME_LIMIT`: four hours, in seconds. */
  const TIME_LIMIT: int := 4 * Util.HOUR

  /** The hours and minutes `TIME_REGEX` reads; a group that does not match counts as 0. */
  datatype Duration = Duration(hours: nat, minutes: nat)

  function Seconds(d: Duration): nat
  {
    d.hours * Util.HOUR + d.minutes * 60
  }

  /**
   * One optional group `([0-9]+<unit>)?` at the start of `s`, letters in
   * either case: the number it holds and what follows it, or nothing and
   * all of `s`.
   */
  function Group(s: string, unit: char): (r: (Option<nat>, string))
    ensures r.0.None? ==> r.1 == s
    ensures r.0.Some? ==> |r.1| < |s| && r.1 == s[|s| - |r.1|..]
  {
    var d := Strings.LeadingDigits(s);
    if 0 < |d| < |s| && Strings.LowerChar(s[|d|]) == unit then (Some(Strings.DigitsValue(d)), s[|d| + 1..])
    else (None, s)
  }

  /** `TIME_REGEX.match(time)`: an optional hours group, then an optional minutes group. It always matches. */
  function ParseDuration(s: string): (d: Duration)
  {
    var (h, rest) := Group(s, 'h');
    var (m, _) := Group(rest, 'm');
    Duration(if h.Some? then h.value else 0, if m.Some? then m.value else 0)
  }

  /** What `ignore` decides from its arguments and the user's pending task. */
  datatype IgnorePlan =
    | Refuse
    | FromOldTasks
    | TooLong
    | NoTime
    | IgnoreFor(title: string, seconds: nat, capped: bool)

  /** The message `ignore` reads when asked for the last task: `User` has no `old_tasks`. */
  const OLD_TASKS_ERROR: string := "AttributeError: old_tasks"

  /** `timedelta.max.days`: a `timedelta` of more days raises OverflowError when it is built. */
  const MAX_DELTA_DAYS: int := 999999999

  /** The exception `timedelta(hours=..., minutes=...)` raises beyond MAX_DELTA_DAYS. */
  const OVERFLOW_ERROR: string := "OverflowError"

  /** `timedelta(seconds=s)` cannot be built: its whole days exceed MAX_DELTA_DAYS. */
  predicate Overflows(seconds: nat)
  {
    seconds / Util.DAY > MAX_DELTA_DAYS
  }

  /**
   * `ignore(args)`: exactly two arguments, which task and for how long.
   * 'last' reads `user.old_tasks`; 'current' picks the pending task; any
   * other choice, or no pending task, is a refusal. A duration too long for
   * a `timedelta` raises; otherwise it is capped at TIME_LIMIT, and one of
   * zero is refused.
   */
  function PlanIgnore(args: seq<string>, pending: Option<T.Task>): (p: IgnorePlan)
    ensures |args| != 2 ==> p == Refuse
    ensures |args| == 2 && args[0] != "last" && (args[0] != "current" || pending.None?) ==> p == Refuse
    ensures p.FromOldTasks? <==> |args| == 2 && args[0] == "last"
    ensures p.TooLong? <==> |args| == 2 && args[0] == "current" && pending.Some? && Overflows(Seconds(ParseDuration(args[1])))
    ensures p.IgnoreFor? ==> && 0 < p.seconds <= TIME_LIMIT
                             && |args| == 2 && args[0] == "current" && pending.Some?
                             && p.title == pending.value.title
                             && (p.capped <==> Seconds(ParseDuration(args[1])) > TIME_LIMIT)
                             && (!p.capped ==> p.seconds == Seconds(ParseDuration(args[1])))
    ensures p.NoTime? <==> |args| == 2 && args[0] == "current" && pending.Some? && Seconds(ParseDuration(args[1])) == 0
  {
    if |args| != 2 then Refuse
    else if args[0] == "last" then FromOldTasks
    else if args[0] != "current" || pending.None? then Refuse
    else
      var secs := Seconds(ParseDuration(args[1]));
      if Overflows(secs) then TooLong
      else if secs > TIME_LIMIT then IgnoreFor(pending.value.title, TIME_LIMIT, true)
      else if secs <= 0 then NoTime
      else IgnoreFor(pending.value.title, secs, false)
  }

  /** The messages `ignore` sends the user. */
  function Notices(p: IgnorePlan): seq<U.Effect>
  {
    match p
    case NoTime => [U.Message("ignore_no_time")]
    case IgnoreFor(_, _, capped) => if capped then [U.Message("ignore_time")] else []
    case _ => []
  }

  /** What `ignore` returns or raises for the plan `p`. */
  function IgnoreOutcome(p: IgnorePlan): Outcome
  {
    match p
    case IgnoreFor(_, _, _) => Returned(true)
    case FromOldTasks => Raised(OLD_TASKS_ERROR)
    case TooLong => Raised(OVERFLOW_ERROR)
    case _ => Returned(false)
  }

  /** `ignore`: records (user name, task title, 'ignored', duration) in the ignored table on success. */
  method IgnoreTask(user: U.User, args: seq<string>, now: int, table: T.IgnoreTable) returns (out: Outcome, table': T.IgnoreTable)
    requires user.Valid()
    modifies user
    ensures user.Valid()
    ensures var p := PlanIgnore(args, old(user.pending));
      && out == IgnoreOutcome(p)
      && table' == (if p.IgnoreFor? then T.IgnoreTask(table, user.info.name, p.title, "ignored", p.seconds, now) else table)
      && user.Data(map[]) == old(user.Data(map[])).(effects := old(user.effects) + Notices(p))
  {
    var p := PlanIgnore(args, user.pending);
    table' := table;
    match p
    case Refuse =>
      out := Returned(false);
    case FromOldTasks =>
      out := Raised(OLD_TASKS_ERROR);
    case TooLong =>
      out := Raised(OVERFLOW_ERROR);
    case NoTime =>
      user.Record(U.Message("ignore_no_time"), map[]);
      out := Returned(false);
    case IgnoreFor(title, seconds, capped) =>
      if capped {
        user.Record(U.Message("ignore_time"), map[]);
      }
      table' := T.IgnoreTask(table, user.info.name, title, "ignored", seconds, now);
      out := Returned(true);
  }

  /** `test`: files a test alert for the user (not modelled) and returns True. */
  method TestAlert() returns (out: Outcome)
    ensures out == Returned(true)
  {
    out := Returned(true);
  }

  // ------------------------------------------------- duration properties

  /** A group written out as digits and a unit letter reads back as its number, leaving what follows. */
  lemma GroupOf(d: string, c: char, rest: string, unit: char)
    requires |d| > 0 && forall i :: 0 <= i < |d| ==> Strings.IsDigit(d[i])
    requires !Strings.IsDigit(c) && Strings.LowerChar(c) == unit
    ensures Group(d + [c] + rest, unit) == (Some(Strings.DigitsValue(d)), rest)
  {
    var s := d + [c] + rest;
    assert s == d + ([c] + rest);
    Strings.LeadingDigitsOf(d, [c] + rest);
    assert s[|d|] == c;
    assert s[|d| + 1..] == rest;
  }

  /** A duration written out as `<h>h<m>m` reads back as those hours and minutes. */
  lemma DurationRoundTrip(h: nat, m: nat)
    ensures ParseDuration(Strings.NatDigits(h) + "h" + Strings.NatDigits(m) + "m") == Duration(h, m)
  {
    var dh, dm := Strings.NatDigits(h), Strings.NatDigits(m);
    var rest := dm + "m";
    assert dh + "h" + dm + "m" == dh + ['h'] + rest;
    GroupOf(dh, 'h', rest, 'h');
    assert rest == dm + ['m'] + "";
    GroupOf(dm, 'm', "", 'm');
  }

  /** Hours alone, `<h>h` or `<h>H`, read as those hours and no minutes. */
  lemma HoursOnly(h: nat, unit: char)
    requires unit == 'h' || unit == 'H'
    ensures ParseDuration(Strings.NatDigits(h) + [unit]) == Duration(h, 0)
  {
    var dh := Strings.NatDigits(h);
    assert dh + [unit] == dh + [unit] + "";
    GroupOf(dh, unit, "", 'h');
  }

  /** Minutes alone, `<m>m` or `<m>M`, read as no hours and those minutes. */
  lemma MinutesOnly(m: nat, unit: char)
    requires unit == 'm' || unit == 'M'
    ensures ParseDuration(Strings.NatDigits(m) + [unit]) == Duration(0, m)
  {
    var dm := Strings.NatDigits(m);
    assert dm + [unit] == dm + [unit] + "";
    Strings.LeadingDigitsOf(dm, [unit]);
    GroupOf(dm, unit, "", 'm');
  }

  /** Text that does not start with a digit holds no duration, so `ignore` answers 'ignore_no_time'. */
  lemma NoDigitsNoTime(s: string, t: T.Task)
    requires |s| == 0 || !Strings.IsDigit(s[0])
    ensures ParseDuration(s) == Duration(0, 0)
    ensures PlanIgnore(["current", s], Some(t)) == NoTime
  {
  }

  /**
   * `ignore current <h>h` raises OverflowError exactly from 24 * 10^9 hours
   * on, the first whole count of hours whose `timedelta` exceeds
   * MAX_DELTA_DAYS; nothing is recorded then.
   */
  lemma HoursOverflow(h: nat, t: T.Task)
    ensures var p := PlanIgnore(["current", Strings.NatDigits(h) + "h"], Some(t));
      && (p.TooLong? <==> h >= 24 * (MAX_DELTA_DAYS + 1))
      && IgnoreOutcome(p) == (if p.TooLong? then Raised(OVERFLOW_ERROR) else Returned(h > 0))
  {
    HoursOnly(h, 'h');
    assert Seconds(Duration(h, 0)) == h * Util.HOUR;
    HoursInDays(h);
  }

  /** `h` hours make `h / 24` whole days. */
  lemma HoursInDays(h: nat)
    ensures (h * Util.HOUR) / Util.DAY == h / 24
  {
    var q, r := h / 24, h % 24;
    assert h * Util.HOUR == q * Util.DAY + r * Util.HOUR;
    assert 0 <= r * Util.HOUR < Util.DAY;
  }

  /**
   * After a successful `ignore`, the pending task's title is reported ignored
   * for the user, with reason 'ignored', for the chosen time (at most four
   * hours) and not afterwards.
   */
  lemma IgnoreSilencesTask(args: seq<string>, t: T.Task, name: string, table: T.IgnoreTable, now: int, later: int)
    requires PlanIgnore(args, Some(t)).IgnoreFor?
    requires now <= later
    ensures var p := PlanIgnore(args, Some(t));
      var table' := T.IgnoreTask(table, name, p.title, "ignored", p.seconds, now);
      && p.title == t.title
      && (later < now + p.seconds ==> t.title in T.Ignored(table', name, later) && T.Ignored(table', name, later)[t.title] == "ignored")
      && (later >= now + TIME_LIMIT ==> t.title !in T.Ignored(table', name, later))
  {
    var p := PlanIgnore(args, Some(t));
    T.IgnoredUntilExpiry(table, name, p.title, "ignored", p.seconds, now, later);
  }
}
