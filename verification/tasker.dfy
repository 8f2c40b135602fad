/**
 * The records the escalation engine works on: tasks (securitybot/tasker)
 * and the table of ignored alert titles (securitybot/ignored_alerts.py).
 * The database is modelled by what is written to it, not by SQL.
 */
module Tasker {
  import opened Wrappers
  import Util

  /** `STATUS_LEVELS`: OPEN, INPROGRESS, VERIFICATION. */
  datatype Status = Open | InProgress | Verification

  function StatusCode(s: Status): nat
  {
    match s
    case Open => 0
    case InProgress => 1
    case Verification => 2
  }

  /** Each status code is the one `enum('OPEN', 'INPROGRESS', 'VERIFICATION')` binds to its name. */
  lemma StatusCodeMatchesEnum(s: Status)
    ensures var names := ["OPEN", "INPROGRESS", "VERIFICATION"];
      var m := Util.Enum(names);
      names[StatusCode(s)] in m && m[names[StatusCode(s)]] == StatusCode(s)
  {
    Util.EnumOfDistinct(["OPEN", "INPROGRESS", "VERIFICATION"], StatusCode(s));
  }

  /**
   * A task as loaded from the alert tables. The SQL task's status setters
   * only write to the database; they never change these fields.
   */
  datatype Task = Task(hash: string, title: string, username: string, reason: string, description: string,
                       url: string, performed: bool, comment: string, authenticated: bool, status: Status)

  /** A write to the task tables: a status, or the user's response. */
  datatype Write =
    | StatusWrite(hash: string, status: Status)
    | ResponseWrite(hash: string, comment: string, performed: bool, authenticated: bool)

  /** `set_in_progress()`. */
  function SetInProgress(t: Task): seq<Write>
  {
    [StatusWrite(t.hash, InProgress)]
  }

  /** `set_verifying()`: the status, then the response fields as they are now. */
  function SetVerifying(t: Task): seq<Write>
  {
    [StatusWrite(t.hash, Verification), ResponseWrite(t.hash, t.comment, t.performed, t.authenticated)]
  }

  /** The status stored for `hash` after `writes`, starting from `initial`: the last status write wins. */
  function StoredStatus(writes: seq<Write>, hash: string, initial: Status): Status
  {
    if |writes| == 0 then initial
    else
      var w := writes[|writes| - 1];
      if w.StatusWrite? && w.hash == hash then w.status else StoredStatus(writes[..|writes| - 1], hash, initial)
  }

  /** Whatever was written before, a later status write for the same task decides the stored status. */
  lemma {:induction false} LastStatusWriteWins(before: seq<Write>, hash: string, s: Status, after: seq<Write>, initial: Status)
    requires forall i :: 0 <= i < |after| ==> !(after[i].StatusWrite? && after[i].hash == hash)
    ensures StoredStatus(before + [StatusWrite(hash, s)] + after, hash, initial) == s
  {
    if |after| == 0 {
      assert before + [StatusWrite(hash, s)] + after == before + [StatusWrite(hash, s)];
    } else {
      var all := before + [StatusWrite(hash, s)] + after;
      assert all[..|all| - 1] == before + [StatusWrite(hash, s)] + after[..|after| - 1];
      LastStatusWriteWins(before, hash, s, after[..|after| - 1], initial);
    }
  }

  /** A row of the ignored table. */
  datatype IgnoreEntry = IgnoreEntry(reason: string, until: int)

  /**
   * The ignored table, keyed by its primary key (user name, then alert
   * title). A user without rows may keep an empty inner map; `Lookup` reads
   * the table as the rows it holds.
   */
  type IgnoreTable = map<string, map<string, IgnoreEntry>>

  /** The row with primary key (`user`, `title`), if any. */
  function Lookup(table: IgnoreTable, user: string, title: string): Option<IgnoreEntry>
  {
    if user in table && title in table[user] then Some(table[user][title]) else None
  }

  /** `ignore_task(user, title, reason, ttl)`: insert, or replace the row with the same key. */
  function IgnoreTask(table: IgnoreTable, user: string, title: string, reason: string, ttl: int, now: int): (r: IgnoreTable)
    ensures Lookup(r, user, title) == Some(IgnoreEntry(reason, now + ttl))
    ensures forall u, t :: (u, t) != (user, title) ==> Lookup(r, u, t) == Lookup(table, u, t)
  {
    var rows := if user in table then table[user] else map[];
    table[user := rows[title := IgnoreEntry(reason, now + ttl)]]
  }

  /** The rows of one user that are still in force at `now`. */
  function Live(rows: map<string, IgnoreEntry>, now: int): map<string, IgnoreEntry>
  {
    map t | t in rows && rows[t].until > now :: rows[t]
  }

  /** The pruning `get_ignored` does first: rows whose `until` has passed are deleted. */
  function Prune(table: IgnoreTable, now: int): (r: IgnoreTable)
    ensures forall u, t :: Lookup(r, u, t) == if Lookup(table, u, t).Some? && Lookup(table, u, t).value.until > now
                                             then Lookup(table, u, t) else None
  {
    map u | u in table :: Live(table[u], now)
  }

  /** `get_ignored(user)` after pruning: the user's ignored titles and their reasons. */
  function Ignored(table: IgnoreTable, user: string, now: int): (r: map<string, string>)
    ensures forall title :: title in r <==> Lookup(table, user, title).Some? && Lookup(table, user, title).value.until > now
    ensures forall title :: title in r ==> r[title] == Lookup(table, user, title).value.reason
  {
    if user in table then map t | t in table[user] && table[user][t].until > now :: table[user][t].reason
    else map[]
  }

  /** Pruning does not change what is reported ignored. */
  lemma IgnoredAfterPrune(table: IgnoreTable, user: string, now: int)
    ensures Ignored(Prune(table, now), user, now) == Ignored(table, user, now)
  {
  }

  /** A title ignored with a positive ttl is reported ignored, with its reason, until the ttl runs out. */
  lemma IgnoredUntilExpiry(table: IgnoreTable, user: string, title: string, reason: string, ttl: int, now: int, later: int)
    requires now <= later
    ensures var t := IgnoreTask(table, user, title, reason, ttl, now);
      (later < now + ttl ==> title in Ignored(t, user, later) && Ignored(t, user, later)[title] == reason)
      && (later >= now + ttl ==> title !in Ignored(t, user, later))
  {
  }
}
