/**
 * securitybot/util.py: the `enum` and `tuple_builder` helpers and the
 * business-hours arithmetic behind alert escalation deadlines.
 *
 * Time is a whole number of seconds. An instant is a `Stamp`: seconds since
 * 00:00 UTC of a reference Monday, together with the UTC offset of the time
 * zone the datetime value carries. The bot's local zone has the fixed offset
 * LOCAL_OFFSET (Pacific standard time; daylight saving is not modelled).
 */
module Util {
  import opened Wrappers

  // ---------------------------------------------------------------- enum

  /**
   * `m` is what `enum(*names)` builds: every name is a key, and each key is
   * bound to the index of its last occurrence in `names`.
   */
  predicate LastIndexes(names: seq<string>, m: map<string, nat>)
  {
    && (forall i :: 0 <= i < |names| ==> names[i] in m)
    && (forall k :: k in m ==> m[k] < |names| && names[m[k]] == k && forall j :: m[k] < j < |names| ==> names[j] != k)
  }

  /**
   * `enum(*names)`: the i-th name is bound to i. A repeated name keeps the
   * index of its last occurrence, as building a dict from `zip` does.
   */
  function Enum(names: seq<string>): (m: map<string, nat>)
    ensures LastIndexes(names, m)
  {
    if |names| == 0 then map[]
    else
      var m := Enum(names[..|names| - 1]);
      EnumExtend(names, m);
      m[names[|names| - 1] := |names| - 1]
  }

  /** Binding the last name to its index extends the table of the names before it. */
  lemma EnumExtend(names: seq<string>, m: map<string, nat>)
    requires |names| > 0 && LastIndexes(names[..|names| - 1], m)
    ensures LastIndexes(names, m[names[|names| - 1] := |names| - 1])
  {
    var n := |names| - 1;
    var init := names[..n];
    assert forall i :: 0 <= i < n ==> init[i] == names[i];
    forall k | k in m && k != names[n]
      ensures m[k] < n && names[m[k]] == k && forall j :: m[k] < j < |names| ==> names[j] != k
    {
      assert init[m[k]] == k;
      forall j | m[k] < j < |names| ensures names[j] != k {
        if j < n { assert init[j] != k; }
      }
    }
  }

  /** With distinct names, `enum` maps the i-th name to exactly i. */
  lemma EnumOfDistinct(names: seq<string>, i: int)
    requires forall a, b :: 0 <= a < b < |names| ==> names[a] != names[b]
    requires 0 <= i < |names|
    ensures Enum(names)[names[i]] == i
  {
  }

  /** Concatenation regroups. */
  lemma AppendAssoc<X>(a: seq<X>, b: seq<X>, c: seq<X>)
    ensures a + b + c == a + (b + c)
  {
  }

  // ------------------------------------------------------- tuple_builder

  /** The (answer, text) pair a user's last reply is stored as. */
  datatype Response = Response(answer: Option<bool>, text: string)

  /** `tuple_builder(answer, text)`: a missing text becomes ''. */
  function TupleBuilder(answer: Option<bool>, text: Option<string>): (r: Response)
    ensures r.answer == answer
    ensures text.None? ==> r.text == ""
    ensures text.Some? ==> r.text == text.value
  {
    Response(answer, if text.Some? then text.value else "")
  }

  // ------------------------------------------------------ business hours

  const HOUR: int := 3600
  const DAY: int := 24 * HOUR
  const OPENING_HOUR: int := 10
  const CLOSING_HOUR: int := 18
  /** UTC offset of the local zone, in seconds. */
  const LOCAL_OFFSET: int := -8 * HOUR

  lemma OpeningBeforeClosing()
    ensures 0 <= OPENING_HOUR < CLOSING_HOUR <= 24
  {
  }

  /**
   * An aware datetime: `utc` seconds since 00:00 UTC of a Monday, and the
   * offset of its own time zone. A naive datetime is read as UTC (offset 0).
   */
  datatype Stamp = Stamp(utc: int, offset: int)

  /** Wall-clock seconds of `t` in its own zone. */
  function Wall(t: Stamp): int { t.utc + t.offset }

  /** Wall-clock seconds of `t` converted to the local zone. */
  function Local(t: Stamp): int { t.utc + LOCAL_OFFSET }

  /** Day number of a wall-clock count (day 0 is a Monday). */
  function DayOf(clock: int): int { clock / DAY }

  function HourOf(clock: int): int { (clock % DAY) / HOUR }

  /** `isoweekday()`: Monday is 1, Sunday is 7. */
  function IsoWeekday(clock: int): int { DayOf(clock) % 7 + 1 }

  /**
   * `during_business_hours(time)`: the hour is read after converting to the
   * local zone, but the weekday is read from `time` in its own zone.
   */
  predicate DuringBusinessHours(t: Stamp)
  {
    OPENING_HOUR <= HourOf(Local(t)) < CLOSING_HOUR && 1 <= IsoWeekday(Wall(t)) <= 5
  }

  /** Local OPENING_HOUR:00 on day `k`, as a datetime in the local zone. */
  function OpeningOn(k: int): Stamp
  {
    Stamp(k * DAY + OPENING_HOUR * HOUR - LOCAL_OFFSET, LOCAL_OFFSET)
  }

  /** `datetime(start's date, CLOSING_HOUR, tzinfo=LOCAL)`: closing time on start's own calendar day. */
  function EndOfDay(start: Stamp): Stamp
  {
    Stamp(DayOf(Wall(start)) * DAY + CLOSING_HOUR * HOUR - LOCAL_OFFSET, LOCAL_OFFSET)
  }

  predicate IsWeekday(k: int) { k % 7 < 5 }

  /** The first day on or after `d` that is Monday to Friday. */
  function FirstWeekdayFrom(d: int): int
  {
    d + (if d % 7 == 5 then 2 else if d % 7 == 6 then 1 else 0)
  }

  /** Splits a clock value into its day and its second within that day. */
  lemma {:induction false} DayAndSecond(k: int, r: int)
    requires 0 <= r < DAY
    ensures (k * DAY + r) / DAY == k && (k * DAY + r) % DAY == r
  {
    var c := k * DAY + r;
    assert (c / DAY - k) * DAY == r - c % DAY;
  }

  lemma OpeningOnFacts(k: int)
    ensures HourOf(Local(OpeningOn(k))) == OPENING_HOUR
    ensures DayOf(Wall(OpeningOn(k))) == k
    ensures DuringBusinessHours(OpeningOn(k)) <==> IsWeekday(k)
  {
    DayAndSecond(k, OPENING_HOUR * HOUR);
  }

  lemma {:induction false} WeekdayStep(d: int, j: int)
    requires 0 <= j < 7
    ensures (d + j) % 7 == (d % 7 + j) % 7
  {
    var q := d / 7;
    assert d == 7 * q + d % 7;
    assert d + j == 7 * q + (d % 7 + j);
    if d % 7 + j < 7 {
      DayAndSecondMod7(q, d % 7 + j);
    } else {
      assert d + j == 7 * (q + 1) + (d % 7 + j - 7);
      DayAndSecondMod7(q + 1, d % 7 + j - 7);
    }
  }

  lemma {:induction false} DayAndSecondMod7(q: int, r: int)
    requires 0 <= r < 7
    ensures (7 * q + r) % 7 == r
  {
    var c := 7 * q + r;
    assert (c / 7 - q) * 7 == r - c % 7;
  }

  /** The first weekday on or after `d` is a weekday, at most two days on, with only weekend days before it. */
  lemma FirstWeekdayFromIsFirst(d: int)
    ensures d <= FirstWeekdayFrom(d) <= d + 2
    ensures IsWeekday(FirstWeekdayFrom(d))
    ensures forall j :: d <= j < FirstWeekdayFrom(d) ==> !IsWeekday(j)
  {
    WeekdayStep(d, 1);
    WeekdayStep(d, 2);
    forall j | d <= j < FirstWeekdayFrom(d) ensures !IsWeekday(j) {
      WeekdayStep(d, j - d);
    }
  }

  /**
   * The expiry `get_expiration_time` computes: `start + time` when that is
   * within business hours; otherwise the overrun past closing time on start's
   * own day, added to the opening hour of the first weekday after that day.
   */
  function ExpirationTime(start: Stamp, time: int): Stamp
  {
    var end := Stamp(start.utc + time, start.offset);
    if DuringBusinessHours(end) then end
    else
      var eod := EndOfDay(start);
      var opening := OpeningOn(FirstWeekdayFrom(DayOf(Wall(start)) + 1));
      Stamp(opening.utc + (end.utc - eod.utc), LOCAL_OFFSET)
  }

  /** When the deadline falls outside business hours it moves to the next weekday's opening plus the overrun. */
  lemma ExpirationWraps(start: Stamp, time: int)
    requires !DuringBusinessHours(Stamp(start.utc + time, start.offset))
    ensures var d := DayOf(Wall(start));
      var k := FirstWeekdayFrom(d + 1);
      && d < k <= d + 3
      && DuringBusinessHours(OpeningOn(k))
      && (forall j :: d < j < k ==> !DuringBusinessHours(OpeningOn(j)))
      && ExpirationTime(start, time).utc == OpeningOn(k).utc + (start.utc + time - EndOfDay(start).utc)
      && HourOf(Local(OpeningOn(k))) == OPENING_HOUR
  {
    var d := DayOf(Wall(start));
    var k := FirstWeekdayFrom(d + 1);
    FirstWeekdayFromIsFirst(d + 1);
    OpeningOnFacts(k);
    forall j | d < j < k ensures !DuringBusinessHours(OpeningOn(j)) {
      OpeningOnFacts(j);
    }
  }

  /**
   * `get_expiration_time(start, time)`: adds `time` and, outside business
   * hours, restarts the overrun at the next weekday's opening hour. The loop
   * marching over the weekend runs at most twice.
   */
  method GetExpirationTime(start: Stamp, time: int) returns (end: Stamp, ghost days: nat)
    ensures end == ExpirationTime(start, time)
    ensures days <= 2
  {
    days := 0;
    end := Stamp(start.utc + time, start.offset);
    if !DuringBusinessHours(end) {
      var endOfDay := EndOfDay(start);
      var delta := end.utc - endOfDay.utc;
      var nextDay := Stamp(endOfDay.utc + ((OPENING_HOUR - CLOSING_HOUR) % 24) * HOUR, LOCAL_OFFSET);
      ghost var first := DayOf(Wall(start)) + 1;
      ghost var k := first;
      FirstWeekdayFromIsFirst(first);
      assert nextDay == OpeningOn(k);
      while !DuringBusinessHours(nextDay)
        invariant first <= k <= FirstWeekdayFrom(first)
        invariant nextDay == OpeningOn(k)
        invariant days == k - first
        decreases FirstWeekdayFrom(first) - k
      {
        OpeningOnFacts(k);
        nextDay := Stamp(nextDay.utc + DAY, nextDay.offset);
        k := k + 1;
        days := days + 1;
      }
      OpeningOnFacts(k);
      end := Stamp(nextDay.utc + delta, LOCAL_OFFSET);
    }
  }

  /** util_test: Monday 10:00 plus four hours stays on the same day. */
  lemma SameDayExpiry()
    ensures ExpirationTime(OpeningOn(0), 4 * HOUR) == Stamp(OpeningOn(0).utc + 4 * HOUR, LOCAL_OFFSET)
  {
    DayAndSecond(0, 14 * HOUR);
  }

  /** util_test: Monday 17:00 plus two hours ends Tuesday 11:00; Friday 17:00 plus two hours ends Monday 11:00. */
  lemma NextDayExpiry()
    ensures ExpirationTime(Stamp(OpeningOn(0).utc + 7 * HOUR, LOCAL_OFFSET), 2 * HOUR).utc == OpeningOn(1).utc + HOUR
    ensures ExpirationTime(Stamp(OpeningOn(4).utc + 7 * HOUR, LOCAL_OFFSET), 2 * HOUR).utc == OpeningOn(7).utc + HOUR
  {
    DayAndSecond(0, 19 * HOUR);
    DayAndSecond(0, 17 * HOUR);
    DayAndSecond(4, 19 * HOUR);
    DayAndSecond(4, 17 * HOUR);
  }

  /**
   * The weekday comes from the datetime's own zone: Sunday 16:00 local, held
   * as a UTC datetime (Monday 00:00 UTC), counts as business hours, while the
   * same instant held in the local zone does not.
   */
  lemma WeekdayReadFromOwnZone()
    ensures DuringBusinessHours(Stamp(7 * DAY, 0))
    ensures !DuringBusinessHours(Stamp(7 * DAY, LOCAL_OFFSET))
  {
    DayAndSecond(6, 16 * HOUR);
    DayAndSecond(7, 0);
  }
}
