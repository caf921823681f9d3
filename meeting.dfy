/**
  The meeting-room reservations of `app/services/meeting_service.py`, over an in-memory
  reservation table: the monthly calendar (one entry per day of the month), the daily grid of
  even-hour slots, creation that refuses a taken slot, and the owner-filtered bulk delete.
*/
module Meeting {
  import opened Outcomes
  import opened Text
  import opened Schemas

  /** `OPERATING_HOURS = range(8, 24, 2)`: the eight even hours from 8 to 22. */
  function OperatingHours(): (hs: seq<int>)
    ensures |hs| == 8
    ensures forall k :: 0 <= k < |hs| ==> hs[k] == 8 + 2 * k
  {
    seq(8, k => 8 + 2 * k)
  }

  /** The grid holds exactly the even hours from 8 to 22, ascending. */
  lemma OperatingHoursGrid(h: int)
    ensures h in OperatingHours() <==> 8 <= h <= 22 && h % 2 == 0
    ensures forall i, j :: 0 <= i < j < |OperatingHours()| ==> OperatingHours()[i] < OperatingHours()[j]
  {
    if 8 <= h <= 22 && h % 2 == 0 {
      assert OperatingHours()[(h - 8) / 2] == h;
    }
  }

  const DateFormatError := "날짜 형식은 YYYY-MM 이어야 합니다."

  /** Python's `int(s)` for decimal text: optional surrounding whitespace and sign, then ASCII digits. */
  function PyInt(s: string): Option<int> {
    var t := Strip(s);
    if |t| > 1 && (t[0] == '-' || t[0] == '+') && AllDigits(t[1..]) then
      var v: int := DigitsValue(t[1..]);
      Some(if t[0] == '-' then -v else v)
    else if |t| > 0 && AllDigits(t) then Some(DigitsValue(t))
    else None
  }

  /** `year, month = map(int, year_month.split('-'))`: exactly two fields, both integers; anything else is a 400. */
  function ParseYearMonth(yearMonth: string): (r: Result<(int, int), HttpError>)
    ensures r.Err? ==> r.error == HttpError(400, DateFormatError)
    ensures r.Ok? ==> (|Split(yearMonth, '-')| == 2
      && PyInt(Split(yearMonth, '-')[0]) == Some(r.value.0) && PyInt(Split(yearMonth, '-')[1]) == Some(r.value.1))
  {
    var parts := Split(yearMonth, '-');
    if |parts| != 2 then Err(HttpError(400, DateFormatError))
    else
      match (PyInt(parts[0]), PyInt(parts[1]))
      case (Some(y), Some(m)) => Ok((y, m))
      case _ => Err(HttpError(400, DateFormatError))
  }

  predicate IsLeap(y: int) {
    y % 4 == 0 && (y % 100 != 0 || y % 400 == 0)
  }

  /** `calendar.monthrange(year, month)[1]`. */
  function DaysInMonth(y: int, m: int): int
    requires 1 <= m <= 12
  {
    if m == 2 then (if IsLeap(y) then 29 else 28)
    else if m == 4 || m == 6 || m == 9 || m == 11 then 30
    else 31
  }

  /**
    A month the code gets through: `monthrange` needs a month in 1..12, `date` a year in 1..9999,
    and stepping past the last day of December 9999 overflows `date`.
  */
  predicate CalendarMonth(y: int, m: int) {
    1 <= m <= 12 && 1 <= y <= 9999 && !(y == 9999 && m == 12)
  }

  /** Two-digit text of a number below 100, as `%m` and `%d` write it. */
  function Pad2(n: nat): string {
    ZFill(NatToString(n), 2)
  }

  /** `date.strftime("%Y-%m-%d")`. */
  function DateKey(y: nat, m: nat, d: nat): string {
    ZFill(NatToString(y), 4) + "-" + Pad2(m) + "-" + Pad2(d)
  }

  lemma ShortNumber(n: nat)
    requires n < 100
    ensures |NatToString(n)| <= 2
  {
    if n >= 10 {
      assert NatToString(n) == NatToString(n / 10) + [DigitChar(n % 10)];
    }
  }

  /** A number below 100 is read back from its two-digit text. */
  lemma Pad2RoundTrip(n: nat)
    requires n < 100
    ensures |Pad2(n)| == 2 && AllDigits(Pad2(n)) && DigitsValue(Pad2(n)) == n
  {
    ShortNumber(n);
    NatToStringRoundTrip(n);
    var s := NatToString(n);
    if |s| < 2 {
      DigitsValueLeadingZeros(Zeros(2 - |s|), s);
    }
  }

  /** Python's `int` reads a non-empty digit string as its value. */
  lemma PyIntDigits(s: string)
    requires |s| >= 1 && AllDigits(s)
    ensures PyInt(s) == Some(DigitsValue(s))
  {
    assert !IsPyWhitespace(s[0]) && !IsPyWhitespace(s[|s| - 1]);
    assert LStrip(s) == s;
    assert Strip(s) == s;
  }

  /** The month part of a date key parses back to its year and month. */
  lemma ParseYearMonthRoundTrip(y: nat, m: nat)
    requires m < 100
    ensures ParseYearMonth(ZFill(NatToString(y), 4) + "-" + Pad2(m)) == Ok((y, m))
  {
    var ys := ZFill(NatToString(y), 4);
    ZFillRoundTrip(y, 4);
    Pad2RoundTrip(m);
    assert '-' !in ys by {
      forall k | 0 <= k < |ys| ensures ys[k] != '-' { assert IsDigit(ys[k]); }
    }
    assert '-' !in Pad2(m) by {
      forall k | 0 <= k < 2 ensures Pad2(m)[k] != '-' { assert IsDigit(Pad2(m)[k]); }
    }
    SplitPrefix(ys, '-', Pad2(m));
    SplitNone(Pad2(m), '-');
    assert ys + "-" + Pad2(m) == ys + ['-'] + Pad2(m);
    PyIntDigits(ys);
    PyIntDigits(Pad2(m));
  }

  /** February has 29 days exactly in leap years; a month has 28 to 31 days. */
  lemma MonthLengths(y: int, m: int)
    requires 1 <= m <= 12
    ensures 28 <= DaysInMonth(y, m) <= 31
    ensures m == 2 ==> (DaysInMonth(y, m) == 29 <==> IsLeap(y))
  {
  }

  /** The days of one month have distinct keys. */
  lemma DateKeysDistinct(y: nat, m: nat, d1: nat, d2: nat)
    requires d1 < 100 && d2 < 100 && d1 != d2
    ensures DateKey(y, m, d1) != DateKey(y, m, d2)
  {
    var p := ZFill(NatToString(y), 4) + "-" + Pad2(m) + "-";
    Pad2RoundTrip(d1);
    Pad2RoundTrip(d2);
    assert DateKey(y, m, d1) == p + Pad2(d1) && DateKey(y, m, d2) == p + Pad2(d2);
    assert (p + Pad2(d1))[|p|..] == Pad2(d1) && (p + Pad2(d2))[|p|..] == Pad2(d2);
  }

  /** A row of `reservation_meeting_room`. */
  datatype Reservation = Reservation(
    reservationId: int, meetingRoomId: string, employeeId: string, departmentCode: string,
    usageDate: Date, startTime: int)

  /** One item of the daily view: the hour, whether it is taken, and the booking department's name. */
  datatype HourSlot = HourSlot(hour: int, reserved: bool, departmentName: Option<string>)

  datatype Created = Created(message: string, reservationId: int)
  datatype Cancelled = NothingToCancel(message: string) | Cancelled(message: string, deletedCount: nat)

  const AlreadyReserved := "해당 시간에 이미 예약이 존재합니다."
  const ReservationDone := "회의실 예약이 완료되었습니다."
  const NothingToDelete := "삭제할 예약이 존재하지 않거나 권한이 없습니다."
  const CancelDone := "예약 취소가 완료되었습니다."

  /** The room has a reservation on that date. */
  predicate ReservedOn(rows: seq<Reservation>, room: string, date: Date) {
    exists k :: 0 <= k < |rows| && rows[k].meetingRoomId == room && rows[k].usageDate == date
  }

  /** The monthly response, in day order: each day's key and whether the room is taken that day. */
  function MonthEntries(rows: seq<Reservation>, room: string, y: nat, m: int): seq<(string, bool)>
    requires 1 <= m <= 12
  {
    seq(DaysInMonth(y, m), k requires 0 <= k < DaysInMonth(y, m) =>
      (DateKey(y, m, k + 1), ReservedOn(rows, room, Date(y, m, k + 1))))
  }

  /** The distinct reservation dates of the room within the month: what the monthly query returns. */
  function MonthQuery(rows: seq<Reservation>, room: string, y: nat, m: int): set<Date>
    requires 1 <= m <= 12
  {
    set k | 0 <= k < |rows| && rows[k].meetingRoomId == room
      && rows[k].usageDate.year == y && rows[k].usageDate.month == m
      && 1 <= rows[k].usageDate.day <= DaysInMonth(y, m) :: rows[k].usageDate
  }

  /** A day of the month is among the queried dates exactly when the room is reserved that day. */
  lemma MonthQueryHit(rows: seq<Reservation>, room: string, y: nat, m: int, day: int)
    requires 1 <= m <= 12 && 1 <= day <= DaysInMonth(y, m)
    ensures Date(y, m, day) in MonthQuery(rows, room, y, m) <==> ReservedOn(rows, room, Date(y, m, day))
  {
    if ReservedOn(rows, room, Date(y, m, day)) {
      var k :| 0 <= k < |rows| && rows[k].meetingRoomId == room && rows[k].usageDate == Date(y, m, day);
      assert rows[k].usageDate in MonthQuery(rows, room, y, m);
    }
  }

  /** The entries up to a day are those before it followed by that day's key and status. */
  lemma MonthEntriesStep(rows: seq<Reservation>, room: string, y: nat, m: int, day: int)
    requires 1 <= m <= 12 && 1 <= day <= DaysInMonth(y, m)
    ensures MonthEntries(rows, room, y, m)[..day] ==
      MonthEntries(rows, room, y, m)[..day - 1] + [(DateKey(y, m, day), ReservedOn(rows, room, Date(y, m, day)))]
  {
    var e := MonthEntries(rows, room, y, m);
    assert e[day - 1] == (DateKey(y, m, day), ReservedOn(rows, room, Date(y, m, day)));
    assert e[..day] == e[..day - 1] + [e[day - 1]];
  }

  /** The monthly response has one entry per day of the month, under distinct keys. */
  lemma MonthEntriesShape(rows: seq<Reservation>, room: string, y: nat, m: int)
    requires 1 <= m <= 12
    ensures |MonthEntries(rows, room, y, m)| == DaysInMonth(y, m)
    ensures forall i, j :: 0 <= i < j < |MonthEntries(rows, room, y, m)| ==>
      MonthEntries(rows, room, y, m)[i].0 != MonthEntries(rows, room, y, m)[j].0
  {
    var e := MonthEntries(rows, room, y, m);
    forall i, j | 0 <= i < j < |e|
      ensures e[i].0 != e[j].0
    {
      DateKeysDistinct(y, m, i + 1, j + 1);
    }
  }

  /** `{row.start_time: dept_name ...}` over the joined rows of one room and date, later rows overwriting. */
  function HourMap(rows: seq<Reservation>, departments: map<string, string>, room: string, date: Date): map<int, string> {
    if |rows| == 0 then map[]
    else
      var m := HourMap(rows[..|rows| - 1], departments, room, date);
      var r := rows[|rows| - 1];
      if r.meetingRoomId == room && r.usageDate == date && r.departmentCode in departments
      then m[r.startTime := departments[r.departmentCode]]
      else m
  }

  /** Rows joined to a department, for one room, date and hour. */
  predicate BookedAt(r: Reservation, departments: map<string, string>, room: string, date: Date, hour: int) {
    r.meetingRoomId == room && r.usageDate == date && r.startTime == hour && r.departmentCode in departments
  }

  /**
    An hour is in the map exactly when some joined row of that room and date starts at it, and
    its department name is the one of the last such row.
  */
  lemma {:induction false} HourMapMeaning(rows: seq<Reservation>, departments: map<string, string>, room: string, date: Date, hour: int)
    ensures hour in HourMap(rows, departments, room, date) <==>
      exists k :: 0 <= k < |rows| && BookedAt(rows[k], departments, room, date, hour)
    ensures hour in HourMap(rows, departments, room, date) ==>
      exists k :: 0 <= k < |rows| && BookedAt(rows[k], departments, room, date, hour)
        && HourMap(rows, departments, room, date)[hour] == departments[rows[k].departmentCode]
        && forall j :: k < j < |rows| ==> !BookedAt(rows[j], departments, room, date, hour)
  {
    if |rows| > 0 {
      var init := rows[..|rows| - 1];
      HourMapMeaning(init, departments, room, date, hour);
      var last := |rows| - 1;
      if BookedAt(rows[last], departments, room, date, hour) {
        assert HourMap(rows, departments, room, date)[hour] == departments[rows[last].departmentCode];
      } else {
        assert HourMap(rows, departments, room, date) == HourMap(init, departments, room, date)
          || hour != rows[last].startTime;
        if exists k :: 0 <= k < |rows| && BookedAt(rows[k], departments, room, date, hour) {
          var k :| 0 <= k < |rows| && BookedAt(rows[k], departments, room, date, hour);
          assert k < last && init[k] == rows[k];
        }
        if hour in HourMap(init, departments, room, date) {
          var k :| 0 <= k < |init| && BookedAt(init[k], departments, room, date, hour)
            && HourMap(init, departments, room, date)[hour] == departments[init[k].departmentCode]
            && forall j :: k < j < |init| ==> !BookedAt(init[j], departments, room, date, hour);
          assert rows[k] == init[k];
          assert forall j :: k < j < |rows| ==> !BookedAt(rows[j], departments, room, date, hour) by {
            forall j | k < j < |rows| ensures !BookedAt(rows[j], departments, room, date, hour) {
              if j < last { assert rows[j] == init[j]; }
            }
          }
        }
      }
    }
  }

  /** The slots of the daily view for a given hour map. */
  function DaySlots(hm: map<int, string>): (slots: seq<HourSlot>)
    ensures |slots| == |OperatingHours()|
  {
    seq(|OperatingHours()|, k requires 0 <= k < |OperatingHours()| =>
      var h := OperatingHours()[k];
      HourSlot(h, h in hm, if h in hm then Some(hm[h]) else None))
  }

  /** `rows` are the owner's reservations named in the delete request. */
  predicate Doomed(r: Reservation, ids: seq<int>, employeeId: string) {
    r.reservationId in ids && r.employeeId == employeeId
  }

  /** The rows a delete keeps, in table order. */
  function Survivors(rows: seq<Reservation>, ids: seq<int>, employeeId: string): (kept: seq<Reservation>)
    ensures |kept| <= |rows|
  {
    if |rows| == 0 then []
    else
      Survivors(rows[..|rows| - 1], ids, employeeId)
      + (if Doomed(rows[|rows| - 1], ids, employeeId) then [] else [rows[|rows| - 1]])
  }

  /** A delete keeps exactly the rows it does not target and removes the rest. */
  lemma {:induction false} SurvivorsMeaning(rows: seq<Reservation>, ids: seq<int>, employeeId: string)
    ensures forall x :: x in Survivors(rows, ids, employeeId) <==> x in rows && !Doomed(x, ids, employeeId)
  {
    if |rows| > 0 {
      var init := rows[..|rows| - 1];
      SurvivorsMeaning(init, ids, employeeId);
      assert rows == init + [rows[|rows| - 1]];
    }
  }

  /** A delete that targets none of the rows keeps them all, in order. */
  lemma {:induction false} SurvivorsAllKept(rows: seq<Reservation>, ids: seq<int>, employeeId: string)
    ensures (forall k :: 0 <= k < |rows| ==> !Doomed(rows[k], ids, employeeId)) ==> Survivors(rows, ids, employeeId) == rows
  {
    if |rows| > 0 && forall k :: 0 <= k < |rows| ==> !Doomed(rows[k], ids, employeeId) {
      var init := rows[..|rows| - 1];
      assert forall k :: 0 <= k < |init| ==> !Doomed(init[k], ids, employeeId) by {
        forall k | 0 <= k < |init| ensures !Doomed(init[k], ids, employeeId) {
          assert init[k] == rows[k];
        }
      }
      SurvivorsAllKept(init, ids, employeeId);
      assert rows == init + [rows[|rows| - 1]];
    }
  }

  /** A delete that keeps as many rows as there were targets none of them. */
  lemma {:induction false} SurvivorsSameLength(rows: seq<Reservation>, ids: seq<int>, employeeId: string)
    requires |Survivors(rows, ids, employeeId)| == |rows|
    ensures forall k :: 0 <= k < |rows| ==> !Doomed(rows[k], ids, employeeId)
  {
    if |rows| > 0 {
      var init := rows[..|rows| - 1];
      assert |Survivors(init, ids, employeeId)| == |init| && !Doomed(rows[|rows| - 1], ids, employeeId);
      SurvivorsSameLength(init, ids, employeeId);
      forall k | 0 <= k < |rows| ensures !Doomed(rows[k], ids, employeeId) {
        if k < |init| {
          assert rows[k] == init[k];
        }
      }
    }
  }

  /** Two reservations of the same room, date and hour. */
  predicate SameSlot(a: Reservation, b: Reservation) {
    a.meetingRoomId == b.meetingRoomId && a.usageDate == b.usageDate && a.startTime == b.startTime
  }

  /** The table invariant: distinct ids below the sequence's next value, and no slot booked twice. */
  predicate WellFormed(rows: seq<Reservation>, nextId: int) {
    (forall k :: 0 <= k < |rows| ==> rows[k].reservationId < nextId)
    && (forall i, j :: 0 <= i < j < |rows| ==> rows[i].reservationId != rows[j].reservationId && !SameSlot(rows[i], rows[j]))
  }

  /** Appending a row with a fresh id and a free slot keeps a table well formed. */
  lemma AppendWellFormed(rows: seq<Reservation>, x: Reservation, nextId: int)
    requires WellFormed(rows, nextId) && x.reservationId < nextId
    requires forall i :: 0 <= i < |rows| ==> rows[i].reservationId != x.reservationId && !SameSlot(rows[i], x)
    ensures WellFormed(rows + [x], nextId)
  {
  }

  /** Removing rows keeps a table well formed. */
  lemma {:induction false} SurvivorsWellFormed(rows: seq<Reservation>, ids: seq<int>, employeeId: string, nextId: int)
    requires WellFormed(rows, nextId)
    ensures WellFormed(Survivors(rows, ids, employeeId), nextId)
  {
    if |rows| > 0 {
      var init := rows[..|rows| - 1];
      var last := rows[|rows| - 1];
      assert WellFormed(init, nextId);
      SurvivorsWellFormed(init, ids, employeeId, nextId);
      SurvivorsMeaning(init, ids, employeeId);
      var s := Survivors(init, ids, employeeId);
      if !Doomed(last, ids, employeeId) {
        forall i | 0 <= i < |s|
          ensures s[i].reservationId != last.reservationId && !SameSlot(s[i], last)
        {
          assert s[i] in init;
          var k :| 0 <= k < |init| && init[k] == s[i];
          assert rows[k] == init[k];
        }
        AppendWellFormed(s, last, nextId);
        assert Survivors(rows, ids, employeeId) == s + [last];
      } else {
        assert Survivors(rows, ids, employeeId) == s;
      }
    }
  }

  /** A well-formed table has at most one row per slot, so the daily view names that row's department. */
  lemma DailyNamesTheBooker(rows: seq<Reservation>, nextId: int, departments: map<string, string>, room: string, date: Date, k: nat)
    requires WellFormed(rows, nextId)
    requires k < |rows| && rows[k].meetingRoomId == room && rows[k].usageDate == date && rows[k].departmentCode in departments
    ensures rows[k].startTime in HourMap(rows, departments, room, date)
    ensures HourMap(rows, departments, room, date)[rows[k].startTime] == departments[rows[k].departmentCode]
  {
    var hour := rows[k].startTime;
    HourMapMeaning(rows, departments, room, date, hour);
    var j :| 0 <= j < |rows| && BookedAt(rows[j], departments, room, date, hour)
      && HourMap(rows, departments, room, date)[hour] == departments[rows[j].departmentCode]
      && forall i :: j < i < |rows| ==> !BookedAt(rows[i], departments, room, date, hour);
  }

  /** An existing reservation holds the slot a request asks for. */
  predicate Clashes(r: Reservation, req: ReservationCreateRequest) {
    r.meetingRoomId == req.meetingRoomId && r.usageDate == req.usageDate && r.startTime == req.startTime
  }

  /** The reservation table and the id sequence (`reservation_meeting_room_reservation_id_seq`). */
  class ReservationTable {
    var rows: seq<Reservation>
    var nextId: int

    predicate Valid()
      reads this
    {
      WellFormed(rows, nextId)
    }

    constructor (rows: seq<Reservation>, nextId: int)
      requires WellFormed(rows, nextId)
      ensures this.rows == rows && this.nextId == nextId && Valid()
    {
      this.rows := rows;
      this.nextId := nextId;
    }

    /**
      `get_monthly_status`: a bad `YYYY-MM` is a 400; a month the calendar code cannot handle is a
      500; otherwise one entry per day of the month, telling whether the room is reserved that day.
    */
    method GetMonthlyStatus(room: string, yearMonth: string) returns (r: Result<seq<(string, bool)>, HttpError>)
      ensures ParseYearMonth(yearMonth).Err? ==> r == Err(HttpError(400, DateFormatError))
      ensures ParseYearMonth(yearMonth).Ok? ==>
        var (y, m) := ParseYearMonth(yearMonth).value;
        && (!CalendarMonth(y, m) ==> r == Err(InternalError))
        && (CalendarMonth(y, m) ==> r == Ok(MonthEntries(rows, room, y, m)))
    {
      var parsed := ParseYearMonth(yearMonth);
      if parsed.Err? {
        return Err(parsed.error);
      }
      var (y, m) := parsed.value;
      if !CalendarMonth(y, m) {
        return Err(InternalError);
      }
      var response := MonthDays(room, y, m);
      return Ok(response);
    }

    /** The day loop of `get_monthly_status`, from the first to the last day of the month. */
    method MonthDays(room: string, y: nat, m: int) returns (response: seq<(string, bool)>)
      requires CalendarMonth(y, m)
      ensures response == MonthEntries(rows, room, y, m)
    {
      var lastDay := DaysInMonth(y, m);
      var reservedDates := MonthQuery(rows, room, y, m);
      response := [];
      var day := 1;
      while day <= lastDay
        invariant 1 <= day <= lastDay + 1
        invariant response == MonthEntries(rows, room, y, m)[..day - 1]
      {
        var current := Date(y, m, day);
        MonthQueryHit(rows, room, y, m, day);
        MonthEntriesStep(rows, room, y, m, day);
        response := response + [(DateKey(y, m, day), current in reservedDates)];
        day := day + 1;
      }
      assert MonthEntries(rows, room, y, m)[..lastDay] == MonthEntries(rows, room, y, m);
    }

    /**
      `get_daily_status`: one item per operating hour, in order, taken exactly when a reservation
      of that room and date (joined to its department) starts at that hour.
    */
    method GetDailyStatus(room: string, date: Date, departments: map<string, string>) returns (slots: seq<HourSlot>)
      ensures slots == DaySlots(HourMap(rows, departments, room, date))
    {
      var reservations := HourMap(rows, departments, room, date);
      slots := [];
      for i := 0 to |OperatingHours()|
        invariant slots == DaySlots(reservations)[..i]
      {
        var hour := OperatingHours()[i];
        var isReserved := hour in reservations;
        var deptName := if isReserved then Some(reservations[hour]) else None;
        slots := slots + [HourSlot(hour, isReserved, deptName)];
      }
    }

    /**
      `create_reservation`: a slot already taken is a 409 and the table is unchanged; otherwise the
      reservation is added under the sequence's next id, which is returned.
    */
    method CreateReservation(req: ReservationCreateRequest) returns (r: Result<Created, HttpError>)
      requires Valid()
      modifies this
      ensures Valid()
      ensures var taken := exists k :: 0 <= k < |old(rows)| && Clashes(old(rows)[k], req);
        && (taken ==> r == Err(HttpError(409, AlreadyReserved)) && rows == old(rows) && nextId == old(nextId))
        && (!taken ==> r == Ok(Created(ReservationDone, old(nextId)))
                       && rows == old(rows) + [Reservation(old(nextId), req.meetingRoomId, req.employeeId,
                                                           req.departmentCode, req.usageDate, req.startTime)]
                       && nextId == old(nextId) + 1)
    {
      var i := 0;
      while i < |rows|
        invariant 0 <= i <= |rows|
        invariant forall k :: 0 <= k < i ==> !Clashes(rows[k], req)
      {
        if Clashes(rows[i], req) {
          return Err(HttpError(409, AlreadyReserved));
        }
        i := i + 1;
      }
      var id := nextId;
      nextId := nextId + 1;
      rows := rows + [Reservation(id, req.meetingRoomId, req.employeeId, req.departmentCode, req.usageDate, req.startTime)];
      r := Ok(Created(ReservationDone, id));
    }

    /**
      `delete_reservation`: removes exactly the listed reservations that belong to the employee and
      reports how many; when none does, nothing is removed and a message says so.
    */
    method DeleteReservation(ids: seq<int>, employeeId: string) returns (r: Cancelled)
      requires Valid()
      modifies this
      ensures Valid() && nextId == old(nextId)
      ensures (forall k :: 0 <= k < |old(rows)| ==> !Doomed(old(rows)[k], ids, employeeId)) ==>
        (r == NothingToCancel(NothingToDelete) && rows == old(rows))
      ensures (exists k :: 0 <= k < |old(rows)| && Doomed(old(rows)[k], ids, employeeId)) ==>
        (r == Cancelled(CancelDone, |old(rows)| - |Survivors(old(rows), ids, employeeId)|)
         && rows == Survivors(old(rows), ids, employeeId)
         && r.deletedCount >= 1)
    {
      var kept: seq<Reservation> := [];
      var i := 0;
      while i < |rows|
        invariant 0 <= i <= |rows|
        invariant kept == Survivors(rows[..i], ids, employeeId)
      {
        assert rows[..i + 1][..i] == rows[..i];
        if !Doomed(rows[i], ids, employeeId) {
          kept := kept + [rows[i]];
        }
        i := i + 1;
      }
      assert rows[..i] == rows;
      SurvivorsWellFormed(rows, ids, employeeId, nextId);
      SurvivorsAllKept(rows, ids, employeeId);
      if |kept| == |rows| {
        SurvivorsSameLength(rows, ids, employeeId);
        return NothingToCancel(NothingToDelete);
      }
      r := Cancelled(CancelDone, |rows| - |kept|);
      rows := kept;
    }
  }
}
