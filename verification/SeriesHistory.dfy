/** Paging a series' history in windows short enough for the data source, and merging the
  * answers by date (internal/econindex/client.go). */
module SeriesHistory {
  import opened Wrappers
  import opened Calendar

  /** A moment of the calendar: its clock is the time since midnight. */
  datatype Instant = Instant(date: Date, clock: nat)

  /** A request: points from `first` to `last`, both included. */
  datatype Window = Window(first: Date, last: Date)

  type Day = d: Date | Valid(d) witness Date(1, 1, 1)

  datatype Point = Point(date: Day, value: string)

  datatype HistoryError = InvalidRange | FetchFailed

  const DEFAULT_YEARS := 10

  predicate Before(a: Instant, b: Instant) {
    Earlier(a.date, b.date) || (a.date == b.date && a.clock < b.clock)
  }

  function Moved(t: Instant, years: int, days: int): Instant {
    Instant(AddDate(t.date, years, days), t.clock)
  }

  function Earliest(a: Instant, b: Instant): Instant {
    if Before(b, a) then b else a
  }

  function WindowEnd(start: Instant, to: Instant, years: int): Instant {
    Earliest(Moved(start, years, -1), to)
  }

  // ----- one window -----

  lemma FullWindow(start: Date, years: int)
    requires Valid(start) && 0 < years
    ensures Valid(AddDate(start, years, -1)) && Valid(AddDate(start, years, 0))
    ensures Number(start) <= Number(AddDate(start, years, -1)) == Number(AddDate(start, years, 0)) - 1
  {
    hide YearStart, Leap, DaysBefore;
    AddDateNumber(start, years, -1);
    AddDateNumber(start, years, 0);
    assert Earlier(start, AddDate(start, years, 0));
    NumberOrders(start, AddDate(start, years, 0));
  }

  lemma WindowEndBounds(start: Instant, to: Instant, years: int)
    requires Valid(start.date) && Valid(to.date) && 0 < years && !Before(to, start)
    ensures var end := WindowEnd(start, to, years).date;
            && Valid(end)
            && Number(start.date) <= Number(end) <= Number(to.date)
            && Number(end) < Number(AddDate(start.date, years, 0))
  {
    hide Earlier, Number, AddDate, Valid;
    FullWindow(start.date, years);
    NumberOrders(to.date, start.date);
    NumberOrders(to.date, AddDate(start.date, years, -1));
  }

  /** The day after, at the same time of day. */
  lemma Tomorrow(t: Instant)
    requires Valid(t.date)
    ensures Valid(Moved(t, 0, 1).date) && Number(Moved(t, 0, 1).date) == Number(t.date) + 1
  {
    hide YearStart, Leap, DaysBefore, AddDate, Valid;
    AddDateNumber(t.date, 0, 1);
  }

  // ----- the windows of a range -----

  function DaysLeft(start: Instant, to: Instant): nat {
    if Number(start.date) <= Number(to.date) then Number(to.date) + 1 - Number(start.date) else 0
  }

  /** The windows requested from `start` on. */
  function Windows(start: Instant, to: Instant, years: int): seq<Window>
    requires Valid(start.date) && Valid(to.date) && 0 < years
    decreases DaysLeft(start, to)
  {
    if Before(to, start) then []
    else
      WindowEndBounds(start, to, years);
      var end := WindowEnd(start, to, years);
      Tomorrow(end);
      [Window(start.date, end.date)] + Windows(Moved(end, 0, 1), to, years)
  }

  ghost predicate WindowFits(w: Window, years: int) {
    && Valid(w.first) && Valid(w.last)
    && Number(w.first) <= Number(w.last) < Number(AddDate(w.first, years, 0))
  }

  ghost predicate Consecutive(ws: seq<Window>) {
    forall i :: 0 <= i < |ws| - 1 ==> Number(ws[i + 1].first) == Number(ws[i].last) + 1
  }

  /** Every window is a non-empty span of days ending before its start plus `years`; the
    * first begins at the start, each of the others on the day after the one before it, and
    * none reaches past `to`. All but the last are as long as the limit allows. */
  lemma {:induction false} WindowsTile(start: Instant, to: Instant, years: int)
    requires Valid(start.date) && Valid(to.date) && 0 < years
    ensures forall i :: 0 <= i < |Windows(start, to, years)| ==>
      WindowFits(Windows(start, to, years)[i], years) && Number(Windows(start, to, years)[i].last) <= Number(to.date)
    ensures Consecutive(Windows(start, to, years))
    ensures Windows(start, to, years) == [] <==> Before(to, start)
    ensures Windows(start, to, years) != [] ==> Windows(start, to, years)[0].first == start.date
    ensures forall i :: 0 <= i < |Windows(start, to, years)| - 1 ==>
      Windows(start, to, years)[i].last == AddDate(Windows(start, to, years)[i].first, years, -1)
    decreases DaysLeft(start, to)
  {
    hide Number, AddDate, Valid, Before, WindowEnd;
    if !Before(to, start) {
      WindowEndBounds(start, to, years);
      var end := WindowEnd(start, to, years);
      Tomorrow(end);
      WindowsTile(Moved(end, 0, 1), to, years);
      var rest := Windows(Moved(end, 0, 1), to, years);
      assert Windows(start, to, years) == [Window(start.date, end.date)] + rest;
      if rest != [] {
        NotLastIsFull(start, to, years);
      }
    }
  }

  /** A window cut short at `to` is the last one. */
  lemma NotLastIsFull(start: Instant, to: Instant, years: int)
    requires Valid(start.date) && Valid(to.date) && 0 < years && !Before(to, start)
    requires Valid(WindowEnd(start, to, years).date) && !Before(to, Moved(WindowEnd(start, to, years), 0, 1))
    ensures WindowEnd(start, to, years) == Moved(start, years, -1)
  {
    hide Number, AddDate, Valid, Earlier;
    var end := WindowEnd(start, to, years);
    Tomorrow(end);
    NumberOrders(to.date, Moved(end, 0, 1).date);
  }

  // ----- what the windows cover -----

  ghost predicate Holds(w: Window, day: int) {
    Number(w.first) <= day <= Number(w.last)
  }

  /** Consecutive windows share no day. */
  lemma {:induction false} ConsecutiveDisjoint(ws: seq<Window>, years: int, i: nat, j: nat, day: int)
    requires Consecutive(ws) && forall k :: 0 <= k < |ws| ==> WindowFits(ws[k], years)
    requires i < j < |ws| && Holds(ws[i], day)
    ensures !Holds(ws[j], day)
    ensures Number(ws[i].last) < Number(ws[j].first)
    decreases j
  {
    hide Number, AddDate, Valid;
    assert WindowFits(ws[j - 1], years);
    assert Number(ws[j].first) == Number(ws[j - 1].last) + 1;
    if i < j - 1 {
      ConsecutiveDisjoint(ws, years, i, j - 1, day);
    }
  }

  /** Consecutive windows skip no day between the first and the last. */
  lemma {:induction false} ConsecutiveCover(ws: seq<Window>, years: int, day: int) returns (i: nat)
    requires Consecutive(ws) && forall k :: 0 <= k < |ws| ==> WindowFits(ws[k], years)
    requires ws != [] && Number(ws[0].first) <= day <= Number(ws[|ws| - 1].last)
    ensures i < |ws| && Holds(ws[i], day)
    decreases |ws|
  {
    hide Number, AddDate, Valid;
    var n := |ws| - 1;
    if Number(ws[n].first) <= day {
      i := n;
    } else {
      assert n > 0;
      assert Number(ws[n].first) == Number(ws[n - 1].last) + 1;
      i := ConsecutiveCover(ws[..n], years, day);
    }
  }

  /** The first day of window number `k`, were the range long enough. */
  function StartAt(from: Date, years: int, k: nat): Date {
    if k == 0 then from else AddDate(StartAt(from, years, k - 1), years, 0)
  }

  ghost predicate OnBoundary(day: Date, from: Date, years: int) {
    exists k: nat :: day == StartAt(from, years, k)
  }

  lemma {:induction false} StartsGrow(from: Date, years: int, k: nat)
    requires Valid(from) && 0 < years
    ensures Valid(StartAt(from, years, k))
    ensures k > 0 ==> Number(AddDate(from, years, 0)) <= Number(StartAt(from, years, k))
    ensures Number(from) <= Number(StartAt(from, years, k))
  {
    hide Number, AddDate, Valid;
    if k > 0 {
      StartsGrow(from, years, k - 1);
      FullWindow(from, years);
      FullWindow(StartAt(from, years, k - 1), years);
    }
  }

  lemma {:induction false} StartsShift(from: Date, years: int, k: nat)
    ensures StartAt(from, years, k + 1) == StartAt(AddDate(from, years, 0), years, k)
  {
    hide AddDate;
    if k > 0 {
      StartsShift(from, years, k - 1);
    }
  }

  /** A later window's start is the range's start or a later start of the next window. */
  lemma BoundaryMoves(day: Date, from: Date, years: int)
    ensures OnBoundary(day, from, years) <==> day == from || OnBoundary(day, AddDate(from, years, 0), years)
  {
    hide AddDate;
    if OnBoundary(day, from, years) {
      var k: nat :| day == StartAt(from, years, k);
      if k > 0 {
        StartsShift(from, years, k - 1);
      }
    }
    if day == from {
      assert day == StartAt(from, years, 0);
    }
    if OnBoundary(day, AddDate(from, years, 0), years) {
      var k: nat :| day == StartAt(AddDate(from, years, 0), years, k);
      StartsShift(from, years, k);
    }
  }

  /** The last day of the range falls out when the range begins later in the day than it
    * ends and its last day is where a window would begin. */
  ghost predicate LastDayLost(from: Instant, to: Instant, years: int) {
    from.clock > to.clock && OnBoundary(to.date, from.date, years)
  }

  /** The day after a full window is its start plus `years`. */
  lemma AfterFullWindow(start: Instant, years: int)
    requires Valid(start.date) && 0 < years
    ensures Valid(Moved(start, years, -1).date)
    ensures Moved(Moved(start, years, -1), 0, 1) == Moved(start, years, 0)
  {
    hide Number, AddDate, Valid;
    FullWindow(start.date, years);
    var end := Moved(start, years, -1);
    Tomorrow(end);
    NumberOrders(Moved(end, 0, 1).date, Moved(start, years, 0).date);
  }

  ghost predicate EndsAt(ws: seq<Window>, day: int) {
    ws != [] && Number(ws[|ws| - 1].last) == day
  }

  /** The windows end on the last day of the range, except when that day is lost: then they
    * end on the day before it. */
  lemma {:induction false} WindowsEnd(start: Instant, to: Instant, years: int)
    requires Valid(start.date) && Valid(to.date) && 0 < years && !Before(to, start)
    ensures EndsAt(Windows(start, to, years), Number(to.date) - if LastDayLost(start, to, years) then 1 else 0)
    decreases DaysLeft(start, to)
  {
    hide Number, AddDate, Valid, Before, WindowEnd, StartAt, OnBoundary;
    WindowEndBounds(start, to, years);
    var end := WindowEnd(start, to, years);
    Tomorrow(end);
    var next := Moved(end, 0, 1);
    var rest := Windows(next, to, years);
    assert Windows(start, to, years) == [Window(start.date, end.date)] + rest;
    if Before(to, next) {
      LastWindow(start, to, years);
    } else {
      NotLastIsFull(start, to, years);
      AfterFullWindow(start, years);
      WindowsEnd(next, to, years);
      BoundaryMoves(to.date, start.date, years);
      NotFirstDay(start, to, years);
    }
  }

  /** When another window follows, the range does not end on this one's first day. */
  lemma NotFirstDay(start: Instant, to: Instant, years: int)
    requires Valid(start.date) && Valid(to.date) && 0 < years && !Before(to, Moved(start, years, 0))
    ensures to.date != start.date
  {
    hide Number, AddDate, Valid, Earlier;
    FullWindow(start.date, years);
    NumberOrders(to.date, Moved(start, years, 0).date);
  }

  lemma LastWindow(start: Instant, to: Instant, years: int)
    requires Valid(start.date) && Valid(to.date) && 0 < years && !Before(to, start)
    requires Valid(WindowEnd(start, to, years).date) && Before(to, Moved(WindowEnd(start, to, years), 0, 1))
    ensures Number(WindowEnd(start, to, years).date)
         == Number(to.date) - if LastDayLost(start, to, years) then 1 else 0
  {
    hide Number, AddDate, Valid, Earlier, StartAt, OnBoundary;
    var end := WindowEnd(start, to, years);
    var full := Moved(start, years, -1);
    FullWindow(start.date, years);
    AfterFullWindow(start, years);
    Tomorrow(end);
    NumberOrders(to.date, start.date);
    NumberOrders(to.date, full.date);
    NumberOrders(to.date, Moved(start, years, 0).date);
    NumberOrders(to.date, Moved(end, 0, 1).date);
    BoundaryMoves(to.date, start.date, years);
    BoundaryMoves(to.date, Moved(start, years, 0).date, years);
    if Number(to.date) < Number(Moved(start, years, 0).date) {
      BoundaryBeyond(to.date, Moved(start, years, 0).date, years);
    }
  }

  lemma BoundaryBeyond(day: Date, from: Date, years: int)
    requires Valid(from) && 0 < years && Number(day) < Number(from)
    ensures !OnBoundary(day, from, years)
  {
    hide Number, AddDate, Valid, StartAt;
    if OnBoundary(day, from, years) {
      var k: nat :| day == StartAt(from, years, k);
      StartsGrow(from, years, k);
    }
  }

  /** A day is in some window exactly when it lies in the range and is not the lost last
    * day; and it is in one window only. */
  lemma EveryDayOnce(from: Instant, to: Instant, years: int, day: int)
    requires Valid(from.date) && Valid(to.date) && 0 < years && !Before(to, from)
    ensures (exists i :: 0 <= i < |Windows(from, to, years)| && Holds(Windows(from, to, years)[i], day))
         <==> Number(from.date) <= day <= Number(to.date) && !(LastDayLost(from, to, years) && day == Number(to.date))
    ensures forall i, j :: 0 <= i < j < |Windows(from, to, years)| ==>
      !(Holds(Windows(from, to, years)[i], day) && Holds(Windows(from, to, years)[j], day))
  {
    hide Number, AddDate, Valid, Before, Windows, LastDayLost;
    var ws := Windows(from, to, years);
    WindowsTile(from, to, years);
    WindowsEnd(from, to, years);
    var last := Number(ws[|ws| - 1].last);
    if Number(from.date) <= day <= last {
      var i := ConsecutiveCover(ws, years, day);
      assert Holds(ws[i], day);
    }
    forall i | 0 <= i < |ws|
      ensures Holds(ws[i], day) ==> Number(from.date) <= day <= last
    {
      WithinEnds(ws, years, i);
    }
    forall i, j | 0 <= i < j < |ws|
      ensures !(Holds(ws[i], day) && Holds(ws[j], day))
    {
      if Holds(ws[i], day) {
        ConsecutiveDisjoint(ws, years, i, j, day);
      }
    }
  }

  lemma WithinEnds(ws: seq<Window>, years: int, i: nat)
    requires Consecutive(ws) && forall k :: 0 <= k < |ws| ==> WindowFits(ws[k], years)
    requires i < |ws|
    ensures Number(ws[0].first) <= Number(ws[i].first)
    ensures Number(ws[i].last) <= Number(ws[|ws| - 1].last)
  {
    hide Number, AddDate, Valid;
    assert WindowFits(ws[i], years) && WindowFits(ws[0], years) && WindowFits(ws[|ws| - 1], years);
    if 0 < i {
      ConsecutiveDisjoint(ws, years, 0, i, Number(ws[0].first));
    }
    if i < |ws| - 1 {
      ConsecutiveDisjoint(ws, years, i, |ws| - 1, Number(ws[i].first));
    }
  }

  /** A range the windows do not cover: from 2020-01-01 at noon to 2030-01-01 at midnight, ten
    * years a window, no window holds the last day. */
  lemma LastDayLostExample(i: nat)
    ensures
      var from, to := Instant(Date(2020, 1, 1), 43200), Instant(Date(2030, 1, 1), 0);
      && Valid(from.date) && Valid(to.date) && !Before(to, from)
      && var ws := Windows(from, to, DEFAULT_YEARS); i < |ws| ==> !Holds(ws[i], Number(to.date))
  {
    var from, to := Instant(Date(2020, 1, 1), 43200), Instant(Date(2030, 1, 1), 0);
    assert StartAt(Date(2020, 1, 1), 10, 1) == AddDate(StartAt(Date(2020, 1, 1), 10, 0), 10, 0);
    assert Date(2030, 1, 1) == StartAt(Date(2020, 1, 1), 10, 1);
    assert LastDayLost(from, to, DEFAULT_YEARS);
    hide Number, Windows, LastDayLost, AddDate;
    EveryDayOnce(from, to, DEFAULT_YEARS, Number(to.date));
  }

  // ----- merging the answers -----

  ghost predicate Ascending(points: seq<Point>) {
    forall i, j :: 0 <= i < j < |points| ==> Earlier(points[i].date, points[j].date)
  }

  /** The value fetched last for each date. */
  function ByDate(points: seq<Point>): map<Date, Point> {
    if points == [] then map[]
    else
      var p := points[|points| - 1];
      ByDate(points[..|points| - 1])[p.date := p]
  }

  /** `p` was fetched, and nothing fetched after it has its date. */
  ghost predicate LastFetched(p: Point, points: seq<Point>) {
    exists i :: 0 <= i < |points| && points[i] == p && forall j :: i < j < |points| ==> points[j].date != p.date
  }

  lemma {:induction false} ByDateIsLastFetched(points: seq<Point>, p: Point)
    ensures (p.date in ByDate(points) && ByDate(points)[p.date] == p) <==> LastFetched(p, points)
  {
    if points != [] {
      var n := |points| - 1;
      var q := points[n];
      ByDateIsLastFetched(points[..n], p);
      if LastFetched(p, points[..n]) && q.date != p.date {
        var i :| 0 <= i < n && points[..n][i] == p && forall j :: i < j < n ==> points[..n][j].date != p.date;
        assert points[i] == p && forall j :: i < j < |points| ==> points[j].date != p.date;
      }
      if LastFetched(p, points) {
        var i :| 0 <= i < |points| && points[i] == p && forall j :: i < j < |points| ==> points[j].date != p.date;
        if i < n {
          assert points[n].date != p.date;
          assert points[..n][i] == p && forall j :: i < j < n ==> points[..n][j].date != p.date;
        }
      }
      if q == p {
        assert points[n] == p;
      }
    }
  }

  predicate Answered(ws: seq<Window>, reply: (nat, Window) -> Option<seq<Point>>) {
    forall i: nat :: i < |ws| ==> reply(i, ws[i]).Some?
  }

  /** Every point of the answers, in the order they came. */
  function Fetched(ws: seq<Window>, reply: (nat, Window) -> Option<seq<Point>>): seq<Point>
    requires Answered(ws, reply)
  {
    if ws == [] then []
    else
      var n := |ws| - 1;
      assert forall i: nat :: i < n ==> ws[..n][i] == ws[i];
      Fetched(ws[..n], reply) + reply(n, ws[n]).value
  }

  lemma FetchedNext(ws: seq<Window>, w: Window, reply: (nat, Window) -> Option<seq<Point>>)
    requires Answered(ws, reply) && reply(|ws|, w).Some?
    ensures Answered(ws + [w], reply)
    ensures Fetched(ws + [w], reply) == Fetched(ws, reply) + reply(|ws|, w).value
  {
    assert (ws + [w])[..|ws|] == ws;
    forall i: nat | i < |ws + [w]|
      ensures reply(i, (ws + [w])[i]).Some?
    {
      assert i < |ws| ==> (ws + [w])[i] == ws[i];
    }
  }

  lemma ByDateNext(points: seq<Point>, p: Point)
    ensures ByDate(points + [p]) == ByDate(points)[p.date := p]
  {
    assert (points + [p])[..|points|] == points;
  }

  /** Ascending lists of the same points are the same list: the order the map hands its
    * points out in does not matter. */
  lemma {:induction false} AscendingUnique(a: seq<Point>, b: seq<Point>)
    requires Ascending(a) && Ascending(b) && forall p :: p in a <==> p in b
    ensures a == b
    decreases |a|
  {
    hide Earlier;
    assert a != [] ==> a[0] in a;
    assert b != [] ==> b[0] in b;
    if a != [] && b != [] {
      SameHead(a, b);
      forall p
        ensures p in a[1..] <==> p in b[1..]
      {
        HeadApart(a, p);
        HeadApart(b, p);
      }
      AscendingUnique(a[1..], b[1..]);
      assert a == [a[0]] + a[1..] && b == [b[0]] + b[1..];
    }
  }

  lemma SameHead(a: seq<Point>, b: seq<Point>)
    requires Ascending(a) && Ascending(b) && a != [] && b != [] && a[0] in b && b[0] in a
    ensures a[0] == b[0]
  {
    var i :| 0 <= i < |a| && a[i] == b[0];
    var j :| 0 <= j < |b| && b[j] == a[0];
    assert i > 0 ==> Earlier(a[0].date, a[i].date);
    assert j > 0 ==> Earlier(b[0].date, b[j].date);
  }

  lemma HeadApart(a: seq<Point>, p: Point)
    requires Ascending(a) && a != []
    ensures p in a[1..] <==> p in a && p != a[0]
    ensures Ascending(a[1..])
  {
    if p in a[1..] {
      var k :| 0 <= k < |a[1..]| && a[1..][k] == p;
      assert a[k + 1] == p && Earlier(a[0].date, a[k + 1].date);
    }
    assert a == [a[0]] + a[1..];
  }

  method InsertByDate(sorted: seq<Point>, p: Point) returns (out: seq<Point>)
    requires Ascending(sorted) && forall q :: q in sorted ==> q.date != p.date
    ensures Ascending(out) && forall q :: q in out <==> q in sorted || q == p
  {
    var i := 0;
    while i < |sorted| && Earlier(sorted[i].date, p.date)
      invariant 0 <= i <= |sorted|
      invariant forall k :: 0 <= k < i ==> Earlier(sorted[k].date, p.date)
    {
      i := i + 1;
    }
    out := sorted[..i] + [p] + sorted[i..];
    InsertedAscending(sorted, p, i);
    assert sorted == sorted[..i] + sorted[i..];
  }

  lemma InsertedAscending(sorted: seq<Point>, p: Point, i: nat)
    requires Ascending(sorted) && i <= |sorted|
    requires forall q :: q in sorted ==> q.date != p.date
    requires forall k :: 0 <= k < i ==> Earlier(sorted[k].date, p.date)
    requires i < |sorted| ==> !Earlier(sorted[i].date, p.date)
    ensures Ascending(sorted[..i] + [p] + sorted[i..])
  {
    var out := sorted[..i] + [p] + sorted[i..];
    forall a, b | 0 <= a < b < |out|
      ensures Earlier(out[a].date, out[b].date)
    {
      if a < i {
        assert out[a] == sorted[a];
        if i < b {
          assert out[b] == sorted[b - 1];
        } else if b < i {
          assert out[b] == sorted[b];
        }
      } else {
        assert out[b] == sorted[b - 1];
        assert sorted[i] in sorted;
        assert Earlier(p.date, sorted[i].date);
        if a > i {
          assert out[a] == sorted[a - 1];
        }
      }
    }
  }

  ghost predicate IsHistory(points: seq<Point>, fetched: seq<Point>) {
    Ascending(points) && forall p :: p in points <==> LastFetched(p, fetched)
  }

  /** The map's points, sorted by date. */
  method SortedPoints(byDate: map<Date, Point>, ghost fetched: seq<Point>) returns (out: seq<Point>)
    requires byDate == ByDate(fetched)
    ensures IsHistory(out, fetched)
  {
    hide ByDate, Earlier;
    out := [];
    var left := byDate.Keys;
    while left != {}
      invariant left <= byDate.Keys && Ascending(out)
      invariant forall p :: p in out <==> p.date in byDate.Keys - left && byDate[p.date] == p
      decreases |left|
    {
      var d :| d in left;
      KeyIsDate(fetched, d);
      out := InsertByDate(out, byDate[d]);
      left := left - {d};
    }
    forall p
      ensures p in out <==> LastFetched(p, fetched)
    {
      ByDateIsLastFetched(fetched, p);
    }
  }

  lemma {:induction false} KeyIsDate(points: seq<Point>, d: Date)
    requires d in ByDate(points)
    ensures ByDate(points)[d].date == d
  {
    var n := |points| - 1;
    if points[n].date != d {
      KeyIsDate(points[..n], d);
    }
  }

  lemma WindowsUnroll(start: Instant, to: Instant, years: int)
    requires Valid(start.date) && Valid(to.date) && 0 < years && !Before(to, start)
    requires Valid(Moved(WindowEnd(start, to, years), 0, 1).date)
    ensures Windows(start, to, years) == [Window(start.date, WindowEnd(start, to, years).date)]
                                         + Windows(Moved(WindowEnd(start, to, years), 0, 1), to, years)
  {
    hide Number, AddDate, Before, Valid, WindowEnd;
  }

  lemma NothingFetched(reply: (nat, Window) -> Option<seq<Point>>)
    ensures Answered([], reply) && ByDate(Fetched([], reply)) == map[]
  {}

  /** Stores one answer's points over what earlier answers gave. */
  method Overwrite(byDate: map<Date, Point>, points: seq<Point>, ghost fetched: seq<Point>)
    returns (merged: map<Date, Point>)
    requires byDate == ByDate(fetched)
    ensures merged == ByDate(fetched + points)
  {
    hide ByDate;
    merged := byDate;
    assert fetched + points[..0] == fetched;
    for i := 0 to |points|
      invariant merged == ByDate(fetched + points[..i])
    {
      ByDateNext(fetched + points[..i], points[i]);
      assert fetched + points[..i] + [points[i]] == fetched + points[..i + 1];
      merged := merged[points[i].date := points[i]];
    }
    assert points[..|points|] == points;
  }

  lemma NoWindows(start: Instant, to: Instant, years: int)
    requires Valid(start.date) && Valid(to.date) && 0 < years
    ensures Before(to, start) ==> Windows(start, to, years) == []
  {}

  lemma WindowEndIs(start: Instant, to: Instant, years: int, end: Instant)
    requires Valid(start.date) && Valid(to.date) && 0 < years && !Before(to, start)
    requires end == if Before(to, Moved(start, years, -1)) then to else Moved(start, years, -1)
    ensures end == WindowEnd(start, to, years) && Valid(Moved(end, 0, 1).date)
    ensures DaysLeft(Moved(end, 0, 1), to) < DaysLeft(start, to)
  {
    hide Number, AddDate, Before, Valid;
    WindowEndBounds(start, to, years);
    Tomorrow(end);
  }

  lemma UnansweredWindow(ws: seq<Window>, i: nat, reply: (nat, Window) -> Option<seq<Point>>)
    requires i < |ws| && reply(i, ws[i]).None?
    ensures !Answered(ws, reply)
  {}

  /** Pages through [from, to] and merges the answers. `reply(i, w)` is what request number
    * `i` gets, None when the download or the parsing fails. The requests are the windows of
    * the range in order, up to the first that fails; when none fails the history is the
    * points fetched, in strictly ascending date order, the one fetched last for each date. */
  method FetchHistory(from: Instant, to: Instant, maxRangeYears: int, reply: (nat, Window) -> Option<seq<Point>>)
    returns (r: Result<seq<Point>, HistoryError>, requests: seq<Window>, ghost windows: seq<Window>)
    requires Valid(from.date) && Valid(to.date)
    ensures windows == Windows(from, to, if maxRangeYears <= 0 then 10 else maxRangeYears)
    ensures Before(to, from) ==> r == Err(InvalidRange)
    ensures requests <= windows
    ensures r.Ok? <==> !Before(to, from) && Answered(windows, reply)
    ensures r.Ok? ==> requests == windows && IsHistory(r.value, Fetched(windows, reply))
    ensures r == Err(FetchFailed) ==>
      requests != [] && Answered(requests[..|requests| - 1], reply)
      && reply(|requests| - 1, requests[|requests| - 1]) == None
  {
    hide Number, AddDate, Before, Valid, WindowEnd, ByDate, Fetched, Windows, Answered, IsHistory, DaysLeft;
    requests := [];
    var maxYears := if maxRangeYears <= 0 then DEFAULT_YEARS else maxRangeYears;
    windows := Windows(from, to, maxYears);
    NoWindows(from, to, maxYears);
    if Before(to, from) {
      r := Err(InvalidRange);
      return;
    }
    var byDate: map<Date, Point> := map[];
    var windowStart := from;
    NothingFetched(reply);
    while !Before(to, windowStart)
      invariant Valid(windowStart.date)
      invariant requests + Windows(windowStart, to, maxYears) == windows
      invariant Answered(requests, reply) && byDate == ByDate(Fetched(requests, reply))
      decreases DaysLeft(windowStart, to)
    {
      WindowEndBounds(windowStart, to, maxYears);
      var windowEnd := Moved(windowStart, maxYears, -1);
      if Before(to, windowEnd) {
        windowEnd := to;
      }
      WindowEndIs(windowStart, to, maxYears, windowEnd);
      var w := Window(windowStart.date, windowEnd.date);
      ghost var before := requests;
      WindowsUnroll(windowStart, to, maxYears);
      var answer := reply(|requests|, w);
      requests := requests + [w];
      assert requests <= windows;
      if answer.None? {
        UnansweredWindow(windows, |before|, reply);
        r := Err(FetchFailed);
        return;
      }
      FetchedNext(before, w, reply);
      byDate := Overwrite(byDate, answer.value, Fetched(before, reply));
      windowStart := Moved(windowEnd, 0, 1);
    }
    NoWindows(windowStart, to, maxYears);
    assert requests == windows;
    var out := SortedPoints(byDate, Fetched(requests, reply));
    r := Ok(out);
  }
}
