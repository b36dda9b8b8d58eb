/**
 * The event store of develop/dev11: a map from event id to event, with create, update and
 * delete, and the day, week and month queries. A date is a whole number of seconds since
 * Go's zero time; adding a calendar month is left to a function the caller supplies.
 */
module CalendarStore {
  import opened Wrappers

  datatype Event = Event(id: int, title: string, description: string, userId: int, date: int)

  /** "event with id %d does not exist" */
  datatype CalendarError = NoSuchEvent(id: int)

  const Day: int := 24 * 60 * 60
  const Week: int := 7 * Day
  /** The "month" that GetEventsForMonth truncates to: 30 days. */
  const Month30: int := 30 * Day

  /** CreateEvent: the event is stored under its own id, replacing any event stored there. */
  function Created(events: map<int, Event>, e: Event): map<int, Event> {
    events[e.id := e]
  }

  /** UpdateEvent: fails for an id that is not stored; otherwise stores the new event under
      `id`, whatever id the event itself carries. */
  function Updated(events: map<int, Event>, id: int, e: Event): Result<map<int, Event>, CalendarError> {
    if id !in events then Err(NoSuchEvent(id)) else Ok(events[id := e])
  }

  /** DeleteEvent: fails for an id that is not stored; otherwise removes it. */
  function Deleted(events: map<int, Event>, id: int): Result<map<int, Event>, CalendarError> {
    if id !in events then Err(NoSuchEvent(id)) else Ok(events - {id})
  }

  /** Creating stores the event under its id and leaves every other id as it was; creating
      over an existing id overwrites it. */
  lemma {:induction false} CreateSpec(events: map<int, Event>, e: Event)
    ensures var m := Created(events, e);
      && e.id in m && m[e.id] == e && m.Keys == events.Keys + {e.id}
      && (forall k :: k in events && k != e.id ==> k in m && m[k] == events[k])
  {
  }

  /** Updating succeeds exactly for stored ids; it keeps the set of ids and changes only the
      entry at `id`. */
  lemma {:induction false} UpdateSpec(events: map<int, Event>, id: int, e: Event)
    ensures Updated(events, id, e).Ok? <==> id in events
    ensures Updated(events, id, e).Ok? ==>
      var m := Updated(events, id, e).value;
      && m.Keys == events.Keys && m[id] == e
      && (forall k :: k in events && k != id ==> m[k] == events[k])
  {
  }

  /** Deleting succeeds exactly for stored ids and then removes that id and nothing else. */
  lemma {:induction false} DeleteSpec(events: map<int, Event>, id: int)
    ensures Deleted(events, id).Ok? <==> id in events
    ensures Deleted(events, id).Ok? ==>
      var m := Deleted(events, id).value;
      && m.Keys == events.Keys - {id}
      && (forall k :: k in m ==> m[k] == events[k])
  {
  }

  /** Deleting a freshly created event gives the store back; deleting twice fails the second
      time. */
  lemma {:induction false} CreateThenDelete(events: map<int, Event>, e: Event)
    requires e.id !in events
    ensures Deleted(Created(events, e), e.id) == Ok(events)
    ensures Deleted(Deleted(Created(events, e), e.id).value, e.id) == Err(NoSuchEvent(e.id))
  {
    assert Created(events, e) - {e.id} == events;
  }

  /** The ids of the stored events dated strictly after `start` and strictly before `end`. */
  function InRange(events: map<int, Event>, start: int, end: int): (ks: set<int>)
    ensures forall k :: k in ks <==> k in events && start < events[k].date < end
  {
    set k | k in events && start < events[k].date < end
  }

  /** Both bounds are exclusive: an event dated exactly at either bound is not in the range. */
  lemma {:induction false} RangeExcludesBounds(events: map<int, Event>, start: int, end: int, k: int)
    requires k in events && (events[k].date == start || events[k].date == end)
    ensures k !in InRange(events, start, end)
  {
  }

  /** time.Truncate: rounds down to a multiple of d since the zero time. */
  function Truncate(t: int, d: int): (r: int)
    requires d > 0
    ensures r <= t < r + d && r == d * (t / d)
  {
    t - t % d
  }

  /** Any time in [r, r + d) truncates to the same r: blocks of length d do not overlap. */
  lemma {:induction false} TruncateStable(t: int, u: int, d: int)
    requires d > 0 && Truncate(t, d) <= u < Truncate(t, d) + d
    ensures Truncate(u, d) == Truncate(t, d)
  {
    DivUnique(u, d, t / d);
  }

  /** The quotient of u by d is the q with d*q <= u < d*q + d. */
  lemma {:induction false} DivUnique(u: int, d: int, q: int)
    requires d > 0 && d * q <= u < d * q + d
    ensures u / d == q
  {
    var q', r' := u / d, u % d;
    assert u == d * q' + r' && 0 <= r' < d;
    if q' > q {
      assert d * (q + 1) == d * q + d;
      MulMono(d, q + 1, q');
    } else if q' < q {
      assert d * (q - 1) == d * q - d;
      MulMono(d, q', q - 1);
    }
  }

  lemma {:induction false} MulMono(d: int, a: int, b: int)
    requires d >= 0 && a <= b
    ensures d * a <= d * b
    decreases b - a
  {
    if a < b {
      MulMono(d, a, b - 1);
      assert d * b == d * (b - 1) + d;
    }
  }

  /** The range GetEventsForDay queries: the next 24 hours after `date`, both ends excluded. */
  function DayRange(date: int): (int, int) {
    (date, date + Day)
  }

  /** The range GetEventsForWeek queries: from `date` truncated to a multiple of 7 days, for 7
      days. */
  function WeekRange(date: int): (int, int) {
    var s := Truncate(date, Week);
    (s, s + Week)
  }

  /** The range GetEventsForMonth queries: from `date` truncated to a multiple of 30 days up to
      one calendar month later, as `addMonth` computes it. */
  function MonthRange(date: int, addMonth: int -> int): (int, int) {
    var s := Truncate(date, Month30);
    (s, addMonth(s))
  }

  /** The day query excludes an event at exactly `date`; the week range is aligned to 7-day
      multiples, holds `date` and is 7 days long; the month range starts at a 30-day multiple
      not after `date`. */
  lemma {:induction false} QueryRanges(events: map<int, Event>, date: int, addMonth: int -> int)
    ensures forall k :: k in events && events[k].date == date ==> k !in InRange(events, date, date + Day)
    ensures var (s, e) := WeekRange(date); s == Week * (date / Week) && s <= date < e && e - s == Week
    ensures var (s, _) := MonthRange(date, addMonth); s == Month30 * (date / Month30) && s <= date < s + Month30
  {
  }

  /** Two dates in the same 7-day block query the same week. */
  lemma {:induction false} SameWeek(d1: int, d2: int)
    requires WeekRange(d1).0 <= d2 < WeekRange(d1).1
    ensures WeekRange(d2) == WeekRange(d1)
  {
    TruncateStable(d1, d2, Week);
  }

  lemma {:induction false} NonEmptyHasMember(s: set<int>)
    requires s != {}
    ensures exists k :: k in s
  {
    if forall k :: k !in s {
      assert false;
    }
  }

  /** A list without repeats has as many entries as the set of its entries. */
  lemma {:induction false} DistinctCard(s: seq<int>, ks: set<int>)
    requires forall i, j :: 0 <= i < j < |s| ==> s[i] != s[j]
    requires forall k :: k in s <==> k in ks
    ensures |ks| == |s|
    decreases |s|
  {
    if s == [] {
      forall k ensures k !in ks {
        assert k !in s;
      }
      assert ks == {};
    } else {
      var p, x := s[..|s| - 1], s[|s| - 1];
      assert s == p + [x];
      forall k ensures k in p <==> k in ks - {x} {
        if k in p {
          var i :| 0 <= i < |p| && p[i] == k;
          assert s[i] == k;
        }
      }
      DistinctCard(p, ks - {x});
      assert ks == (ks - {x}) + {x};
    }
  }

  class Calendar {
    var events: map<int, Event>

    /** NewCalendar */
    constructor ()
      ensures events == map[]
    {
      events := map[];
    }

    method CreateEvent(e: Event)
      modifies this
      ensures events == Created(old(events), e)
    {
      events := events[e.id := e];
    }

    method UpdateEvent(id: int, e: Event) returns (r: Result<(), CalendarError>)
      modifies this
      ensures var u := Updated(old(events), id, e);
        && (u.Ok? ==> r == Ok(()) && events == u.value)
        && (u.Err? ==> r == Err(u.error) && events == old(events))
    {
      if id !in events {
        return Err(NoSuchEvent(id));
      }
      events := events[id := e];
      return Ok(());
    }

    method DeleteEvent(id: int) returns (r: Result<(), CalendarError>)
      modifies this
      ensures var d := Deleted(old(events), id);
        && (d.Ok? ==> r == Ok(()) && events == d.value)
        && (d.Err? ==> r == Err(d.error) && events == old(events))
    {
      if id !in events {
        return Err(NoSuchEvent(id));
      }
      events := events - {id};
      return Ok(());
    }

    /** getEventsByDateRange: one entry per stored id in range. Go visits the map in no fixed
        order; `order` is the order this run took. */
    method GetEventsByDateRange(start: int, end: int) returns (result: seq<Event>, ghost order: seq<int>)
      ensures |order| == |result| && (forall i, j :: 0 <= i < j < |order| ==> order[i] != order[j])
      ensures forall k :: k in order <==> k in InRange(events, start, end)
      ensures |result| == |InRange(events, start, end)|
      ensures forall e :: e in result ==> start < e.date < end
      ensures forall i :: 0 <= i < |order| ==> order[i] in events && result[i] == events[order[i]]
    {
      result, order := [], [];
      var rest := events.Keys;
      while rest != {}
        invariant rest <= events.Keys
        invariant |order| == |result| && (forall i, j :: 0 <= i < j < |order| ==> order[i] != order[j])
        invariant forall k :: k in order <==> k in InRange(events, start, end) && k !in rest
        invariant forall i :: 0 <= i < |order| ==> order[i] in events && result[i] == events[order[i]]
        decreases rest
      {
        NonEmptyHasMember(rest);
        var k :| k in rest;
        var e := events[k];
        if start < e.date && e.date < end {
          result, order := result + [e], order + [k];
        }
        rest := rest - {k};
      }
      DistinctCard(order, InRange(events, start, end));
    }

    method GetEventsForDay(date: int) returns (result: seq<Event>, ghost order: seq<int>)
      ensures |order| == |result| && (forall i, j :: 0 <= i < j < |order| ==> order[i] != order[j])
      ensures forall k :: k in order <==> k in InRange(events, DayRange(date).0, DayRange(date).1)
      ensures |result| == |InRange(events, DayRange(date).0, DayRange(date).1)|
      ensures forall e :: e in result ==> DayRange(date).0 < e.date < DayRange(date).1
      ensures forall i :: 0 <= i < |order| ==> order[i] in events && result[i] == events[order[i]]
    {
      result, order := GetEventsByDateRange(date, date + Day);
    }

    method GetEventsForWeek(date: int) returns (result: seq<Event>, ghost order: seq<int>)
      ensures |order| == |result| && (forall i, j :: 0 <= i < j < |order| ==> order[i] != order[j])
      ensures forall k :: k in order <==> k in InRange(events, WeekRange(date).0, WeekRange(date).1)
      ensures |result| == |InRange(events, WeekRange(date).0, WeekRange(date).1)|
      ensures forall e :: e in result ==> WeekRange(date).0 < e.date < WeekRange(date).1
      ensures forall i :: 0 <= i < |order| ==> order[i] in events && result[i] == events[order[i]]
    {
      var startOfWeek := Truncate(date, Week);
      var endOfWeek := startOfWeek + 7 * Day;
      result, order := GetEventsByDateRange(startOfWeek, endOfWeek);
    }

    method GetEventsForMonth(date: int, addMonth: int -> int) returns (result: seq<Event>, ghost order: seq<int>)
      ensures |order| == |result| && (forall i, j :: 0 <= i < j < |order| ==> order[i] != order[j])
      ensures forall k :: k in order <==> k in InRange(events, MonthRange(date, addMonth).0, MonthRange(date, addMonth).1)
      ensures |result| == |InRange(events, MonthRange(date, addMonth).0, MonthRange(date, addMonth).1)|
      ensures forall e :: e in result ==> MonthRange(date, addMonth).0 < e.date < MonthRange(date, addMonth).1
      ensures forall i :: 0 <= i < |order| ==> order[i] in events && result[i] == events[order[i]]
    {
      var startOfMonth := Truncate(date, Month30);
      var endOfMonth := addMonth(startOfMonth);
      result, order := GetEventsByDateRange(startOfMonth, endOfMonth);
    }
  }
}
