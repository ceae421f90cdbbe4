/**
  The appointment booking store of the clinic backend: the `schedules`
  collection, the check-then-insert of a patient's booking and the weekly
  view of a doctor's booked start times.

  Instants are JavaScript `Date` values, i.e. milliseconds since
  1970-01-01T00:00:00Z, written as unbounded integers.
 */
module Schedule {
  import opened Wrappers

  /** Lifecycle states an appointment can be stored with. */
  datatype Status = Progress | Completed | Cancel

  /** A MongoDB ObjectId, compared by value. */
  type Id = string

  /** The request body of a booking: which doctor, and when. */
  datatype PatientRegistrationDto = PatientRegistrationDto(doctorId: Id, from: int, to: int)

  /** One document of the `schedules` collection. */
  datatype Appointment = Appointment(
    userId: Id,
    doctorId: Id,
    code: string,
    from: int,
    to: int,
    status: Status,
    createdAt: int)

  /** The outcome a booking request reports to its caller. */
  datatype BookingError = AlreadyBooked
  datatype Outcome = Registered | Rejected(error: BookingError)

  /** Length of the access code of a consultation room. */
  const CodeLength := 10

  /** Milliseconds in a calendar day. */
  const MsPerDay := 86_400_000

  // ---------------------------------------------------------------------------
  // The duplicate check
  // ---------------------------------------------------------------------------

  /** `a` occupies the start `from` of doctor `doctorId`. Status and patient
      play no part. */
  predicate SameStart(a: Appointment, doctorId: Id, from: int) {
    a.doctorId == doctorId && a.from == from
  }

  /** The first stored appointment with this doctor and this exact start,
      if there is one (the `findOne` query of a booking). */
  function FindStart(s: seq<Appointment>, doctorId: Id, from: int): (r: Option<Appointment>)
    ensures r.Some? ==> r.value in s && SameStart(r.value, doctorId, from)
    ensures r.None? <==> forall i :: 0 <= i < |s| ==> !SameStart(s[i], doctorId, from)
    decreases |s|
  {
    if s == [] then None
    else if SameStart(s[0], doctorId, from) then Some(s[0])
    else
      var r := FindStart(s[1..], doctorId, from);
      assert forall i :: 1 <= i < |s| ==> s[i] == s[1..][i - 1];
      r
  }

  /** No two stored appointments share a doctor and a start. */
  ghost predicate StartsUnique(s: seq<Appointment>) {
    forall i, j :: 0 <= i < j < |s| ==> !SameStart(s[j], s[i].doctorId, s[i].from)
  }

  /** On a store without duplicates, appending `a` keeps it so exactly when
      the duplicate check finds nothing for `a`'s doctor and start. */
  lemma AppendKeepsStartsUnique(s: seq<Appointment>, a: Appointment)
    requires StartsUnique(s)
    ensures StartsUnique(s + [a]) <==> FindStart(s, a.doctorId, a.from).None?
  {
    var t := s + [a];
    if FindStart(s, a.doctorId, a.from).Some? {
      var k :| 0 <= k < |s| && SameStart(s[k], a.doctorId, a.from);
      assert t[k] == s[k] && t[|s|] == a;
      assert SameStart(t[|s|], t[k].doctorId, t[k].from);
    } else {
      forall i, j | 0 <= i < j < |t|
        ensures !SameStart(t[j], t[i].doctorId, t[i].from)
      {
        if j == |s| {
          assert !SameStart(s[i], a.doctorId, a.from);
        }
      }
    }
  }

  /** The document a successful booking inserts. */
  function NewAppointment(uId: Id, input: PatientRegistrationDto, code: string, now: int): (a: Appointment)
    requires |code| == CodeLength
    ensures |a.code| == CodeLength && a.status == Progress
    ensures SameStart(a, input.doctorId, input.from)
  {
    Appointment(uId, input.doctorId, code, input.from, input.to, Progress, now)
  }

  // ---------------------------------------------------------------------------
  // The weekly window
  // ---------------------------------------------------------------------------

  /** Day of the week of an instant, Sunday = 0 as `Date.getDay` counts.
      Day 0 of the epoch, 1970-01-01, was a Thursday. */
  function Weekday(t: int): (d: int)
    ensures 0 <= d < 7
  {
    (t / MsPerDay + 4) % 7
  }

  /** Midnight at the start of the day holding `t`. */
  function StartOfDay(t: int): (m: int)
    ensures m <= t < m + MsPerDay
    ensures m % MsPerDay == 0
  {
    (t / MsPerDay) * MsPerDay
  }

  /** Midnight of the Sunday that opens the week holding `now`. */
  function WeekStart(now: int): (r: int)
    ensures r % MsPerDay == 0
    ensures r <= now < r + 7 * MsPerDay
  {
    StartOfDay(now) - Weekday(now) * MsPerDay
  }

  /** Midnight of the Sunday that opens the following week. */
  function WeekEnd(now: int): (r: int)
    ensures r == WeekStart(now) + 7 * MsPerDay
    ensures now < r
  {
    StartOfDay(now) + (7 - Weekday(now)) * MsPerDay
  }

  /** The window is the Sunday-to-Saturday week holding `now`: it is seven
      days long, holds `now`, and opens at a Sunday midnight. */
  lemma WeekWindow(now: int)
    ensures WeekEnd(now) - WeekStart(now) == 7 * MsPerDay
    ensures WeekStart(now) <= now < WeekEnd(now)
    ensures WeekStart(now) % MsPerDay == 0 && Weekday(WeekStart(now)) == 0
  {
    var day := now / MsPerDay;
    var w := Weekday(now);
    assert StartOfDay(now) == day * MsPerDay;
    assert WeekStart(now) == (day - w) * MsPerDay;
    assert (day - w) * MsPerDay / MsPerDay == day - w;
    assert (day + 4) % 7 == w;
    assert (day - w + 4) % 7 == 0;
  }

  /** Every instant of a week sees the same window. */
  lemma SameWeek(now: int, t: int)
    requires WeekStart(now) <= t < WeekEnd(now)
    ensures WeekStart(t) == WeekStart(now) && WeekEnd(t) == WeekEnd(now)
  {
    var d0 := now / MsPerDay - Weekday(now);
    WeekWindow(now);
    assert WeekStart(now) == d0 * MsPerDay;
    assert d0 * MsPerDay <= t < d0 * MsPerDay + 7 * MsPerDay;
    var k := t / MsPerDay - d0;
    assert 0 <= k < 7;
    assert (d0 + 4) % 7 == 0;
    assert Weekday(t) == (d0 + k + 4) % 7 == k;
  }

  // ---------------------------------------------------------------------------
  // The weekly view of booked starts
  // ---------------------------------------------------------------------------

  /** The query of the weekly view: this doctor, starting at or after the
      window's start, ENDING before the window's end. */
  predicate InWindow(a: Appointment, doctorId: Id, weekStart: int, weekEnd: int)
    ensures InWindow(a, doctorId, weekStart, weekEnd) && a.from <= a.to ==> weekStart <= a.from < weekEnd
  {
    a.doctorId == doctorId && a.from >= weekStart && a.to < weekEnd
  }

  /** How many stored appointments belong to one doctor. */
  function DoctorCount(s: seq<Appointment>, doctorId: Id): (n: nat)
    ensures n <= |s|
    ensures n == 0 <==> forall i :: 0 <= i < |s| ==> s[i].doctorId != doctorId
    decreases |s|
  {
    if s == [] then 0
    else
      var n := (if s[0].doctorId == doctorId then 1 else 0) + DoctorCount(s[1..], doctorId);
      assert forall i :: 1 <= i < |s| ==> s[i] == s[1..][i - 1];
      n
  }

  /** The stored appointments of one doctor, in store order. */
  function RecordsOf(s: seq<Appointment>, doctorId: Id): (r: seq<Appointment>)
    ensures |r| == DoctorCount(s, doctorId)
    ensures forall a :: a in r <==> a in s && a.doctorId == doctorId
    ensures forall a :: multiset(r)[a] == if a.doctorId == doctorId then multiset(s)[a] else 0
    decreases |s|
  {
    if s == [] then []
    else
      assert s == [s[0]] + s[1..];
      assert multiset(s) == multiset([s[0]]) + multiset(s[1..]);
      var head := if s[0].doctorId == doctorId then [s[0]] else [];
      var r := head + RecordsOf(s[1..], doctorId);
      assert multiset(r) == multiset(head) + multiset(RecordsOf(s[1..], doctorId));
      r
  }

  /** The `from` of every stored appointment the weekly query matches, in
      store order. */
  function BookedStarts(s: seq<Appointment>, doctorId: Id, weekStart: int, weekEnd: int): (r: seq<int>)
    ensures |r| <= DoctorCount(s, doctorId)
    ensures forall x :: x in r ==> weekStart <= x
    decreases |s|
  {
    if s == [] then []
    else
      (if InWindow(s[0], doctorId, weekStart, weekEnd) then [s[0].from] else [])
      + BookedStarts(s[1..], doctorId, weekStart, weekEnd)
  }

  /** A start is listed exactly when some stored appointment matching the
      query has it. */
  lemma {:induction false} BookedStartsMembers(s: seq<Appointment>, doctorId: Id, weekStart: int, weekEnd: int, x: int)
    ensures x in BookedStarts(s, doctorId, weekStart, weekEnd)
      <==> exists i :: 0 <= i < |s| && InWindow(s[i], doctorId, weekStart, weekEnd) && s[i].from == x
  {
    if s != [] {
      BookedStartsMembers(s[1..], doctorId, weekStart, weekEnd, x);
      if exists i :: 0 <= i < |s| && InWindow(s[i], doctorId, weekStart, weekEnd) && s[i].from == x {
        var i :| 0 <= i < |s| && InWindow(s[i], doctorId, weekStart, weekEnd) && s[i].from == x;
        if i > 0 {
          assert s[1..][i - 1] == s[i];
        }
      }
      if exists i :: 0 <= i < |s[1..]| && InWindow(s[1..][i], doctorId, weekStart, weekEnd) && s[1..][i].from == x {
        var i :| 0 <= i < |s[1..]| && InWindow(s[1..][i], doctorId, weekStart, weekEnd) && s[1..][i].from == x;
        assert s[i + 1] == s[1..][i];
      }
    }
  }

  /** The view keeps store order: the view of two stretches of the store,
      one after the other, is the two views one after the other. */
  lemma {:induction false} BookedStartsAppend(s: seq<Appointment>, t: seq<Appointment>, doctorId: Id, weekStart: int, weekEnd: int)
    ensures BookedStarts(s + t, doctorId, weekStart, weekEnd)
         == BookedStarts(s, doctorId, weekStart, weekEnd) + BookedStarts(t, doctorId, weekStart, weekEnd)
  {
    if s != [] {
      var st := s + t;
      assert st != [] && st[0] == s[0] && st[1..] == s[1..] + t;
      BookedStartsAppend(s[1..], t, doctorId, weekStart, weekEnd);
      var head := if InWindow(s[0], doctorId, weekStart, weekEnd) then [s[0].from] else [];
      assert BookedStarts(s, doctorId, weekStart, weekEnd) == head + BookedStarts(s[1..], doctorId, weekStart, weekEnd);
      assert BookedStarts(st, doctorId, weekStart, weekEnd) == head + BookedStarts(s[1..] + t, doctorId, weekStart, weekEnd);
    } else {
      assert s + t == t;
    }
  }

  /** A new booking shows up at the end of the view exactly when the query
      matches it; a booking of another doctor never shows up. */
  lemma BookedStartsAfterInsert(s: seq<Appointment>, a: Appointment, doctorId: Id, weekStart: int, weekEnd: int)
    ensures BookedStarts(s + [a], doctorId, weekStart, weekEnd)
         == BookedStarts(s, doctorId, weekStart, weekEnd)
            + (if InWindow(a, doctorId, weekStart, weekEnd) then [a.from] else [])
  {
    BookedStartsAppend(s, [a], doctorId, weekStart, weekEnd);
    assert [a][1..] == [];
  }

  /** The view does not look at status: changing the status of any stored
      appointment leaves it as it was. */
  lemma {:induction false} BookedStartsIgnoresStatus(s: seq<Appointment>, k: nat, st: Status, doctorId: Id, weekStart: int, weekEnd: int)
    requires k < |s|
    ensures BookedStarts(s[k := s[k].(status := st)], doctorId, weekStart, weekEnd)
         == BookedStarts(s, doctorId, weekStart, weekEnd)
  {
    var t := s[k := s[k].(status := st)];
    if k > 0 {
      assert t[1..] == s[1..][k - 1 := s[k].(status := st)];
      BookedStartsIgnoresStatus(s[1..], k - 1, st, doctorId, weekStart, weekEnd);
    } else {
      assert t[1..] == s[1..];
    }
  }

  /** When every matching appointment ends no earlier than it starts, each
      listed start lies inside the window. */
  lemma {:induction false} BookedStartsWithinWeek(s: seq<Appointment>, doctorId: Id, weekStart: int, weekEnd: int)
    requires forall i :: 0 <= i < |s| && InWindow(s[i], doctorId, weekStart, weekEnd) ==> s[i].from <= s[i].to
    ensures forall x :: x in BookedStarts(s, doctorId, weekStart, weekEnd) ==> weekStart <= x < weekEnd
  {
    if s != [] {
      BookedStartsWithinWeek(s[1..], doctorId, weekStart, weekEnd);
    }
  }

  /** A booking that starts inside the week but ends at or after the week's
      end is not listed, because the query bounds the end, not the start. */
  lemma BookedStartsOmitsOverrun(a: Appointment, weekStart: int, weekEnd: int)
    requires weekStart <= a.from < weekEnd <= a.to
    ensures BookedStarts([a], a.doctorId, weekStart, weekEnd) == []
  {
    assert [a][1..] == [];
  }

  // ---------------------------------------------------------------------------
  // The store
  // ---------------------------------------------------------------------------

  /** The `schedules` collection as the booking service sees it. */
  class ScheduleService {
    var schedules: seq<Appointment>

    /** The service over a collection holding `initial`. */
    constructor (initial: seq<Appointment>)
      ensures schedules == initial
    {
      schedules := initial;
    }

    /** Books `input` for patient `uId`. Rejected, with the store untouched,
        when any stored appointment of that doctor starts at the same instant;
        otherwise exactly one appointment in Progress is appended. `code` is
        the freshly generated room code and `now` the current instant. */
    method PatientRegistration(uId: Id, input: PatientRegistrationDto, code: string, now: int) returns (r: Outcome)
      requires |code| == CodeLength
      modifies this
      ensures r.Rejected? <==> FindStart(old(schedules), input.doctorId, input.from).Some?
      ensures r.Rejected? ==> r.error == AlreadyBooked && schedules == old(schedules)
      ensures r.Registered? ==> schedules == old(schedules) + [Appointment(uId, input.doctorId, code, input.from, input.to, Progress, now)]
      ensures StartsUnique(old(schedules)) ==> StartsUnique(schedules)
    {
      var existing := FindStart(schedules, input.doctorId, input.from);
      if existing.Some? {
        return Rejected(AlreadyBooked);
      }
      ghost var before := schedules;
      var a := NewAppointment(uId, input, code, now);
      schedules := schedules + [a];
      if StartsUnique(before) {
        AppendKeepsStartsUnique(before, a);
      }
      r := Registered;
    }

    /** The starts booked with `doctorId` in the week holding `now`. */
    function Booked(doctorId: Id, now: int): (r: seq<int>)
      reads this
      ensures r == BookedStarts(schedules, doctorId, WeekStart(now), WeekEnd(now))
      ensures forall x :: x in r <==>
                exists i :: 0 <= i < |schedules| && schedules[i].from == x
                             && InWindow(schedules[i], doctorId, WeekStart(now), WeekEnd(now))
      ensures |r| <= DoctorCount(schedules, doctorId)
      ensures (forall i :: 0 <= i < |schedules| && InWindow(schedules[i], doctorId, WeekStart(now), WeekEnd(now))
                 ==> schedules[i].from <= schedules[i].to)
              ==> forall x :: x in r ==> WeekStart(now) <= x < WeekStart(now) + 7 * MsPerDay
    {
      var ws, we := WeekStart(now), WeekEnd(now);
      var r := BookedStarts(schedules, doctorId, ws, we);
      assert forall x :: x in r <==>
               exists i :: 0 <= i < |schedules| && schedules[i].from == x
                            && InWindow(schedules[i], doctorId, ws, we) by {
        forall x { BookedStartsMembers(schedules, doctorId, ws, we, x); }
      }
      assert (forall i :: 0 <= i < |schedules| && InWindow(schedules[i], doctorId, ws, we) ==> schedules[i].from <= schedules[i].to)
             ==> forall x :: x in r ==> x < we by {
        if forall i :: 0 <= i < |schedules| && InWindow(schedules[i], doctorId, ws, we) ==> schedules[i].from <= schedules[i].to {
          BookedStartsWithinWeek(schedules, doctorId, ws, we);
        }
      }
      r
    }
  }

  /** Two patients asking for the same doctor and start: the first is booked,
      the second is turned away and the store keeps the first booking alone. */
  method DoubleBooking(p: Id, q: Id, first: PatientRegistrationDto, second: PatientRegistrationDto, c1: string, c2: string, now: int)
    returns (r1: Outcome, r2: Outcome, stored: seq<Appointment>)
    requires |c1| == CodeLength && |c2| == CodeLength
    requires first.doctorId == second.doctorId && first.from == second.from
    ensures r1 == Registered && r2 == Rejected(AlreadyBooked)
    ensures stored == [Appointment(p, first.doctorId, c1, first.from, first.to, Progress, now)]
  {
    var service := new ScheduleService([]);
    r1 := service.PatientRegistration(p, first, c1, now);
    r2 := service.PatientRegistration(q, second, c2, now);
    stored := service.schedules;
  }
}
