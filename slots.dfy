/** The hour list of the booking form (`atualizarHorariosDisponiveis`): which
    start hours are offered for a date and a professional, and why the others
    are not. The selected date is a day number; its weekday and the current
    instant are given rather than read from the clock. */
module Slots {
  import opened Lists
  import opened Bookings

  /** `HORA_INICIO` and `HORA_FIM`: hours 8 to 18 are listed. */
  const OpenHour: int := 8
  const CloseHour: int := 19

  /** What the list shows for one hour: `(passado)`, `(indisponível)`, or
      selectable. */
  datatype SlotStatus = Past | Unavailable | Available

  datatype Slot = Slot(hour: int, status: SlotStatus)

  /** What the hour selector ends up showing: disabled because no
      professional is chosen, disabled because the day is closed, the list of
      hours, or the "no hour available" message. */
  datatype HourList = NoProfessional | ClosedDay | Hours(slots: seq<Slot>) | NothingAvailable

  /** The bookings of `professional` that start on day `date`, in stored
      order (the `agendamentosDia` filter). */
  function DayBookings(all: seq<Booking>, date: int, professional: string): (r: seq<Booking>)
    ensures forall b :: b in r <==> b in all && Day(b.start) == date && b.professional == professional
  {
    Filter(all, (b: Booking) => Day(b.start) == date && b.professional == professional)
  }

  /** The day filter keeps the stored order: it distributes over concatenation. */
  lemma DayBookingsAppend(a: seq<Booking>, b: seq<Booking>, date: int, professional: string)
    ensures DayBookings(a + b, date, professional) == DayBookings(a, date, professional) + DayBookings(b, date, professional)
  {
    FilterAppend(a, b, (x: Booking) => Day(x.start) == date && x.professional == professional);
  }

  /** The start of the three-hour candidate at `hour` on day `date`. */
  function SlotStart(date: int, hour: int): int {
    TimeOn(date, hour, 0)
  }

  /** The status one hour gets: past if the date is today and the hour has
      begun; otherwise unavailable if it clashes with one of the day's
      bookings; otherwise available. An available hour overlaps none of the
      day's bookings, and an unavailable one clashes with one of them. */
  function HourStatus(date: int, hour: int, now: int, day: seq<Booking>): (r: SlotStatus)
    ensures r == Past <==> date == Day(now) && SlotStart(date, hour) <= now
    ensures r == Available ==>
      forall b :: b in day ==> !Overlaps(SlotStart(date, hour), SlotStart(date, hour) + Duration, b.start, b.end)
    ensures r == Unavailable ==> exists b :: b in day && Clash(SlotStart(date, hour), Duration, b)
  {
    if date == Day(now) && SlotStart(date, hour) <= now then Past
    else if Free(SlotStart(date, hour), Duration, day) then Available
    else Unavailable
  }

  /** `atualizarHorariosDisponiveis`: nothing without a professional, the
      closed message on Sundays (0) and Mondays (1), otherwise one entry per
      hour from 8 to 18 with its status against the professional's bookings
      of that day. */
  method AvailableHours(professional: string, weekday: int, date: int, now: int, all: seq<Booking>)
    returns (r: HourList)
    ensures professional == "" ==> r == NoProfessional
    ensures professional != "" && (weekday == 0 || weekday == 1) ==> r == ClosedDay
    ensures professional != "" && weekday != 0 && weekday != 1 ==>
      r.Hours? && |r.slots| == CloseHour - OpenHour
      && forall i :: 0 <= i < |r.slots| ==>
           r.slots[i] == Slot(OpenHour + i, HourStatus(date, OpenHour + i, now, DayBookings(all, date, professional)))
  {
    if professional == "" {
      return NoProfessional;
    }
    if weekday == 0 || weekday == 1 {
      return ClosedDay;
    }
    var day := DayBookings(all, date, professional);
    var slots: seq<Slot> := [];
    for hour := OpenHour to CloseHour
      invariant |slots| == hour - OpenHour
      invariant forall i :: 0 <= i < |slots| ==> slots[i] == Slot(OpenHour + i, HourStatus(date, OpenHour + i, now, day))
    {
      var start := SlotStart(date, hour);
      if date == Day(now) && start <= now {
        slots := slots + [Slot(hour, Past)];
        continue;
      }
      var free := VerifyAvailability(start, Duration, day);
      if free {
        slots := slots + [Slot(hour, Available)];
      } else {
        slots := slots + [Slot(hour, Unavailable)];
      }
    }
    r := if |slots| > 0 then Hours(slots) else NothingAvailable;
  }

  /** An hour is past iff the date is today and the hour has begun; the
      bookings play no part in it. */
  lemma PastIff(date: int, hour: int, now: int, day: seq<Booking>, other: seq<Booking>)
    ensures HourStatus(date, hour, now, day) == Past <==> date == Day(now) && SlotStart(date, hour) <= now
    ensures HourStatus(date, hour, now, day) == Past <==> HourStatus(date, hour, now, other) == Past
  {
  }

  /** On any other day than today no hour is past. */
  lemma OtherDayNeverPast(date: int, hour: int, now: int, day: seq<Booking>)
    requires date != Day(now)
    ensures HourStatus(date, hour, now, day) != Past
  {
  }

  /** An hour that is not past is unavailable iff it overlaps, as half-open
      intervals, a booking of the same professional starting that day. */
  lemma UnavailableIff(date: int, hour: int, now: int, all: seq<Booking>, professional: string)
    requires forall b :: b in all ==> b.start < b.end
    ensures HourStatus(date, hour, now, DayBookings(all, date, professional)) == Unavailable
      <==> !(date == Day(now) && SlotStart(date, hour) <= now)
           && exists b :: b in all && Day(b.start) == date && b.professional == professional
                          && Overlaps(SlotStart(date, hour), SlotStart(date, hour) + Duration, b.start, b.end)
  {
    var day := DayBookings(all, date, professional);
    FreeIffNoOverlap(SlotStart(date, hour), Duration, day);
  }

  /** Bookings of other professionals or other days never make an hour
      unavailable. */
  lemma OthersIgnored(date: int, hour: int, now: int, all: seq<Booking>, extra: seq<Booking>, professional: string)
    requires forall b :: b in extra ==> b.professional != professional || Day(b.start) != date
    ensures HourStatus(date, hour, now, DayBookings(all + extra, date, professional))
         == HourStatus(date, hour, now, DayBookings(all, date, professional))
  {
    var before, after := DayBookings(all, date, professional), DayBookings(all + extra, date, professional);
    forall b ensures b in after <==> b in before {
      assert b in all + extra <==> b in all || b in extra;
    }
    assert Free(SlotStart(date, hour), Duration, after) == Free(SlotStart(date, hour), Duration, before);
  }

  /** With no bookings every hour that has not begun is available. */
  lemma EmptyDayAllAvailable(date: int, hour: int, now: int)
    requires !(date == Day(now) && SlotStart(date, hour) <= now)
    ensures HourStatus(date, hour, now, []) == Available
  {
  }

  /** The boundary arithmetic on a concrete day: with a booking from 11:00 to
      14:00, seen from 07:00 that day, the 08:00 hour (ending at 11:00) is
      available, 09:00 and 10:00 are not, and 14:00 (starting at its end) is. */
  lemma BoundaryExample(date: int, b: Booking)
    requires b.start == TimeOn(date, 11, 0) && b.end == TimeOn(date, 14, 0)
    ensures HourStatus(date, 8, TimeOn(date, 7, 0), [b]) == Available
    ensures HourStatus(date, 9, TimeOn(date, 7, 0), [b]) == Unavailable
    ensures HourStatus(date, 10, TimeOn(date, 7, 0), [b]) == Unavailable
    ensures HourStatus(date, 14, TimeOn(date, 7, 0), [b]) == Available
  {
    DayOfTimeOn(date, 7, 0);
    assert b in [b];
  }
}
