/** Booking records, the clock arithmetic they use, the record built from the
    form (`criarObjetoAgendamento`) and the interval-conflict test
    (`verificarDisponibilidadeHorario`).

    Instants are whole minutes on one clock; the script's milliseconds
    (`duracaoMinutos * 60000`) become minutes. */
module Bookings {
  import opened Form

  /** `DURACAO_PADRAO_MINUTOS`: every booking lasts three hours. */
  const Duration: int := 180

  const MinutesPerDay: int := 1440

  /** A stored booking (`agendamento`). `start` and `end` are the instants
      `inicio` and `fim`; `services` is the ticked services joined by ", ". */
  datatype Booking = Booking(
    id: string,
    client: string,
    phone: string,
    professional: string,
    services: string,
    start: int,
    end: int,
    createdAt: int)

  /** The calendar day an instant falls on (the day `toDateString` names). */
  function Day(t: int): int {
    t / MinutesPerDay
  }

  /** An instant lies within the day `Day` gives it. */
  lemma DayBounds(t: int)
    ensures Day(t) * MinutesPerDay <= t < Day(t) * MinutesPerDay + MinutesPerDay
  {
  }

  /** The instant `hour:minute` on day `date`. */
  function TimeOn(date: int, hour: int, minute: int): int {
    date * MinutesPerDay + hour * 60 + minute
  }

  /** The day of `TimeOn(date, hour, minute)` is `date` for a time of day
      between 00:00 and 23:59. */
  lemma DayOfTimeOn(date: int, hour: int, minute: int)
    requires 0 <= hour * 60 + minute < MinutesPerDay
    ensures Day(TimeOn(date, hour, minute)) == date
  {
    var t := TimeOn(date, hour, minute);
    assert t == date * MinutesPerDay + (hour * 60 + minute);
  }

  /** The total length of `parts`. */
  function TotalLength(parts: seq<string>): nat {
    if parts == [] then 0 else |parts[0]| + TotalLength(parts[1..])
  }

  /** `servicos.join(', ')`: the parts in order with `sep` between each two;
      no parts give the empty string. */
  function Join(parts: seq<string>, sep: string): (r: string)
    ensures parts == [] ==> r == ""
    ensures parts != [] ==> parts[0] <= r && |r| == TotalLength(parts) + (|parts| - 1) * |sep|
  {
    if parts == [] then ""
    else if |parts| == 1 then parts[0]
    else parts[0] + sep + Join(parts[1..], sep)
  }

  /** Joining two non-empty lists of parts is joining each and putting one
      separator between them, so the parts appear in their given order. */
  lemma {:induction false} JoinAppend(a: seq<string>, b: seq<string>, sep: string)
    requires a != [] && b != []
    ensures Join(a + b, sep) == Join(a, sep) + sep + Join(b, sep)
    decreases |a|
  {
    if |a| == 1 {
      assert (a + b)[1..] == b;
    } else {
      assert (a + b)[1..] == a[1..] + b;
      JoinAppend(a[1..], b, sep);
    }
  }

  /** `criarObjetoAgendamento`: the record for a validated form. It starts at
      the chosen date and hour, ends `Duration` minutes later, keeps the
      trimmed name and the phone as typed. The id and the creation instant
      are given (the script draws them from the clock and a random source). */
  function MakeBooking(id: string, f: FormInput, createdAt: int): (b: Booking)
    requires f.date.Some? && f.time.Some?
    ensures b.start == TimeOn(f.date.value, f.time.value.hour, f.time.value.minute)
    ensures b.end - b.start == Duration
    ensures 0 <= f.time.value.hour * 60 + f.time.value.minute < MinutesPerDay ==> Day(b.start) == f.date.value
    ensures b.id == id && b.professional == f.professional && b.client == Trim(f.name) && b.phone == f.phone
    ensures b.services == Join(f.services, ", ") && b.createdAt == createdAt
  {
    var start := TimeOn(f.date.value, f.time.value.hour, f.time.value.minute);
    Booking(id, Trim(f.name), f.phone, f.professional, Join(f.services, ", "),
            start, start + Duration, createdAt)
  }

  /** The half-open intervals `[s1, e1)` and `[s2, e2)` share an instant. */
  predicate Overlaps(s1: int, e1: int, s2: int, e2: int) {
    s1 < e2 && s2 < e1
  }

  /** The script's three-clause conflict test between the candidate
      `[start, start + duration)` and a booking: the candidate starts inside
      it, or ends inside it, or covers it. Whatever the lengths, it misses no
      real overlap. */
  predicate Clash(start: int, duration: int, b: Booking): (r: bool)
    ensures Overlaps(start, start + duration, b.start, b.end) ==> r
  {
    var end := start + duration;
    (start >= b.start && start < b.end)
    || (end > b.start && end <= b.end)
    || (start <= b.start && end >= b.end)
  }

  /** No booking of `day` clashes with the candidate. */
  predicate Free(start: int, duration: int, day: seq<Booking>) {
    forall b :: b in day ==> !Clash(start, duration, b)
  }

  /** `verificarDisponibilidadeHorario`: true iff no booking of `day` clashes
      with the candidate; the loop stops at the first clash. */
  method VerifyAvailability(start: int, duration: int, day: seq<Booking>) returns (available: bool)
    ensures available <==> forall i :: 0 <= i < |day| ==> !Clash(start, duration, day[i])
    ensures available == Free(start, duration, day)
  {
    for i := 0 to |day|
      invariant forall k :: 0 <= k < i ==> !Clash(start, duration, day[k])
    {
      if Clash(start, duration, day[i]) {
        return false;
      }
    }
    return true;
  }

  /** For a positive duration and a non-empty booking the three-clause test
      is exactly the half-open overlap test. */
  lemma ClashIffOverlap(start: int, duration: int, b: Booking)
    requires duration > 0 && b.start < b.end
    ensures Clash(start, duration, b) <==> Overlaps(start, start + duration, b.start, b.end)
  {
  }

  /** Hence, over bookings with `start < end`, a candidate of positive length is
      free iff it overlaps none of them. */
  lemma FreeIffNoOverlap(start: int, duration: int, day: seq<Booking>)
    requires duration > 0
    requires forall b :: b in day ==> b.start < b.end
    ensures Free(start, duration, day) <==> forall b :: b in day ==> !Overlaps(start, start + duration, b.start, b.end)
  {
    forall b | b in day ensures Clash(start, duration, b) <==> Overlaps(start, start + duration, b.start, b.end) {
      ClashIffOverlap(start, duration, b);
    }
  }

  /** Back-to-back bookings are legal: a candidate that ends when a booking
      starts, or starts when it ends, does not clash with it. */
  lemma BackToBackIsFree(start: int, duration: int, b: Booking)
    requires duration > 0 && b.start < b.end
    requires start + duration == b.start || start == b.end
    ensures !Clash(start, duration, b)
  {
  }

  /** Without the side conditions the test is not the overlap test: an empty
      booking at the candidate's start blocks it though they share no instant. */
  lemma EmptyBookingClashes(start: int, duration: int, b: Booking)
    requires duration > 0 && b.start == b.end == start
    ensures Clash(start, duration, b) && !Overlaps(start, start + duration, b.start, b.end)
  {
  }
}
