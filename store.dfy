/** The script's in-memory booking store: the list `agendamentos` and the id
    of the last booking made in this page, `ultimoAgendamentoId`, with the
    three operations that change them (`salvarAgendamento`,
    `confirmarCancelamento` and the submit handler `submeterFormulario`), and
    what can be proved about double booking. */
module Store {
  import opened Lists
  import opened Form
  import opened Bookings
  import opened Slots

  /** `agendamentos.filter(ag => ag.id !== id)`. */
  function WithoutId(all: seq<Booking>, id: string): (r: seq<Booking>)
    ensures forall b :: b in r <==> b in all && b.id != id
  {
    Filter(all, (b: Booking) => b.id != id)
  }

  /** `agendamentos.find(ag => ag.id === id)`. */
  function FindById(all: seq<Booking>, id: string): (r: Option<Booking>)
    ensures r.Some? ==> r.value in all && r.value.id == id
    ensures r.None? <==> forall b :: b in all ==> b.id != id
  {
    Find(all, (b: Booking) => b.id == id)
  }

  /** Removal by id keeps the other bookings in their stored order. */
  lemma WithoutIdAppend(a: seq<Booking>, b: seq<Booking>, id: string)
    ensures WithoutId(a + b, id) == WithoutId(a, id) + WithoutId(b, id)
  {
    FilterAppend(a, b, (x: Booking) => x.id != id);
  }

  /** Once the bookings with an id are removed, looking that id up finds
      nothing: the lookup `confirmarCancelamento` makes after its filter
      always comes back empty. */
  lemma FindAfterRemovalIsNone(all: seq<Booking>, id: string)
    ensures FindById(WithoutId(all, id), id) == None
  {
  }

  /** Two bookings of the same professional whose intervals share an instant. */
  predicate Conflicting(a: Booking, b: Booking) {
    a.professional == b.professional && Overlaps(a.start, a.end, b.start, b.end)
  }

  /** No professional is booked twice at the same instant. */
  ghost predicate NoDoubleBooking(all: seq<Booking>) {
    forall i, j :: 0 <= i < j < |all| ==> !Conflicting(all[i], all[j])
  }

  /** A booking lies within one calendar day, as every hour the page offers
      does (08:00 to 21:00 at the latest). */
  predicate WithinOneDay(b: Booking) {
    b.start < b.end && Day(b.end - 1) == Day(b.start)
  }

  lemma NoDoubleBookingCons(x: Booking, rest: seq<Booking>)
    requires NoDoubleBooking(rest)
    requires forall y :: y in rest ==> !Conflicting(x, y)
    ensures NoDoubleBooking([x] + rest)
  {
    var all := [x] + rest;
    forall i, j | 0 <= i < j < |all| ensures !Conflicting(all[i], all[j]) {
      assert all[j] == rest[j - 1];
      if i > 0 {
        assert all[i] == rest[i - 1];
      }
    }
  }

  lemma NoDoubleBookingSnoc(all: seq<Booking>, b: Booking)
    requires NoDoubleBooking(all)
    requires forall x :: x in all ==> !Conflicting(x, b)
    ensures NoDoubleBooking(all + [b])
  {
    var l := all + [b];
    forall i, j | 0 <= i < j < |l| ensures !Conflicting(l[i], l[j]) {
      assert l[i] == all[i];
      if j < |all| {
        assert l[j] == all[j];
      } else {
        assert all[i] in all;
      }
    }
  }

  /** Keeping some of the bookings, in order, cannot create a double booking. */
  lemma {:induction false} FilterKeepsNoDoubleBooking(all: seq<Booking>, p: Booking -> bool)
    requires NoDoubleBooking(all)
    ensures NoDoubleBooking(Filter(all, p))
    decreases |all|
  {
    if all != [] {
      var tail := all[1..];
      assert NoDoubleBooking(tail) by {
        forall i, j | 0 <= i < j < |tail| ensures !Conflicting(tail[i], tail[j]) {
          assert tail[i] == all[i + 1] && tail[j] == all[j + 1];
        }
      }
      FilterKeepsNoDoubleBooking(tail, p);
      var rest := Filter(tail, p);
      if p(all[0]) {
        forall y | y in rest ensures !Conflicting(all[0], y) {
          var k :| 0 <= k < |tail| && tail[k] == y;
          assert all[k + 1] == y;
        }
        NoDoubleBookingCons(all[0], rest);
      }
    }
  }

  /** Cancelling cannot create a double booking. */
  lemma RemovalKeepsNoDoubleBooking(all: seq<Booking>, id: string)
    requires NoDoubleBooking(all)
    ensures NoDoubleBooking(WithoutId(all, id))
  {
    FilterKeepsNoDoubleBooking(all, (b: Booking) => b.id != id);
  }

  /** On the model's single clock, saving a booking for an hour that the
      hour list showed as available against the current bookings keeps the
      store free of double bookings, when every stored booking lies within
      one day. */
  lemma SavingAvailableHourKeepsNoDoubleBooking(all: seq<Booking>, b: Booking, date: int, hour: int, now: int)
    requires NoDoubleBooking(all)
    requires forall x :: x in all ==> WithinOneDay(x)
    requires OpenHour <= hour < CloseHour
    requires b.start == SlotStart(date, hour) && b.end == b.start + Duration
    requires HourStatus(date, hour, now, DayBookings(all, date, b.professional)) == Available
    ensures NoDoubleBooking(all + [b])
  {
    var day := DayBookings(all, date, b.professional);
    DayOfTimeOn(date, hour, 0);
    forall x | x in all ensures !Conflicting(x, b) {
      if x.professional == b.professional {
        if Day(x.start) == date {
          assert x in day;
          ClashIffOverlap(b.start, Duration, x);
        } else {
          DayBounds(x.start);
          DayBounds(x.end - 1);
        }
      }
    }
    NoDoubleBookingSnoc(all, b);
  }

  /** The submit handler does not re-run the conflict test, so a stale hour
      list lets a conflicting booking in: a booking of the same professional
      from 09:00 to 12:00 makes 10:00 not available, yet the record the form
      builds for 10:00 double-books the professional once saved. */
  lemma SubmitWithoutRecheckCanDoubleBook(x: Booking, f: FormInput, id: string, createdAt: int, now: int)
    requires f.date.Some? && f.time == Some(ClockTime(10, 0)) && f.professional == x.professional
    requires x.start == SlotStart(f.date.value, 9) && x.end == x.start + Duration
    ensures HourStatus(f.date.value, 10, now, DayBookings([x], f.date.value, x.professional)) != Available
    ensures NoDoubleBooking([x]) && !NoDoubleBooking([x] + [MakeBooking(id, f, createdAt)])
  {
    var date := f.date.value;
    DayOfTimeOn(date, 9, 0);
    assert x in DayBookings([x], date, x.professional);
    var l := [x] + [MakeBooking(id, f, createdAt)];
    assert Conflicting(l[0], l[1]);
  }

  /** `b` is a booking of `professional` on day `date` that overlaps the
      three hours starting at `hour`. */
  predicate BlocksHour(b: Booking, date: int, hour: int, professional: string) {
    b.professional == professional && Day(b.start) == date
    && Overlaps(SlotStart(date, hour), SlotStart(date, hour) + Duration, b.start, b.end)
  }

  /** Removing the bookings with one id frees an hour that only they blocked:
      re-querying after a cancellation shows it again (unless it has begun). */
  lemma CancelFreesHour(all: seq<Booking>, id: string, date: int, hour: int, now: int, professional: string)
    requires forall b :: b in all ==> b.start < b.end
    requires forall b :: b in all && BlocksHour(b, date, hour, professional) ==> b.id == id
    ensures HourStatus(date, hour, now, DayBookings(WithoutId(all, id), date, professional)) != Unavailable
  {
    UnavailableIff(date, hour, now, WithoutId(all, id), professional);
  }

  /** The result of the submit handler: refused by the form check (with the
      first failing check), built and appended but not persisted, or saved. */
  datatype SubmitOutcome = Rejected(reason: FormCheck) | SaveFailed(booking: Booking) | Saved(booking: Booking)

  /** The page's booking state. `storageOk` parameters say whether writing
      the list to the browser's storage succeeded. */
  class BookingStore {
    var bookings: seq<Booking>
    var lastId: Option<string>

    /** The page loads the stored list; no booking has been made yet. */
    constructor (stored: seq<Booking>)
      ensures bookings == stored && lastId == None
    {
      bookings := stored;
      lastId := None;
    }

    /** `!ultimoAgendamentoId` is false: there is a last booking to cancel. */
    predicate HasLast(): (r: bool)
      reads this
      ensures r ==> lastId.Some?
      ensures lastId == None || lastId == Some("") ==> !r
      ensures lastId.Some? && lastId.value != "" ==> r
    {
      lastId.Some? && lastId.value != ""
    }

    /** `salvarAgendamento`: the booking is appended before the list is
        written out; only a successful write records it as the last booking. */
    method Save(b: Booking, storageOk: bool) returns (ok: bool)
      modifies this
      ensures bookings == old(bookings) + [b]
      ensures ok == storageOk
      ensures lastId == if storageOk then Some(b.id) else old(lastId)
    {
      bookings := bookings + [b];
      if !storageOk {
        return false;
      }
      lastId := Some(b.id);
      return true;
    }

    /** `submeterFormulario`: validate, build the record, save it. The
        outcome never depends on the stored bookings: there is no conflict
        check here. */
    method Submit(f: FormInput, id: string, createdAt: int, storageOk: bool) returns (r: SubmitOutcome)
      modifies this
      ensures ValidateForm(f) != Valid ==>
        r == Rejected(ValidateForm(f)) && bookings == old(bookings) && lastId == old(lastId)
      ensures ValidateForm(f) == Valid ==>
        var b := MakeBooking(id, f, createdAt);
        bookings == old(bookings) + [b]
        && r == (if storageOk then Saved(b) else SaveFailed(b))
        && lastId == (if storageOk then Some(id) else old(lastId))
    {
      var check := ValidateForm(f);
      if check != Valid {
        return Rejected(check);
      }
      var b := MakeBooking(id, f, createdAt);
      var ok := Save(b, storageOk);
      r := if ok then Saved(b) else SaveFailed(b);
    }

    /** `confirmarCancelamento` as written: with no last booking nothing
        happens; otherwise every booking with its id is removed, and after a
        successful write the last id is cleared. The booking it looks up to
        announce the cancellation is searched for in the already filtered
        list, so nothing is ever announced. */
    method Cancel(storageOk: bool) returns (announced: Option<Booking>)
      modifies this
      ensures !old(HasLast()) ==> bookings == old(bookings) && lastId == old(lastId)
      ensures old(HasLast()) ==>
        bookings == WithoutId(old(bookings), old(lastId).value)
        && lastId == if storageOk then None else old(lastId)
      ensures announced == None
      ensures NoDoubleBooking(old(bookings)) ==> NoDoubleBooking(bookings)
    {
      if !HasLast() {
        return None;
      }
      var id := lastId.value;
      bookings := WithoutId(bookings, id);
      if NoDoubleBooking(old(bookings)) {
        RemovalKeepsNoDoubleBooking(old(bookings), id);
      }
      if !storageOk {
        return None;
      }
      announced := FindById(bookings, id);
      FindAfterRemovalIsNone(old(bookings), id);
      lastId := None;
    }

    /** The cancellation with the lookup made before the removal, so that the
        cancelled booking is announced: it changes the state as `Cancel` does
        and announces the first booking with the last id, if there was one
        and the write succeeded. */
    method CancelAnnouncing(storageOk: bool) returns (announced: Option<Booking>)
      modifies this
      ensures !old(HasLast()) ==> bookings == old(bookings) && lastId == old(lastId) && announced == None
      ensures old(HasLast()) ==>
        bookings == WithoutId(old(bookings), old(lastId).value)
        && lastId == (if storageOk then None else old(lastId))
        && announced == (if storageOk then FindById(old(bookings), old(lastId).value) else None)
      ensures announced.Some? ==> announced.value in old(bookings) && announced.value !in bookings
      ensures NoDoubleBooking(old(bookings)) ==> NoDoubleBooking(bookings)
    {
      if !HasLast() {
        return None;
      }
      var id := lastId.value;
      var found := FindById(bookings, id);
      bookings := WithoutId(bookings, id);
      if NoDoubleBooking(old(bookings)) {
        RemovalKeepsNoDoubleBooking(old(bookings), id);
      }
      if !storageOk {
        return None;
      }
      announced := found;
      lastId := None;
    }
  }
}
