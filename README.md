# Booking engine of the Shalom Adonai booking page, in Dafny

This project models the booking logic of `assets/js/agendamento.js`, the script behind a salon's self-service booking form. The script does five things:
- It validates the client's phone number, and defines a display mask, `formatarTelefone`, that nothing in the script calls; the phone is stored as typed.
- It validates the form in a fixed order.
- It lists the start hours a professional can still be booked at on a chosen day: 08:00 to 18:00, each booking lasting three hours, and no hours on Sundays or Mondays.
- It builds the booking record.
- It keeps the page's list of bookings (`agendamentos`) and the id of the last booking made (`ultimoAgendamentoId`), with save and cancel.

Instants are whole minutes on one clock. The script's `duracaoMinutos * 60000` milliseconds become minutes. A calendar day is a day number, and the day of an instant is `t / 1440`. The weekday of the chosen date, the chosen date and the current instant are parameters instead of reads of the clock.

Modules, one per part of the script:
- `Lists` (`lists.dfy`): JavaScript's `filter` and `find` on sequences.
- `Phone` (`phone.dfy`): digit extraction, `validarTelefone`, `formatarTelefone`.
- `Form` (`form.dfy`): `trim` and `validarFormulario`.
- `Bookings` (`bookings.dfy`): the booking record, `criarObjetoAgendamento`, and the conflict test `verificarDisponibilidadeHorario` as a search loop.
- `Slots` (`slots.dfy`): the hour list built by `atualizarHorariosDisponiveis`, as a method with a loop.
- `Store` (`store.dfy`): a class holding the booking list and the last id, with save, submit and cancel, plus the double-booking lemmas.

The source promises nothing about double booking. The submit handler never re-runs the conflict test. So "no professional is booked twice" is proved only in two forms:
- as a lemma, on the model's single clock, that requires the chosen hour to have been shown as available against the current list;
- as a preservation property of cancellation.

A separate lemma shows how a conflicting booking gets in when the hour list is stale.

An engine that prevented double booking and misuse outright would need the following, and the code has none of them, so the model has none either:
- a conflict re-check at submit time and inside the store's insert;
- a not-found error on cancel;
- refusal of bookings in the past.

The natural conflict test is a half-open overlap. The code uses three clauses; `Bookings.Clash` proves they miss no overlap. `Bookings.ClashIffOverlap` proves the two agree for a positive duration and a non-empty booking, and `Bookings.EmptyBookingClashes` shows they differ otherwise.

## Model

| member | source | states |
|---|---|---|
| `Lists.Filter` | assets/js/agendamento.js:149-153 | `filter` keeps exactly the elements that pass, and is no longer than its input |
| `Lists.FilterAppend` | assets/js/agendamento.js:149-153 | `filter` distributes over concatenation, i.e. keeps the stored order |
| `Lists.Find` | assets/js/agendamento.js:420 | `find` returns nothing iff no element passes, otherwise an element of the list that passes |
| `Lists.FindIsFirst` | assets/js/agendamento.js:384 | what `find` returns sits at an index before which no element passes |
| `Phone.Digits` | assets/js/agendamento.js:99 | `replace(/\D/g, '')` leaves only ASCII digits |
| `Phone.ValidPhone` | assets/js/agendamento.js:114-126 | a phone is accepted iff its digit string has 10 or 11 digits and its first two are one of 11, 12, 13, 19, 21, 24, 27, 31, 32 |
| `Phone.ValidPhoneSeesOnlyDigits` | assets/js/agendamento.js:116 | the verdict depends on the digits alone: validating the digit string gives the same answer |
| `Phone.ShortPhoneRejected` | assets/js/agendamento.js:119 | "123" is rejected |
| `Phone.FormatPhone` | assets/js/agendamento.js:97-112 | the mask is non-empty, at most 15 characters and opens with "(" |
| `Phone.FormatPhoneKeepsDigits` | assets/js/agendamento.js:97-112 | removing the non-digits from the mask gives the first min(11, n) digits of the input |
| `Phone.FormatPhoneIdempotent` | assets/js/agendamento.js:97-112 | masking a masked number changes nothing |
| `Phone.ValidPhoneOfMask` | assets/js/agendamento.js:97-126 | with at most 11 digits, the validator gives the same verdict before and after masking; with more it rejects the raw input |
| `Form.LeadingWhiteSpace` | assets/js/agendamento.js:236 | the longest all-white-space prefix, by ECMAScript's white-space and line-terminator characters |
| `Form.TrailingWhiteSpace` | assets/js/agendamento.js:236 | the longest all-white-space suffix |
| `Form.Trim` | assets/js/agendamento.js:236 | the trimmed name is empty or starts and ends with a non-space character |
| `Form.TrimIsSlice` | assets/js/agendamento.js:236 | `trim` keeps one contiguous piece of its input and drops only white space around it |
| `Form.TrimIdempotent` | assets/js/agendamento.js:236 | trimming twice is trimming once |
| `Form.ValidateForm` | assets/js/agendamento.js:234-262 | the form is valid iff all four checks pass; each failure reason is reported iff the earlier checks pass and that check fails (name of at least 3 trimmed characters, phone, professional, date and hour) |
| `Form.ShortPhoneFormRejected` | assets/js/agendamento.js:242-247 | a form with an acceptable name and phone "123" fails on the phone |
| `Bookings.DayOfTimeOn` | assets/js/agendamento.js:269 | a time between 00:00 and 23:59 of a date falls on that date |
| `Bookings.DayBounds` | assets/js/agendamento.js:151 | an instant lies between the start and the end of the day it is assigned to |
| `Bookings.Join` | assets/js/agendamento.js:283 | `join(', ')` gives "" for no services; otherwise it starts with the first service and its length is the services' total length plus one separator between each two |
| `Bookings.JoinAppend` | assets/js/agendamento.js:283 | joining two non-empty lists is joining each with one separator between them, so the services keep their page order |
| `Bookings.MakeBooking` | assets/js/agendamento.js:264-288 | the record starts at the chosen date, hour and minute and lasts exactly 180 minutes (so it starts on the chosen date for a time within the day); it keeps the given id and creation instant, the professional, the trimmed name, the phone as typed, and the ticked services joined by ", " |
| `Bookings.Clash` | assets/js/agendamento.js:200-204 | the three-clause test misses no overlap: whenever the candidate and the booking share an instant, it reports a conflict, whatever their lengths |
| `Bookings.VerifyAvailability` | assets/js/agendamento.js:192-210 | returns true iff no booking of the day's list passes the three-clause conflict test against `[start, start + duration)` |
| `Bookings.ClashIffOverlap` | assets/js/agendamento.js:199-206 | for a positive duration and a booking with `start < end`, the three-clause test is the half-open overlap `s < be && s + D > bs` |
| `Bookings.FreeIffNoOverlap` | assets/js/agendamento.js:192-210 | over bookings with `start < end`, a candidate is free iff it overlaps none of them |
| `Bookings.BackToBackIsFree` | assets/js/agendamento.js:200-204 | a candidate ending when a booking starts, or starting when it ends, does not conflict |
| `Bookings.EmptyBookingClashes` | assets/js/agendamento.js:203 | an empty booking at the candidate's start blocks it though they share no instant |
| `Slots.DayBookings` | assets/js/agendamento.js:149-153 | the day's list holds exactly the bookings of the selected professional starting on the selected date |
| `Slots.DayBookingsAppend` | assets/js/agendamento.js:149-153 | the day's list keeps the stored order |
| `Slots.AvailableHours` | assets/js/agendamento.js:128-190 | nothing without a professional; the closed message on weekdays 0 and 1 whatever the bookings; otherwise exactly 11 entries for hours 8..18 in ascending order, each with the status of that hour against the professional's bookings of the day, so the "no hour available" branch never fires |
| `Slots.HourStatus` | assets/js/agendamento.js:167-184 | an hour is past iff the date is today and its start is at or before now; an available hour overlaps none of the day's bookings; an unavailable one fails the conflict test against one of them |
| `Slots.PastIff` | assets/js/agendamento.js:167-171 | an hour is past iff the date is today and its start is at or before now, whatever the bookings |
| `Slots.OtherDayNeverPast` | assets/js/agendamento.js:168 | on a date other than today no hour is past |
| `Slots.UnavailableIff` | assets/js/agendamento.js:173-184 | over bookings with `start < end`, an hour is unavailable iff it is not past and overlaps a booking of the same professional starting on the same date |
| `Slots.OthersIgnored` | assets/js/agendamento.js:149-153 | bookings of other professionals or other dates never change an hour's status |
| `Slots.EmptyDayAllAvailable` | assets/js/agendamento.js:174-181 | with no bookings every hour not yet begun is available |
| `Slots.BoundaryExample` | assets/js/agendamento.js:192-206 | with a booking from 11:00 to 14:00 and now at 07:00 that day, 08:00 is available, 09:00 and 10:00 are unavailable, and 14:00 is available |
| `Store.WithoutId` | assets/js/agendamento.js:413 | the filtered list holds exactly the bookings whose id differs |
| `Store.FindById` | assets/js/agendamento.js:420 | the lookup finds a booking with that id iff the list holds one |
| `Store.WithoutIdAppend` | assets/js/agendamento.js:413 | removal by id keeps the other bookings in their stored order |
| `Store.FindAfterRemovalIsNone` | assets/js/agendamento.js:413-420 | the lookup made after the filter always finds nothing |
| `Store.FilterKeepsNoDoubleBooking` | assets/js/agendamento.js:413 | keeping some bookings in order cannot create a double booking |
| `Store.RemovalKeepsNoDoubleBooking` | assets/js/agendamento.js:413 | cancelling cannot create a double booking |
| `Store.SavingAvailableHourKeepsNoDoubleBooking` | assets/js/agendamento.js:212-232 | appending a three-hour booking for an hour shown as available against the current list keeps the list free of double bookings, when every stored booking lies within one day |
| `Store.SubmitWithoutRecheckCanDoubleBook` | assets/js/agendamento.js:212-232 | a booking 09:00-12:00 makes 10:00 not available, yet the record a form for 10:00 builds double-books the professional once appended |
| `Store.CancelFreesHour` | assets/js/agendamento.js:409-436 | after removing the only bookings that blocked an hour, the hour is no longer unavailable |
| `Store.BookingStore.constructor` | assets/js/agendamento.js:33-34 | the page starts from the stored list with no last booking |
| `Store.BookingStore.HasLast` | assets/js/agendamento.js:410 | the guard `!ultimoAgendamentoId` lets the cancellation go on exactly when the last id is set and not the empty string |
| `Store.BookingStore.Save` | assets/js/agendamento.js:290-300 | the booking is appended after the earlier ones, which stay unchanged; the last id becomes its id only when the write succeeds, which is what is returned |
| `Store.BookingStore.Submit` | assets/js/agendamento.js:212-232 | an invalid form changes nothing and reports the first failing check; a valid one appends the built record whatever the stored bookings are |
| `Store.BookingStore.Cancel` | assets/js/agendamento.js:409-442 | with no last id (null or empty), nothing changes; otherwise every booking with that id is removed, the others keep their order, the last id is cleared after a successful write, nothing is announced, and no double booking is created |
| `Store.BookingStore.CancelAnnouncing` | assets/js/agendamento.js:409-442 | the same state change, announcing the first booking with the last id from the list as it was before the removal |

## Findings

| source | as written | input that shows it | evidently intended | confidence | as-written member | corrected member |
|---|---|---|---|---|---|---|
| assets/js/agendamento.js:413-427 | the cancelled booking is looked up with `find` in the list already filtered without it, so `agendamentoCancelado` is always undefined and no cancellation message is ever sent | last id "ag-1" and a stored booking with id "ag-1": after the filter the lookup finds nothing | look the booking up before filtering, and announce it | high, not executed | `Store.BookingStore.Cancel` | `Store.BookingStore.CancelAnnouncing` |

## Left out

- Rendering: the `<option>` HTML, the "(passado)" and "(indisponível)" labels, `desabilitarHorario`, the modals, `exibirConfirmacao`, the rendering in `prepararCancelamento`, `mostrarAlerta` and its timers, and the event-listener wiring. The model keeps only the status each hour gets and which message the selector shows.
- `handleSelecaoProfissional`, which keeps one service box ticked. It is UI state; the chosen professional is an input.
- Browser storage: `testarLocalStorage`, JSON (de)serialisation, and the initial read of the stored list, which becomes the constructor's argument. A write to storage is reduced to a `storageOk` flag saying whether it succeeded.
- WhatsApp notifications (`enviarNotificacoes`, `enviarWhatsApp`, `encodeURIComponent`, `window.open`). These are outside side effects; `Cancel` returns the booking it would announce.
- Clock and calendar: `new Date()`, `getDay`, `toDateString`, `toISOString`, `toLocaleDateString`, `configurarDataMinima`. The weekday, the date and the current instant are parameters, and the weekday is not derived from the date.
- Time zones: the hour list builds slot starts in local time (`setHours`), while the booking record builds its start in UTC (`Date.UTC`). The model puts both on one clock, so the shift this mismatch causes between a chosen hour and its stored start is not modelled. `Store.SavingAvailableHourKeepsNoDoubleBooking` holds only on this single clock. In a non-UTC zone the page can double-book with a fresh list: in UTC−3 a booking for 10:00 is stored as 07:00–10:00 local, 10:00 is still offered, and booking it again duplicates the record.
- Parsing the date field `"YYYY-MM-DD"` and the hour `"HH:MM"`. An empty field is `None`; a filled one is a day number or an hour and minute. Invalid dates (NaN times) from corrupt storage are not modelled.
- An empty date field once a professional is chosen: the script then builds an Invalid Date, whose weekday is NaN and so not closed, whose past test and conflict comparisons are all false, and it lists all 11 hours as selectable; only `validarFormulario` refuses the form later. `Slots.AvailableHours` takes the date as a day number and cannot represent this case.
- Id generation from `Date.now()` and `Math.random()`: the id is an input, as is the creation instant.
- `Form.Trim` and the name length: JavaScript counts UTF-16 code units and Dafny counts Unicode scalar values, so a name with characters outside the Basic Multilingual Plane measures differently.
- Several open pages, each holding its own copy of the list and overwriting the others' writes: the model has one page.
- `service_worker.js`: an offline asset cache with no booking logic.
- Re-reading the hour list twice with the same inputs gives the same list. This holds trivially because `Slots.AvailableHours` is deterministic, and is not stated separately.
