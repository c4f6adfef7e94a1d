# Barbershop booking core in Dafny

This project models the scheduling core of a barbershop booking service:

- the service kinds with their fixed durations and the derived end time of an appointment;
- a booking store that answers the service's queries;
- the booking lifecycle: create, get, partial update, soft cancel, list by user, list by barber;
- the availability engine: conflict checks on create and update, and the half-hour slots a barber has free on a day.

The store is a class that owns its bookings. They are kept as a sequence in insertion order, in place of a document collection. Each query document of the store is a predicate on one record:

- `MatchesId`;
- `MatchesUser`;
- `MatchesBarberDay`, the barber plus the day window on `startTime`;
- `MatchesTimeRange`, the barber, "not cancelled", and the three-clause `$or` on the interval.

`Find` applies a filter and keeps store order. An update is a typed `Patch`: each key is present or absent. `ApplyPatch` is the store's `$set` plus `updatedAt`.

The service is a class built over one store. Each operation re-reads the store. The self-exclusion loop of an update is `ExcludeSelf`. The nested slot loop of `GetAvailableTimeSlots` is kept as two `while` loops: the inner scan over the day's bookings is `SlotAvailable`, the outer walk over the candidates is `EnumerateSlots`. The outer loop is proved equal to `FreeSlots`, a recursive specification. Lemmas then state what `FreeSlots` offers:

- each slot is free, half an hour long, aligned and inside working hours;
- slots are in order;
- every free candidate slot is offered;
- an empty day gives sixteen contiguous slots.

Times are whole minutes on one UTC time line. The current time, the day asked for and freshly generated identifiers are parameters. Identifiers are 96-bit numbers. They are written as 24 hexadecimal digits and parsed back from that form. A malformed id string is its own error.

Files: `wrappers.dfy` (Option, Result), `object_ids.dfy` (identifiers), `model.dfy` (records, durations, day truncation), `repository.dfy` (filters, patches, the store), `service.dfy` (conflicts, update rules, slots, the service), `scenarios.dfy` (worked examples).

Three behaviours of the code are worth noting, and the model follows the code in each:

- Cancelling an already-cancelled booking still sets `updatedAt` to the current time. The store therefore reports a modification whenever `updatedAt` changes, not only when the status does.
- A malformed id makes get, update and cancel fail with an error. They do not report "not found" or "no change".
- Slot enumeration considers only the barber's bookings that *start* on the requested day. `DayQueryCoversWorkingHours` shows that no well-timed booking overlapping working hours is missed.

## Model

| member | source | states |
|---|---|---|
| `Model.Duration` | internal/model/booking.go:52-65 | every service kind, named or not, takes 15, 20, 30 or 60 minutes |
| `Model.DurationTable` | internal/model/booking.go:53-61 | haircut 30, beard trim 15, hair wash 20, full service 60 minutes |
| `Model.DefaultDuration` | internal/model/booking.go:62-63 | any kind other than the four named ones takes 30 minutes |
| `Model.DurationPositive` | internal/model/booking.go:52-65 | every duration is positive and at most an hour |
| `Model.CalculateEndTime` | internal/model/booking.go:67-71 | end minus start is the kind's duration, so every appointment ends strictly after it starts |
| `Model.StartOfDay` | internal/repository/mongo_booking_repository.go:145-146 | midnight of an instant's day is a multiple of a day, at or before the instant and less than a day before it |
| `Model.StartOfDayIdempotent` | internal/service/booking_service.go:220-225 | truncating midnight to midnight again changes nothing, so the repository's second truncation of the service's day start is harmless |
| `ObjectIds.ObjectIdFromHex` | internal/repository/mongo_booking_repository.go:51-54 | a string parses to an identifier exactly when it is 24 hexadecimal digits |
| `ObjectIds.Hex` | internal/grpc/booking_server.go:210 | an identifier is written as 24 lower-case hexadecimal digits |
| `ObjectIds.ParseWrittenId` | internal/repository/mongo_booking_repository.go:51 | every identifier written out parses back to the same identifier |
| `ObjectIds.WriteParsedId` | internal/repository/mongo_booking_repository.go:51 | every 24-digit lower-case hex string is the written form of what it parses to |
| `Repository.MatchesId` | internal/repository/mongo_booking_repository.go:57 | the `_id` query document: a record matches exactly when it carries the identifier, and `Find`, `IndexOfId` and `Lookup` return records it matches |
| `Repository.MatchesUser` | internal/repository/mongo_booking_repository.go:125 | the `userId` query document: `GetUserBookings` returns exactly the stored records it matches |
| `Repository.InDayWindow` | internal/repository/mongo_booking_repository.go:145-151 | an instant lies in `[midnight, midnight + 24h)`; `DayFilterByMidnight` shows that every instant of a day gives the same window |
| `Repository.MatchesBarberDay` | internal/repository/mongo_booking_repository.go:141-151 | barber equality, plus the day window of the date's midnight on `startTime` when a date is given; `DayQueryCoversWorkingHours` shows that it keeps every well-timed booking overlapping that day's working hours |
| `Repository.TimeRangeClauses` | internal/repository/mongo_booking_repository.go:173-190 | the three `$or` alternatives; `TimeRangeClausesAreOverlap` shows that for positive lengths they hold exactly on a half-open overlap, and `TouchingDoesNotMatch` that touching intervals are excluded |
| `Repository.MatchesTimeRange` | internal/repository/mongo_booking_repository.go:170-190 | same barber, not cancelled, one of the `$or` alternatives; `CancelledNeverInRange` shows that a cancelled booking never matches |
| `Repository.Find` | internal/repository/mongo_booking_repository.go:154-165 | a query returns exactly the stored records its filter matches, and distinct identifiers stay distinct |
| `Repository.IndexOfId` | internal/repository/mongo_booking_repository.go:57 | the position found holds the first record with the identifier; none is found exactly when no record has it |
| `Repository.Lookup` | internal/repository/mongo_booking_repository.go:56-65 | the record found is stored and has the identifier; nothing is found exactly when no record has it |
| `Repository.ApplyPatch` | internal/repository/mongo_booking_repository.go:75-88 | the supplied keys take their new values, the absent ones keep theirs, identity, owner, barber, status and `createdAt` are untouched, and `updatedAt` is the current time |
| `Repository.EmptyPatchTouchesOnlyTimestamp` | internal/repository/mongo_booking_repository.go:75-78 | an update naming no key changes only `updatedAt` |
| `Repository.ApplyPatchIdempotent` | internal/repository/mongo_booking_repository.go:78 | setting the same keys twice equals setting them once |
| `Repository.TimeRangeClausesAreOverlap` | internal/repository/mongo_booking_repository.go:173-190 | for positive-length intervals the three `$or` clauses hold exactly when the intervals overlap half-open |
| `Repository.TouchingDoesNotMatch` | internal/repository/mongo_booking_repository.go:173-190 | a booking that only touches the query interval is not returned |
| `Repository.CancelledNeverInRange` | internal/repository/mongo_booking_repository.go:172 | a cancelled booking never matches the time-range query |
| `Repository.DayFilterByMidnight` | internal/repository/mongo_booking_repository.go:144-151 | asking for a day by midnight or by any instant in it selects the same bookings |
| `Repository.BookingStore.CreateBooking` | internal/repository/mongo_booking_repository.go:29-47 | stamps `createdAt == updatedAt == now`, assigns the fresh id only to an id-less booking, appends exactly that one record; an id already present fails and stores nothing |
| `Repository.BookingStore.GetBookingByID` | internal/repository/mongo_booking_repository.go:50-66 | malformed id is an error; otherwise the record with that id, or absent with no error |
| `Repository.BookingStore.UpdateBooking` | internal/repository/mongo_booking_repository.go:69-99 | malformed id is an error; an unknown id gives absent with no error and no change; otherwise only that record is replaced by the patched one |
| `Repository.BookingStore.CancelBooking` | internal/repository/mongo_booking_repository.go:102-121 | malformed id is an error; an unknown id gives false with no change; otherwise only that record's status becomes cancelled and its `updatedAt` the current time, and a booking not yet cancelled reports true |
| `Repository.BookingStore.GetUserBookings` | internal/repository/mongo_booking_repository.go:124-137 | exactly the user's bookings, whatever their status |
| `Repository.BookingStore.GetBarberBookings` | internal/repository/mongo_booking_repository.go:140-166 | without a date all of the barber's bookings; with one, exactly those starting in that day's [midnight, midnight + 24h) |
| `Repository.BookingStore.GetBookingsInTimeRange` | internal/repository/mongo_booking_repository.go:169-205 | only the barber's non-cancelled bookings, with distinct ids; for positive lengths exactly those overlapping the query half-open |
| `Service.Conflicting` | internal/service/booking_service.go:33-40 | the refusal test of a create: the time-range query returns something; `ConflictingIsOverlap` restates it as an overlap with a non-cancelled booking of the barber |
| `Service.ConflictsWithOthers` | internal/service/booking_service.go:110-125 | the refusal test of an update: the query returns a booking other than the one updated; `ConflictsWithOthersIsOverlap` restates it as an overlap |
| `Service.ConflictingIsOverlap` | internal/service/booking_service.go:31-40 | for positive lengths, a create is refused exactly when a non-cancelled booking of the barber overlaps the requested interval half-open |
| `Service.SelfNeverConflicts` | internal/service/booking_service.go:115-125 | a booking whose only match is its own record has no conflict |
| `Service.ConflictsWithOthersIsOverlap` | internal/service/booking_service.go:110-125 | an update is refused exactly when another non-cancelled booking of the barber overlaps the new interval half-open |
| `Service.ExcludeSelf` | internal/service/booking_service.go:115-121 | removes the first record with the booking's id and nothing else; with distinct ids the rest is exactly the other bookings |
| `Service.UpdateInterval` | internal/service/booking_service.go:97-154 | the interval an update checks: the new start with the effective kind, or the old start with the new kind, and none when neither is supplied; `CheckedIntervalIsWritten` shows that it is the interval written |
| `Service.UpdatePatch` | internal/service/booking_service.go:95-158 | the keys of the update map: start, kind and notes as supplied, and the end whenever an interval is checked; `UpdatedEndTime` states the end each case writes |
| `Service.Updated` | internal/service/booking_service.go:95-161 | the record an accepted update leaves; `UpdatedEndTime`, `UpdatedStaysWellTimed` and `NotesOnlyUpdate` state its fields |
| `Service.UpdateRefusedIsOverlap` | internal/service/booking_service.go:106-153 | over well-timed records, an update that checks an interval is refused exactly when another non-cancelled booking of the barber overlaps it half-open |
| `Service.UpdatedEndTime` | internal/service/booking_service.go:97-134 | a new start ends after the new kind's duration if one is given, else the existing kind's; a new kind alone keeps the start and ends after its own duration; otherwise start, end and kind stay |
| `Service.CheckedIntervalIsWritten` | internal/service/booking_service.go:106-137 | the interval whose availability is checked is the interval the update writes |
| `Service.UpdatedStaysWellTimed` | internal/service/booking_service.go:100-107 | an accepted update keeps `end = start + duration(kind)` |
| `Service.NotesOnlyUpdate` | internal/service/booking_service.go:156-158 | a notes-only update runs no check and changes only notes and `updatedAt` |
| `Service.SlotOverlaps` | internal/service/booking_service.go:244-246 | the three-clause slot test; `SlotTestIsOverlap` shows that for positive lengths it is half-open overlap |
| `Service.SlotTestIsOverlap` | internal/service/booking_service.go:244-246 | for positive-length intervals the three-clause slot test holds exactly when slot and booking overlap half-open |
| `Service.FreeSlots` | internal/service/booking_service.go:234-258 | the slot specification: the candidates from `from` in 30-minute steps before the end, kept when free; `FreeSlotsMembers`, `FreeSlotsChronological`, `FreeSlotsComplete` and `AllSlotsFree` state what it offers |
| `Service.DaySlots` | internal/service/booking_service.go:214-258 | the slot specification over the barber's bookings starting on the day, from 09:00 to 17:00 of it; `DaySlotsMeaning` states what it offers |
| `Service.SlotAvailable` | internal/service/booking_service.go:238-250 | a slot is reported available exactly when no non-cancelled booking in the list fails the slot test |
| `Service.EnumerateSlots` | internal/service/booking_service.go:230-258 | the candidates kept are exactly the slot specification `FreeSlots` for the window |
| `Service.FreeSlotsMembers` | internal/service/booking_service.go:234-257 | every offered slot lasts 30 minutes, starts on the half-hour grid inside the window and is free of non-cancelled bookings |
| `Service.FreeSlotsChronological` | internal/service/booking_service.go:234-257 | the offered slots are chronological and disjoint |
| `Service.FreeSlotsComplete` | internal/service/booking_service.go:238-257 | every free candidate slot is offered |
| `Service.FreeSlotsInWindow` | internal/service/booking_service.go:234-235 | in a window a whole number of slots long, every offered slot ends inside it |
| `Service.AllSlotsFree` | internal/service/booking_service.go:234-258 | without non-cancelled bookings all n candidates are offered, back to back |
| `Service.EmptyDayOffersSixteenSlots` | internal/service/booking_service.go:216-258 | an empty day offers exactly 16 contiguous half-hour slots, from 09:00 to 17:00 |
| `Service.DayQueryCoversWorkingHours` | internal/service/booking_service.go:220-225 | a well-timed booking overlapping working hours starts on that day, so the day query cannot miss it |
| `Service.DaySlotsMeaning` | internal/service/booking_service.go:214-261 | slots offered for a day are half-hour, within 09:00-17:00, chronological, and clear of every non-cancelled booking of the barber that day: no such booking fails the slot test, and none of positive length overlaps the slot half-open |
| `Service.BookingService.Valid` | internal/model/booking.go:67-71 | the service invariant: distinct identifiers, and every stored booking ends its kind's duration after its start |
| `Service.BookingService.CreateBooking` | internal/service/booking_service.go:29-66 | keeps the service invariant; a request is refused exactly when a non-cancelled booking of the barber overlaps the requested interval half-open, and then stores nothing; otherwise exactly one pending booking with the given fields and the derived end is added |
| `Service.BookingService.GetBooking` | internal/service/booking_service.go:69-80 | malformed id is an error, an unknown id is "booking not found", otherwise the stored booking with that id |
| `Service.BookingService.OthersBooked` | internal/service/booking_service.go:109-125 | the availability query minus the booking's own record is non-empty exactly when another booking of the barber matches the time-range query |
| `Service.BookingService.UpdateBooking` | internal/service/booking_service.go:83-171 | keeps the service invariant; not-found and malformed ids change nothing; an update of a stored booking is refused exactly when another non-cancelled booking of the barber overlaps the checked interval half-open, and then changes nothing; otherwise only that record gets the supplied fields, the derived end and a fresh `updatedAt` |
| `Service.BookingService.CancelBooking` | internal/service/booking_service.go:174-191 | keeps the service invariant; the store's soft cancellation, passed through unchanged |
| `Service.BookingService.GetUserBookings` | internal/service/booking_service.go:194-201 | exactly the user's bookings, whatever their status |
| `Service.BookingService.GetBarberBookings` | internal/service/booking_service.go:204-211 | exactly the barber's bookings, restricted to a day when one is given |
| `Service.BookingService.GetAvailableTimeSlots` | internal/service/booking_service.go:214-261 | the slots are `DaySlots`: the slot specification over the barber's bookings starting on the day of `date`, within 09:00-17:00 of that day (what those slots are is `DaySlotsMeaning`) |
| `Scenarios.OneBookingSlots` | internal/service/booking_service.go:239-257 | with one booking, a candidate slot is offered exactly when it does not overlap it |
| `Scenarios.TenOClockExamples` | internal/service/booking_service.go:244-246 | 10:00-10:30 removes only the 10:00 slot; 10:15-10:45 removes the 10:00 and 10:30 slots |

`Scenarios.CreateConflictCancelRecreate` works through one sequence using only the contracts. A haircut at 10:00 is accepted. A booking at 10:15 for the same barber is refused. After the first booking is cancelled, the 10:15 booking is accepted.

## Left out

- The gRPC transport is not modelled. That covers RFC 3339 and `YYYY-MM-DD` parsing, proto conversion and status codes. Two of its quirks are therefore not modelled either: the haircut kind in an update request is treated as "no kind supplied", and notes are always passed.
- The authorization tests, token verification, configuration loading and process startup are outside the core.
- Store failures other than a duplicate identifier are not modelled. Examples are an unreachable database or a decode error. The in-memory store cannot fail on a read, so the service's "failed to ..." error paths for reads do not appear.
- The service's logging is not modelled. That covers the messages after a create, an update and a cancellation. Logging changes no state and no result.
- Error messages are not modelled. Each error is an `Error` constructor, and the wrapping text added by the service is dropped.
- Time zones and sub-minute precision are not modelled. Times are whole UTC minutes, and a day is the 1440 minutes from a UTC midnight.
- Repository.BookingStore.CreateBooking: the source stamps the caller's booking in place. The model returns the stamped booking as a new value, so that aliasing is not captured.
- Repository.BookingStore.UpdateBooking: the source also adds `updatedAt` to the caller's `updates` map. The model does not mutate the caller's patch.
- Repository.BookingStore.CancelBooking: for a booking already cancelled, the contract does not fix the returned flag. The store's answer then depends on whether `updatedAt` changed.
- Service.BookingService.CancelBooking: the same already-cancelled case is left open, for the same reason.
- Concurrent creates or updates are not modelled, so the race between the conflict check and the write is not captured. The model is sequential.
- Service.BookingService.UpdateBooking: the source can return no booking and no error if the record disappears between the read and the write. That case needs concurrency, so the model has no such result.
- `BookingRepository` and `BookingServiceInterface` contain only signatures. The two classes have the same operations.
