/** The booking lifecycle and availability engine
    (internal/service/booking_service.go). The service owns no state of its
    own: every operation re-reads the store it was built over. */
module Service {
  import opened Wrappers
  import opened ObjectIds
  import opened Model
  import opened Repository

  /** Working hours and slot granularity. */
  const WorkStartHour: int := 9
  const WorkEndHour: int := 17
  const SlotMinutes: int := 30

  // ---------------------------------------------------------------------
  // Conflicts
  // ---------------------------------------------------------------------

  /** Some stored booking matches the time-range query for `[start, end)`. */
  predicate Conflicting(records: seq<Booking>, barberId: string, start: Minutes, end: Minutes) {
    exists b :: b in records && MatchesTimeRange(b, barberId, start, end)
  }

  /** With positive lengths, a create is refused exactly when a non-cancelled
      booking of the barber overlaps the requested interval half-open. */
  lemma ConflictingIsOverlap(records: seq<Booking>, barberId: string, start: Minutes, end: Minutes)
    requires start < end
    requires forall b :: b in records ==> b.startTime < b.endTime
    ensures Conflicting(records, barberId, start, end) <==>
              exists b :: b in records && b.barberId == barberId &&
                          b.status != Cancelled && Overlaps(b.startTime, b.endTime, start, end)
  {
    forall b | b in records {
      TimeRangeClausesAreOverlap(b, start, end);
    }
  }

  /** Some stored booking OTHER than `self` matches the time-range query that
      an update of `self` to `[start, end)` runs. */
  predicate ConflictsWithOthers(records: seq<Booking>, self: Booking, start: Minutes, end: Minutes) {
    exists b :: b in records && b.id != self.id && MatchesTimeRange(b, self.barberId, start, end)
  }

  /** The booking's own record never counts against it: a store holding only
      `self` and bookings that do not match has no conflict for `self`. */
  lemma SelfNeverConflicts(records: seq<Booking>, self: Booking, start: Minutes, end: Minutes)
    requires forall b :: b in records && b != self ==> !MatchesTimeRange(b, self.barberId, start, end)
    ensures !ConflictsWithOthers(records, self, start, end)
  {
  }

  /** With positive lengths, an update of `self` is refused exactly when another
      non-cancelled booking of the same barber overlaps the new interval. */
  lemma ConflictsWithOthersIsOverlap(records: seq<Booking>, self: Booking, start: Minutes, end: Minutes)
    requires start < end
    requires forall b :: b in records ==> b.startTime < b.endTime
    ensures ConflictsWithOthers(records, self, start, end) <==>
              exists b :: b in records && b.id != self.id && b.barberId == self.barberId &&
                          b.status != Cancelled && Overlaps(b.startTime, b.endTime, start, end)
  {
    forall b | b in records {
      TimeRangeClausesAreOverlap(b, start, end);
    }
  }

  /** Drops the first booking carrying `id` from a query result (the
      self-exclusion loop of the update). */
  method ExcludeSelf(bookings: seq<Booking>, id: ObjectId) returns (rest: seq<Booking>)
    ensures (forall k :: 0 <= k < |bookings| ==> bookings[k].id != id) ==> rest == bookings
    ensures forall k :: 0 <= k < |bookings| && bookings[k].id == id &&
                        (forall j :: 0 <= j < k ==> bookings[j].id != id) ==>
                          rest == bookings[..k] + bookings[k + 1..]
    ensures UniqueIds(bookings) ==> forall b :: b in rest <==> b in bookings && b.id != id
  {
    rest := bookings;
    var i := 0;
    while i < |bookings|
      invariant 0 <= i <= |bookings|
      invariant forall j :: 0 <= j < i ==> bookings[j].id != id
      invariant rest == bookings
    {
      if bookings[i].id == id {
        rest := bookings[..i] + bookings[i + 1..];
        assert UniqueIds(bookings) ==> forall b :: b in rest <==> b in bookings && b.id != id by {
          if UniqueIds(bookings) {
            forall b | b in bookings && b.id != id ensures b in rest {
              var m :| 0 <= m < |bookings| && bookings[m] == b;
              if m < i { assert rest[m] == b; } else { assert rest[m - 1] == b; }
            }
          }
        }
        break;
      }
      i := i + 1;
    }
  }

  // ---------------------------------------------------------------------
  // What an update writes
  // ---------------------------------------------------------------------

  /** The interval whose availability an update checks: the new start with the
      effective kind, or the existing start with the new kind; none when
      neither start nor kind is supplied. */
  function UpdateInterval(existing: Booking, startTime: Option<Minutes>, serviceType: Option<ServiceType>): (r: Option<(Minutes, Minutes)>)
  {
    if startTime.Some? then
      Some((startTime.value, CalculateEndTime(startTime.value, serviceType.GetOr(existing.serviceType))))
    else if serviceType.Some? then
      Some((existing.startTime, CalculateEndTime(existing.startTime, serviceType.value)))
    else None
  }

  /** The keys an update sets (besides `updatedAt`). */
  function UpdatePatch(existing: Booking, startTime: Option<Minutes>, serviceType: Option<ServiceType>, notes: Option<string>): (p: Patch)
  {
    var interval := UpdateInterval(existing, startTime, serviceType);
    Patch(startTime, if interval.Some? then Some(interval.value.1) else None, serviceType, notes)
  }

  /** The record an accepted update leaves behind. */
  function Updated(existing: Booking, startTime: Option<Minutes>, serviceType: Option<ServiceType>, notes: Option<string>, now: Minutes): (u: Booking)
  {
    ApplyPatch(existing, UpdatePatch(existing, startTime, serviceType, notes), now)
  }

  /** The end-time rules: a new start gets the duration of the new kind if one
      is supplied, else of the existing kind; a new kind alone keeps the start
      and gets its own duration; otherwise start, end and kind are kept. */
  lemma UpdatedEndTime(existing: Booking, startTime: Option<Minutes>, serviceType: Option<ServiceType>, notes: Option<string>, now: Minutes)
    ensures var u := Updated(existing, startTime, serviceType, notes, now);
      && (startTime.Some? && serviceType.Some? ==>
            u.startTime == startTime.value && u.endTime == startTime.value + Duration(serviceType.value))
      && (startTime.Some? && serviceType.None? ==>
            u.startTime == startTime.value && u.endTime == startTime.value + Duration(existing.serviceType))
      && (startTime.None? && serviceType.Some? ==>
            u.startTime == existing.startTime && u.endTime == existing.startTime + Duration(serviceType.value))
      && (startTime.None? && serviceType.None? ==>
            u.startTime == existing.startTime && u.endTime == existing.endTime && u.serviceType == existing.serviceType)
  {
  }

  /** Whenever start or kind changes, the interval checked is the one written. */
  lemma CheckedIntervalIsWritten(existing: Booking, startTime: Option<Minutes>, serviceType: Option<ServiceType>, notes: Option<string>, now: Minutes)
    requires startTime.Some? || serviceType.Some?
    ensures var u := Updated(existing, startTime, serviceType, notes, now);
            UpdateInterval(existing, startTime, serviceType) == Some((u.startTime, u.endTime))
  {
  }

  /** Over well-timed records, an update that checks an interval is refused
      exactly when another non-cancelled booking of the barber overlaps that
      interval half-open. */
  lemma UpdateRefusedIsOverlap(records: seq<Booking>, existing: Booking, startTime: Option<Minutes>, serviceType: Option<ServiceType>)
    requires forall b :: b in records ==> WellTimed(b)
    ensures var interval := UpdateInterval(existing, startTime, serviceType);
            interval.Some? ==>
              (ConflictsWithOthers(records, existing, interval.value.0, interval.value.1) <==>
                 exists b :: b in records && b.id != existing.id && b.barberId == existing.barberId &&
                             b.status != Cancelled && Overlaps(b.startTime, b.endTime, interval.value.0, interval.value.1))
  {
    var interval := UpdateInterval(existing, startTime, serviceType);
    if interval.Some? {
      ConflictsWithOthersIsOverlap(records, existing, interval.value.0, interval.value.1);
    }
  }

  /** An accepted update keeps the derived end time of a well-timed booking. */
  lemma UpdatedStaysWellTimed(existing: Booking, startTime: Option<Minutes>, serviceType: Option<ServiceType>, notes: Option<string>, now: Minutes)
    requires WellTimed(existing)
    ensures WellTimed(Updated(existing, startTime, serviceType, notes, now))
  {
  }

  /** A notes-only update checks nothing and changes only notes and `updatedAt`. */
  lemma NotesOnlyUpdate(existing: Booking, notes: string, now: Minutes)
    ensures UpdateInterval(existing, None, None).None?
    ensures Updated(existing, None, None, Some(notes), now) == existing.(notes := notes, updatedAt := now)
  {
  }

  // ---------------------------------------------------------------------
  // Slot enumeration
  // ---------------------------------------------------------------------

  /** The slot test as the source writes it. */
  predicate SlotOverlaps(slotStart: Minutes, slotEnd: Minutes, b: Booking) {
    || (slotStart >= b.startTime && slotStart < b.endTime)
    || (slotEnd > b.startTime && slotEnd <= b.endTime)
    || (slotStart < b.startTime && slotEnd > b.endTime)
  }

  /** For positive-length intervals the slot test is half-open overlap. */
  lemma SlotTestIsOverlap(slotStart: Minutes, slotEnd: Minutes, b: Booking)
    requires slotStart < slotEnd && b.startTime < b.endTime
    ensures SlotOverlaps(slotStart, slotEnd, b) <==> Overlaps(slotStart, slotEnd, b.startTime, b.endTime)
  {
  }

  /** No non-cancelled booking among `bookings` fails the slot test. */
  predicate SlotIsFree(bookings: seq<Booking>, slotStart: Minutes, slotEnd: Minutes) {
    forall b :: b in bookings && b.status != Cancelled ==> !SlotOverlaps(slotStart, slotEnd, b)
  }

  /** The inner loop of the slot enumeration: scans the day's bookings,
      skipping cancelled ones, and stops at the first that fails the slot test. */
  method SlotAvailable(bookings: seq<Booking>, slotStart: Minutes, slotEnd: Minutes) returns (isAvailable: bool)
    ensures isAvailable == SlotIsFree(bookings, slotStart, slotEnd)
  {
    isAvailable := true;
    var i := 0;
    while i < |bookings|
      invariant 0 <= i <= |bookings|
      invariant isAvailable
      invariant forall j :: 0 <= j < i ==>
                  bookings[j].status == Cancelled || !SlotOverlaps(slotStart, slotEnd, bookings[j])
    {
      if bookings[i].status == Cancelled {
        i := i + 1;
        continue;
      }
      if SlotOverlaps(slotStart, slotEnd, bookings[i]) {
        isAvailable := false;
        break;
      }
      i := i + 1;
    }
  }

  /** The free slots among the candidates starting at `from`, `from + 30`, ...
      before `workEnd`, in order. */
  function FreeSlots(bookings: seq<Booking>, from: Minutes, workEnd: Minutes): (slots: seq<TimeSlot>)
    decreases workEnd - from
  {
    if from >= workEnd then []
    else
      var rest := FreeSlots(bookings, from + SlotMinutes, workEnd);
      if SlotIsFree(bookings, from, from + SlotMinutes) then
        [TimeSlot(from, from + SlotMinutes)] + rest
      else rest
  }

  /** Every offered slot is a free, aligned, half-hour candidate. */
  lemma {:induction false} FreeSlotsMembers(bookings: seq<Booking>, from: Minutes, workEnd: Minutes)
    decreases workEnd - from
    ensures forall s :: s in FreeSlots(bookings, from, workEnd) ==>
              && s.endTime == s.startTime + SlotMinutes
              && from <= s.startTime < workEnd
              && (s.startTime - from) % SlotMinutes == 0
              && SlotIsFree(bookings, s.startTime, s.endTime)
  {
    if from < workEnd {
      var next := from + SlotMinutes;
      FreeSlotsMembers(bookings, next, workEnd);
      var rest := FreeSlots(bookings, next, workEnd);
      forall s | s in rest ensures (s.startTime - from) % SlotMinutes == 0 {
        assert s.startTime - from == (s.startTime - next) + SlotMinutes;
      }
    }
  }

  /** The offered slots come in chronological order without overlap. */
  lemma {:induction false} FreeSlotsChronological(bookings: seq<Booking>, from: Minutes, workEnd: Minutes)
    decreases workEnd - from
    ensures forall i, j :: 0 <= i < j < |FreeSlots(bookings, from, workEnd)| ==>
              FreeSlots(bookings, from, workEnd)[i].endTime <= FreeSlots(bookings, from, workEnd)[j].startTime
  {
    if from < workEnd {
      var next := from + SlotMinutes;
      FreeSlotsChronological(bookings, next, workEnd);
      FreeSlotsMembers(bookings, next, workEnd);
      var rest := FreeSlots(bookings, next, workEnd);
      var r := FreeSlots(bookings, from, workEnd);
      if SlotIsFree(bookings, from, next) {
        assert r == [TimeSlot(from, next)] + rest;
        forall i, j | 0 <= i < j < |r| ensures r[i].endTime <= r[j].startTime {
          assert r[j] == rest[j - 1];
          if i == 0 {
            assert rest[j - 1] in rest;
          } else {
            assert r[i] == rest[i - 1];
          }
        }
      } else {
        assert r == rest;
      }
    }
  }

  /** The slot loop: steps through the candidates from `workStart`, keeping
      each one that no non-cancelled booking occupies. */
  method EnumerateSlots(bookings: seq<Booking>, workStart: Minutes, workEnd: Minutes) returns (slots: seq<TimeSlot>)
    ensures slots == FreeSlots(bookings, workStart, workEnd)
  {
    slots := [];
    var slotStart := workStart;
    while slotStart < workEnd
      invariant slots + FreeSlots(bookings, slotStart, workEnd) == FreeSlots(bookings, workStart, workEnd)
      decreases workEnd - slotStart
    {
      var slotEnd := slotStart + SlotMinutes;
      var isAvailable := SlotAvailable(bookings, slotStart, slotEnd);
      if isAvailable {
        slots := slots + [TimeSlot(slotStart, slotEnd)];
      }
      slotStart := slotStart + SlotMinutes;
    }
  }

  /** Every free candidate slot is offered. */
  lemma {:induction false} FreeSlotsComplete(bookings: seq<Booking>, from: Minutes, workEnd: Minutes, t: Minutes)
    requires from <= t < workEnd && (t - from) % SlotMinutes == 0
    requires SlotIsFree(bookings, t, t + SlotMinutes)
    ensures TimeSlot(t, t + SlotMinutes) in FreeSlots(bookings, from, workEnd)
    decreases workEnd - from
  {
    var rest := FreeSlots(bookings, from + SlotMinutes, workEnd);
    if t == from {
      assert FreeSlots(bookings, from, workEnd) == [TimeSlot(from, from + SlotMinutes)] + rest;
    } else {
      assert from + SlotMinutes <= t && (t - (from + SlotMinutes)) % SlotMinutes == 0;
      FreeSlotsComplete(bookings, from + SlotMinutes, workEnd, t);
    }
  }

  /** A window a whole number of slots long holds only slots ending inside it. */
  lemma {:induction false} FreeSlotsInWindow(bookings: seq<Booking>, from: Minutes, workEnd: Minutes)
    requires (workEnd - from) % SlotMinutes == 0
    ensures forall s :: s in FreeSlots(bookings, from, workEnd) ==> s.endTime <= workEnd
  {
    FreeSlotsMembers(bookings, from, workEnd);
    forall s | s in FreeSlots(bookings, from, workEnd) ensures s.endTime <= workEnd {
      assert (workEnd - s.startTime) % SlotMinutes == 0;
    }
  }

  /** With no booking standing in the way, all `n` candidates are offered,
      back to back. */
  lemma {:induction false} AllSlotsFree(bookings: seq<Booking>, from: Minutes, n: nat)
    requires forall b :: b in bookings ==> b.status == Cancelled
    decreases n
    ensures var r := FreeSlots(bookings, from, from + n * SlotMinutes);
            && |r| == n
            && forall k :: 0 <= k < n ==>
                 r[k] == TimeSlot(from + k * SlotMinutes, from + k * SlotMinutes + SlotMinutes)
  {
    if n > 0 {
      AllSlotsFree(bookings, from + SlotMinutes, n - 1);
      var r := FreeSlots(bookings, from, from + n * SlotMinutes);
      var rest := FreeSlots(bookings, from + SlotMinutes, from + SlotMinutes + (n - 1) * SlotMinutes);
      assert from + SlotMinutes + (n - 1) * SlotMinutes == from + n * SlotMinutes;
      assert SlotIsFree(bookings, from, from + SlotMinutes);
      assert r == [TimeSlot(from, from + SlotMinutes)] + rest;
      forall k | 1 <= k < n
        ensures r[k] == TimeSlot(from + k * SlotMinutes, from + k * SlotMinutes + SlotMinutes)
      {
        assert r[k] == rest[k - 1];
        assert from + SlotMinutes + (k - 1) * SlotMinutes == from + k * SlotMinutes;
      }
    }
  }

  /** An empty day offers exactly sixteen contiguous half-hour slots from
      09:00 to 17:00. */
  lemma EmptyDayOffersSixteenSlots(bookings: seq<Booking>, dayStart: Minutes)
    requires forall b :: b in bookings ==> b.status == Cancelled
    ensures var r := FreeSlots(bookings, dayStart + WorkStartHour * MinutesPerHour, dayStart + WorkEndHour * MinutesPerHour);
            && |r| == 16
            && r[0].startTime == dayStart + WorkStartHour * MinutesPerHour
            && r[15].endTime == dayStart + WorkEndHour * MinutesPerHour
            && (forall k :: 0 <= k < 16 ==> r[k].endTime == r[k].startTime + SlotMinutes)
            && (forall k :: 0 <= k < 15 ==> r[k].endTime == r[k + 1].startTime)
  {
    var from := dayStart + WorkStartHour * MinutesPerHour;
    assert from + 16 * SlotMinutes == dayStart + WorkEndHour * MinutesPerHour;
    AllSlotsFree(bookings, from, 16);
  }

  /** The day query loses no booking that could block a slot: a well-timed,
      non-cancelled booking of the barber overlapping the working hours starts
      on that day. */
  lemma DayQueryCoversWorkingHours(b: Booking, barberId: string, dayStart: Minutes)
    requires dayStart % MinutesPerDay == 0
    requires WellTimed(b) && b.barberId == barberId
    requires Overlaps(b.startTime, b.endTime,
                      dayStart + WorkStartHour * MinutesPerHour, dayStart + WorkEndHour * MinutesPerHour)
    ensures MatchesBarberDay(b, barberId, Some(dayStart))
  {
    StartOfDayUnique(dayStart, dayStart);
  }

  /** The slots offered for the day starting at `dayStart`: the candidates
      from 09:00 to 17:00 checked against the barber's bookings of that day. */
  function DaySlots(records: seq<Booking>, barberId: string, dayStart: Minutes): (slots: seq<TimeSlot>) {
    FreeSlots(Find(records, ByBarber(barberId, Some(dayStart))),
              dayStart + WorkStartHour * MinutesPerHour, dayStart + WorkEndHour * MinutesPerHour)
  }

  /** Each offered slot lasts half an hour, lies within working hours, and is
      clear of every non-cancelled booking of the barber starting that day;
      slots come in chronological order. */
  lemma DaySlotsMeaning(records: seq<Booking>, barberId: string, dayStart: Minutes)
    requires dayStart % MinutesPerDay == 0
    ensures var slots := DaySlots(records, barberId, dayStart);
      && (forall s :: s in slots ==>
            && s.endTime == s.startTime + SlotMinutes
            && dayStart + WorkStartHour * MinutesPerHour <= s.startTime
            && s.endTime <= dayStart + WorkEndHour * MinutesPerHour
            && forall b :: b in records && b.barberId == barberId && b.status != Cancelled &&
                           InDayWindow(b.startTime, dayStart) ==>
                             && !SlotOverlaps(s.startTime, s.endTime, b)
                             && (b.startTime < b.endTime ==> !Overlaps(s.startTime, s.endTime, b.startTime, b.endTime)))
      && (forall i, j :: 0 <= i < j < |slots| ==> slots[i].endTime <= slots[j].startTime)
  {
    var bookings := Find(records, ByBarber(barberId, Some(dayStart)));
    var workStart := dayStart + WorkStartHour * MinutesPerHour;
    var workEnd := dayStart + WorkEndHour * MinutesPerHour;
    FreeSlotsMembers(bookings, workStart, workEnd);
    FreeSlotsChronological(bookings, workStart, workEnd);
    FreeSlotsInWindow(bookings, workStart, workEnd);
    StartOfDayUnique(dayStart, dayStart);
    forall b | b in records && b.barberId == barberId && InDayWindow(b.startTime, dayStart)
      ensures b in bookings
    {
    }
    forall s, b | s in DaySlots(records, barberId, dayStart) && b in records && b.startTime < b.endTime
      ensures SlotOverlaps(s.startTime, s.endTime, b) <==> Overlaps(s.startTime, s.endTime, b.startTime, b.endTime)
    {
      SlotTestIsOverlap(s.startTime, s.endTime, b);
    }
  }

  // ---------------------------------------------------------------------
  // The service
  // ---------------------------------------------------------------------

  class BookingService {
    const repo: BookingStore

    constructor (repo: BookingStore)
      ensures this.repo == repo
    {
      this.repo := repo;
    }

    /** The service's invariant: the store's identifiers are distinct and every
        stored booking ends its kind's duration after it starts. */
    ghost predicate Valid()
      reads this, repo
    {
      repo.Valid() && forall b :: b in repo.records ==> WellTimed(b)
    }

    /** Creates a pending booking unless the barber's time-range query for
        `[startTime, end)` returns anything; a refused booking is never passed
        to the store. */
    method CreateBooking(userId: string, barberId: string, startTime: Minutes, serviceType: ServiceType,
                         notes: string, now: Minutes, freshId: ObjectId) returns (r: Result<Booking, Error>)
      requires Valid()
      requires freshId != NilObjectId
      modifies repo
      ensures Valid()
      ensures r == Err(BarberUnavailable) <==>
                exists b :: b in old(repo.records) && b.barberId == barberId && b.status != Cancelled &&
                            Overlaps(b.startTime, b.endTime, startTime, CalculateEndTime(startTime, serviceType))
      ensures var end := CalculateEndTime(startTime, serviceType);
              Conflicting(old(repo.records), barberId, startTime, end) ==>
                r == Err(BarberUnavailable) && repo.records == old(repo.records)
      ensures var end := CalculateEndTime(startTime, serviceType);
              !Conflicting(old(repo.records), barberId, startTime, end) && IdInUse(old(repo.records), freshId) ==>
                r == Err(InsertFailed) && repo.records == old(repo.records)
      ensures var end := CalculateEndTime(startTime, serviceType);
              !Conflicting(old(repo.records), barberId, startTime, end) && !IdInUse(old(repo.records), freshId) ==>
                && r == Ok(Booking(freshId, userId, barberId, startTime, end, serviceType, Pending, notes, now, now))
                && repo.records == old(repo.records) + [r.value]
    {
      var endTime := CalculateEndTime(startTime, serviceType);
      ConflictingIsOverlap(repo.records, barberId, startTime, endTime);
      var existingBookings := repo.GetBookingsInTimeRange(barberId, startTime, endTime);
      if |existingBookings| > 0 {
        assert existingBookings[0] in existingBookings;
        return Err(BarberUnavailable);
      }
      var booking := Booking(NilObjectId, userId, barberId, startTime, endTime, serviceType, Pending, notes, 0, 0);
      r := repo.CreateBooking(booking, now, freshId);
    }

    /** The booking with the given id, or not found. */
    method GetBooking(id: string) returns (r: Result<Booking, Error>)
      ensures ObjectIdFromHex(id).None? ==> r == Err(InvalidIdFormat)
      ensures ObjectIdFromHex(id).Some? && !IdInUse(repo.records, ObjectIdFromHex(id).value) ==>
                r == Err(BookingNotFound)
      ensures ObjectIdFromHex(id).Some? && IdInUse(repo.records, ObjectIdFromHex(id).value) ==>
                r.Ok? && r.value in repo.records && r.value.id == ObjectIdFromHex(id).value
    {
      var booking := repo.GetBookingByID(id);
      if booking.Err? {
        return Err(booking.error);
      }
      if booking.value.None? {
        return Err(BookingNotFound);
      }
      r := Ok(booking.value.value);
    }

    /** The availability check of an update: the barber's time-range query
        for `[start, end)` with the first record of `existing` itself removed
        returns something. */
    method OthersBooked(existing: Booking, start: Minutes, end: Minutes) returns (taken: bool)
      requires repo.Valid()
      ensures taken == ConflictsWithOthers(repo.records, existing, start, end)
    {
      var bookings := repo.GetBookingsInTimeRange(existing.barberId, start, end);
      bookings := ExcludeSelf(bookings, existing.id);
      taken := |bookings| > 0;
      if taken {
        assert bookings[0] in bookings;
      }
    }

    /** Changes start, kind and notes of a booking. A new start or a new kind
        recomputes the end and re-checks availability without counting the
        booking itself; a refused update writes nothing. */
    method UpdateBooking(id: string, startTime: Option<Minutes>, serviceType: Option<ServiceType>,
                         notes: Option<string>, now: Minutes) returns (r: Result<Booking, Error>)
      requires Valid()
      modifies repo
      ensures Valid()
      ensures ObjectIdFromHex(id).None? ==> r == Err(InvalidIdFormat) && repo.records == old(repo.records)
      ensures ObjectIdFromHex(id).Some? && !IdInUse(old(repo.records), ObjectIdFromHex(id).value) ==>
                r == Err(BookingNotFound) && repo.records == old(repo.records)
      ensures ObjectIdFromHex(id).Some? && IdInUse(old(repo.records), ObjectIdFromHex(id).value) ==>
                var i := IndexOfId(old(repo.records), ObjectIdFromHex(id).value).value;
                var existing := old(repo.records)[i];
                var interval := UpdateInterval(existing, startTime, serviceType);
                if interval.Some? && ConflictsWithOthers(old(repo.records), existing, interval.value.0, interval.value.1) then
                  && r == Err(if startTime.Some? then BarberUnavailable else BarberUnavailableForDuration)
                  && repo.records == old(repo.records)
                else
                  var updated := Updated(existing, startTime, serviceType, notes, now);
                  r == Ok(updated) && repo.records == old(repo.records)[i := updated]
      ensures ObjectIdFromHex(id).Some? && IdInUse(old(repo.records), ObjectIdFromHex(id).value) ==>
                var existing := old(repo.records)[IndexOfId(old(repo.records), ObjectIdFromHex(id).value).value];
                var interval := UpdateInterval(existing, startTime, serviceType);
                (r.Err? <==>
                   (interval.Some? &&
                    exists b :: b in old(repo.records) && b.id != existing.id && b.barberId == existing.barberId &&
                                b.status != Cancelled && Overlaps(b.startTime, b.endTime, interval.value.0, interval.value.1)))
    {
      var found := repo.GetBookingByID(id);
      if found.Err? {
        return Err(found.error);
      }
      if found.value.None? {
        return Err(BookingNotFound);
      }
      var existing := found.value.value;
      UpdateRefusedIsOverlap(repo.records, existing, startTime, serviceType);
      UpdatedStaysWellTimed(existing, startTime, serviceType, notes, now);
      var updates := EmptyPatch;

      if startTime.Some? {
        updates := updates.(startTime := startTime);
        var newServiceType := existing.serviceType;
        if serviceType.Some? {
          newServiceType := serviceType.value;
        }
        var endTime := CalculateEndTime(startTime.value, newServiceType);
        updates := updates.(endTime := Some(endTime));
        var taken := OthersBooked(existing, startTime.value, endTime);
        if taken {
          return Err(BarberUnavailable);
        }
      }

      if serviceType.Some? {
        updates := updates.(serviceType := serviceType);
        if startTime.None? {
          var endTime := CalculateEndTime(existing.startTime, serviceType.value);
          updates := updates.(endTime := Some(endTime));
          var taken := OthersBooked(existing, existing.startTime, endTime);
          if taken {
            return Err(BarberUnavailableForDuration);
          }
        }
      }

      if notes.Some? {
        updates := updates.(notes := notes);
      }

      assert updates == UpdatePatch(existing, startTime, serviceType, notes);
      var updated := repo.UpdateBooking(id, updates, now);
      r := Ok(updated.value.value);
    }

    /** Soft cancellation: delegates to the store. */
    method CancelBooking(id: string, now: Minutes) returns (r: Result<bool, Error>)
      requires Valid()
      modifies repo
      ensures Valid()
      ensures ObjectIdFromHex(id).None? ==> r == Err(InvalidIdFormat) && repo.records == old(repo.records)
      ensures ObjectIdFromHex(id).Some? && !IdInUse(old(repo.records), ObjectIdFromHex(id).value) ==>
                r == Ok(false) && repo.records == old(repo.records)
      ensures ObjectIdFromHex(id).Some? && IdInUse(old(repo.records), ObjectIdFromHex(id).value) ==>
                var i := IndexOfId(old(repo.records), ObjectIdFromHex(id).value).value;
                && r.Ok?
                && repo.records == old(repo.records)[i := old(repo.records)[i].(status := Cancelled, updatedAt := now)]
                && (old(repo.records)[i].status != Cancelled ==> r.value)
    {
      r := repo.CancelBooking(id, now);
    }

    /** All bookings of the user, whatever their status. */
    method GetUserBookings(userId: string) returns (r: seq<Booking>)
      ensures forall b :: b in r <==> b in repo.records && b.userId == userId
      ensures r == Find(repo.records, ByUser(userId))
    {
      r := repo.GetUserBookings(userId);
    }

    /** All bookings of the barber, optionally only those starting on one day. */
    method GetBarberBookings(barberId: string, date: Option<Minutes>) returns (r: seq<Booking>)
      ensures forall b :: b in r <==> b in repo.records && MatchesBarberDay(b, barberId, date)
      ensures r == Find(repo.records, ByBarber(barberId, date))
    {
      r := repo.GetBarberBookings(barberId, date);
    }

    /** The half-hour slots between 09:00 and 17:00 of the day holding `date`
        that no non-cancelled booking of the barber starting that day occupies. */
    method GetAvailableTimeSlots(barberId: string, date: Minutes) returns (slots: seq<TimeSlot>)
      ensures slots == DaySlots(repo.records, barberId, StartOfDay(date))
    {
      var startOfDay := StartOfDay(date);
      var workStart := startOfDay + WorkStartHour * MinutesPerHour;
      var workEnd := startOfDay + WorkEndHour * MinutesPerHour;

      var bookings := repo.GetBarberBookings(barberId, Some(startOfDay));
      slots := EnumerateSlots(bookings, workStart, workEnd);
    }
  }
}
