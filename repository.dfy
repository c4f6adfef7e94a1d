/** The booking store (internal/repository/mongo_booking_repository.go),
    held in memory: a sequence of records in insertion order stands for the
    document collection, and every query document of the source is a
    predicate on one record. */
module Repository {
  import opened Wrappers
  import opened ObjectIds
  import opened Model

  // ---------------------------------------------------------------------
  // Query documents as predicates
  // ---------------------------------------------------------------------

  /** `{"_id": id}` */
  predicate MatchesId(b: Booking, id: ObjectId) {
    b.id == id
  }

  /** `{"userId": userId}` */
  predicate MatchesUser(b: Booking, userId: string) {
    b.userId == userId
  }

  /** `startTime` in `[dayStart, dayStart + 24h)` */
  predicate InDayWindow(t: Minutes, dayStart: Minutes) {
    dayStart <= t < dayStart + MinutesPerDay
  }

  /** `{"barberId": barberId}`, and when a date is given also
      `{"startTime": {"$gte": startOfDay, "$lt": endOfDay}}` for that date's day. */
  predicate MatchesBarberDay(b: Booking, barberId: string, date: Option<Minutes>) {
    && b.barberId == barberId
    && (date.Some? ==> InDayWindow(b.startTime, StartOfDay(date.value)))
  }

  /** The three alternatives of the `$or` in the time-range query. */
  predicate TimeRangeClauses(b: Booking, start: Minutes, end: Minutes) {
    || (start <= b.startTime && b.startTime < end)   // starts inside [start, end)
    || (start < b.endTime && b.endTime <= end)       // ends inside (start, end]
    || (b.startTime <= start && b.endTime >= end)    // covers [start, end]
  }

  /** The time-range query: same barber, not cancelled, one of the three clauses. */
  predicate MatchesTimeRange(b: Booking, barberId: string, start: Minutes, end: Minutes) {
    && b.barberId == barberId
    && b.status != Cancelled
    && TimeRangeClauses(b, start, end)
  }

  /** The query documents the store answers. */
  datatype Filter =
    | ById(id: ObjectId)
    | ByUser(userId: string)
    | ByBarber(barberId: string, date: Option<Minutes>)
    | InTimeRange(rangeBarberId: string, start: Minutes, end: Minutes)

  predicate Matches(f: Filter, b: Booking) {
    match f
    case ById(id) => MatchesId(b, id)
    case ByUser(userId) => MatchesUser(b, userId)
    case ByBarber(barberId, date) => MatchesBarberDay(b, barberId, date)
    case InTimeRange(barberId, start, end) => MatchesTimeRange(b, barberId, start, end)
  }

  predicate UniqueIds(s: seq<Booking>) {
    forall i, j :: 0 <= i < j < |s| ==> s[i].id != s[j].id
  }

  predicate IdInUse(s: seq<Booking>, id: ObjectId) {
    exists b :: b in s && b.id == id
  }

  /** The records a `Find` with filter `f` returns, in store order. */
  function Find(records: seq<Booking>, f: Filter): (r: seq<Booking>)
    ensures forall b :: b in r <==> b in records && Matches(f, b)
    ensures |r| <= |records|
    ensures UniqueIds(records) ==> UniqueIds(r)
  {
    if records == [] then []
    else
      var rest := Find(records[1..], f);
      var head := if Matches(f, records[0]) then [records[0]] else [];
      assert UniqueIds(records) ==> forall b :: b in rest ==> b.id != records[0].id by {
        if UniqueIds(records) {
          forall b | b in rest ensures b.id != records[0].id {
            var k :| 1 <= k < |records| && records[k] == b;
          }
        }
      }
      head + rest
  }

  /** Position of the first record with identifier `id`, as `FindOne` sees it. */
  function IndexOfId(records: seq<Booking>, id: ObjectId): (r: Option<nat>)
    ensures r.Some? ==> r.value < |records| && records[r.value].id == id
    ensures r.Some? ==> forall j :: 0 <= j < r.value ==> records[j].id != id
    ensures r.None? <==> !IdInUse(records, id)
  {
    if records == [] then None
    else if records[0].id == id then Some(0)
    else
      match IndexOfId(records[1..], id)
      case None => assert forall b :: b in records ==> b == records[0] || b in records[1..]; None
      case Some(i) => Some(i + 1)
  }

  /** `FindOne({"_id": id})`: the record with that identifier, if any. */
  function Lookup(records: seq<Booking>, id: ObjectId): (r: Option<Booking>)
    ensures r.Some? ==> r.value in records && r.value.id == id
    ensures r.None? <==> !IdInUse(records, id)
  {
    match IndexOfId(records, id)
    case Some(i) => Some(records[i])
    case None => None
  }

  // ---------------------------------------------------------------------
  // Partial updates
  // ---------------------------------------------------------------------

  /** The typed form of the `updates` map: each key present or absent. */
  datatype Patch = Patch(
    startTime: Option<Minutes>,
    endTime: Option<Minutes>,
    serviceType: Option<ServiceType>,
    notes: Option<string>)

  const EmptyPatch: Patch := Patch(None, None, None, None)

  /** `$set` of the supplied keys plus `updatedAt`. */
  function ApplyPatch(b: Booking, p: Patch, now: Minutes): (u: Booking)
    ensures u.id == b.id && u.userId == b.userId && u.barberId == b.barberId
    ensures u.status == b.status && u.createdAt == b.createdAt
    ensures u.updatedAt == now
    ensures u.startTime == (if p.startTime.Some? then p.startTime.value else b.startTime)
    ensures u.endTime == (if p.endTime.Some? then p.endTime.value else b.endTime)
    ensures u.serviceType == (if p.serviceType.Some? then p.serviceType.value else b.serviceType)
    ensures u.notes == (if p.notes.Some? then p.notes.value else b.notes)
  {
    b.(startTime := p.startTime.GetOr(b.startTime),
       endTime := p.endTime.GetOr(b.endTime),
       serviceType := p.serviceType.GetOr(b.serviceType),
       notes := p.notes.GetOr(b.notes),
       updatedAt := now)
  }

  /** A patch naming no key still refreshes `updatedAt` and nothing else. */
  lemma EmptyPatchTouchesOnlyTimestamp(b: Booking, now: Minutes)
    ensures ApplyPatch(b, EmptyPatch, now) == b.(updatedAt := now)
  {
  }

  /** Setting the same keys twice is the same as setting them once. */
  lemma ApplyPatchIdempotent(b: Booking, p: Patch, now: Minutes)
    ensures ApplyPatch(ApplyPatch(b, p, now), p, now) == ApplyPatch(b, p, now)
  {
  }

  // ---------------------------------------------------------------------
  // The filter semantics
  // ---------------------------------------------------------------------

  /** For a positive-length query and a positive-length booking, the three
      clauses together are exactly half-open overlap. */
  lemma TimeRangeClausesAreOverlap(b: Booking, start: Minutes, end: Minutes)
    requires start < end && b.startTime < b.endTime
    ensures TimeRangeClauses(b, start, end) <==> Overlaps(b.startTime, b.endTime, start, end)
  {
  }

  /** Touching intervals do not match: a booking ending at the query start or
      starting at the query end is not returned. */
  lemma TouchingDoesNotMatch(b: Booking, start: Minutes, end: Minutes)
    requires start < end && b.startTime < b.endTime
    requires b.endTime == start || b.startTime == end
    ensures !TimeRangeClauses(b, start, end)
  {
  }

  /** A cancelled booking never appears in a time-range result. */
  lemma CancelledNeverInRange(b: Booking, barberId: string, start: Minutes, end: Minutes)
    requires b.status == Cancelled
    ensures !MatchesTimeRange(b, barberId, start, end)
  {
  }

  /** Asking for a day by any instant in it, or by its midnight, is the same query. */
  lemma DayFilterByMidnight(b: Booking, barberId: string, date: Minutes)
    ensures MatchesBarberDay(b, barberId, Some(StartOfDay(date))) == MatchesBarberDay(b, barberId, Some(date))
  {
    StartOfDayIdempotent(date);
  }

  // ---------------------------------------------------------------------
  // The store
  // ---------------------------------------------------------------------

  /** The collection of booking documents. */
  class BookingStore {
    var records: seq<Booking>

    /** Identifiers are assigned and unique, as the `_id` index guarantees. */
    ghost predicate Valid()
      reads this
    {
      && UniqueIds(records)
      && forall b :: b in records ==> b.id != NilObjectId
    }

    constructor ()
      ensures Valid() && records == []
    {
      records := [];
    }

    /** Stamps `createdAt` and `updatedAt` with `now`, assigns `freshId` when
        the booking has no identifier yet, and inserts it. An insert whose
        identifier is already present fails and stores nothing. */
    method CreateBooking(booking: Booking, now: Minutes, freshId: ObjectId) returns (r: Result<Booking, Error>)
      requires Valid()
      requires freshId != NilObjectId
      modifies this
      ensures Valid()
      ensures var stored := booking.(id := if booking.id == NilObjectId then freshId else booking.id,
                                     createdAt := now, updatedAt := now);
              if IdInUse(old(records), stored.id) then
                r == Err(InsertFailed) && records == old(records)
              else
                r == Ok(stored) && records == old(records) + [stored]
    {
      var stored := booking.(createdAt := now, updatedAt := now);
      if stored.id == NilObjectId {
        stored := stored.(id := freshId);
      }
      if IndexOfId(records, stored.id).Some? {
        return Err(InsertFailed);
      }
      records := records + [stored];
      r := Ok(stored);
    }

    /** The booking with the given id; absent (no error) when none has it. */
    method GetBookingByID(id: string) returns (r: Result<Option<Booking>, Error>)
      ensures ObjectIdFromHex(id).None? ==> r == Err(InvalidIdFormat)
      ensures ObjectIdFromHex(id).Some? ==> r == Ok(Lookup(records, ObjectIdFromHex(id).value))
      ensures r.Ok? && r.value.Some? ==> r.value.value in records && r.value.value.id == ObjectIdFromHex(id).value
      ensures r.Ok? && r.value.None? ==> !IdInUse(records, ObjectIdFromHex(id).value)
    {
      var objectId := ObjectIdFromHex(id);
      if objectId.None? {
        return Err(InvalidIdFormat);
      }
      r := Ok(Lookup(records, objectId.value));
    }

    /** `$set` of the supplied keys plus `updatedAt` on the record with the
        id; absent (no error) when none has it. */
    method UpdateBooking(id: string, updates: Patch, now: Minutes) returns (r: Result<Option<Booking>, Error>)
      requires Valid()
      modifies this
      ensures Valid()
      ensures ObjectIdFromHex(id).None? ==> r == Err(InvalidIdFormat) && records == old(records)
      ensures ObjectIdFromHex(id).Some? && !IdInUse(old(records), ObjectIdFromHex(id).value) ==>
                r == Ok(None) && records == old(records)
      ensures ObjectIdFromHex(id).Some? && IdInUse(old(records), ObjectIdFromHex(id).value) ==>
                var i := IndexOfId(old(records), ObjectIdFromHex(id).value).value;
                var updated := ApplyPatch(old(records)[i], updates, now);
                r == Ok(Some(updated)) && records == old(records)[i := updated]
    {
      var objectId := ObjectIdFromHex(id);
      if objectId.None? {
        return Err(InvalidIdFormat);
      }
      var index := IndexOfId(records, objectId.value);
      if index.None? {
        return Ok(None);
      }
      var i := index.value;
      var updated := ApplyPatch(records[i], updates, now);
      records := records[i := updated];
      r := Ok(Some(updated));
      assert forall k :: 0 <= k < |records| ==> records[k].id == old(records)[k].id;
    }

    /** Sets `status` to cancelled and `updatedAt` to `now` on the record with
        the id. Reports whether the stored document changed, which it does
        whenever the booking was not yet cancelled; false when none has the id. */
    method CancelBooking(id: string, now: Minutes) returns (r: Result<bool, Error>)
      requires Valid()
      modifies this
      ensures Valid()
      ensures ObjectIdFromHex(id).None? ==> r == Err(InvalidIdFormat) && records == old(records)
      ensures ObjectIdFromHex(id).Some? && !IdInUse(old(records), ObjectIdFromHex(id).value) ==>
                r == Ok(false) && records == old(records)
      ensures ObjectIdFromHex(id).Some? && IdInUse(old(records), ObjectIdFromHex(id).value) ==>
                var i := IndexOfId(old(records), ObjectIdFromHex(id).value).value;
                && r.Ok?
                && records == old(records)[i := old(records)[i].(status := Cancelled, updatedAt := now)]
                && (old(records)[i].status != Cancelled ==> r.value)
    {
      var objectId := ObjectIdFromHex(id);
      if objectId.None? {
        return Err(InvalidIdFormat);
      }
      var index := IndexOfId(records, objectId.value);
      if index.None? {
        return Ok(false);
      }
      var i := index.value;
      var before := records[i];
      var after := before.(status := Cancelled, updatedAt := now);
      records := records[i := after];
      // The update reports a modification exactly when a value it sets differs.
      r := Ok(before.status != Cancelled || before.updatedAt != now);
      assert forall k :: 0 <= k < |records| ==> records[k].id == old(records)[k].id;
    }

    /** Every booking of the user, whatever its status, in store order. */
    method GetUserBookings(userId: string) returns (r: seq<Booking>)
      ensures r == Find(records, ByUser(userId))
      ensures forall b :: b in r <==> b in records && b.userId == userId
    {
      r := Find(records, ByUser(userId));
    }

    /** Every booking of the barber; with a date, only those starting on that day. */
    method GetBarberBookings(barberId: string, date: Option<Minutes>) returns (r: seq<Booking>)
      ensures r == Find(records, ByBarber(barberId, date))
      ensures date.None? ==> forall b :: b in r <==> b in records && b.barberId == barberId
      ensures date.Some? ==> forall b :: b in r <==>
                b in records && b.barberId == barberId &&
                StartOfDay(date.value) <= b.startTime < StartOfDay(date.value) + MinutesPerDay
    {
      r := Find(records, ByBarber(barberId, date));
    }

    /** The barber's non-cancelled bookings that the three-clause filter
        matches against `[start, end)`. */
    method GetBookingsInTimeRange(barberId: string, start: Minutes, end: Minutes) returns (r: seq<Booking>)
      requires Valid()
      ensures r == Find(records, InTimeRange(barberId, start, end))
      ensures UniqueIds(r)
      ensures forall b :: b in r ==> b in records && b.barberId == barberId && b.status != Cancelled
      ensures start < end ==> forall b :: b in records && b.startTime < b.endTime ==>
                (b in r <==> b.barberId == barberId && b.status != Cancelled &&
                             Overlaps(b.startTime, b.endTime, start, end))
    {
      r := Find(records, InTimeRange(barberId, start, end));
      forall b | b in records && b.startTime < b.endTime && start < end {
        TimeRangeClausesAreOverlap(b, start, end);
      }
    }
  }
}
