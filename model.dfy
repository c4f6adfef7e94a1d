/** The booking record, the service and status enumerations, the duration
    table and end-time derivation (internal/model/booking.go).
    Times are whole minutes on a single UTC time line. */
module Model {
  import opened ObjectIds

  /** Minutes since an arbitrary epoch; may be negative. */
  type Minutes = int

  const MinutesPerHour: int := 60
  const MinutesPerDay: int := 24 * MinutesPerHour

  /** A service kind is an integer; the four named kinds are 0..3 and any
      other integer is accepted and charged the default duration. */
  type ServiceType = int

  const Haircut: ServiceType := 0
  const BeardTrim: ServiceType := 1
  const HairWash: ServiceType := 2
  const FullService: ServiceType := 3

  /** A lifecycle status is an integer; the named statuses are 0..3. */
  type BookingStatus = int

  const Pending: BookingStatus := 0
  const Confirmed: BookingStatus := 1
  const Cancelled: BookingStatus := 2
  const Completed: BookingStatus := 3

  datatype Booking = Booking(
    id: ObjectId,
    userId: string,
    barberId: string,
    startTime: Minutes,
    endTime: Minutes,
    serviceType: ServiceType,
    status: BookingStatus,
    notes: string,
    createdAt: Minutes,
    updatedAt: Minutes)

  /** A free interval offered to clients; never stored. */
  datatype TimeSlot = TimeSlot(startTime: Minutes, endTime: Minutes)

  /** What the core reports instead of a result. */
  datatype Error =
    | InvalidIdFormat               // id string is not 24 hexadecimal digits
    | InsertFailed                  // the store refused the insert (identifier already present)
    | BookingNotFound               // no booking has the id
    | BarberUnavailable             // the requested interval overlaps another booking
    | BarberUnavailableForDuration  // the lengthened (or shortened) service overlaps another booking

  /** Minutes a service of kind `k` takes. */
  function Duration(k: ServiceType): (m: int)
    ensures m == 15 || m == 20 || m == 30 || m == 60
  {
    if k == Haircut then 30
    else if k == BeardTrim then 15
    else if k == HairWash then 20
    else if k == FullService then 60
    else 30
  }

  /** The fixed table: haircut 30, beard trim 15, hair wash 20, full service 60 minutes. */
  lemma DurationTable()
    ensures Duration(Haircut) == 30 && Duration(BeardTrim) == 15
    ensures Duration(HairWash) == 20 && Duration(FullService) == 60
  {
  }

  /** An unnamed service kind takes the default 30 minutes. */
  lemma DefaultDuration(k: ServiceType)
    requires k != Haircut && k != BeardTrim && k != HairWash && k != FullService
    ensures Duration(k) == 30
  {
  }

  /** Every service takes a positive time of at most an hour. */
  lemma DurationPositive(k: ServiceType)
    ensures 0 < Duration(k) <= MinutesPerHour
  {
  }

  /** When a service of kind `k` starting at `start` ends. */
  function CalculateEndTime(start: Minutes, k: ServiceType): (end: Minutes)
    ensures end - start == Duration(k)
    ensures start < end <= start + MinutesPerHour
  {
    start + Duration(k)
  }

  /** The record invariant: the end is derived from start and kind. */
  predicate WellTimed(b: Booking) {
    b.endTime == CalculateEndTime(b.startTime, b.serviceType)
  }

  /** Half-open intervals [s1, e1) and [s2, e2) share a point. */
  predicate Overlaps(s1: Minutes, e1: Minutes, s2: Minutes, e2: Minutes) {
    s1 < e2 && s2 < e1
  }

  /** Midnight (UTC) of the day holding `t`. */
  function StartOfDay(t: Minutes): (d: Minutes)
    ensures d <= t < d + MinutesPerDay
    ensures d % MinutesPerDay == 0
  {
    t - t % MinutesPerDay
  }

  /** Midnight is the only multiple of a day within the day, so truncating twice changes nothing. */
  lemma StartOfDayIdempotent(t: Minutes)
    ensures StartOfDay(StartOfDay(t)) == StartOfDay(t)
  {
  }

  /** Two instants with the same midnight lie in the same day window. */
  lemma StartOfDayUnique(t: Minutes, d: Minutes)
    requires d % MinutesPerDay == 0 && d <= t < d + MinutesPerDay
    ensures StartOfDay(t) == d
  {
    var q := t / MinutesPerDay;
    assert t == q * MinutesPerDay + t % MinutesPerDay;
    var k := d / MinutesPerDay;
    assert d == k * MinutesPerDay;
  }
}
