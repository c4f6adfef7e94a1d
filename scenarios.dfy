/** Worked examples that follow from the contracts alone: the end-to-end
    create / conflict / cancel / re-create sequence, and the slots a single
    booking takes away from an otherwise empty day. */
module Scenarios {
  import opened Wrappers
  import opened ObjectIds
  import opened Model
  import opened Repository
  import opened Service

  /** A pending, well-timed booking of `barberId` as the service stores it. */
  function Appointment(id: ObjectId, barberId: string, start: Minutes, end: Minutes): (b: Booking) {
    Booking(id, "user1", barberId, start, end, Haircut, Pending, "", 0, 0)
  }

  /** With one booking on the day, a candidate slot is offered exactly when it
      does not overlap that booking. */
  lemma {:induction false} OneBookingSlots(b: Booking, dayStart: Minutes, k: int)
    requires b.status != Cancelled && b.startTime < b.endTime
    requires 0 <= k < 16
    ensures var from := dayStart + WorkStartHour * MinutesPerHour;
            var slot := TimeSlot(from + k * SlotMinutes, from + k * SlotMinutes + SlotMinutes);
            slot in FreeSlots([b], from, dayStart + WorkEndHour * MinutesPerHour) <==>
              !Overlaps(slot.startTime, slot.endTime, b.startTime, b.endTime)
  {
    var from := dayStart + WorkStartHour * MinutesPerHour;
    var workEnd := dayStart + WorkEndHour * MinutesPerHour;
    var slot := TimeSlot(from + k * SlotMinutes, from + k * SlotMinutes + SlotMinutes);
    SlotTestIsOverlap(slot.startTime, slot.endTime, b);
    if !Overlaps(slot.startTime, slot.endTime, b.startTime, b.endTime) {
      assert (slot.startTime - from) % SlotMinutes == 0;
      FreeSlotsComplete([b], from, workEnd, slot.startTime);
    } else {
      FreeSlotsMembers([b], from, workEnd);
      assert !SlotIsFree([b], slot.startTime, slot.endTime);
    }
  }

  /** A booking 10:00-10:30 takes exactly the 10:00 slot; one 10:15-10:45
      takes the 10:00 and the 10:30 slots. */
  lemma TenOClockExamples(dayStart: Minutes, k: int)
    requires 0 <= k < 16
    ensures var from := dayStart + WorkStartHour * MinutesPerHour;
            var workEnd := dayStart + WorkEndHour * MinutesPerHour;
            var slot := TimeSlot(from + k * SlotMinutes, from + k * SlotMinutes + SlotMinutes);
            && (slot in FreeSlots([Appointment(1, "barber1", dayStart + 600, dayStart + 630)], from, workEnd) <==> k != 2)
            && (slot in FreeSlots([Appointment(1, "barber1", dayStart + 615, dayStart + 645)], from, workEnd) <==> k != 2 && k != 3)
  {
    OneBookingSlots(Appointment(1, "barber1", dayStart + 600, dayStart + 630), dayStart, k);
    OneBookingSlots(Appointment(1, "barber1", dayStart + 615, dayStart + 645), dayStart, k);
  }

  /** A haircut at 10:00 on an empty calendar is accepted; a second booking at
      10:15 for the same barber is refused; after the first is cancelled the
      second is accepted. */
  method CreateConflictCancelRecreate() {
    var store := new BookingStore();
    var service := new BookingService(store);

    var first := service.CreateBooking("user1", "barber1", 600, Haircut, "", 0, 1);
    assert !Conflicting([], "barber1", 600, 630);
    assert first == Ok(Booking(1, "user1", "barber1", 600, 630, Haircut, Pending, "", 0, 0));

    var second := service.CreateBooking("user1", "barber1", 615, Haircut, "", 1, 2);
    assert Conflicting(store.records, "barber1", 615, 645) by {
      assert MatchesTimeRange(first.value, "barber1", 615, 645);
    }
    assert second == Err(BarberUnavailable);

    ParseWrittenId(1);
    var cancelled := service.CancelBooking(Hex(1), 2);
    assert cancelled == Ok(true);
    assert store.records == [first.value.(status := Cancelled, updatedAt := 2)];

    assert !Conflicting(store.records, "barber1", 615, 645) by {
      forall b | b in store.records ensures !MatchesTimeRange(b, "barber1", 615, 645) {
        CancelledNeverInRange(b, "barber1", 615, 645);
      }
    }
    var third := service.CreateBooking("user1", "barber1", 615, Haircut, "", 3, 2);
    assert third.Ok? && third.value.id == 2 && third.value.startTime == 615 && third.value.endTime == 645;
  }
}
