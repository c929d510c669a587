/** The date-and-time step of the booking wizard: the candidate slots of the
    business day, the removal of booked slots and of slots inside the minimum
    advance-notice window, the message shown when nothing is left, and the
    selection state behind the "Continue" button.

    Instants are whole milliseconds on one local clock; a selected calendar day
    is given by the instant of its local midnight. */
module SelectDateTime {
  import opened JsValues
  import opened Seqs
  import opened SlotFormat

  const MsPerMinute := 60000
  const MsPerHour := 3600000

  /** The booking settings record; `bookingWindowHours` may be unset. */
  datatype BookingSettings = BookingSettings(
    startTimeHour: int,
    endTimeHour: int,
    slotIntervalMinutes: int,
    bookingWindowHours: Field)

  /** The slot loop ends: either it never runs or every round advances. */
  predicate LoopTerminates(st: BookingSettings)
  {
    st.slotIntervalMinutes > 0 || st.endTimeHour <= st.startTimeHour
  }

  /** ceil((End - Start) * 60 / Interval) for a non-empty window, else 0. */
  function SlotCount(st: BookingSettings): nat
    requires LoopTerminates(st)
  {
    if st.endTimeHour <= st.startTimeHour then 0
    else
      var span := (st.endTimeHour - st.startTimeHour) * 60;
      CeilDiv(span, st.slotIntervalMinutes)
  }

  function CeilDiv(n: nat, d: int): nat
    requires d > 0
  {
    (n + d - 1) / d
  }

  /** The minute, counted from midnight, of each generated slot: Start:00 and
      then one interval after another. */
  function SlotMinutes(st: BookingSettings): seq<int>
    requires LoopTerminates(st)
  {
    seq(SlotCount(st), k => st.startTimeHour * 60 + k * st.slotIntervalMinutes)
  }

  function Labels(ts: seq<int>): (r: seq<string>)
    ensures |r| == |ts|
  {
    seq(|ts|, k requires 0 <= k < |ts| => FormatSlot(ts[k]))
  }

  /** What `generateTimeSlots` returns: nothing before the settings are loaded,
      otherwise the labels of `SlotMinutes`. */
  function TimeSlots(settings: Option<BookingSettings>): seq<string>
    requires settings.Some? ==> LoopTerminates(settings.value)
  {
    if settings.None? then [] else Labels(SlotMinutes(settings.value))
  }

  lemma MulNonNegative(a: int, b: int)
    requires a >= 0 && b >= 0
    ensures a * b >= 0
  {
  }

  /** The count is exactly the number of interval steps from Start:00 that stay
      strictly before End:00. */
  lemma SlotCountSpec(st: BookingSettings, k: nat)
    requires st.slotIntervalMinutes > 0
    ensures k < SlotCount(st) <==> st.startTimeHour * 60 + k * st.slotIntervalMinutes < st.endTimeHour * 60
  {
    var d := st.slotIntervalMinutes;
    MulNonNegative(k, d);
    if st.endTimeHour > st.startTimeHour {
      var n := (st.endTimeHour - st.startTimeHour) * 60;
      var q, r := (n + d - 1) / d, (n + d - 1) % d;
      assert n + d - 1 == q * d + r && 0 <= r < d;
      if k < q {
        MulNonNegative(q - 1 - k, d);
        assert (q - 1 - k) * d == q * d - d - k * d;
        assert k * d < n;
      } else {
        MulNonNegative(k - q, d);
        assert (k - q) * d == k * d - q * d;
        assert k * d >= n;
      }
    }
  }

  /** The generated minutes start at Start:00, climb strictly, stay before
      End:00, and the next step after the last one reaches End:00; with
      Start >= End there are none. */
  lemma SlotMinutesSpec(st: BookingSettings)
    requires LoopTerminates(st)
    ensures var ts := SlotMinutes(st);
      && (st.endTimeHour <= st.startTimeHour ==> ts == [])
      && (|ts| > 0 ==> ts[0] == st.startTimeHour * 60)
      && (forall k :: 0 <= k < |ts| ==> ts[k] == st.startTimeHour * 60 + k * st.slotIntervalMinutes)
      && (forall k :: 0 <= k < |ts| ==> ts[k] < st.endTimeHour * 60)
      && (forall i, j :: 0 <= i < j < |ts| ==> ts[i] < ts[j])
      && (st.slotIntervalMinutes > 0 ==> st.startTimeHour * 60 + |ts| * st.slotIntervalMinutes >= st.endTimeHour * 60)
  {
    var ts := SlotMinutes(st);
    var d := st.slotIntervalMinutes;
    forall k | 0 <= k < |ts| ensures ts[k] < st.endTimeHour * 60 {
      SlotCountSpec(st, k);
    }
    forall i, j | 0 <= i < j < |ts| ensures ts[i] < ts[j] {
      MulNonNegative(j - i - 1, d);
      assert (j - i) * d == j * d - i * d;
    }
    if d > 0 {
      SlotCountSpec(st, |ts|);
    }
  }

  /** With business hours inside one day (0 <= Start, End <= 24) no label is
      generated twice. */
  lemma TimeSlotsDistinct(st: BookingSettings)
    requires LoopTerminates(st)
    requires 0 <= st.startTimeHour && st.endTimeHour <= 24
    ensures Distinct(TimeSlots(Some(st)))
  {
    var ts := SlotMinutes(st);
    SlotMinutesSpec(st);
    var labels := TimeSlots(Some(st));
    forall i, j | 0 <= i < j < |labels| ensures labels[i] != labels[j] {
      assert 0 <= ts[0] <= ts[i] < ts[j] < 24 * 60;
      if labels[i] == labels[j] {
        FormatSlotInjective(ts[i], ts[j]);
      }
    }
  }

  /** `generateTimeSlots()`: the stepping loop that pushes one label per
      interval while the current time is before End:00. `settings` is `None`
      while the settings are not loaded (or failed to load). */
  method GenerateTimeSlots(settings: Option<BookingSettings>) returns (slots: seq<string>)
    requires settings.Some? ==> LoopTerminates(settings.value)
    ensures slots == TimeSlots(settings)
  {
    if settings.None? {
      return [];
    }
    var st := settings.value;
    ghost var all := TimeSlots(settings);
    slots := [];
    var currentTime := st.startTimeHour * 60;
    var endTime := st.endTimeHour * 60;
    while currentTime < endTime
      invariant |slots| <= |all|
      invariant currentTime == st.startTimeHour * 60 + |slots| * st.slotIntervalMinutes
      invariant slots == all[..|slots|]
      invariant st.slotIntervalMinutes <= 0 ==> slots == []
      decreases endTime - currentTime
    {
      NextSlot(st, |slots|);
      slots := slots + [FormatSlot(currentTime)];
      currentTime := currentTime + st.slotIntervalMinutes;
    }
    if st.slotIntervalMinutes > 0 {
      SlotCountSpec(st, |slots|);
    }
    assert all[..|slots|] == all;
  }

  /** One round of the slot loop: while the current time `Start:00 + k
      intervals` is before End:00, label `k` exists, is the current time's
      label, and the next current time is that of round `k + 1`. */
  lemma NextSlot(st: BookingSettings, k: nat)
    requires LoopTerminates(st)
    requires st.startTimeHour * 60 + k * st.slotIntervalMinutes < st.endTimeHour * 60
    requires st.slotIntervalMinutes <= 0 ==> k == 0
    ensures st.slotIntervalMinutes > 0
    ensures k < |TimeSlots(Some(st))|
    ensures TimeSlots(Some(st))[k] == FormatSlot(st.startTimeHour * 60 + k * st.slotIntervalMinutes)
    ensures st.startTimeHour * 60 + (k + 1) * st.slotIntervalMinutes
         == st.startTimeHour * 60 + k * st.slotIntervalMinutes + st.slotIntervalMinutes
  {
    SlotCountSpec(st, k);
  }

  /** `allTimeSlots.filter(slot => !bookedSlots.includes(slot))`. */
  function UnbookedSlots(all: seq<string>, booked: seq<string>): seq<string>
  {
    Filter(all, (s: string) => s !in booked)
  }

  /** A JavaScript `Date`: a valid instant or the Invalid Date. */
  datatype Instant = Invalid | At(ms: int)

  /** `new Date(selectedDate)` with `setHours(parseInt(hours), parseInt(minutes), 0, 0)`:
      the time of day of the selected date set to the label's hour and minute.
      A NaN part gives the Invalid Date. */
  function SlotDateTime(day: int, slot: string): Instant
  {
    match ParseSlot(slot)
    case (Some(h), Some(m)) => At(day + h * MsPerHour + m * MsPerMinute)
    case _ => Invalid
  }

  /** A generated label, read back on its day, is the instant of its minute. */
  lemma SlotDateTimeOfLabel(day: int, t: int)
    requires 0 <= t < 24 * 60
    ensures SlotDateTime(day, FormatSlot(t)) == At(day + t * MsPerMinute)
  {
    ParseFormatSlot(t);
    assert t == (t / 60) * 60 + t % 60;
  }

  /** `bookingSettings?.BookingWindowHours`. */
  function WindowHours(settings: Option<BookingSettings>): Field
  {
    if settings.None? then Undefined else settings.value.bookingWindowHours
  }

  /** `now + BookingWindowHours` hours: the earliest bookable instant. */
  function Cutoff(now: int, windowHours: int): int
  {
    now + windowHours * MsPerHour
  }

  /** `slotDateTime >= minimumBookingTime`; comparing an Invalid Date is false. */
  predicate NotTooSoon(day: int, slot: string, cutoff: int)
  {
    var i := SlotDateTime(day, slot);
    i.At? && i.ms >= cutoff
  }

  /** `filterSlotsByBookingWindow(slots)`. */
  function FilterByBookingWindow(slots: seq<string>, settings: Option<BookingSettings>, day: int, now: int): seq<string>
  {
    var w := WindowHours(settings);
    if !Truthy(w) then slots
    else Filter(slots, (s: string) => NotTooSoon(day, s, Cutoff(now, w.n)))
  }

  /** Without a window the slots come back unchanged; with one, exactly the
      slots at or after the cutoff are kept, in their order. */
  lemma FilterByBookingWindowSpec(slots: seq<string>, settings: Option<BookingSettings>, day: int, now: int)
    ensures var r, w := FilterByBookingWindow(slots, settings, day, now), WindowHours(settings);
      && (!Truthy(w) ==> r == slots)
      && (Truthy(w) ==> forall s :: s in r <==> s in slots && NotTooSoon(day, s, Cutoff(now, w.n)))
      && IsSubseq(r, slots)
  {
    var w := WindowHours(settings);
    if Truthy(w) {
      var p := (s: string) => NotTooSoon(day, s, Cutoff(now, w.n));
      forall s ensures s in Filter(slots, p) <==> s in slots && p(s) {
        FilterMembership(slots, p, s);
      }
      FilterIsSubseq(slots, p);
    } else {
      FilterKeepsAll(slots, (s: string) => true);
      FilterIsSubseq(slots, (s: string) => true);
    }
  }

  /** The buttons offered: generated, then unbooked, then outside the window. */
  function AvailableSlots(settings: Option<BookingSettings>, booked: seq<string>, day: int, now: int): seq<string>
    requires settings.Some? ==> LoopTerminates(settings.value)
  {
    FilterByBookingWindow(UnbookedSlots(TimeSlots(settings), booked), settings, day, now)
  }

  /** A label is offered exactly when it is generated, not booked, and (with a
      window set) not too soon; offered labels keep the generated order, and
      with business hours inside one day none is offered twice. */
  lemma AvailableSlotsSpec(settings: Option<BookingSettings>, booked: seq<string>, day: int, now: int)
    requires settings.Some? ==> LoopTerminates(settings.value)
    ensures var r, w := AvailableSlots(settings, booked, day, now), WindowHours(settings);
      forall s :: s in r <==>
        s in TimeSlots(settings) && s !in booked && (Truthy(w) ==> NotTooSoon(day, s, Cutoff(now, w.n)))
    ensures IsSubseq(AvailableSlots(settings, booked, day, now), TimeSlots(settings))
    ensures settings.Some? && 0 <= settings.value.startTimeHour && settings.value.endTimeHour <= 24 ==>
      Distinct(AvailableSlots(settings, booked, day, now))
  {
    var all := TimeSlots(settings);
    var p := (s: string) => s !in booked;
    var unbooked := UnbookedSlots(all, booked);
    forall s ensures s in unbooked <==> s in all && p(s) {
      FilterMembership(all, p, s);
    }
    FilterIsSubseq(all, p);
    FilterByBookingWindowSpec(unbooked, settings, day, now);
    var r := AvailableSlots(settings, booked, day, now);
    SubseqTransitive(r, unbooked, all);
    if settings.Some? && 0 <= settings.value.startTimeHour && settings.value.endTimeHour <= 24 {
      TimeSlotsDistinct(settings.value);
      FilterDistinct(all, p);
      var w := WindowHours(settings);
      if Truthy(w) {
        FilterDistinct(unbooked, (s: string) => NotTooSoon(day, s, Cutoff(now, w.n)));
      }
    }
  }

  /** What the time-slot area shows. */
  datatype SlotsView = SlotButtons(slots: seq<string>) | NoSlotsForDay | AllWithinWindow(windowHours: Field)

  /** `availableTimeSlots.length > 0 ? buttons : unbookedSlots.length === 0 ?
      "No available slots for this day." : "All slots are within the N-hour booking window..."`. */
  function SlotsMessage(unbooked: seq<string>, available: seq<string>, windowHours: Field): SlotsView
  {
    if |available| > 0 then SlotButtons(available)
    else if |unbooked| == 0 then NoSlotsForDay
    else AllWithinWindow(windowHours)
  }

  /** The view for a day: buttons exactly when something is offered; "no
      available slots" exactly when every generated slot is booked (or none is
      generated); the booking-window message only when a window is set, so it
      never shows a falsy number of hours. */
  lemma SlotsMessageSpec(settings: Option<BookingSettings>, booked: seq<string>, day: int, now: int)
    requires settings.Some? ==> LoopTerminates(settings.value)
    ensures var unbooked := UnbookedSlots(TimeSlots(settings), booked);
      var available := AvailableSlots(settings, booked, day, now);
      var v := SlotsMessage(unbooked, available, WindowHours(settings));
      && (v.SlotButtons? <==> |available| > 0)
      && (v == NoSlotsForDay <==> |unbooked| == 0)
      && (v.AllWithinWindow? ==> Truthy(v.windowHours) && v.windowHours == WindowHours(settings))
  {
    var unbooked := UnbookedSlots(TimeSlots(settings), booked);
    FilterByBookingWindowSpec(unbooked, settings, day, now);
    var available := AvailableSlots(settings, booked, day, now);
    if |unbooked| == 0 {
      assert |available| <= |unbooked| by {
        SubseqLength(available, unbooked);
      }
    }
  }

  /** The selected time is truthy: set and not the empty string. */
  predicate Selected(selectedTime: Option<string>)
  {
    selectedTime.Some? && selectedTime.value != ""
  }

  datatype NextOutcome = Proceed(dateTime: Instant) | PleaseSelect

  /** `handleNext`: with a selected time, hand the slot's instant on the
      selected day to the next step; otherwise ask for a selection. */
  function HandleNext(day: int, selectedTime: Option<string>): NextOutcome
  {
    if Selected(selectedTime) then Proceed(SlotDateTime(day, selectedTime.value)) else PleaseSelect
  }

  /** Continuing needs a selection, and a generated label continues with the
      exact instant of its minute on the selected day. */
  lemma HandleNextSpec(day: int, selectedTime: Option<string>, t: int)
    ensures HandleNext(day, selectedTime).Proceed? <==> Selected(selectedTime)
    ensures 0 <= t < 24 * 60 && selectedTime == Some(FormatSlot(t)) ==>
      HandleNext(day, selectedTime) == Proceed(At(day + t * MsPerMinute))
  {
    if 0 <= t < 24 * 60 && selectedTime == Some(FormatSlot(t)) {
      FormatSlotShape(t);
      SlotDateTimeOfLabel(day, t);
    }
  }

  /** The step's state: the selected day, the selected slot and the booked
      slots fetched for that day. */
  class DateTimeSelection {
    var selectedDate: int
    var selectedTime: Option<string>
    var bookedSlots: seq<string>

    /** Today selected, no time selected, nothing booked yet. */
    constructor (today: int)
      ensures selectedDate == today && selectedTime == None && bookedSlots == []
    {
      selectedDate := today;
      selectedTime := None;
      bookedSlots := [];
    }

    /** A new date from the picker, once its booked slots have arrived: the
        booked list is replaced and the time selection is reset. */
    method ChangeDate(day: int, booked: seq<string>)
      modifies this
      ensures selectedDate == day && bookedSlots == booked && selectedTime == None
    {
      selectedDate := day;
      bookedSlots := booked;
      selectedTime := None;
    }

    /** A click on a slot button. */
    method SelectTime(slot: string)
      modifies this
      ensures selectedTime == Some(slot)
      ensures selectedDate == old(selectedDate) && bookedSlots == old(bookedSlots)
    {
      selectedTime := Some(slot);
    }

    /** The "Continue" button is enabled (`disabled={!selectedTime}`). */
    predicate ContinueEnabled()
      reads this
    {
      Selected(selectedTime)
    }

    /** `handleNext` on the current state. */
    function Next(): NextOutcome
      reads this
    {
      HandleNext(selectedDate, selectedTime)
    }
  }
}
