/** The details step of the booking wizard: the client form, the deposit
    amount handed to the payment widget, the policy-modal branch and the
    appointment record created before payment. */
module EnterDetails {
  import opened JsValues
  import opened Services
  import opened Ordering

  /** The controlled form; every input starts empty. */
  datatype FormData = FormData(fullName: string, email: string, phone: string, selectedStaff: string)

  const InitialForm := FormData("", "", "", "")

  /** `formData.fullName && formData.email && formData.phone`, read as a boolean. */
  predicate IsFormValid(f: FormData)
  {
    NonEmpty(f.fullName) && NonEmpty(f.email) && NonEmpty(f.phone)
  }

  /** The form is valid exactly when name, email and phone are all filled in;
      the optional technician choice plays no part, and the empty initial form
      is not valid. So the proceed button starts disabled, and stays disabled
      while a booking is being processed. */
  lemma FormValiditySpec(f: FormData, staff: string, isProcessing: bool)
    ensures IsFormValid(f) <==> f.fullName != "" && f.email != "" && f.phone != ""
    ensures IsFormValid(f.(selectedStaff := staff)) == IsFormValid(f)
    ensures !IsFormValid(InitialForm)
    ensures !ProceedEnabled(InitialForm, isProcessing) && !ProceedEnabled(f, true)
  {
  }

  /** The "PROCEED TO PAYMENT" button is enabled (`disabled={!isFormValid || isProcessing}`). */
  predicate ProceedEnabled(f: FormData, isProcessing: bool)
  {
    IsFormValid(f) && !isProcessing
  }

  /** `Math.ceil` on an exact number. */
  function Ceil(x: real): (c: int)
    ensures x <= c as real < x + 1.0
  {
    -((-x).Floor)
  }

  /** `Math.ceil(totalDeposit * 100)`: the deposit in kobo. For a whole-naira
      deposit it is exactly one hundred times the deposit, never less than it. */
  function KoboAmount(totalDeposit: int): (k: int)
    ensures k == 100 * totalDeposit
    ensures totalDeposit >= 0 ==> k >= totalDeposit
  {
    Ceil(totalDeposit as real * 100.0)
  }

  /** The booking policy; `showBeforePayment` is `None` when the field is null
      or absent. */
  datatype BookingPolicy = BookingPolicy(policyContent: string, showBeforePayment: Option<bool>)

  datatype ProceedAction = ShowPolicyModal | StartBooking

  /** `handleProceedClick`: `bookingPolicy?.ShowBeforePayment !== false` opens
      the policy modal; only an explicit `false` goes straight to booking. */
  function HandleProceedClick(policy: Option<BookingPolicy>): (a: ProceedAction)
    ensures a == StartBooking <==> policy.Some? && policy.value.showBeforePayment == Some(false)
    // a missing policy, or one that does not say, shows the modal
    ensures policy.None? || policy.value.showBeforePayment.None? ==> a == ShowPolicyModal
  {
    if policy.Some? && policy.value.showBeforePayment == Some(false) then StartBooking
    else ShowPolicyModal
  }

  /** The appointment record created as "Pending" before payment. The date-time
      is the instant chosen in the first step (its ISO rendering is not
      modelled). */
  datatype Appointment = Appointment(
    clientName: string,
    clientEmail: string,
    clientPhone: string,
    appointmentDateTime: int,
    bookingStatus: string,
    totalAmount: int,
    bookedServices: seq<string>,
    selectedStaff: Option<string>)

  /** `appointmentData` in `handleBookingProcess`. */
  function AppointmentData(form: FormData, dateTime: int, services: seq<Service>): (a: Appointment)
    ensures a.bookingStatus == "Pending"
    ensures a.clientName == form.fullName && a.clientEmail == form.email && a.clientPhone == form.phone
    ensures a.appointmentDateTime == dateTime
    // the amount recorded is the total price, the same for the sorted summary
    ensures a.totalAmount == TotalPrice(services) == TotalPrice(MainFirst(services))
    // the booked services are the ids in input order, not in display order
    ensures |a.bookedServices| == |services|
    ensures forall i :: 0 <= i < |services| ==> a.bookedServices[i] == services[i].documentId
    // no technician chosen is recorded as null
    ensures a.selectedStaff.None? <==> form.selectedStaff == ""
    ensures a.selectedStaff.Some? ==> a.selectedStaff.value == form.selectedStaff
  {
    MainFirstKeepsTotals(services);
    Appointment(
      form.fullName,
      form.email,
      form.phone,
      dateTime,
      "Pending",
      TotalPrice(services),
      seq(|services|, i requires 0 <= i < |services| => services[i].documentId),
      if form.selectedStaff == "" then None else Some(form.selectedStaff))
  }
}
