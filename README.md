# Salon storefront booking logic, verified in Dafny

This project models the self-contained logic of a beauty salon's React
storefront and proves properties of it:

- **Time-slot selection** (`SelectDateTime.jsx`). The `"HH:MM"` slots of the
  business day come from a stepping loop over the opening hour, closing hour
  and slot interval. Booked slots are removed next. Then the slots inside the
  minimum-advance-notice window (`now + BookingWindowHours`) are removed. The
  screen shows a message when nothing is left, and one state field holds the
  selected time read back by `handleNext`.
- **The cart** (`CartContext.jsx`). A list of services keyed by `documentId`.
  It supports add without duplicates, remove, clear and count. It has the price,
  deposit and duration folds, and the "at most one main service" guard
  `canAddService`.
- **"Main services first, add-ons last"**. The same comparator sorts a copy of
  the cart (`CartPage.jsx`), a copy of the booked services (`EnterDetails.jsx`)
  and, in place, the fetched service list (`ServicesPage.jsx`). Under a stable
  sort this is a stable partition.
- **The booking details step** (`EnterDetails.jsx`). It covers the totals, the
  form check, the deposit in kobo, the policy-modal branch and the "Pending"
  appointment record.
- **The wizard** (`BookingPage.jsx`). A step counter with merged details,
  the step-to-screen mapping and the progress markers.

Modules follow the source files. `JsValues` holds the JavaScript value rules
the code relies on: a numeric field may be `undefined`, `null` or a number,
and `0`, `null`, `undefined` and `""` are falsy. `Seqs` stands for `filter`,
`reduce` and order preservation. `Services` holds the service record and the
shared price, deposit and duration fallbacks
(`OnSalesPrice || Price || 0`, `Deposit || 0`, `Duration || 0`). `Ordering`
holds the comparator and its stable partition `MainFirst`. `SlotFormat` holds
the `"HH:MM"` rendering and parsing. Then `SelectDateTime`, `CartContext`,
`CartPage`, `EnterDetails`, `ServicesPage` and `BookingPage` follow the source
files of the same names.

State the source updates in place becomes a class:

- `CartContext.Cart` holds a `seq` field.
- `SelectDateTime.DateTimeSelection` holds the selected date and time and the
  booked slots.
- `BookingPage.BookingWizard` holds the step and the details map.

The in-place `sort` of the services page is an array method. The slot loop is
a method with a `while` loop. Everything else is functions and lemmas.

Time is whole milliseconds on one local clock. A selected calendar day is
given by the instant of its local midnight, and a slot is a minute counted
from that midnight. JavaScript `Date` rolls hours past 23 and negative minutes
over into the neighbouring day. Dafny's Euclidean `/` and `%` by 60 and 24 do
the same.

The slot selection step has no per-slot status: it filters the generated
slots twice, first the booked ones and then the ones too soon. It uses the
device clock rather than a fixed venue timezone offset, and it raises no error
for bad settings. The model does the same.

In the source, `BookingPage.jsx:47-53` passes `service` (singular) to
`EnterDetails`. `EnterDetails` reads `services` and `bookingPolicy` instead.
The model treats `EnterDetails` on its own props. As wired, `services` is
`undefined`, so `[...services]` at `EnterDetails.jsx:54` throws a `TypeError`
and step 2 cannot render. In the wired app the step-2 `onNext`, which
`BookingPage.Offered` allows, is therefore never reached.

## Model

| member | source | states |
|---|---|---|
| `SelectDateTime.GenerateTimeSlots` | src/components/BookingSteps/SelectDateTime.jsx:49-72 | The loop returns exactly `TimeSlots(settings)`: no slots without settings, otherwise the labels of Start:00 plus k intervals for every k that stays before End:00 |
| `SelectDateTime.SlotCountSpec` | src/components/BookingSteps/SelectDateTime.jsx:56-69 | The slot count ceil((End-Start)*60/Interval) is exactly the number of steps k with Start*60 + k*Interval < End*60 |
| `SelectDateTime.SlotMinutesSpec` | src/components/BookingSteps/SelectDateTime.jsx:56-71 | Slot k is Start*60 + k*Interval; the first is Start:00; all are before End:00; they strictly increase; the next step after the last reaches End:00; with Start >= End there are none |
| `SelectDateTime.TimeSlotsDistinct` | src/components/BookingSteps/SelectDateTime.jsx:62-69 | With business hours inside one day, no label is generated twice |
| `SelectDateTime.NextSlot` | src/components/BookingSteps/SelectDateTime.jsx:62-68 | While the current time is before End:00, its label is the next one of `TimeSlots`, and adding the interval gives the next round's time |
| `SlotFormat.FormatSlotShape` | src/components/BookingSteps/SelectDateTime.jsx:63-65 | Every label is two zero-padded hour digits, `:`, two zero-padded minute digits, spelling the hour of the day and the minute of the hour |
| `SlotFormat.ParseFormatSlot` | src/components/BookingSteps/SelectDateTime.jsx:39-41 | Splitting a label at `:` and `parseInt`-ing both parts recovers the hour and minute it was rendered from |
| `SlotFormat.FormatSlotInjective` | src/components/BookingSteps/SelectDateTime.jsx:63-65 | Two minutes of the same day with the same label are equal |
| `SlotFormat.SplitAtSeparator` | src/components/BookingSteps/SelectDateTime.jsx:39 | `split(":")` of `a:b` with no colon in `a` or `b` is `[a, b]` |
| `SlotFormat.ParsePad2` | src/components/BookingSteps/SelectDateTime.jsx:41 | `parseInt` of a two-digit rendering of n < 100 is n |
| `SelectDateTime.SlotDateTimeOfLabel` | src/components/BookingSteps/SelectDateTime.jsx:85-87 | The selected day with `setHours` to a slot label's hour and minute is the instant of that minute on that day |
| `SelectDateTime.FilterByBookingWindowSpec` | src/components/BookingSteps/SelectDateTime.jsx:75-92 | With a falsy `BookingWindowHours` the slots come back unchanged; otherwise exactly the slots at or after now + window hours are kept, and the result is a subsequence of the input |
| `SelectDateTime.AvailableSlotsSpec` | src/components/BookingSteps/SelectDateTime.jsx:102-111 | A label is offered iff it is generated, not in `bookedSlots`, and (with a window) not too soon; the offered labels keep generation order and, within one day, are distinct |
| `SelectDateTime.SlotsMessageSpec` | src/components/BookingSteps/SelectDateTime.jsx:141-157 | Buttons iff some slot is offered; "No available slots" iff no unbooked slot exists; the booking-window message only with a truthy window, whose hours it shows |
| `SelectDateTime.HandleNextSpec` | src/components/BookingSteps/SelectDateTime.jsx:37-46 | `handleNext` proceeds iff a time is selected, and for a generated label it hands on the exact instant of that minute on the selected day |
| `SelectDateTime.DateTimeSelection.constructor` | src/components/BookingSteps/SelectDateTime.jsx:8-13 | The step starts on today with no time selected and no booked slots |
| `SelectDateTime.DateTimeSelection.ChangeDate` | src/components/BookingSteps/SelectDateTime.jsx:28-35 | A date change installs the new day's booked slots and resets the selected time to none |
| `SelectDateTime.DateTimeSelection.SelectTime` | src/components/BookingSteps/SelectDateTime.jsx:146 | Clicking a slot selects it and changes nothing else |
| `CartContext.Added` | src/context/CartContext.jsx:17-24 | A duplicate `documentId` leaves the cart unchanged; otherwise the service is appended behind the unchanged existing items; the id is present afterwards and uniqueness of ids is kept |
| `CartContext.Cart.AddToCart` | src/context/CartContext.jsx:17-24 | The cart becomes `Added(old cart, s)`; the "already in your cart" alert is raised exactly when the id was present; unique ids are kept |
| `CartContext.RemovedSpec` | src/context/CartContext.jsx:26-28 | After removal no item has the id, an item survives iff it was there with another id, survivors keep their order, and unique ids stay unique |
| `CartContext.Cart.RemoveFromCart` | src/context/CartContext.jsx:26-28 | The cart becomes `Removed(old cart, id)` and keeps unique ids |
| `CartContext.Cart.ClearCart` | src/context/CartContext.jsx:30-32 | The cart becomes empty |
| `CartContext.Cart.constructor` | src/context/CartContext.jsx:15 | The cart starts empty |
| `CartContext.CanAddServiceSpec` | src/context/CartContext.jsx:53-64 | `canAddService(s)` is false iff `s` is a main service and the cart already holds a main service; add-ons are always allowed |
| `CartContext.GuardedAddKeepsOneMain` | src/context/CartContext.jsx:53-64 | Adding only what `canAddService` allows keeps at most one main service in the cart |
| `CartContext.AddedTotals` | src/context/CartContext.jsx:34-51 | Adding a new service raises the cart total by its `OnSalesPrice \|\| Price \|\| 0` and the duration by its `Duration \|\| 0` |
| `Services.RawDepositSumAgrees` | src/context/CartContext.jsx:41-45 | `getCartDeposit` is NaN iff some item has no `Deposit` field, and otherwise equals the sum of `Deposit \|\| 0` |
| `Services.TotalPriceNonNegative` | src/context/CartContext.jsx:34-39 | With no negative price field the cart total is never negative |
| `Services.ItemPrice` | src/pages/CartPage/CartPage.jsx:73 | The price shown is a truthy sale price if any, else a truthy list price, else 0, and never negative for non-negative fields |
| `Ordering.MainFirstSpec` | src/pages/CartPage/CartPage.jsx:60-64 | The sorted copy has the same length and multiset as the cart, is ordered by the comparator (every main service before every add-on), and keeps the relative order within each kind |
| `Ordering.StableSortIsMainFirst` | src/components/BookingSteps/EnterDetails.jsx:54-58 | Any result that is ordered by the comparator and stable is exactly `MainFirst(services)`, so the stable `sort` of a copy yields it |
| `Ordering.CompareIsConsistent` | src/pages/ServicesPage/ServicesPage.jsx:21-23 | The comparator is antisymmetric and transitive, and returns 0 exactly on pairs of the same kind |
| `Ordering.MainFirstIdempotent` | src/pages/ServicesPage/ServicesPage.jsx:18-24 | Sorting an already ordered list leaves it unchanged, and sorting twice equals sorting once |
| `ServicesPage.SortServices` | src/pages/ServicesPage/ServicesPage.jsx:18-24 | The in-place sort leaves the array holding `MainFirst` of its old contents |
| `ServicesPage.SiftLeft` | src/pages/ServicesPage/ServicesPage.jsx:21-23 | One insertion moves an element left exactly past the add-ons the comparator puts after it, shifting them right and touching nothing else |
| `CartPage.SuggestedAddOnsSpec` | src/pages/CartPage/CartPage.jsx:29-33 | A fetched service is suggested iff it is an add-on whose id is not in the cart; suggestions keep the fetched order |
| `CartPage.SuggestionAfterAdd` | src/pages/CartPage/CartPage.jsx:24-37 | After `addToCart` of a suggestion (`CartContext.Added`), the suggestions are the previous ones minus that id |
| `Ordering.MainFirstKeepsTotals` | src/components/BookingSteps/EnterDetails.jsx:60-64 | The total price and deposit (`Deposit \|\| 0`) of the sorted summary list equal those of the services they are computed from |
| `EnterDetails.FormValiditySpec` | src/components/BookingSteps/EnterDetails.jsx:68 | The form is valid iff full name, email and phone are non-empty; the staff choice does not matter; the initial form is invalid, so the proceed button (`disabled` at line 289) starts disabled, and it is disabled while processing |
| `EnterDetails.KoboAmount` | src/components/BookingSteps/EnterDetails.jsx:74 | The payment amount is exactly 100 times the whole-naira deposit and never below it |
| `EnterDetails.Ceil` | src/components/BookingSteps/EnterDetails.jsx:74 | `Math.ceil(x)` is the least integer not below x |
| `EnterDetails.HandleProceedClick` | src/components/BookingSteps/EnterDetails.jsx:176-184 | Booking starts directly iff the policy says `ShowBeforePayment` is exactly `false`; a missing policy or field opens the modal |
| `EnterDetails.AppointmentData` | src/components/BookingSteps/EnterDetails.jsx:142-151 | Status "Pending"; client fields from the form; `TotalAmount` is the total price (the same for the sorted list); `booked_services` are the ids in input order; an empty staff choice becomes null |
| `BookingPage.BookingWizard.constructor` | src/pages/BookingPage/BookingPage.jsx:15-17 | The wizard starts at step 1 with empty details |
| `BookingPage.BookingWizard.HandleNextStep` | src/pages/BookingPage/BookingPage.jsx:29-32 | The step goes up by exactly one and the details become the merge of the old details with the data |
| `BookingPage.Merge` | src/pages/BookingPage/BookingPage.jsx:30 | The merged keys are the union; keys in the data take the data's values; all other keys keep their old values |
| `BookingPage.BookingWizard.HandlePrevStep` | src/pages/BookingPage/BookingPage.jsx:34-36 | The step goes down by exactly one and the details are unchanged |
| `BookingPage.RenderStep` | src/pages/BookingPage/BookingPage.jsx:42-65 | Exactly step 1 maps to date/time, exactly step 2 to details, exactly step 3 to confirmation, and exactly the other steps to "Unknown Step" |
| `BookingPage.ProgressMarkersSpec` | src/pages/BookingPage/BookingPage.jsx:72-82 | On every step reachable from step 1 through the offered callbacks, "Select Time" is active, "Details" is active iff the date/time screen is gone, and "Confirm" is active iff the confirmation screen shows |
| `BookingPage.WizardStaysInRange` | src/pages/BookingPage/BookingPage.jsx:29-65 | Calling only the callbacks each screen is given keeps the step within 1 to 3, so "Unknown Step" never shows, and no handed-on detail key is lost |

## Left out

- `src/api/strapi.js` is not part of this model. Its HTTP calls and their fall-backs to `null` or `[]` become inputs: the settings (`None` when absent), the booked slots and the fetched services.
- The React effect order and the stale response when the date changes quickly are not modelled, because they are asynchronous. `DateTimeSelection.ChangeDate` stands for a date change together with the arrival of that date's booked slots.
- The Paystack flow (`usePaystackPayment`, `onPaystackSuccess`, `onPaystackClose`, `handleBookingProcess`) is not modelled: it is asynchronous callbacks around a third-party SDK and remote calls. Only the amount, the proceed branch and the appointment record are modelled.
- `handleInputChange` and the staff list fetch in `EnterDetails.jsx` are form plumbing and are not modelled.
- Floating-point money and `toLocaleString` are not modelled. Money is whole naira (integers). `Math.ceil` is modelled on exact reals.
- Fractional `BookingWindowHours` and fractional settings are not modelled: they are integers here.
- `JsValues.Field` models a numeric field as absent, null or an integer. Non-numeric values such as strings are not modelled.
- Device time zones and daylight-saving changes are not modelled. All instants are on one local clock in milliseconds, and `now` and the selected day are inputs. The ISO rendering of the appointment time is not modelled.
- `SelectDateTime.GenerateTimeSlots`: requires that the loop terminates (`SlotIntervalMinutes > 0` or `StartTimeHour >= EndTimeHour`). With a non-positive interval and an open window, the source loops forever, which a terminating model cannot express.
- `SlotFormat.ParseInt`: models `parseInt` only as reading the leading decimal digits, with NaN when there are none. Leading spaces, signs and `0x` prefixes are not modelled, because slot labels never contain them.
- `ServicesPage.SortServices`: the engine's sort algorithm is not modelled. The method is an insertion sort with the same comparator. `Ordering.StableSortIsMainFirst` shows that every stable sort with this comparator gives the same result.
- `SelectDateTime.DateTimeSelection.SelectTime`: does not require the slot to be one of the offered buttons. In the source only offered buttons call it.
- `CartContext.Cart.AddToCart`: the alert is modelled as the returned `duplicate` flag. Two adds against the same stale `cart` closure within one render are not modelled.
- The `cartCount`, `getCartTotal`, `getCartDeposit`, `getTotalDuration` and `canAddService` members of `CartContext.Cart` only read the cart. They return `|items|`, `TotalPrice`, `RawDepositSum`, `TotalDuration` and `CanAddService` of it, whose properties are in the Model table.
- Rendering-only pages and components (Homepage, Academy, About, Contact, Policy, Footer, Header, modals, HeroSlider, Confirmation, CartIcon, ServiceCard, routing) are not modelled. So is the suggestion card's price, which has no `|| 0` default.
