# Car-rental booking: a verified model

This project models the booking core of a Spring car-rental service in Dafny.
A customer confirms a booking with a driving-license number, an age, a date
range and a car segment. The service then runs five steps in order:

1. It looks the license up at an external driving-license API.
2. It checks that the license is still valid and at least a year old.
3. It asks an external pricing API for the segment's daily rate.
4. It prices the rental at the rate times the days counted inclusively, rounded half up to cents.
5. It saves one booking row and returns the new id.

A saved booking can be read back by id.

The model covers:

- the request constraints (Bean Validation collects every violation);
- the three validators;
- the lenient `CarSegment.from` parser;
- the entity and its `@PrePersist` stamp;
- the mapper;
- the two HTTP clients' status-to-message mapping and error-body parsing;
- the two stand-in APIs (a rate table and a seeded license table);
- end-to-end runs that wire the stubs' replies into the clients.

Java library behaviour that the code relies on is written out in helper modules:

- `JavaText`: `strip`/`isBlank` versus `trim`, ASCII `toUpperCase`, `indexOf`, `replaceAll` on a character class, `repeat`.
- `Dates`: `LocalDate` in the proleptic Gregorian calendar, with `toEpochDay`, `plusYears` clamping February 29th, and floor-division `plusMonths`.
- `Decimals`: `BigDecimal` as an unscaled integer plus a scale, with `multiply`, `valueOf(long)` and `setScale(2, HALF_UP)`.

Stateful parts are classes:

- `BookingServiceImpl` writes to the repository and keeps a ghost `trace` of the steps it ran.
- `BookingRepository` holds the table's rows and an id counter.
- The `Booking` entity has its id and `createdAt` fields assigned at persist time.
- `DrivingLicenseStubController` holds `LICENSE_DB`, which its static initializer fills with three `put`s.

Everything else is functions and lemmas. `confirmBooking` is a method proved
against the pure function `PlanConfirmation`, which states the step sequence.
The model keeps several of the code's behaviours exactly as written:

- The service asks pricing for `CarSegment.name()`, so an EXTRALARGE booking sends "EXTRALARGE". The pricing stub only knows "EXTRA_LARGE" and rejects it, so that booking fails at the rate step. CarPricingClient's Javadoc (CarPricingClient.java:31) lists the categories as SMALL, MEDIUM, LARGE, EXTRA_LARGE; the model follows the code.
- The license rule compares `expiry − 10 years` with `today − 1 year`. Around February 29th this accepts one day more than a nine-year window.
- A null license number fails inside `Map.of` before any request is sent, so it yields the client's catch-all message.
- `BigDecimal.valueOf(double)` gives 25.0, 45.99, 65.0 and 95.0 for the stub's rates, at scales 1, 2, 1 and 1. The model uses those scales.

## Model

| member | source | states |
|---|---|---|
| CarSegments.Lookup | src/main/java/com/xyz/carrental/booking/domain/CarSegment.java:22-27 | a constant is found exactly for SMALL, MEDIUM, LARGE and the five EXTRALARGE spellings, and it is the one the text names |
| CarSegments.From | src/main/java/com/xyz/carrental/booking/domain/CarSegment.java:21-29 | the stripped, upper-cased input (null read as "") decides the constant; any other input fails with "Unknown car segment: " + the input as given ("null" for null) |
| CarSegments.FromByNormalForm | src/main/java/com/xyz/carrental/booking/domain/CarSegment.java:22 | two inputs with the same normal form get the same answer |
| CarSegments.FromName | src/main/java/com/xyz/carrental/booking/domain/CarSegment.java:6-28 | round trip: `from(c.name()) == c` for all four constants |
| CarSegments.FromIgnoresCase | src/main/java/com/xyz/carrental/booking/domain/CarSegment.java:22 | inputs that upper-case alike normalise alike |
| CarSegments.FromIgnoresPadding | src/main/java/com/xyz/carrental/booking/domain/CarSegment.java:22 | surrounding whitespace never changes the normal form |
| CarSegments.FromAccepts | src/main/java/com/xyz/carrental/booking/domain/CarSegment.java:22-26 | every accepted spelling, in any case and with any whitespace padding, yields its constant |
| CarSegments.FromNormalized | src/main/java/com/xyz/carrental/booking/domain/CarSegment.java:23-26 | an input whose normal form is an accepted spelling yields that spelling's constant |
| CarSegments.FromRejectsShort | src/main/java/com/xyz/carrental/booking/domain/CarSegment.java:27 | null, "" and every input under five characters (such as "XL") fail, quoting the input |
| LicenseValidator.ValidateLicense | src/main/java/com/xyz/carrental/booking/validation/LicenseValidator.java:29-42 | passes exactly when the license and its expiry are present, the expiry is after today and expiry−10y is not after today−1y; every rejection carries the one fixed message |
| LicenseValidator.EligibleYearsAhead | src/main/java/com/xyz/carrental/booking/validation/LicenseValidator.java:35 | an expiry k years from today passes iff 1 ≤ k ≤ 9 (today+5y passes, today+10y fails) |
| LicenseValidator.EligibleWithinNineYears | src/main/java/com/xyz/carrental/booking/validation/LicenseValidator.java:33-35 | away from February 29th the rule is the window (today, today+9y] |
| LicenseValidator.LeapDayExpiryPasses | src/main/java/com/xyz/carrental/booking/validation/LicenseValidator.java:35 | today 2023-02-28: expiry 2032-02-29 passes although it lies after today+9y |
| LicenseValidator.RejectsMissingOrExpired | src/main/java/com/xyz/carrental/booking/validation/LicenseValidator.java:33-34 | a null license, a null expiry, or an expiry on or before today is rejected with the fixed message |
| LicenseValidator.ReadsOnlyExpiry | src/main/java/com/xyz/carrental/booking/validation/LicenseValidator.java:33-35 | licenses with the same expiry get the same decision, whatever their owner, number and issue date |
| BookingDatesValidator.IsValid | src/main/java/com/xyz/carrental/booking/validation/BookingDatesValidator.java:20-25 | valid iff both dates are present, start's epoch day ≤ end's, and they are fewer than 30 days apart |
| BookingDatesValidator.DurationExamples | src/main/java/com/xyz/carrental/booking/validation/BookingDatesValidator.java:23-24 | start == end (one day) and 30 inclusive days are valid; 31 days and a reversed range are not |
| BookingDatesValidator.ValidMeansOrderedWithinThirty | src/main/java/com/xyz/carrental/booking/validation/BookingDatesValidator.java:22-24 | valid iff end is not before start and daysBetween ≤ 29 |
| Dates.EpochDayOrder | src/main/java/com/xyz/carrental/booking/validation/BookingDatesValidator.java:22-23 | `isBefore` and equality of dates are exactly the order and equality of their epoch days |
| Dates.PlusYears | src/main/java/com/xyz/carrental/booking/validation/LicenseValidator.java:35 | same month, year moved by n, the day kept except February 29th becoming the 28th in a common year |
| LicenseNumberValidator.MatchesClass | src/main/java/com/xyz/carrental/booking/validation/LicenseNumberValidator.java:15 | true iff every character is in `[A-Za-z0-9_-]` |
| LicenseNumberValidator.IsValid | src/main/java/com/xyz/carrental/booking/validation/LicenseNumberValidator.java:13-16 | valid iff not null, length 5 to 20, and every character in the class |
| LicenseNumberValidator.OneBadCharRejects | src/main/java/com/xyz/carrental/booking/validation/LicenseNumberValidator.java:15 | one character outside the class anywhere rejects the whole value |
| LicenseNumberValidator.AcceptedExamples | src/main/java/com/xyz/carrental/booking/validation/LicenseNumberValidator.java:15 | "DL123456789" and "AB-_9" are accepted |
| LicenseNumberValidator.RejectedExamples | src/main/java/com/xyz/carrental/booking/validation/LicenseNumberValidator.java:14-15 | lengths 4 and 21, a space, a '.' and null are rejected |
| ConfirmBookingRequests.FormattedIsNotBlank | src/main/java/com/xyz/carrental/booking/dto/ConfirmBookingRequest.java:23-24 | a number that passes the format rule is never blank |
| ConfirmBookingRequests.BlankViolatesBoth | src/main/java/com/xyz/carrental/booking/dto/ConfirmBookingRequest.java:23-24 | a blank or null number is reported as required and as badly formatted |
| ConfirmBookingRequests.MissingDateReportedTwice | src/main/java/com/xyz/carrental/booking/dto/ConfirmBookingRequest.java:21-31 | a null date gives its field error and the class-level duration error |
| ConfirmBookingRequests.AcceptedIff | src/main/java/com/xyz/carrental/booking/dto/ConfirmBookingRequest.java:21-33 | no violation iff the number is well formed, age ≥ 18, a segment is given and the date rule holds |
| ConfirmBookingRequests.Violations | src/main/java/com/xyz/carrental/booking/dto/ConfirmBookingRequest.java:21-33 | every reported violation is one of the seven declared constraints with its declared message |
| ConfirmBookingRequests.EachConstraintReported | src/main/java/com/xyz/carrental/booking/dto/ConfirmBookingRequest.java:21-33 | each of the seven violations is reported exactly when its constraint is broken: blank number, badly formatted number, age under 18, missing start, missing end, missing segment, date rule |
| Entity.ColumnViolation | src/main/java/com/xyz/carrental/booking/entity/Booking.java:28-51 | no violation iff the six non-null columns are set and a price fits numeric(10, 2); otherwise a declared column name |
| Entity.Booking.constructor | src/main/java/com/xyz/carrental/booking/entity/Booking.java:20-51 | the all-arguments constructor holds exactly the given values |
| Entity.Booking.OnCreate | src/main/java/com/xyz/carrental/booking/entity/Booking.java:53-56 | stamps `createdAt` with the given time and changes nothing else |
| BookingMapper.MappedRow | src/main/java/com/xyz/carrental/booking/mapper/BookingMapper.java:14-20 | the owner becomes the customer and the price the rental price; no id and no createdAt; the other five fields copied from the request |
| BookingMapper.ToBooking | src/main/java/com/xyz/carrental/booking/mapper/BookingMapper.java:14-20 | a new entity holding the mapped row |
| BookingMapper.ResponseOf | src/main/java/com/xyz/carrental/booking/mapper/BookingMapper.java:25-26 | bookingId is the id; the seven booking fields are copied |
| BookingMapper.ToResponse | src/main/java/com/xyz/carrental/booking/mapper/BookingMapper.java:25-26 | an entity's response is the response of its current row |
| BookingMapper.MappedRoundTrip | src/main/java/com/xyz/carrental/booking/mapper/BookingMapper.java:14-26 | a mapped booking saved with id i reports i, the request's fields, the owner and the price |
| BookingMapper.ResponseHidesCreatedAt | src/main/java/com/xyz/carrental/booking/mapper/BookingMapper.java:25-26 | the creation time never reaches the response |
| BookingStore.BookingRepository.Save | src/main/java/com/xyz/carrental/booking/entity/Booking.java:24-56 | on both paths the entity is stamped with `now` and given the next generated id, which is never handed out again; if its row meets every column constraint it is stored under that id, otherwise the constraint failure is returned and the table is unchanged; the table invariant is kept |
| BookingStore.BookingRepository.FindById | src/main/java/com/xyz/carrental/booking/service/BookingServiceImpl.java:81 | a row is found iff its id is stored, and a stored row carries its own id |
| BookingService.TotalPrice | src/main/java/com/xyz/carrental/booking/service/BookingServiceImpl.java:60-61 | the total has scale 2 and is rate × (daysBetween + 1) rounded HALF_UP |
| Decimals.SetScaleHalfUp | src/main/java/com/xyz/carrental/booking/service/BookingServiceImpl.java:61 | the result has the requested scale and lies within half a unit of the value, ties away from zero, same sign |
| BookingService.TotalPriceExact | src/main/java/com/xyz/carrental/booking/service/BookingServiceImpl.java:60-61 | a rate with at most two decimals is priced exactly, without rounding |
| BookingService.TotalPriceNonNegative | src/main/java/com/xyz/carrental/booking/service/BookingServiceImpl.java:60-61 | dates in order and a non-negative rate give a non-negative total |
| BookingService.TotalPriceExample | src/main/java/com/xyz/carrental/booking/service/BookingServiceImpl.java:60-61 | 45.99 a day from 2025-11-07 to 2025-11-11 costs 229.95 |
| BookingService.TotalPriceRoundsHalfUp | src/main/java/com/xyz/carrental/booking/service/BookingServiceImpl.java:61 | a rate of 0.125 for one day is charged 0.13 |
| BookingService.TotalFitsPriceColumn | src/main/java/com/xyz/carrental/booking/entity/Booking.java:47 | a rate of at most 1,000,000.00 over a range the date rule accepts always fits the numeric(10, 2) price column |
| BookingService.PlanConfirmation | src/main/java/com/xyz/carrental/booking/service/BookingServiceImpl.java:52-61 | the steps run are a prefix of license lookup, check, rate lookup, price; a failed lookup stops after one step and a rejected license after two, so pricing is never asked; all four run iff the booking is to be saved; a found license that passes the check plus a found rate always leads to saving for the license owner at the computed total |
| BookingService.StopsAtRate | src/main/java/com/xyz/carrental/booking/service/BookingServiceImpl.java:57 | a found, valid license followed by a failed rate lookup stops after three steps with the pricing client's failure |
| BookingService.BookingServiceImpl.RunSteps | src/main/java/com/xyz/carrental/booking/service/BookingServiceImpl.java:52-61 | runs the steps of `PlanConfirmation` and records exactly those steps, in order |
| BookingService.BookingServiceImpl.ConfirmBooking | src/main/java/com/xyz/carrental/booking/service/BookingServiceImpl.java:49-68 | a failure before the save is returned and leaves the table unchanged; otherwise there is exactly one save, and the new id is returned and reads back the request's fields, the owner and the total; a row breaking a column constraint leaves the table unchanged and uses up the generated id |
| BookingService.BookingServiceImpl.GetBookingDetails | src/main/java/com/xyz/carrental/booking/service/BookingServiceImpl.java:78-85 | succeeds iff the id is stored, with the stored row's response carrying that id; otherwise "Car Rental Booking details not found: " + the id; reads the table only |
| HttpExchange.ParseErrorMessage | src/main/java/com/xyz/carrental/booking/client/DrivingLicenseClient.java:57-72 | falls back to the exception's message unless the body mentions "error" and its first ':' is not its first character; otherwise returns text with no quote or brace and no blank end |
| HttpExchange.CleanMessage | src/main/java/com/xyz/carrental/booking/client/CarPricingClient.java:66 | deleting `"{}` and trimming leaves text with no quote or brace and no blank end |
| HttpExchange.ParsesErrorBody | src/main/java/com/xyz/carrental/booking/client/DrivingLicenseClient.java:59-65 | the message of an `{"error":"…"}` body comes back unchanged when it has no quote or brace and no blank end |
| HttpExchange.ErrorBodyShape | src/main/java/com/xyz/carrental/booking/stub/PricingStubController.java:44-45 | an error body mentions "error" and its first ':' is the one after the key |
| DrivingLicenseClient.MaskLicense | src/main/java/com/xyz/carrental/booking/client/DrivingLicenseClient.java:78-82 | "****" for null or fewer than 4 characters; otherwise the same length, the first two and last two characters kept, '*' in between |
| DrivingLicenseClient.MaskHidesMiddle | src/main/java/com/xyz/carrental/booking/client/DrivingLicenseClient.java:80-81 | the mask depends only on the length and the two characters at each end |
| DrivingLicenseClient.MaskExamples | src/main/java/com/xyz/carrental/booking/client/DrivingLicenseClient.java:76-81 | DL123456789 becomes DL*******89, a four-character number is shown whole, three characters give "****" |
| DrivingLicenseClient.GetLicenseDetails | src/main/java/com/xyz/carrental/booking/client/DrivingLicenseClient.java:24-55 | the decoded body on success; 404 gives "Driving license not found: " + the number, 400 the parsed message, any other status "Driving License API error: " + it; a null number or a failed call gives "Failed to call Driving License API" |
| DrivingLicenseClient.BadRequestMessageReadBack | src/main/java/com/xyz/carrental/booking/client/DrivingLicenseClient.java:43-45 | a 400 carrying an error object yields that object's message unchanged |
| CarPricingClient.GetRateForCategory | src/main/java/com/xyz/carrental/booking/client/CarPricingClient.java:34-55 | the decoded rate on success; 400 gives the parsed message, any other status (404 included) "Car Pricing API error: " + it, a failed call "Failed to call Car Pricing API" |
| CarPricingClient.BadRequestMessageReadBack | src/main/java/com/xyz/carrental/booking/client/CarPricingClient.java:46-47 | a 400 carrying an error object yields that object's message unchanged |
| PricingStub.RateFor | src/main/java/com/xyz/carrental/booking/stub/PricingStubController.java:38-47 | a rate exists exactly for SMALL, MEDIUM, LARGE and EXTRA_LARGE, and every rate is positive |
| PricingStub.GetRentalRate | src/main/java/com/xyz/carrental/booking/stub/PricingStubController.java:20-54 | checks in order: missing body or key gives 400 "category is required"; null or blank gives 400 "category cannot be blank"; unknown gives 400 "Invalid car category"; otherwise the normalised category with its positive rate |
| PricingStub.LooksUpNormalForm | src/main/java/com/xyz/carrental/booking/stub/PricingStubController.java:34-47 | a category that is not blank is answered by the table entry for its trimmed, upper-cased form |
| PricingStub.PaddingTrimmed | src/main/java/com/xyz/carrental/booking/stub/PricingStubController.java:34 | characters up to U+0020 around a word are trimmed away before upper-casing |
| PricingStub.PricesPaddedCategory | src/main/java/com/xyz/carrental/booking/stub/PricingStubController.java:34-53 | a known category in any case and padding is priced, echoed upper-cased |
| PricingStub.PricesMedium | src/main/java/com/xyz/carrental/booking/stub/PricingStubController.java:40 | " medium " (any padding) is priced at 45.99 as "MEDIUM" |
| PricingStub.RejectsExtraLargeName | src/main/java/com/xyz/carrental/booking/stub/PricingStubController.java:43-45 | "EXTRALARGE" gets 400 "Invalid car category" |
| PricingStub.RateTable | src/main/java/com/xyz/carrental/booking/stub/PricingStubController.java:38-53 | SMALL, MEDIUM, LARGE and EXTRA_LARGE are priced at 25.0, 45.99, 65.0 and 95.0 |
| PricingStub.PricesKey | src/main/java/com/xyz/carrental/booking/stub/PricingStubController.java:38-53 | each table key sent as written is priced at its rate |
| DrivingLicenseStub.SeedDb | src/main/java/com/xyz/carrental/booking/stub/DrivingLicenseStubController.java:23-41 | the table holds exactly the three seeded numbers; on the load day the first two expire later and the third has already expired |
| DrivingLicenseStub.DrivingLicenseStubController.constructor | src/main/java/com/xyz/carrental/booking/stub/DrivingLicenseStubController.java:23-41 | three puts into an empty table give the seed table of the load day |
| DrivingLicenseStub.DrivingLicenseStubController.Put | src/main/java/com/xyz/carrental/booking/stub/DrivingLicenseStubController.java:25 | the table gains or replaces one entry |
| DrivingLicenseStub.DrivingLicenseStubController.GetLicenseDetails | src/main/java/com/xyz/carrental/booking/stub/DrivingLicenseStubController.java:43-71 | checks in order: blank, unknown, expired before today; the first failing check decides; otherwise the owner and expiry |
| DrivingLicenseStub.ExpiryTodayIsReturned | src/main/java/com/xyz/carrental/booking/stub/DrivingLicenseStubController.java:60-64 | a license that expires today is still returned |
| DrivingLicenseStub.SeedsOnLoadDay | src/main/java/com/xyz/carrental/booking/stub/DrivingLicenseStubController.java:25-40 | on the load day the first two seeds are returned and the third is refused as expired |
| DrivingLicenseStub.UnknownAndBlank | src/main/java/com/xyz/carrental/booking/stub/DrivingLicenseStubController.java:48-58 | an unknown number gets 404; a blank or missing one gets 400 before the table is consulted |
| Scenarios.LicenseOverWire | src/main/java/com/xyz/carrental/booking/stub/DrivingLicenseStubController.java:67-70 | an OK reply reaches the client carrying the stub's owner and expiry date, with no number and no issue date; an error reply arrives as its status and error body |
| Scenarios.RateOverWire | src/main/java/com/xyz/carrental/booking/stub/PricingStubController.java:50-53 | an OK reply reaches the client as the rate; an error reply arrives as its status and error body |
| Scenarios.JohnDoeLicensePasses | src/main/java/com/xyz/carrental/booking/stub/DrivingLicenseStubController.java:25-28 | DL123456789 reaches the service as John Doe's license and passes the license check |
| Scenarios.MediumForFiveDays | src/main/java/com/xyz/carrental/booking/service/BookingServiceImpl.java:52-61 | DL123456789 booking MEDIUM from 2025-11-07 to 2025-11-11 runs all four steps and is saved for John Doe at 229.95 |
| Scenarios.TenYearLicenseRejected | src/main/java/com/xyz/carrental/booking/stub/DrivingLicenseStubController.java:31-34 | DL456789123 is served by the stub but rejected by the license check; pricing is never asked |
| Scenarios.SeededLicenseLapses | src/main/java/com/xyz/carrental/booking/stub/DrivingLicenseStubController.java:25-28 | two years after loading, DL123456789 is still returned by the stub on its expiry day, but the license check rejects it after two steps |
| Scenarios.StubMessagesArePlain | src/main/java/com/xyz/carrental/booking/stub/DrivingLicenseStubController.java:63 | the stubs' expiry and category messages survive the error-body parser |
| Scenarios.ExpiredLicenseRejected | src/main/java/com/xyz/carrental/booking/stub/DrivingLicenseStubController.java:60-64 | DL999888777 fails after one step with "Invalid Input/ Driving license expired" |
| Scenarios.UnknownLicense | src/main/java/com/xyz/carrental/booking/client/DrivingLicenseClient.java:40-42 | an unknown number fails after one step with "Driving license not found: " + the number |
| Scenarios.ExtraLargeRateFails | src/main/java/com/xyz/carrental/booking/stub/PricingStubController.java:43-45 | pricing "EXTRALARGE" fails with "Invalid car category" |
| Scenarios.ExtraLargeStopsAtRate | src/main/java/com/xyz/carrental/booking/service/BookingServiceImpl.java:57 | whatever license service is used, once DL123456789 passes the license check an EXTRALARGE booking fails with "Invalid car category" after three steps |
| Scenarios.ExtraLargeNotPriced | src/main/java/com/xyz/carrental/booking/service/BookingServiceImpl.java:57 | an EXTRALARGE booking with a valid license fails at the rate lookup, after three steps |

## Left out

- The HTTP calls are parameters of the model. Each client takes a function from the request value to an `HttpOutcome`: a decoded body, an error status with its body and exception message, or any other failure. WebClient, JSON decoding and Jackson's string escaping are not modelled.
- `LocalDate.now()` and `Instant.now()` are parameters (`today`, `now`). The license stub's table is filled on a load day, which is separate from the day a request is answered.
- Ids are natural numbers taken from a counter, so they are fresh and never reused. The not-found message writes the id in decimal, not as a 36-character UUID.
- The repository stores the table's rows, not entity objects. The entity that `save` returns is the one that was passed in. Loading a row back as a managed entity is represented by the row itself.
- JPA flush timing and `@Transactional(isolation = SERIALIZABLE)` are not modelled. A column-constraint failure is reported at the save and leaves the table unchanged. The entity keeps the id generated for it at persist time and its `createdAt` stamp. Concurrent requests are out of scope.
- BookingServiceImpl.ConfirmBooking: requires the start date, end date and car segment to be present. The code dereferences them, so a null there ends in a NullPointerException, which the model does not include.
- A pricing response that decodes to null, or has a null rate, would also end in a NullPointerException. The model always decodes a rate.
- `parseErrorMessage` catches exceptions and returns "Unknown error". Reading the body as a string does not throw here, so that branch is not modelled. A null body is not modelled either.
- Text is ASCII. `toUpperCase` maps only a–z, `strip`/`isBlank` use ASCII `Character.isWhitespace`, and `trim` drops characters up to U+0020. Unicode case mapping and Unicode whitespace are not covered.
- `LocalDate`'s year range and overflow of `long` in the day count are not modelled, because integers are unbounded.
- ConfirmBookingRequests.Violations: the violations form a set, so their order in the error response is not modelled. BookingExceptionHandler shapes that response and is not part of this model.
- The controller, the security configuration, logging, the exception classes and the `BookingService` interface are not part of this model. The DTO records become plain datatypes.
- The entity's protected no-arguments constructor and its builder are represented by the all-arguments constructor.
