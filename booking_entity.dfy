/** `Booking`: the persistent booking record, a row of the `bookings` table.
    Its id is generated when it is first persisted and `createdAt` is set by
    the `@PrePersist` callback; nothing else ever changes. */
module Entity {
  import opened Outcomes
  import opened Dates
  import opened Decimals
  import opened CarSegments

  /** A generated booking id. */
  type Uuid = nat

  /** A point in time, as `Instant.now()` returns it. */
  type Instant = int

  /** The values a booking holds at one moment. */
  datatype BookingRow = BookingRow(
    id: Option<Uuid>,
    drivingLicenseNumber: Option<string>,
    customerName: Option<string>,
    age: int,
    startDate: Option<LocalDate>,
    endDate: Option<LocalDate>,
    carSegment: Option<CarSegment>,
    rentalPrice: Option<Decimal>,
    createdAt: Option<Instant>)

  /** The declared width of `rental_price`: numeric(10, 2). */
  const PricePrecision := 10
  const PriceScale := 2

  /** A price fits numeric(10, 2) when, held to two decimals, it has at most
      ten digits. */
  predicate FitsPriceColumn(d: Decimal) {
    Abs(SetScaleHalfUp(d, PriceScale).unscaled) < Pow10(PricePrecision)
  }

  /** The first column whose constraint a row breaks, in declaration order:
      the non-null columns, then the width of `rental_price`. */
  function ColumnViolation(row: BookingRow): (r: Option<string>)
    ensures r.None? <==> && row.drivingLicenseNumber.Some? && row.customerName.Some?
                         && row.startDate.Some? && row.endDate.Some? && row.carSegment.Some?
                         && row.createdAt.Some?
                         && (row.rentalPrice.Some? ==> FitsPriceColumn(row.rentalPrice.value))
    ensures r.Some? ==> r.value in {"driving_license_number", "customer_name", "start_date",
                                    "end_date", "car_segment", "rental_price", "created_at"}
  {
    if row.drivingLicenseNumber.None? then Some("driving_license_number")
    else if row.customerName.None? then Some("customer_name")
    else if row.startDate.None? then Some("start_date")
    else if row.endDate.None? then Some("end_date")
    else if row.carSegment.None? then Some("car_segment")
    else if row.rentalPrice.Some? && !FitsPriceColumn(row.rentalPrice.value) then Some("rental_price")
    else if row.createdAt.None? then Some("created_at")
    else None
  }

  class Booking {
    var id: Option<Uuid>
    const drivingLicenseNumber: Option<string>
    const customerName: Option<string>
    const age: int
    const startDate: Option<LocalDate>
    const endDate: Option<LocalDate>
    const carSegment: Option<CarSegment>
    const rentalPrice: Option<Decimal>
    var createdAt: Option<Instant>

    /** The all-arguments constructor the builder ends in. */
    constructor (id: Option<Uuid>, drivingLicenseNumber: Option<string>, customerName: Option<string>,
                 age: int, startDate: Option<LocalDate>, endDate: Option<LocalDate>,
                 carSegment: Option<CarSegment>, rentalPrice: Option<Decimal>, createdAt: Option<Instant>)
      ensures Row() == BookingRow(id, drivingLicenseNumber, customerName, age, startDate, endDate,
                                  carSegment, rentalPrice, createdAt)
    {
      this.id := id;
      this.drivingLicenseNumber := drivingLicenseNumber;
      this.customerName := customerName;
      this.age := age;
      this.startDate := startDate;
      this.endDate := endDate;
      this.carSegment := carSegment;
      this.rentalPrice := rentalPrice;
      this.createdAt := createdAt;
    }

    /** The record's current values. */
    function Row(): BookingRow
      reads this
    {
      BookingRow(id, drivingLicenseNumber, customerName, age, startDate, endDate,
                 carSegment, rentalPrice, createdAt)
    }

    /** `onCreate`: stamps the creation time and changes nothing else. */
    method OnCreate(now: Instant)
      modifies this`createdAt
      ensures Row() == old(Row()).(createdAt := Some(now))
    {
      createdAt := Some(now);
    }
  }
}
