/** `BookingMapper`: the field mappings between the request, the entity and
    the details response. */
module BookingMapper {
  import opened Outcomes
  import opened Dates
  import opened Decimals
  import opened CarSegments
  import opened ConfirmBookingRequests
  import opened Entity

  /** The details a booking lookup returns; `createdAt` is not among them. */
  datatype BookingDetailsResponse = BookingDetailsResponse(
    bookingId: Option<Uuid>,
    drivingLicenseNumber: Option<string>,
    customerName: Option<string>,
    age: int,
    startDate: Option<LocalDate>,
    endDate: Option<LocalDate>,
    carSegment: Option<CarSegment>,
    rentalPrice: Option<Decimal>)

  /** The row `toBooking` produces: the request's fields, the owner as the
      customer, the given price, no id and no creation time. */
  function MappedRow(req: ConfirmBookingRequest, ownerName: Option<string>, rentalPrice: Option<Decimal>)
    : (r: BookingRow)
    ensures r.id.None? && r.createdAt.None?
    ensures r.customerName == ownerName && r.rentalPrice == rentalPrice
    ensures r.drivingLicenseNumber == req.drivingLicenseNumber && r.age == req.age
    ensures r.startDate == req.startDate && r.endDate == req.endDate && r.carSegment == req.carSegment
  {
    BookingRow(None, req.drivingLicenseNumber, ownerName, req.age, req.startDate, req.endDate,
               req.carSegment, rentalPrice, None)
  }

  /** `toBooking`: a new, not yet persisted entity holding the mapped row. */
  method ToBooking(req: ConfirmBookingRequest, ownerName: Option<string>, rentalPrice: Option<Decimal>)
    returns (b: Booking)
    ensures fresh(b)
    ensures b.Row() == MappedRow(req, ownerName, rentalPrice)
  {
    b := new Booking(None, req.drivingLicenseNumber, ownerName, req.age, req.startDate, req.endDate,
                     req.carSegment, rentalPrice, None);
  }

  /** The response for a row: the id as `bookingId`, the seven booking fields. */
  function ResponseOf(row: BookingRow): (r: BookingDetailsResponse)
    ensures r.bookingId == row.id && r.customerName == row.customerName && r.rentalPrice == row.rentalPrice
    ensures r.drivingLicenseNumber == row.drivingLicenseNumber && r.age == row.age
    ensures r.startDate == row.startDate && r.endDate == row.endDate && r.carSegment == row.carSegment
  {
    BookingDetailsResponse(row.id, row.drivingLicenseNumber, row.customerName, row.age,
                           row.startDate, row.endDate, row.carSegment, row.rentalPrice)
  }

  /** `toResponse`. */
  function ToResponse(b: Booking): (r: BookingDetailsResponse)
    reads b
    ensures r == ResponseOf(b.Row())
  {
    BookingDetailsResponse(b.id, b.drivingLicenseNumber, b.customerName, b.age,
                           b.startDate, b.endDate, b.carSegment, b.rentalPrice)
  }

  // ---- Properties ----

  /** What a mapped booking reports once persisted with id `id` and stamped
      at any time: that id, the request's fields, the owner and the price. */
  lemma MappedRoundTrip(req: ConfirmBookingRequest, ownerName: Option<string>, rentalPrice: Option<Decimal>,
                        id: Uuid, createdAt: Instant)
    ensures ResponseOf(MappedRow(req, ownerName, rentalPrice).(id := Some(id), createdAt := Some(createdAt)))
            == BookingDetailsResponse(Some(id), req.drivingLicenseNumber, ownerName, req.age,
                                      req.startDate, req.endDate, req.carSegment, rentalPrice)
  {
  }

  /** The creation time never reaches the response. */
  lemma ResponseHidesCreatedAt(row: BookingRow, t: Option<Instant>)
    ensures ResponseOf(row.(createdAt := t)) == ResponseOf(row)
  {
  }
}
