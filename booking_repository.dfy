/** The store behind `BookingRepository`: the rows of the `bookings` table by
    id. Saving a new booking generates a fresh id, runs `onCreate` and checks
    the table's column constraints; a row that breaks one is not stored. */
module BookingStore {
  import opened Outcomes
  import opened Exceptions
  import opened Entity

  class BookingRepository {
    /** The persisted rows. */
    var rows: map<Uuid, BookingRow>
    /** The next id the generator hands out; ids are never reused. */
    var nextId: Uuid

    /** Every stored row carries its own key as id, that key was handed out
        already, and the row meets the column constraints. */
    predicate Valid()
      reads this
    {
      forall id :: id in rows ==>
        && rows[id].id == Some(id)
        && id < nextId
        && ColumnViolation(rows[id]).None?
    }

    constructor ()
      ensures Valid() && rows == map[] && nextId == 0
    {
      rows := map[];
      nextId := 0;
    }

    /** `save` of a new entity. The entity is stamped by `onCreate` with
        `now` and given the next generated id, whatever happens at the flush;
        its row is stored under that id when it meets the column constraints,
        and on a broken constraint nothing is stored. A generated id is never
        handed out again, stored or not. */
    method Save(b: Booking, now: Instant) returns (r: Result<Booking, Failure>)
      requires Valid() && b.id.None?
      modifies this, b
      ensures Valid()
      ensures var row := old(b.Row()).(id := Some(old(nextId)), createdAt := Some(now));
              && b.Row() == row
              && nextId == old(nextId) + 1
              && match ColumnViolation(row)
                 case None => r == Success(b) && rows == old(rows)[old(nextId) := row]
                 case Some(column) => r == Failure(ConstraintViolation(column)) && rows == old(rows)
    {
      b.OnCreate(now);
      var id := nextId;
      b.id := Some(id);
      nextId := id + 1;
      var row := b.Row();
      match ColumnViolation(row)
      case Some(column) =>
        r := Failure(ConstraintViolation(column));
      case None =>
        rows := rows[id := row];
        r := Success(b);
    }

    /** `findById`: the stored row, which the entity loaded from it holds. */
    function FindById(id: Uuid): (r: Option<BookingRow>)
      reads this
      ensures r.Some? <==> id in rows
      ensures r.Some? ==> r.value == rows[id]
      ensures Valid() && r.Some? ==> r.value.id == Some(id)
    {
      if id in rows then Some(rows[id]) else None
    }
  }
}
