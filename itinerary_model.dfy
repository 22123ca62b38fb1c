/** The itinerary aggregate: an itinerary owns an ordered list of days, and a
    day owns an ordered list of items.  Also the summary projection returned
    by the list, create and update operations, and the decoding of a stored
    itinerary row. */
module ItineraryModel {
  import opened Wrappers

  /** A calendar date, as a number of days.  Day 0 stands for Go's zero
      `time.Time`, the value `IsZero` recognises. */
  type Date = int

  const ZeroDate: Date := 0

  predicate IsZero(d: Date) { d == ZeroDate }

  /** A point in time (created_at, updated_at), read from the caller's clock. */
  type Timestamp = int

  /** One activity of a day.  StartTime and EndTime are the "H:MM" display
      strings; latitude and longitude are the whole numbers the store reads
      back. */
  datatype ItineraryItem = ItineraryItem(
    id: int,
    dayId: int,
    kind: string,
    refId: int,
    title: string,
    description: string,
    startTime: string,
    endTime: string,
    duration: int,
    order: int,
    location: string,
    latitude: int,
    longitude: int,
    notes: string)

  datatype ItineraryDay = ItineraryDay(
    id: int,
    itineraryId: int,
    dayNumber: int,
    date: Date,
    note: string,
    items: seq<ItineraryItem>)
  {
    /** Appends an item at the end of the day. */
    function AddItem(item: ItineraryItem): (d: ItineraryDay)
      ensures |d.items| == |items| + 1
      ensures d.items[..|items|] == items && d.items[|items|] == item
      ensures d.(items := items) == this
    {
      this.(items := items + [item])
    }
  }

  datatype Itinerary = Itinerary(
    id: int,
    userId: int,
    title: string,
    description: string,
    destination: string,
    startDate: Date,
    endDate: Date,
    isPublic: bool,
    createdAt: Timestamp,
    updatedAt: Timestamp,
    days: seq<ItineraryDay>)
  {
    /** Appends a day at the end of the itinerary. */
    function AddDay(day: ItineraryDay): (i: Itinerary)
      ensures |i.days| == |days| + 1
      ensures i.days[..|days|] == days && i.days[|days|] == day
      ensures i.(days := days) == this
    {
      this.(days := days + [day])
    }

    /** The summary projection: every scalar field but the owner, no days. */
    function ToItineraryResponse(): (r: ItineraryResponse)
      ensures r.id == id && r.title == title && r.description == description
      ensures r.destination == destination
      ensures r.startDate == startDate && r.endDate == endDate
      ensures r.isPublic == isPublic
      ensures r.createdAt == createdAt && r.updatedAt == updatedAt
      ensures r.daysCount == DaysCount(startDate, endDate)
    {
      ItineraryResponse(id, title, description, destination, startDate, endDate,
                        DaysCount(startDate, endDate), isPublic, createdAt, updatedAt)
    }
  }

  /** The fields a client sends to create or update an itinerary. */
  datatype CreateItineraryRequest = CreateItineraryRequest(
    title: string,
    description: string,
    destination: string,
    startDate: Date,
    endDate: Date,
    isPublic: bool)

  /** The summary projection of an itinerary. */
  datatype ItineraryResponse = ItineraryResponse(
    id: int,
    title: string,
    description: string,
    destination: string,
    startDate: Date,
    endDate: Date,
    daysCount: int,
    isPublic: bool,
    createdAt: Timestamp,
    updatedAt: Timestamp)

  /** Whole days from the start date to the end date, plus one. */
  function DaysCount(startDate: Date, endDate: Date): int {
    endDate - startDate + 1
  }

  /** The calendar dates from the start date to the end date. */
  ghost function CoveredDates(startDate: Date, endDate: Date): set<Date>
    decreases endDate - startDate
  {
    if endDate < startDate then {} else CoveredDates(startDate, endDate - 1) + {endDate}
  }

  /** The covered dates are exactly those not before the start and not after
      the end. */
  lemma {:induction false} CoveredDatesMembers(startDate: Date, endDate: Date, d: Date)
    ensures d in CoveredDates(startDate, endDate) <==> startDate <= d <= endDate
    decreases endDate - startDate
  {
    if endDate >= startDate {
      CoveredDatesMembers(startDate, endDate - 1, d);
    }
  }

  /** The day count is the number of calendar dates from start to end
      inclusive: 1 for a one-day trip, and at least 1 whenever the end is not
      before the start. */
  lemma {:induction false} DaysCountIsInclusiveSpan(startDate: Date, endDate: Date)
    requires startDate <= endDate
    ensures DaysCount(startDate, endDate) == |CoveredDates(startDate, endDate)|
    ensures DaysCount(startDate, endDate) >= 1
    ensures startDate == endDate ==> DaysCount(startDate, endDate) == 1
    decreases endDate - startDate
  {
    if startDate < endDate {
      DaysCountIsInclusiveSpan(startDate, endDate - 1);
      CoveredDatesMembers(startDate, endDate - 1, endDate);
    }
  }

  /** An itinerary row as stored; a NULL description is `None`. */
  datatype ItineraryRow = ItineraryRow(
    userId: int,
    title: string,
    description: Option<string>,
    destination: string,
    startDate: Date,
    endDate: Date,
    isPublic: bool,
    createdAt: Timestamp,
    updatedAt: Timestamp)

  /** The row an INSERT or UPDATE writes for an itinerary: the description is
      always written, never NULL. */
  function RowOf(i: Itinerary): ItineraryRow {
    ItineraryRow(i.userId, i.title, Some(i.description), i.destination,
                 i.startDate, i.endDate, i.isPublic, i.createdAt, i.updatedAt)
  }

  /** Decodes the stored row with key `id`; a NULL description reads as the
      empty string and the day list starts empty. */
  function ScanItinerary(id: int, row: ItineraryRow): (i: Itinerary)
    ensures i.id == id && i.userId == row.userId && i.title == row.title
    ensures row.description.None? ==> i.description == ""
    ensures row.description.Some? ==> i.description == row.description.value
    ensures i.destination == row.destination
    ensures i.startDate == row.startDate && i.endDate == row.endDate
    ensures i.isPublic == row.isPublic
    ensures i.createdAt == row.createdAt && i.updatedAt == row.updatedAt
    ensures i.days == []
  {
    Itinerary(id, row.userId, row.title, row.description.GetOr(""), row.destination,
              row.startDate, row.endDate, row.isPublic, row.createdAt, row.updatedAt, [])
  }

  /** Reading back a row this code wrote gives back every scalar field. */
  lemma ScanRowOf(i: Itinerary)
    ensures ScanItinerary(i.id, RowOf(i)) == i.(days := [])
  {
  }
}
