/** The itinerary store: three tables (itineraries, itinerary_days,
    itinerary_items), each a map from its id column to its row, together with
    the id sequence of each table.  A transaction works on its own copy of the
    tables and publishes it only on commit, so a multi-row write that fails
    half-way leaves nothing behind. */
module ItineraryRepository {
  import opened Wrappers
  import opened Decimal
  import opened Ordering
  import opened ItineraryModel

  /** The message of Go's `sql.ErrNoRows`. */
  const ErrNoRows := "sql: no rows in result set"
  const ErrItineraryNotFound := "行程不存在"
  const ErrDayNotFound := "行程天数不存在"
  const ErrItemNotFound := "行程项目不存在"
  /** What PostgreSQL answers to a negative OFFSET or LIMIT. */
  const ErrNegativeOffset := "pq: OFFSET must not be negative"
  const ErrNegativeLimit := "pq: LIMIT must not be negative"

  // ---------------------------------------------------------------------
  // Rows and tables

  datatype DayRow = DayRow(itineraryId: int, dayNumber: int, date: Date, note: string)

  /** An item row; the nullable columns are `Option`s.  start_time and
      end_time hold minutes since midnight. */
  datatype ItemRow = ItemRow(
    dayId: int,
    kind: string,
    refId: Option<int>,
    title: string,
    description: Option<string>,
    startTime: Option<int>,
    endTime: Option<int>,
    duration: int,
    order: int,
    location: Option<string>,
    latitude: Option<int>,
    longitude: Option<int>,
    notes: Option<string>)

  /** The contents of the three tables and the next value of each id
      sequence. */
  datatype Db = Db(
    itineraries: map<int, ItineraryRow>,
    days: map<int, DayRow>,
    items: map<int, ItemRow>,
    nextItineraryId: int,
    nextDayId: int,
    nextItemId: int)

  /** Every id in use was handed out by its sequence. */
  ghost predicate KeysBelow(db: Db) {
    && (forall k :: k in db.itineraries ==> k < db.nextItineraryId)
    && (forall k :: k in db.days ==> k < db.nextDayId)
    && (forall k :: k in db.items ==> k < db.nextItemId)
  }

  /** `b` keeps every row of `a` as it was and hands out no id twice. */
  ghost predicate Grows(a: Db, b: Db) {
    && KeysBelow(a) && KeysBelow(b)
    && a.nextItineraryId <= b.nextItineraryId
    && a.nextDayId <= b.nextDayId
    && a.nextItemId <= b.nextItemId
    && (forall k :: k in a.itineraries ==> k in b.itineraries && b.itineraries[k] == a.itineraries[k])
    && (forall k :: k in a.days ==> k in b.days && b.days[k] == a.days[k])
    && (forall k :: k in a.items ==> k in b.items && b.items[k] == a.items[k])
  }

  /** The ids of the days of itinerary `itineraryId`. */
  function DaysOf(db: Db, itineraryId: int): set<int> {
    set k | k in db.days && db.days[k].itineraryId == itineraryId
  }

  /** The ids of the items of day `dayId`. */
  function ItemsOf(db: Db, dayId: int): set<int> {
    set k | k in db.items && db.items[k].dayId == dayId
  }

  /** Every day belongs to a stored itinerary and every item to a stored day. */
  ghost predicate Linked(db: Db) {
    && (forall k :: k in db.days ==> db.days[k].itineraryId in db.itineraries)
    && (forall k :: k in db.items ==> db.items[k].dayId in db.days)
  }

  // ---------------------------------------------------------------------
  // Reading rows back

  /** Go's integer division, which truncates toward zero. */
  function GoDiv(a: int, b: int): int
    requires b > 0
  {
    if a >= 0 then a / b else -((-a) / b)
  }

  /** Go's remainder, which takes the sign of the dividend. */
  function GoMod(a: int, b: int): int
    requires b > 0
  {
    a - b * GoDiv(a, b)
  }

  /** The `%02d` verb: at least two characters, zero-padded on the left. */
  function ZeroPad2(n: int): string {
    if 0 <= n < 10 then "0" + NatToString(n) else IntToString(n)
  }

  /** Renders minutes since midnight as "H:MM": `%d:%02d` of the quotient and
      remainder by 60. */
  function FormatMinutesToTime(minutes: int): string {
    IntToString(GoDiv(minutes, 60)) + ":" + ZeroPad2(GoMod(minutes, 60))
  }

  /** On a non-negative dividend Go's division and remainder are Dafny's. */
  lemma GoDivModNonNegative(a: nat, b: int)
    requires b > 0
    ensures GoDiv(a, b) == a / b && GoMod(a, b) == a % b
  {
  }

  /** The value of two decimal digits. */
  lemma ParseTwoDigits(c: char, d: char)
    requires IsDigit(c) && IsDigit(d)
    ensures AllDigits([c, d]) && ParseNat([c, d]) == DigitValue(c) * 10 + DigitValue(d)
  {
    assert [c, d][..1] == [c];
    assert [c][..0] == [];
    assert ParseNat([c]) == DigitValue(c);
    assert ParseNat([c, d]) == ParseNat([c]) * 10 + DigitValue(d);
  }

  /** `%02d` of a number below 100 is exactly two digits that read back as
      the number. */
  lemma ZeroPad2Digits(m: nat)
    requires m < 100
    ensures ZeroPad2(m) == [DigitChar(m / 10), DigitChar(m % 10)]
    ensures |ZeroPad2(m)| == 2 && AllDigits(ZeroPad2(m)) && ParseNat(ZeroPad2(m)) == m
  {
    if m >= 10 {
      assert NatToString(m) == NatToString(m / 10) + [DigitChar(m % 10)];
      assert NatToString(m / 10) == [DigitChar(m / 10)];
    } else {
      assert ZeroPad2(m) == "0" + [DigitChar(m)];
    }
    ParseTwoDigits(DigitChar(m / 10), DigitChar(m % 10));
  }

  /** For a time of day, the hours are written without padding and the
      minutes as exactly two digits. */
  lemma FormatMinutesShape(minutes: nat)
    ensures FormatMinutesToTime(minutes)
         == NatToString(minutes / 60) + ":" + ZeroPad2(minutes % 60)
    ensures |ZeroPad2(minutes % 60)| == 2 && AllDigits(ZeroPad2(minutes % 60))
    ensures ParseNat(ZeroPad2(minutes % 60)) == minutes % 60
  {
    GoDivModNonNegative(minutes, 60);
    ZeroPad2Digits(minutes % 60);
  }

  /** A reader for "H:MM" strings, used only to show that the rendering is
      unambiguous. */
  function ReadClock(s: string): Option<nat> {
    if |s| >= 4 && s[|s| - 3] == ':' && AllDigits(s[..|s| - 3]) && AllDigits(s[|s| - 2..])
    then Some(ParseNat(s[..|s| - 3]) * 60 + ParseNat(s[|s| - 2..]))
    else None
  }

  /** ReadClock splits at the colon three places from the end. */
  lemma ReadClockParts(h: string, mm: string)
    requires |h| >= 1 && AllDigits(h) && |mm| == 2 && AllDigits(mm)
    ensures ReadClock(h + ":" + mm) == Some(ParseNat(h) * 60 + ParseNat(mm))
  {
    var s := h + ":" + mm;
    assert s[|s| - 3] == ':';
    assert s[..|s| - 3] == h;
    assert s[|s| - 2..] == mm;
  }

  /** Every time of day is read back from its rendering. */
  lemma ReadClockFormat(minutes: nat)
    ensures ReadClock(FormatMinutesToTime(minutes)) == Some(minutes)
  {
    FormatMinutesShape(minutes);
    ParseNatToString(minutes / 60);
    ReadClockParts(NatToString(minutes / 60), ZeroPad2(minutes % 60));
  }

  /** Two different times of day never render alike. */
  lemma FormatMinutesInjective(m: nat, n: nat)
    requires FormatMinutesToTime(m) == FormatMinutesToTime(n)
    ensures m == n
  {
    ReadClockFormat(m);
    ReadClockFormat(n);
  }

  /** The example of the design: 570 minutes is half past nine. */
  lemma FormatMinutesExample()
    ensures FormatMinutesToTime(570) == "9:30"
  {
    assert NatToString(9) == "9";
    assert NatToString(30) == "30";
  }

  /** A negative count keeps its sign in both parts, as Go's truncating
      division and remainder give. */
  lemma FormatMinutesNegative()
    ensures FormatMinutesToTime(-90) == "-1:-30"
  {
    assert NatToString(1) == "1";
    assert NatToString(30) == "30";
  }

  /** Decodes an item row: NULL ref_id, latitude and longitude read as 0,
      NULL text columns as "", NULL times as "", other times as "H:MM". */
  function ScanItem(id: int, row: ItemRow): (item: ItineraryItem)
    ensures item.id == id && item.dayId == row.dayId && item.order == row.order
    ensures item.refId == (if row.refId.Some? then row.refId.value else 0)
    ensures item.description == (if row.description.Some? then row.description.value else "")
    ensures row.startTime.None? ==> item.startTime == ""
    ensures row.startTime.Some? ==> item.startTime == FormatMinutesToTime(row.startTime.value)
    ensures row.endTime.None? ==> item.endTime == ""
    ensures row.endTime.Some? ==> item.endTime == FormatMinutesToTime(row.endTime.value)
    ensures item.location == (if row.location.Some? then row.location.value else "")
    ensures item.latitude == (if row.latitude.Some? then row.latitude.value else 0)
    ensures item.longitude == (if row.longitude.Some? then row.longitude.value else 0)
    ensures item.notes == (if row.notes.Some? then row.notes.value else "")
  {
    ItineraryItem(
      id, row.dayId, row.kind, row.refId.GetOr(0), row.title, row.description.GetOr(""),
      if row.startTime.Some? then FormatMinutesToTime(row.startTime.value) else "",
      if row.endTime.Some? then FormatMinutesToTime(row.endTime.value) else "",
      row.duration, row.order, row.location.GetOr(""),
      row.latitude.GetOr(0), row.longitude.GetOr(0), row.notes.GetOr(""))
  }

  function ScanDay(id: int, row: DayRow, items: seq<ItineraryItem>): ItineraryDay {
    ItineraryDay(id, row.itineraryId, row.dayNumber, row.date, row.note, items)
  }

  // ---------------------------------------------------------------------
  // Transactions

  /** The database rejects the `at`-th insert of a transaction (counting from
      0) with `message`. */
  datatype Fault = Fault(at: nat, message: string)

  /** What the database does that this code does not decide: which insert, if
      any, it rejects, and how it converts the StartTime/EndTime text bound to
      the integer start_time/end_time columns (an `Err` rejects the insert). */
  datatype Backend = Backend(fault: Option<Fault>, timeColumn: string -> Result<int>)

  /** A transaction in progress: the tables as it sees them and the number of
      inserts it has made. */
  datatype Tx = Tx(db: Db, inserts: nat)

  /** A transaction after a successful statement, with what it produced. */
  datatype Step<T> = Step(tx: Tx, value: T)

  predicate Rejects(be: Backend, tx: Tx) {
    be.fault.Some? && be.fault.value.at == tx.inserts
  }

  /** The row addItemTx writes: every nullable column gets a value. */
  function ItemRowFor(item: ItineraryItem, start: int, end: int): ItemRow {
    ItemRow(item.dayId, item.kind, Some(item.refId), item.title, Some(item.description),
            Some(start), Some(end), item.duration, item.order, Some(item.location),
            Some(item.latitude), Some(item.longitude), Some(item.notes))
  }

  /** `item` is stored under its id, as addItemTx writes it. */
  ghost predicate ItemStored(db: Db, be: Backend, item: ItineraryItem) {
    && be.timeColumn(item.startTime).Ok?
    && be.timeColumn(item.endTime).Ok?
    && item.id in db.items
    && db.items[item.id] == ItemRowFor(item, be.timeColumn(item.startTime).value,
                                             be.timeColumn(item.endTime).value)
  }

  /** addItemTx: inserts one item row as the item gives it. */
  function InsertItem(tx: Tx, item: ItineraryItem, be: Backend): (r: Result<Step<int>>)
    requires KeysBelow(tx.db)
    ensures r.Ok? ==> Grows(tx.db, r.value.tx.db) && r.value.tx.inserts == tx.inserts + 1
    ensures r.Ok? ==> (&& r.value.value == tx.db.nextItemId
                       && r.value.tx.db.nextItemId == tx.db.nextItemId + 1
                       && ItemStored(r.value.tx.db, be, item.(id := r.value.value)))
    ensures r.Ok? ==> (&& r.value.tx.db.itineraries == tx.db.itineraries
                       && r.value.tx.db.days == tx.db.days)
  {
    if Rejects(be, tx) then Err(be.fault.value.message)
    else match be.timeColumn(item.startTime)
      case Err(m) => Err(m)
      case Ok(start) =>
        match be.timeColumn(item.endTime)
        case Err(m) => Err(m)
        case Ok(end) =>
          var id := tx.db.nextItemId;
          var db := tx.db.(items := tx.db.items[id := ItemRowFor(item, start, end)],
                           nextItemId := id + 1);
          Ok(Step(Tx(db, tx.inserts + 1), id))
  }

  /** The loop of addDayTx over a day's items, up to the length of `items`:
      the j-th item gets the day's id and order j + 1. */
  function InsertItems(tx: Tx, dayId: int, items: seq<ItineraryItem>, be: Backend)
    : (r: Result<Step<seq<ItineraryItem>>>)
    requires KeysBelow(tx.db)
    ensures r.Ok? ==> Grows(tx.db, r.value.tx.db) && |r.value.value| == |items|
    decreases |items|
  {
    if |items| == 0 then Ok(Step(tx, []))
    else
      var n := |items| - 1;
      match InsertItems(tx, dayId, items[..n], be)
      case Err(m) => Err(m)
      case Ok(done) =>
        var item := items[n].(dayId := dayId, order := n + 1);
        match InsertItem(done.tx, item, be)
        case Err(m) => Err(m)
        case Ok(inserted) => Ok(Step(inserted.tx, done.value + [item.(id := inserted.value)]))
  }

  /** The tables once the row of `day` is inserted under the next day id. */
  function AddDayRow(db: Db, day: ItineraryDay): (r: Db)
    requires KeysBelow(db)
    ensures KeysBelow(r) && Grows(db, r)
    ensures r.nextDayId == db.nextDayId + 1
    ensures r.days == db.days[db.nextDayId := DayRow(day.itineraryId, day.dayNumber, day.date, day.note)]
    ensures r.itineraries == db.itineraries && r.items == db.items
    ensures r.nextItineraryId == db.nextItineraryId && r.nextItemId == db.nextItemId
  {
    db.(days := db.days[db.nextDayId := DayRow(day.itineraryId, day.dayNumber, day.date, day.note)],
        nextDayId := db.nextDayId + 1)
  }

  /** addDayTx: inserts the day row as the day gives it, then its items. */
  function InsertDay(tx: Tx, day: ItineraryDay, be: Backend): (r: Result<Step<ItineraryDay>>)
    requires KeysBelow(tx.db)
    ensures r.Ok? ==> Grows(tx.db, r.value.tx.db)
  {
    if Rejects(be, tx) then Err(be.fault.value.message)
    else
      var id := tx.db.nextDayId;
      var db := AddDayRow(tx.db, day);
      match InsertItems(Tx(db, tx.inserts + 1), id, day.items, be)
      case Err(m) => Err(m)
      case Ok(done) => Ok(Step(done.tx, day.(id := id, items := done.value)))
  }

  /** The loop of Create over the nested days, up to the length of `days`:
      the i-th day gets the itinerary's id and day number i + 1. */
  function InsertDays(tx: Tx, itineraryId: int, days: seq<ItineraryDay>, be: Backend)
    : (r: Result<Step<seq<ItineraryDay>>>)
    requires KeysBelow(tx.db)
    ensures r.Ok? ==> Grows(tx.db, r.value.tx.db) && |r.value.value| == |days|
    decreases |days|
  {
    if |days| == 0 then Ok(Step(tx, []))
    else
      var n := |days| - 1;
      match InsertDays(tx, itineraryId, days[..n], be)
      case Err(m) => Err(m)
      case Ok(done) =>
        match InsertDay(done.tx, days[n].(itineraryId := itineraryId, dayNumber := n + 1), be)
        case Err(m) => Err(m)
        case Ok(inserted) => Ok(Step(inserted.tx, done.value + [inserted.value]))
  }

  /** The tables once the row of `it` is inserted under the next itinerary
      id. */
  function AddItineraryRow(db: Db, it: Itinerary): (r: Db)
    requires KeysBelow(db)
    ensures KeysBelow(r) && Grows(db, r)
    ensures r.itineraries == db.itineraries[db.nextItineraryId := RowOf(it)]
    ensures r.nextItineraryId == db.nextItineraryId + 1
    ensures r.days == db.days && r.items == db.items
    ensures r.nextDayId == db.nextDayId && r.nextItemId == db.nextItemId
  {
    db.(itineraries := db.itineraries[db.nextItineraryId := RowOf(it)], nextItineraryId := db.nextItineraryId + 1)
  }

  /** Create: stamps both timestamps with `now`, inserts the itinerary row and
      then every nested day with its items, all in one transaction.  The
      result is the itinerary with its id, the days' ids and numbers and the
      items' ids and orders filled in. */
  function CreateTx(db: Db, itinerary: Itinerary, now: Timestamp, be: Backend)
    : (r: Result<Step<Itinerary>>)
    requires KeysBelow(db)
    ensures r.Ok? ==> Grows(db, r.value.tx.db)
  {
    var tx := Tx(db, 0);
    if Rejects(be, tx) then Err(be.fault.value.message)
    else
      var id := db.nextItineraryId;
      var it := itinerary.(id := id, createdAt := now, updatedAt := now);
      var db1 := AddItineraryRow(db, it);
      match InsertDays(Tx(db1, 1), id, it.days, be)
      case Err(m) => Err(m)
      case Ok(done) => Ok(Step(done.tx, it.(days := done.value)))
  }

  /** Create's transaction: the itinerary row unless the first insert is
      rejected, then the day loop. */
  lemma CreateTxUnfolds(db: Db, itinerary: Itinerary, now: Timestamp, be: Backend)
    requires KeysBelow(db)
    ensures Rejects(be, Tx(db, 0)) ==> CreateTx(db, itinerary, now, be) == Err(be.fault.value.message)
    ensures !Rejects(be, Tx(db, 0)) ==>
              var it := itinerary.(id := db.nextItineraryId, createdAt := now, updatedAt := now);
              CreateTx(db, itinerary, now, be)
              == match InsertDays(Tx(AddItineraryRow(db, it), 1), it.id, it.days, be)
                 case Err(m) => Err(m)
                 case Ok(done) => Ok(Step(done.tx, it.(days := done.value)))
  {
  }

  // ---------------------------------------------------------------------
  // What the inserts assign

  /** `got` is `items` as stored for day `dayId`: the j-th keeps its content,
      gets the day's id and order j + 1 and lies in the items table, and the
      ids ascend in array order. */
  ghost predicate ItemsAssigned(db: Db, be: Backend, dayId: int,
                                items: seq<ItineraryItem>, got: seq<ItineraryItem>) {
    && |got| == |items|
    && (forall j :: 0 <= j < |got| ==> got[j] == items[j].(id := got[j].id, dayId := dayId, order := j + 1))
    && (forall j :: 0 <= j < |got| ==> ItemStored(db, be, got[j]))
    && (forall j, j' :: 0 <= j < j' < |got| ==> got[j].id < got[j'].id)
  }

  /** `got` is `day` as stored with parent `itineraryId` and number `number`,
      under a day id in [lo, hi), with its items assigned as above. */
  ghost predicate DayAssigned(db: Db, be: Backend, itineraryId: int, number: int, lo: int, hi: int,
                              day: ItineraryDay, got: ItineraryDay) {
    && got == day.(id := got.id, itineraryId := itineraryId, dayNumber := number, items := got.items)
    && lo <= got.id < hi
    && got.id in db.days
    && db.days[got.id] == DayRow(itineraryId, number, day.date, day.note)
    && ItemsAssigned(db, be, got.id, day.items, got.items)
  }

  /** `got` is `days` as stored for itinerary `itineraryId`: the i-th gets
      day number i + 1. */
  ghost predicate DaysAssigned(db: Db, be: Backend, itineraryId: int, lo: int, hi: int,
                               days: seq<ItineraryDay>, got: seq<ItineraryDay>) {
    && |got| == |days|
    && (forall i :: 0 <= i < |got| ==> DayAssigned(db, be, itineraryId, i + 1, lo, hi, days[i], got[i]))
    && (forall i, i' :: 0 <= i < i' < |got| ==> got[i].id < got[i'].id)
  }

  /** Every start and end time of these items converts to a minute value. */
  ghost predicate TimesConvert(be: Backend, items: seq<ItineraryItem>) {
    forall j :: 0 <= j < |items| ==> be.timeColumn(items[j].startTime).Ok? && be.timeColumn(items[j].endTime).Ok?
  }

  ghost predicate DayTimesConvert(be: Backend, days: seq<ItineraryDay>) {
    forall i :: 0 <= i < |days| ==> TimesConvert(be, days[i].items)
  }

  lemma TimesConvertSnoc(be: Backend, items: seq<ItineraryItem>)
    requires |items| > 0
    ensures TimesConvert(be, items) <==> (&& TimesConvert(be, items[..|items| - 1])
                                         && be.timeColumn(items[|items| - 1].startTime).Ok?
                                         && be.timeColumn(items[|items| - 1].endTime).Ok?)
  {
    var n := |items| - 1;
    assert forall j :: 0 <= j < n ==> items[..n][j] == items[j];
  }

  lemma DayTimesConvertSnoc(be: Backend, days: seq<ItineraryDay>)
    requires |days| > 0
    ensures DayTimesConvert(be, days) <==> DayTimesConvert(be, days[..|days| - 1]) && TimesConvert(be, days[|days| - 1].items)
  {
    var n := |days| - 1;
    assert forall i :: 0 <= i < n ==> days[..n][i] == days[i];
  }

  lemma ItemsAssignedGrows(a: Db, b: Db, be: Backend, dayId: int,
                           items: seq<ItineraryItem>, got: seq<ItineraryItem>)
    requires ItemsAssigned(a, be, dayId, items, got) && Grows(a, b)
    ensures ItemsAssigned(b, be, dayId, items, got)
  {
  }

  lemma DaysAssignedGrows(a: Db, b: Db, be: Backend, itineraryId: int, lo: int, hi: int, hi': int,
                          days: seq<ItineraryDay>, got: seq<ItineraryDay>)
    requires DaysAssigned(a, be, itineraryId, lo, hi, days, got) && Grows(a, b) && hi <= hi'
    ensures DaysAssigned(b, be, itineraryId, lo, hi', days, got)
  {
    forall i | 0 <= i < |got|
      ensures DayAssigned(b, be, itineraryId, i + 1, lo, hi', days[i], got[i])
    {
      ItemsAssignedGrows(a, b, be, got[i].id, days[i].items, got[i].items);
    }
  }

  lemma ItemsAssignedSnoc(db: Db, be: Backend, dayId: int, items: seq<ItineraryItem>,
                          done: seq<ItineraryItem>, last: ItineraryItem)
    requires |items| > 0 && ItemsAssigned(db, be, dayId, items[..|items| - 1], done)
    requires last == items[|items| - 1].(id := last.id, dayId := dayId, order := |items|)
    requires ItemStored(db, be, last)
    requires forall j :: 0 <= j < |done| ==> done[j].id < last.id
    ensures ItemsAssigned(db, be, dayId, items, done + [last])
  {
    var n := |items| - 1;
    assert forall j :: 0 <= j < n ==> items[..n][j] == items[j];
  }

  lemma DaysAssignedSnoc(db: Db, be: Backend, itineraryId: int, lo: int, hi: int, days: seq<ItineraryDay>,
                         done: seq<ItineraryDay>, last: ItineraryDay)
    requires |days| > 0 && DaysAssigned(db, be, itineraryId, lo, hi, days[..|days| - 1], done)
    requires DayAssigned(db, be, itineraryId, |days|, lo, hi, days[|days| - 1].(itineraryId := itineraryId, dayNumber := |days|), last)
    requires forall i :: 0 <= i < |done| ==> done[i].id < last.id
    ensures DaysAssigned(db, be, itineraryId, lo, hi, days, done + [last])
  {
    var n := |days| - 1;
    assert forall i :: 0 <= i < n ==> days[..n][i] == days[i];
  }

  /** The item loop numbers the items 1, 2, ... in array order and stores each
      as a new row under the day's id. */
  lemma {:induction false} InsertItemsAssigns(tx: Tx, dayId: int, items: seq<ItineraryItem>, be: Backend)
    requires KeysBelow(tx.db) && InsertItems(tx, dayId, items, be).Ok?
    ensures var s := InsertItems(tx, dayId, items, be).value;
            ItemsAssigned(s.tx.db, be, dayId, items, s.value)
    ensures var s := InsertItems(tx, dayId, items, be).value;
            forall j :: 0 <= j < |s.value| ==> tx.db.nextItemId <= s.value[j].id
    ensures var s := InsertItems(tx, dayId, items, be).value;
            s.tx.db.nextDayId == tx.db.nextDayId && s.tx.inserts == tx.inserts + |items|
    decreases |items|
  {
    if |items| > 0 {
      var n := |items| - 1;
      InsertItemsAssigns(tx, dayId, items[..n], be);
      var done := InsertItems(tx, dayId, items[..n], be).value;
      var item := items[n].(dayId := dayId, order := n + 1);
      var inserted := InsertItem(done.tx, item, be).value;
      ItemsAssignedGrows(done.tx.db, inserted.tx.db, be, dayId, items[..n], done.value);
      assert InsertItems(tx, dayId, items, be).value == Step(inserted.tx, done.value + [item.(id := inserted.value)]);
      ItemsAssignedSnoc(inserted.tx.db, be, dayId, items, done.value, item.(id := inserted.value));
    }
  }

  /** Without a rejected statement, the item loop succeeds exactly when every
      time converts. */
  lemma {:induction false} InsertItemsOutcome(tx: Tx, dayId: int, items: seq<ItineraryItem>, be: Backend)
    requires KeysBelow(tx.db) && be.fault.None?
    ensures InsertItems(tx, dayId, items, be).Ok? <==> TimesConvert(be, items)
    decreases |items|
  {
    if |items| > 0 {
      var n := |items| - 1;
      InsertItemsOutcome(tx, dayId, items[..n], be);
      TimesConvertSnoc(be, items);
    }
  }

  /** addDayTx stores the day as given and numbers its items. */
  lemma InsertDayAssigns(tx: Tx, day: ItineraryDay, be: Backend)
    requires KeysBelow(tx.db) && InsertDay(tx, day, be).Ok?
    ensures var s := InsertDay(tx, day, be).value;
            DayAssigned(s.tx.db, be, day.itineraryId, day.dayNumber, tx.db.nextDayId, s.tx.db.nextDayId,
                        day, s.value)
    ensures var s := InsertDay(tx, day, be).value;
            s.value.id == tx.db.nextDayId && s.tx.db.nextDayId == tx.db.nextDayId + 1
    ensures InsertDay(tx, day, be).value.tx.inserts == tx.inserts + 1 + |day.items|
  {
    var id := tx.db.nextDayId;
    var db := AddDayRow(tx.db, day);
    InsertDayUnfolds(tx, day, be);
    InsertItemsAssigns(Tx(db, tx.inserts + 1), id, day.items, be);
    var done := InsertItems(Tx(db, tx.inserts + 1), id, day.items, be).value;
    assert Grows(db, done.tx.db);
    assert id in done.tx.db.days && done.tx.db.days[id] == db.days[id];
    var got := day.(id := id, items := done.value);
    assert got == day.(id := got.id, itineraryId := day.itineraryId, dayNumber := day.dayNumber, items := got.items);
    assert ItemsAssigned(done.tx.db, be, id, day.items, got.items);
    assert tx.db.nextDayId <= got.id < done.tx.db.nextDayId;
    assert done.tx.db.days[got.id] == DayRow(day.itineraryId, day.dayNumber, day.date, day.note);
  }

  /** A day insert that succeeds inserted its row and then its items. */
  lemma InsertDayUnfolds(tx: Tx, day: ItineraryDay, be: Backend)
    requires KeysBelow(tx.db) && InsertDay(tx, day, be).Ok?
    ensures var id := tx.db.nextDayId;
            var db := AddDayRow(tx.db, day);
            && KeysBelow(db)
            && InsertItems(Tx(db, tx.inserts + 1), id, day.items, be).Ok?
            && var done := InsertItems(Tx(db, tx.inserts + 1), id, day.items, be).value;
               InsertDay(tx, day, be).value == Step(done.tx, day.(id := id, items := done.value))
  {
  }

  lemma InsertDayOutcome(tx: Tx, day: ItineraryDay, be: Backend)
    requires KeysBelow(tx.db) && be.fault.None?
    ensures InsertDay(tx, day, be).Ok? <==> TimesConvert(be, day.items)
  {
    var id := tx.db.nextDayId;
    var db := AddDayRow(tx.db, day);
    InsertItemsOutcome(Tx(db, tx.inserts + 1), id, day.items, be);
  }

  /** The day loop numbers the days 1, 2, ... in array order and gives each
      the itinerary's id. */
  lemma {:induction false} InsertDaysAssigns(tx: Tx, itineraryId: int, days: seq<ItineraryDay>, be: Backend)
    requires KeysBelow(tx.db) && InsertDays(tx, itineraryId, days, be).Ok?
    ensures var s := InsertDays(tx, itineraryId, days, be).value;
            DaysAssigned(s.tx.db, be, itineraryId, tx.db.nextDayId, s.tx.db.nextDayId, days, s.value)
    decreases |days|
  {
    if |days| > 0 {
      var n := |days| - 1;
      InsertDaysAssigns(tx, itineraryId, days[..n], be);
      var done := InsertDays(tx, itineraryId, days[..n], be).value;
      var day := days[n].(itineraryId := itineraryId, dayNumber := n + 1);
      InsertDayAssigns(done.tx, day, be);
      var inserted := InsertDay(done.tx, day, be).value;
      DaysAssignedGrows(done.tx.db, inserted.tx.db, be, itineraryId, tx.db.nextDayId, done.tx.db.nextDayId,
                        inserted.tx.db.nextDayId, days[..n], done.value);
      assert InsertDays(tx, itineraryId, days, be).value == Step(inserted.tx, done.value + [inserted.value]);
      DaysAssignedSnoc(inserted.tx.db, be, itineraryId, tx.db.nextDayId, inserted.tx.db.nextDayId,
                       days, done.value, inserted.value);
    }
  }

  lemma {:induction false} InsertDaysOutcome(tx: Tx, itineraryId: int, days: seq<ItineraryDay>, be: Backend)
    requires KeysBelow(tx.db) && be.fault.None?
    ensures InsertDays(tx, itineraryId, days, be).Ok? <==> DayTimesConvert(be, days)
    decreases |days|
  {
    if |days| > 0 {
      var n := |days| - 1;
      InsertDaysOutcome(tx, itineraryId, days[..n], be);
      DayTimesConvertSnoc(be, days);
      if InsertDays(tx, itineraryId, days[..n], be).Ok? {
        var done := InsertDays(tx, itineraryId, days[..n], be).value;
        InsertDayOutcome(done.tx, days[n].(itineraryId := itineraryId, dayNumber := n + 1), be);
      }
    }
  }

  /** A successful Create stores the itinerary under a fresh id with both
      timestamps `now`, gives the i-th day number i + 1 and the new id, and
      the j-th item of each day order j + 1 and that day's id. */
  lemma CreateAssigns(db: Db, itinerary: Itinerary, now: Timestamp, be: Backend)
    requires KeysBelow(db) && CreateTx(db, itinerary, now, be).Ok?
    ensures var s := CreateTx(db, itinerary, now, be).value;
            && s.value == itinerary.(id := s.value.id, createdAt := now, updatedAt := now, days := s.value.days)
            && s.value.id == db.nextItineraryId && s.value.id !in db.itineraries
            && s.value.id in s.tx.db.itineraries
            && s.tx.db.itineraries[s.value.id] == RowOf(s.value)
            && DaysAssigned(s.tx.db, be, s.value.id, db.nextDayId, s.tx.db.nextDayId, itinerary.days, s.value.days)
  {
    var id := db.nextItineraryId;
    var it := itinerary.(id := id, createdAt := now, updatedAt := now);
    var db1 := AddItineraryRow(db, it);
    InsertDaysAssigns(Tx(db1, 1), id, it.days, be);
  }

  /** Without a rejected statement, Create succeeds exactly when every item
      time converts; otherwise it reports an error (and, in the store,
      commits nothing). */
  lemma CreateOutcome(db: Db, itinerary: Itinerary, now: Timestamp, be: Backend)
    requires KeysBelow(db) && be.fault.None?
    ensures CreateTx(db, itinerary, now, be).Ok? <==> DayTimesConvert(be, itinerary.days)
  {
    var id := db.nextItineraryId;
    var it := itinerary.(id := id, createdAt := now, updatedAt := now);
    var db1 := AddItineraryRow(db, it);
    InsertDaysOutcome(Tx(db1, 1), id, it.days, be);
  }

  /** A failing prefix of the item loop makes the whole loop fail the same
      way: later items are never tried. */
  lemma {:induction false} InsertItemsStopsAtError(tx: Tx, dayId: int, items: seq<ItineraryItem>, k: nat, be: Backend)
    requires KeysBelow(tx.db) && k <= |items| && InsertItems(tx, dayId, items[..k], be).Err?
    ensures InsertItems(tx, dayId, items, be) == InsertItems(tx, dayId, items[..k], be)
    decreases |items|
  {
    if k < |items| {
      var n := |items| - 1;
      assert items[..n][..k] == items[..k];
      InsertItemsStopsAtError(tx, dayId, items[..n], k, be);
    } else {
      assert items[..k] == items;
    }
  }

  lemma {:induction false} InsertDaysStopsAtError(tx: Tx, itineraryId: int, days: seq<ItineraryDay>, k: nat, be: Backend)
    requires KeysBelow(tx.db) && k <= |days| && InsertDays(tx, itineraryId, days[..k], be).Err?
    ensures InsertDays(tx, itineraryId, days, be) == InsertDays(tx, itineraryId, days[..k], be)
    decreases |days|
  {
    if k < |days| {
      var n := |days| - 1;
      assert days[..n][..k] == days[..k];
      InsertDaysStopsAtError(tx, itineraryId, days[..n], k, be);
    } else {
      assert days[..k] == days;
    }
  }

  /** One more turn of the item loop. */
  lemma InsertItemsStep(tx: Tx, dayId: int, items: seq<ItineraryItem>, j: nat, be: Backend,
                        done: Step<seq<ItineraryItem>>)
    requires KeysBelow(tx.db) && j < |items|
    requires InsertItems(tx, dayId, items[..j], be) == Ok(done)
    ensures KeysBelow(done.tx.db)
    ensures var item := items[j].(dayId := dayId, order := j + 1);
            InsertItems(tx, dayId, items[..j + 1], be)
            == match InsertItem(done.tx, item, be)
               case Err(m) => Err(m)
               case Ok(inserted) => Ok(Step(inserted.tx, done.value + [item.(id := inserted.value)]))
  {
    assert items[..j + 1][..j] == items[..j];
  }

  /** One more turn of the day loop. */
  lemma InsertDaysStep(tx: Tx, itineraryId: int, days: seq<ItineraryDay>, i: nat, be: Backend,
                       done: Step<seq<ItineraryDay>>)
    requires KeysBelow(tx.db) && i < |days|
    requires InsertDays(tx, itineraryId, days[..i], be) == Ok(done)
    ensures KeysBelow(done.tx.db)
    ensures InsertDays(tx, itineraryId, days[..i + 1], be)
            == match InsertDay(done.tx, days[i].(itineraryId := itineraryId, dayNumber := i + 1), be)
               case Err(m) => Err(m)
               case Ok(inserted) => Ok(Step(inserted.tx, done.value + [inserted.value]))
  {
    assert days[..i + 1][..i] == days[..i];
  }

  /** The item loop of addDayTx. */
  method InsertItemsInTx(start: Tx, dayId: int, items: seq<ItineraryItem>, be: Backend)
    returns (r: Result<Step<seq<ItineraryItem>>>)
    requires KeysBelow(start.db)
    ensures r == InsertItems(start, dayId, items, be)
  {
    var cur := start;
    var done: seq<ItineraryItem> := [];
    var j := 0;
    while j < |items|
      invariant 0 <= j <= |items|
      invariant InsertItems(start, dayId, items[..j], be) == Ok(Step(cur, done))
    {
      var item := items[j].(dayId := dayId, order := j + 1);
      InsertItemsStep(start, dayId, items, j, be, Step(cur, done));
      var inserted := InsertItem(cur, item, be);
      if inserted.Err? {
        InsertItemsStopsAtError(start, dayId, items, j + 1, be);
        return Err(inserted.message);
      }
      cur := inserted.value.tx;
      done := done + [item.(id := inserted.value.value)];
      j := j + 1;
    }
    assert items[..j] == items;
    return Ok(Step(cur, done));
  }

  /** The day loop of Create, each day numbered and given the itinerary's
      id before addDayTx. */
  method InsertDaysInTx(start: Tx, itineraryId: int, days: seq<ItineraryDay>, be: Backend)
    returns (r: Result<Step<seq<ItineraryDay>>>)
    requires KeysBelow(start.db)
    ensures r == InsertDays(start, itineraryId, days, be)
  {
    var cur := start;
    var done: seq<ItineraryDay> := [];
    var i := 0;
    while i < |days|
      invariant 0 <= i <= |days|
      invariant InsertDays(start, itineraryId, days[..i], be) == Ok(Step(cur, done))
      invariant KeysBelow(cur.db)
    {
      var day := days[i].(itineraryId := itineraryId, dayNumber := i + 1);
      InsertDaysStep(start, itineraryId, days, i, be, Step(cur, done));
      var inserted := AddDayInTx(cur, day, be);
      if inserted.Err? {
        InsertDaysStopsAtError(start, itineraryId, days, i + 1, be);
        return Err(inserted.message);
      }
      cur := inserted.value.tx;
      done := done + [inserted.value.value];
      i := i + 1;
    }
    assert days[..i] == days;
    return Ok(Step(cur, done));
  }

  /** addDayTx: the day row, then its items one by one. */
  method AddDayInTx(tx: Tx, day: ItineraryDay, be: Backend) returns (r: Result<Step<ItineraryDay>>)
    requires KeysBelow(tx.db)
    ensures r == InsertDay(tx, day, be)
  {
    if Rejects(be, tx) {
      return Err(be.fault.value.message);
    }
    var id := tx.db.nextDayId;
    var start := Tx(AddDayRow(tx.db, day), tx.inserts + 1);
    var done := InsertItemsInTx(start, id, day.items, be);
    if done.Err? {
      return Err(done.message);
    }
    return Ok(Step(done.value.tx, day.(id := id, items := done.value.value)));
  }

  // ---------------------------------------------------------------------
  // What the reads return

  /** The ids of a list of rows, in order. */
  function Ids<T>(xs: seq<T>, id: T -> int): (ids: seq<int>)
    ensures |ids| == |xs| && forall i :: 0 <= i < |xs| ==> ids[i] == id(xs[i])
  {
    seq(|xs|, i requires 0 <= i < |xs| => id(xs[i]))
  }

  function ItemId(item: ItineraryItem): int { item.id }

  function DayId(day: ItineraryDay): int { day.id }

  function ItineraryId(it: Itinerary): int { it.id }

  function ItemOrder(items: map<int, ItemRow>): int -> int {
    k => if k in items then items[k].order else 0
  }

  function DayNumber(days: map<int, DayRow>): int -> int {
    k => if k in days then days[k].dayNumber else 0
  }

  /** Sorting by this key puts the most recently created row first. */
  function NewestFirst(rows: map<int, ItineraryRow>): int -> int {
    k => if k in rows then -rows[k].createdAt else 0
  }

  /** `got` holds every item of day `dayId` exactly once, decoded, ascending
      by item_order. */
  ghost predicate LoadedItems(db: Db, dayId: int, got: seq<ItineraryItem>) {
    && multiset(Ids(got, ItemId)) == multiset(ItemsOf(db, dayId))
    && (forall j :: 0 <= j < |got| ==> got[j].id in db.items && got[j] == ScanItem(got[j].id, db.items[got[j].id]))
    && (forall j, j' :: 0 <= j < j' < |got| ==> got[j].order <= got[j'].order)
  }

  /** `got` holds every day of itinerary `itineraryId` exactly once, decoded
      with its items, ascending by day_number. */
  ghost predicate LoadedDays(db: Db, itineraryId: int, got: seq<ItineraryDay>) {
    && multiset(Ids(got, DayId)) == multiset(DaysOf(db, itineraryId))
    && (forall i :: 0 <= i < |got| ==> got[i].id in db.days && got[i] == ScanDay(got[i].id, db.days[got[i].id], got[i].items))
    && (forall i :: 0 <= i < |got| ==> LoadedItems(db, got[i].id, got[i].items))
    && (forall i, i' :: 0 <= i < i' < |got| ==> got[i].dayNumber <= got[i'].dayNumber)
  }

  /** The first `limit` ids after skipping `offset` of them. */
  function Window(ids: seq<int>, offset: nat, limit: nat): (w: seq<int>)
    ensures |w| == (if offset >= |ids| then 0 else if |ids| - offset < limit then |ids| - offset else limit)
    ensures forall i :: 0 <= i < |w| ==> w[i] == ids[offset + i]
  {
    if offset >= |ids| then [] else if |ids| - offset < limit then ids[offset..] else ids[offset..offset + limit]
  }

  /** `got` is the window [offset, offset + limit) of `order`, decoded, where
      `order` lists every row of `keys` exactly once, newest first. */
  ghost predicate ListedPage(db: Db, keys: set<int>, offset: nat, limit: nat, order: seq<int>, got: seq<Itinerary>) {
    && multiset(order) == multiset(keys)
    && (forall i :: 0 <= i < |order| ==> order[i] in db.itineraries)
    && (forall i, i' :: 0 <= i < i' < |order| ==>
          db.itineraries[order[i]].createdAt >= db.itineraries[order[i']].createdAt)
    && Ids(got, ItineraryId) == Window(order, offset, limit)
    && (forall i :: 0 <= i < |got| ==> got[i] == ScanItinerary(got[i].id, db.itineraries[got[i].id]))
  }

  function OwnedBy(db: Db, userId: int): set<int> {
    set k | k in db.itineraries && db.itineraries[k].userId == userId
  }

  function PublicRows(db: Db): set<int> {
    set k | k in db.itineraries && db.itineraries[k].isPublic
  }

  // ---------------------------------------------------------------------
  // Writes that touch existing rows

  /** The row after Update: the six editable columns and updated_at are the
      caller's, user_id and created_at stay. */
  function UpdatedRow(row: ItineraryRow, itinerary: Itinerary, now: Timestamp): (r: ItineraryRow)
    ensures r.userId == row.userId && r.createdAt == row.createdAt
    ensures ScanItinerary(itinerary.id, r)
         == itinerary.(userId := row.userId, createdAt := row.createdAt, updatedAt := now, days := [])
  {
    row.(title := itinerary.title, description := Some(itinerary.description),
         destination := itinerary.destination, startDate := itinerary.startDate,
         endDate := itinerary.endDate, isPublic := itinerary.isPublic, updatedAt := now)
  }

  /** The tables after deleting day `dayId` and its items. */
  function WithoutDay(db: Db, dayId: int): (r: Db)
    ensures r.itineraries == db.itineraries && r.days == db.days - {dayId}
    ensures ItemsOf(r, dayId) == {}
    ensures forall k :: k in r.items <==> k in db.items && db.items[k].dayId != dayId
    ensures forall k :: k in r.items ==> r.items[k] == db.items[k]
    ensures Linked(db) ==> Linked(r)
  {
    db.(items := map k | k in db.items && db.items[k].dayId != dayId :: db.items[k],
        days := db.days - {dayId})
  }

  /** The tables after deleting itinerary `id`, its days and their items. */
  function WithoutItinerary(db: Db, id: int): (r: Db)
    ensures r.itineraries == db.itineraries - {id}
    ensures DaysOf(r, id) == {}
    ensures forall k :: k in r.days <==> k in db.days && db.days[k].itineraryId != id
    ensures forall k :: k in r.days ==> r.days[k] == db.days[k]
    ensures forall k :: k in r.items <==> k in db.items && db.items[k].dayId !in DaysOf(db, id)
    ensures forall k :: k in r.items ==> r.items[k] == db.items[k]
    ensures Linked(db) ==> Linked(r)
  {
    var doomed := DaysOf(db, id);
    db.(items := map k | k in db.items && db.items[k].dayId !in doomed :: db.items[k],
        days := map k | k in db.days && k !in doomed :: db.days[k],
        itineraries := db.itineraries - {id})
  }

  /** The in-memory itinerary tables. */
  class ItineraryStore {
    var itineraries: map<int, ItineraryRow>
    var days: map<int, DayRow>
    var items: map<int, ItemRow>
    var nextItineraryId: int
    var nextDayId: int
    var nextItemId: int

    function Tables(): Db
      reads this
    {
      Db(itineraries, days, items, nextItineraryId, nextDayId, nextItemId)
    }

    ghost predicate Valid()
      reads this
    {
      KeysBelow(Tables())
    }

    constructor ()
      ensures Valid() && Tables() == Db(map[], map[], map[], 1, 1, 1)
    {
      itineraries, days, items := map[], map[], map[];
      nextItineraryId, nextDayId, nextItemId := 1, 1, 1;
    }

    /** Publishes the tables of a finished transaction. */
    method Commit(db: Db)
      modifies this
      ensures Tables() == db
    {
      itineraries, days, items := db.itineraries, db.days, db.items;
      nextItineraryId, nextDayId, nextItemId := db.nextItineraryId, db.nextDayId, db.nextItemId;
    }

    /** Create: one transaction that writes the itinerary, its days and their
        items, committed only when every insert succeeded. */
    method Create(itinerary: Itinerary, now: Timestamp, be: Backend) returns (r: Result<Itinerary>)
      requires Valid()
      modifies this
      ensures Valid()
      ensures match CreateTx(old(Tables()), itinerary, now, be)
              case Ok(s) => r == Ok(s.value) && Tables() == s.tx.db
              case Err(m) => r == Err(m) && Tables() == old(Tables())
    {
      var db := Tables();
      CreateTxUnfolds(db, itinerary, now, be);
      if Rejects(be, Tx(db, 0)) {
        return Err(be.fault.value.message);
      }
      var it := itinerary.(id := db.nextItineraryId, createdAt := now, updatedAt := now);
      var inserted := InsertDaysInTx(Tx(AddItineraryRow(db, it), 1), it.id, it.days, be);
      if inserted.Err? {
        return Err(inserted.message);
      }
      Commit(inserted.value.tx.db);
      return Ok(it.(days := inserted.value.value));
    }

    /** AddDay: the day (with its items) in a transaction of its own; the
        result is the new day id. */
    method AddDay(day: ItineraryDay, be: Backend) returns (r: Result<int>)
      requires Valid()
      modifies this
      ensures Valid()
      ensures match InsertDay(Tx(old(Tables()), 0), day, be)
              case Ok(s) => r == Ok(s.value.id) && Tables() == s.tx.db
              case Err(m) => r == Err(m) && Tables() == old(Tables())
    {
      var inserted := AddDayInTx(Tx(Tables(), 0), day, be);
      if inserted.Err? {
        return Err(inserted.message);
      }
      Commit(inserted.value.tx.db);
      return Ok(inserted.value.value.id);
    }

    /** AddItem: one item, as given, in a transaction of its own. */
    method AddItem(item: ItineraryItem, be: Backend) returns (r: Result<int>)
      requires Valid()
      modifies this
      ensures Valid()
      ensures match InsertItem(Tx(old(Tables()), 0), item, be)
              case Ok(s) => r == Ok(s.value) && Tables() == s.tx.db
              case Err(m) => r == Err(m) && Tables() == old(Tables())
    {
      var inserted := InsertItem(Tx(Tables(), 0), item, be);
      if inserted.Err? {
        return Err(inserted.message);
      }
      Commit(inserted.value.tx.db);
      return Ok(inserted.value.value);
    }

    /** The items of one day, in item_order. */
    method ReadItems(dayId: int) returns (got: seq<ItineraryItem>)
      ensures LoadedItems(Tables(), dayId, got)
    {
      var ids := SortedKeys(ItemsOf(Tables(), dayId), ItemOrder(items));
      got := [];
      var j := 0;
      while j < |ids|
        invariant 0 <= j <= |ids| && |got| == j
        invariant forall m :: 0 <= m < j ==> got[m].id == ids[m]
        invariant forall m :: 0 <= m < j ==> ids[m] in items && got[m] == ScanItem(ids[m], items[ids[m]])
      {
        assert ids[j] in multiset(ids);
        got := got + [ScanItem(ids[j], items[ids[j]])];
        j := j + 1;
      }
      assert Ids(got, ItemId) == ids;
    }

    /** GetByID: the itinerary row, its days in day_number order and each
        day's items in item_order; a missing row is sql.ErrNoRows. */
    method GetByID(id: int) returns (r: Result<Itinerary>)
      ensures id !in itineraries ==> r == Err(ErrNoRows)
      ensures id in itineraries ==> r.Ok? && r.value.(days := []) == ScanItinerary(id, itineraries[id])
      ensures r.Ok? ==> LoadedDays(Tables(), id, r.value.days)
    {
      if id !in itineraries {
        return Err(ErrNoRows);
      }
      var ids := SortedKeys(DaysOf(Tables(), id), DayNumber(days));
      var got: seq<ItineraryDay> := [];
      var i := 0;
      while i < |ids|
        invariant 0 <= i <= |ids| && |got| == i
        invariant forall m :: 0 <= m < i ==> got[m].id == ids[m]
        invariant forall m :: 0 <= m < i ==> ids[m] in days && got[m] == ScanDay(ids[m], days[ids[m]], got[m].items)
        invariant forall m :: 0 <= m < i ==> LoadedItems(Tables(), ids[m], got[m].items)
      {
        assert ids[i] in multiset(ids);
        var dayItems := ReadItems(ids[i]);
        got := got + [ScanDay(ids[i], days[ids[i]], dayItems)];
        i := i + 1;
      }
      assert Ids(got, DayId) == ids;
      return Ok(ScanItinerary(id, itineraries[id]).(days := got));
    }

    /** The shared body of the two list queries: rows of `keys`, newest
        first, LIMIT `limit` OFFSET `offset`. */
    method ListPage(keys: set<int>, limit: int, offset: int) returns (r: Result<seq<Itinerary>>, ghost order: seq<int>)
      requires keys <= itineraries.Keys
      ensures offset < 0 ==> r == Err(ErrNegativeOffset)
      ensures offset >= 0 && limit < 0 ==> r == Err(ErrNegativeLimit)
      ensures offset >= 0 && limit >= 0 ==> r.Ok? && ListedPage(Tables(), keys, offset, limit, order, r.value)
    {
      order := [];
      if offset < 0 {
        return Err(ErrNegativeOffset), order;
      }
      if limit < 0 {
        return Err(ErrNegativeLimit), order;
      }
      var sorted := SortedKeys(keys, NewestFirst(itineraries));
      order := sorted;
      forall i | 0 <= i < |sorted| ensures sorted[i] in itineraries {
        assert sorted[i] in multiset(sorted);
      }
      var w := Window(sorted, offset, limit);
      var got: seq<Itinerary> := [];
      var i := 0;
      while i < |w|
        invariant 0 <= i <= |w| && |got| == i
        invariant forall m :: 0 <= m < i ==> got[m] == ScanItinerary(w[m], itineraries[w[m]])
      {
        got := got + [ScanItinerary(w[i], itineraries[w[i]])];
        i := i + 1;
      }
      assert Ids(got, ItineraryId) == w;
      return Ok(got), order;
    }

    /** GetByUserID: the owner's itineraries, newest first, without days. */
    method GetByUserID(userId: int, limit: int, offset: int) returns (r: Result<seq<Itinerary>>, ghost order: seq<int>)
      ensures offset < 0 ==> r == Err(ErrNegativeOffset)
      ensures offset >= 0 && limit < 0 ==> r == Err(ErrNegativeLimit)
      ensures offset >= 0 && limit >= 0 ==> r.Ok? && ListedPage(Tables(), OwnedBy(Tables(), userId), offset, limit, order, r.value)
      ensures r.Ok? ==> |r.value| <= limit
      ensures r.Ok? ==> forall i :: 0 <= i < |r.value| ==> r.value[i].userId == userId && r.value[i].days == []
    {
      r, order := ListPage(OwnedBy(Tables(), userId), limit, offset);
      if r.Ok? {
        ListedPageWithin(Tables(), OwnedBy(Tables(), userId), offset, limit, order, r.value);
      }
    }

    /** GetPublicItineraries: the public itineraries, newest first, without
        days. */
    method GetPublicItineraries(limit: int, offset: int) returns (r: Result<seq<Itinerary>>, ghost order: seq<int>)
      ensures offset < 0 ==> r == Err(ErrNegativeOffset)
      ensures offset >= 0 && limit < 0 ==> r == Err(ErrNegativeLimit)
      ensures offset >= 0 && limit >= 0 ==> r.Ok? && ListedPage(Tables(), PublicRows(Tables()), offset, limit, order, r.value)
      ensures r.Ok? ==> |r.value| <= limit
      ensures r.Ok? ==> forall i :: 0 <= i < |r.value| ==> r.value[i].isPublic && r.value[i].days == []
    {
      r, order := ListPage(PublicRows(Tables()), limit, offset);
      if r.Ok? {
        ListedPageWithin(Tables(), PublicRows(Tables()), offset, limit, order, r.value);
      }
    }

    /** Update: rewrites the editable columns of an existing row. */
    method Update(itinerary: Itinerary, now: Timestamp) returns (r: Result<()>)
      requires Valid()
      modifies this
      ensures Valid()
      ensures itinerary.id !in old(itineraries) ==> r == Err(ErrItineraryNotFound) && Tables() == old(Tables())
      ensures itinerary.id in old(itineraries) ==> (&& r == Ok(())
        && Tables() == old(Tables()).(itineraries := old(itineraries)[itinerary.id :=
             UpdatedRow(old(itineraries)[itinerary.id], itinerary, now)]))
    {
      if itinerary.id !in itineraries {
        return Err(ErrItineraryNotFound);
      }
      itineraries := itineraries[itinerary.id := UpdatedRow(itineraries[itinerary.id], itinerary, now)];
      return Ok(());
    }

    /** Delete: in one transaction, the items of the itinerary's days, then
        the days, then the row; nothing is removed when the row is missing. */
    method Delete(id: int) returns (r: Result<()>)
      requires Valid()
      modifies this
      ensures Valid()
      ensures id !in old(itineraries) ==> r == Err(ErrItineraryNotFound) && Tables() == old(Tables())
      ensures id in old(itineraries) ==> r == Ok(()) && Tables() == WithoutItinerary(old(Tables()), id)
    {
      var db := Tables();
      var doomed := DaysOf(db, id);
      db := db.(items := map k | k in db.items && db.items[k].dayId !in doomed :: db.items[k]);
      db := db.(days := map k | k in db.days && k !in doomed :: db.days[k]);
      if id !in db.itineraries {
        return Err(ErrItineraryNotFound);
      }
      db := db.(itineraries := db.itineraries - {id});
      Commit(db);
      return Ok(());
    }

    /** UpdateDay: rewrites day_number, date and note of an existing day. */
    method UpdateDay(day: ItineraryDay) returns (r: Result<()>)
      requires Valid()
      modifies this
      ensures Valid()
      ensures day.id !in old(days) ==> r == Err(ErrDayNotFound) && Tables() == old(Tables())
      ensures day.id in old(days) ==> (&& r == Ok(())
        && Tables() == old(Tables()).(days := old(days)[day.id :=
             old(days)[day.id].(dayNumber := day.dayNumber, date := day.date, note := day.note)]))
    {
      if day.id !in days {
        return Err(ErrDayNotFound);
      }
      days := days[day.id := days[day.id].(dayNumber := day.dayNumber, date := day.date, note := day.note)];
      return Ok(());
    }

    /** DeleteDay: in one transaction, the day's items and then the day. */
    method DeleteDay(dayId: int) returns (r: Result<()>)
      requires Valid()
      modifies this
      ensures Valid()
      ensures dayId !in old(days) ==> r == Err(ErrDayNotFound) && Tables() == old(Tables())
      ensures dayId in old(days) ==> r == Ok(()) && Tables() == WithoutDay(old(Tables()), dayId)
    {
      var db := Tables();
      db := db.(items := map k | k in db.items && db.items[k].dayId != dayId :: db.items[k]);
      if dayId !in db.days {
        return Err(ErrDayNotFound);
      }
      db := db.(days := db.days - {dayId});
      Commit(db);
      return Ok(());
    }

    /** UpdateItem: rewrites every column but the day id of an existing item;
        the time text must convert, as on insert. */
    method UpdateItem(item: ItineraryItem, be: Backend) returns (r: Result<()>)
      requires Valid()
      modifies this
      ensures Valid()
      ensures be.timeColumn(item.startTime).Err? ==> r == Err(be.timeColumn(item.startTime).message) && Tables() == old(Tables())
      ensures (&& be.timeColumn(item.startTime).Ok? && be.timeColumn(item.endTime).Err?) ==>
                r == Err(be.timeColumn(item.endTime).message) && Tables() == old(Tables())
      ensures (&& be.timeColumn(item.startTime).Ok? && be.timeColumn(item.endTime).Ok?
               && item.id !in old(items)) ==> r == Err(ErrItemNotFound) && Tables() == old(Tables())
      ensures (&& be.timeColumn(item.startTime).Ok? && be.timeColumn(item.endTime).Ok?
               && item.id in old(items)) ==> (&& r == Ok(())
        && Tables() == old(Tables()).(items := old(items)[item.id :=
             ItemRowFor(item.(dayId := old(items)[item.id].dayId),
                        be.timeColumn(item.startTime).value, be.timeColumn(item.endTime).value)]))
    {
      var start := be.timeColumn(item.startTime);
      if start.Err? {
        return Err(start.message);
      }
      var end := be.timeColumn(item.endTime);
      if end.Err? {
        return Err(end.message);
      }
      if item.id !in items {
        return Err(ErrItemNotFound);
      }
      items := items[item.id := ItemRowFor(item.(dayId := items[item.id].dayId), start.value, end.value)];
      return Ok(());
    }

    /** DeleteItem: removes one item. */
    method DeleteItem(itemId: int) returns (r: Result<()>)
      requires Valid()
      modifies this
      ensures Valid()
      ensures itemId !in old(items) ==> r == Err(ErrItemNotFound) && Tables() == old(Tables())
      ensures itemId in old(items) ==> r == Ok(()) && Tables() == old(Tables()).(items := old(items) - {itemId})
    {
      if itemId !in items {
        return Err(ErrItemNotFound);
      }
      items := items - {itemId};
      return Ok(());
    }
  }

  /** A listed page holds at most `limit` itineraries, each a row of `keys`,
      decoded with no days. */
  lemma ListedPageWithin(db: Db, keys: set<int>, offset: nat, limit: nat, order: seq<int>, got: seq<Itinerary>)
    requires ListedPage(db, keys, offset, limit, order, got)
    ensures |got| <= limit
    ensures forall i :: 0 <= i < |got| ==> got[i].id in keys && got[i].days == []
  {
    forall i | 0 <= i < |got| ensures got[i].id in keys {
      assert Ids(got, ItineraryId)[i] == Window(order, offset, limit)[i] == order[offset + i];
      assert order[offset + i] in multiset(order);
    }
  }
}
