/** The itinerary service: request validation, the owner check before every
    change, day numbering for a new day and the page/offset arithmetic of the
    list operations, over the itinerary store. */
module ItineraryService {
  import opened Wrappers
  import opened ItineraryModel
  import opened ItineraryRepository

  const ErrTitleEmpty := "标题不能为空"
  const ErrDestinationEmpty := "目的地不能为空"
  const ErrDatesEmpty := "开始和结束日期不能为空"
  const ErrEndBeforeStart := "结束日期不能早于开始日期"
  const ErrNotFound := ItineraryRepository.ErrItineraryNotFound
  const ErrNotOwnerUpdate := "无权修改此行程"
  const ErrNotOwnerDelete := "无权删除此行程"
  const ErrDateEmpty := "日期不能为空"

  /** The checks CreateItinerary and UpdateItinerary make, in their order;
      the first failure's message, or None for a request that passes. */
  function ValidateRequest(req: CreateItineraryRequest): (r: Option<string>)
    ensures r == Some(ErrTitleEmpty) <==> req.title == ""
    ensures r == Some(ErrDestinationEmpty) <==> req.title != "" && req.destination == ""
    ensures r == Some(ErrDatesEmpty) <==>
              req.title != "" && req.destination != "" && (IsZero(req.startDate) || IsZero(req.endDate))
    ensures r == Some(ErrEndBeforeStart) <==>
              (&& req.title != "" && req.destination != ""
               && !IsZero(req.startDate) && !IsZero(req.endDate) && req.endDate < req.startDate)
    ensures r.None? <==>
              (&& req.title != "" && req.destination != ""
               && !IsZero(req.startDate) && !IsZero(req.endDate) && req.startDate <= req.endDate)
  {
    if req.title == "" then Some(ErrTitleEmpty)
    else if req.destination == "" then Some(ErrDestinationEmpty)
    else if IsZero(req.startDate) || IsZero(req.endDate) then Some(ErrDatesEmpty)
    else if req.endDate < req.startDate then Some(ErrEndBeforeStart)
    else None
  }

  /** A request that passes validation spans at least one day. */
  lemma ValidRequestSpansADay(req: CreateItineraryRequest)
    requires ValidateRequest(req).None?
    ensures DaysCount(req.startDate, req.endDate) >= 1
    ensures DaysCount(req.startDate, req.endDate) == |CoveredDates(req.startDate, req.endDate)|
  {
    DaysCountIsInclusiveSpan(req.startDate, req.endDate);
  }

  /** The page size and offset the list operations query with: a page below
      1 means page 1, a page size below 1 means 10, and there is no upper
      bound on the page size. */
  datatype Paging = Paging(limit: int, offset: int)

  function ListPaging(page: int, pageSize: int): (p: Paging)
    ensures p.limit >= 1 && p.offset >= 0
    ensures p.limit == (if pageSize <= 0 then 10 else pageSize)
    ensures p.offset % p.limit == 0
    ensures p.offset / p.limit + 1 == (if page <= 0 then 1 else page)
  {
    var pg := if page <= 0 then 1 else page;
    var size := if pageSize <= 0 then 10 else pageSize;
    PagingOffset(pg - 1, size);
    Paging(size, (pg - 1) * size)
  }

  lemma PagingOffset(k: nat, size: int)
    requires size >= 1
    ensures (k * size) % size == 0 && (k * size) / size == k
  {
    DivUnique(k * size, size, k, 0);
  }

  /** Euclidean division has one quotient and one remainder. */
  lemma DivUnique(a: int, d: int, q: int, r: int)
    requires d >= 1 && 0 <= r < d && a == d * q + r
    ensures a / d == q && a % d == r
  {
    var q0, r0 := a / d, a % d;
    assert a == d * q0 + r0 && 0 <= r0 < d;
    assert d * (q - q0) == r0 - r by {
      assert d * (q - q0) == d * q - d * q0;
    }
    if q > q0 {
      MulAtLeast(d, q - q0);
    } else if q < q0 {
      MulAtLeast(d, q0 - q);
    }
  }

  lemma MulAtLeast(d: int, x: int)
    requires d >= 1 && x >= 1
    ensures d * x >= d
  {
    assert d * x == d * (x - 1) + d;
    assert d * (x - 1) >= 0;
  }

  /** Consecutive pages are consecutive windows: page p + 1 starts where page
      p ends. */
  lemma ListPagingConsecutive(page: int, pageSize: int)
    requires page >= 1
    ensures ListPaging(page + 1, pageSize).offset == ListPaging(page, pageSize).offset + ListPaging(page, pageSize).limit
  {
  }

  /** The itinerary a create request describes, owned by `userId`. */
  function NewItinerary(userId: int, req: CreateItineraryRequest): Itinerary {
    Itinerary(0, userId, req.title, req.description, req.destination,
              req.startDate, req.endDate, req.isPublic, 0, 0, [])
  }

  /** The summary a client gets for request `req` stored as itinerary `id`. */
  function ResponseFor(id: int, req: CreateItineraryRequest, createdAt: Timestamp, updatedAt: Timestamp)
    : ItineraryResponse
  {
    ItineraryResponse(id, req.title, req.description, req.destination, req.startDate, req.endDate,
                      DaysCount(req.startDate, req.endDate), req.isPublic, createdAt, updatedAt)
  }

  /** The summaries of a listed page, in its order. */
  ghost predicate SummarisesPage(db: Db, keys: set<int>, offset: nat, limit: nat, order: seq<int>,
                                 got: seq<ItineraryResponse>) {
    exists page: seq<Itinerary> :: && ListedPage(db, keys, offset, limit, order, page)
                   && |got| == |page|
                   && (forall i :: 0 <= i < |got| ==> got[i] == page[i].ToItineraryResponse())
  }

  method Summaries(its: seq<Itinerary>) returns (got: seq<ItineraryResponse>)
    ensures |got| == |its| && forall i :: 0 <= i < |its| ==> got[i] == its[i].ToItineraryResponse()
  {
    got := [];
    var i := 0;
    while i < |its|
      invariant 0 <= i <= |its| && |got| == i
      invariant forall m :: 0 <= m < i ==> got[m] == its[m].ToItineraryResponse()
    {
      got := got + [its[i].ToItineraryResponse()];
      i := i + 1;
    }
  }

  class ItineraryService {
    const repo: ItineraryStore

    constructor (repo: ItineraryStore)
      ensures this.repo == repo
    {
      this.repo := repo;
    }

    /** CreateItinerary: validates, stores the request as an itinerary of the
        caller with no days, and returns its summary as read back. */
    method CreateItinerary(userId: int, req: CreateItineraryRequest, now: Timestamp, be: Backend)
      returns (r: Result<ItineraryResponse>)
      requires repo.Valid()
      modifies repo
      ensures repo.Valid()
      ensures ValidateRequest(req).Some? ==> r == Err(ValidateRequest(req).value) && repo.Tables() == old(repo.Tables())
      ensures ValidateRequest(req).None? ==>
                match CreateTx(old(repo.Tables()), NewItinerary(userId, req), now, be)
                case Err(m) => r == Err("创建行程失败: " + m) && repo.Tables() == old(repo.Tables())
                case Ok(s) => && repo.Tables() == s.tx.db
                              && r == Ok(ResponseFor(s.value.id, req, now, now))
                              && s.value.id !in old(repo.itineraries)
                              && repo.itineraries[s.value.id]
                                 == ItineraryRow(userId, req.title, Some(req.description), req.destination,
                                                 req.startDate, req.endDate, req.isPublic, now, now)
    {
      var invalid := ValidateRequest(req);
      if invalid.Some? {
        return Err(invalid.value);
      }
      ghost var before := repo.Tables();
      var created := repo.Create(NewItinerary(userId, req), now, be);
      if created.Err? {
        return Err("创建行程失败: " + created.message);
      }
      CreateAssigns(before, NewItinerary(userId, req), now, be);
      var loaded := repo.GetByID(created.value.id);
      assert loaded.Ok?;
      return Ok(loaded.value.ToItineraryResponse());
    }

    /** GetItineraryByID: the whole aggregate, or "行程不存在". */
    method GetItineraryByID(id: int) returns (r: Result<Itinerary>)
      ensures id !in repo.itineraries ==> r == Err(ErrNotFound)
      ensures id in repo.itineraries ==> r.Ok? && r.value.(days := []) == ScanItinerary(id, repo.itineraries[id])
      ensures r.Ok? ==> LoadedDays(repo.Tables(), id, r.value.days)
    {
      r := repo.GetByID(id);
      if r.Err? {
        r := Err(ErrNotFound);
      }
    }

    /** GetUserItineraries: one page of the caller's itineraries, newest
        first, as summaries. */
    method GetUserItineraries(userId: int, page: int, pageSize: int)
      returns (r: Result<seq<ItineraryResponse>>, ghost order: seq<int>)
      ensures r.Ok?
      ensures SummarisesPage(repo.Tables(), OwnedBy(repo.Tables(), userId),
                             ListPaging(page, pageSize).offset, ListPaging(page, pageSize).limit, order, r.value)
    {
      var paging := ListPaging(page, pageSize);
      var listed;
      listed, order := repo.GetByUserID(userId, paging.limit, paging.offset);
      assert listed.Ok?;
      var got := Summaries(listed.value);
      return Ok(got), order;
    }

    /** GetPublicItineraries: one page of the public itineraries, newest
        first, as summaries. */
    method GetPublicItineraries(page: int, pageSize: int)
      returns (r: Result<seq<ItineraryResponse>>, ghost order: seq<int>)
      ensures r.Ok?
      ensures SummarisesPage(repo.Tables(), PublicRows(repo.Tables()),
                             ListPaging(page, pageSize).offset, ListPaging(page, pageSize).limit, order, r.value)
    {
      var paging := ListPaging(page, pageSize);
      var listed;
      listed, order := repo.GetPublicItineraries(paging.limit, paging.offset);
      assert listed.Ok?;
      var got := Summaries(listed.value);
      return Ok(got), order;
    }

    /** UpdateItinerary: only the owner may change an itinerary, and the
        owner check comes before validation; a passing request overwrites
        the six request fields and updated_at. */
    method UpdateItinerary(id: int, userId: int, req: CreateItineraryRequest, now: Timestamp)
      returns (r: Result<ItineraryResponse>)
      requires repo.Valid()
      modifies repo
      ensures repo.Valid()
      ensures id !in old(repo.itineraries) ==> r == Err(ErrNotFound) && repo.Tables() == old(repo.Tables())
      ensures id in old(repo.itineraries) && old(repo.itineraries[id].userId) != userId ==>
                r == Err(ErrNotOwnerUpdate) && repo.Tables() == old(repo.Tables())
      ensures (&& id in old(repo.itineraries) && old(repo.itineraries[id].userId) == userId
               && ValidateRequest(req).Some?) ==> r == Err(ValidateRequest(req).value) && repo.Tables() == old(repo.Tables())
      ensures (&& id in old(repo.itineraries) && old(repo.itineraries[id].userId) == userId
               && ValidateRequest(req).None?) ==>
                && r == Ok(ResponseFor(id, req, old(repo.itineraries[id].createdAt), now))
                && repo.Tables() == old(repo.Tables()).(itineraries := old(repo.itineraries)[id :=
                     old(repo.itineraries[id]).(title := req.title, description := Some(req.description),
                                                destination := req.destination, startDate := req.startDate,
                                                endDate := req.endDate, isPublic := req.isPublic,
                                                updatedAt := now)])
    {
      var loaded := repo.GetByID(id);
      if loaded.Err? {
        return Err(ErrNotFound);
      }
      var itinerary := loaded.value;
      if itinerary.userId != userId {
        return Err(ErrNotOwnerUpdate);
      }
      var invalid := ValidateRequest(req);
      if invalid.Some? {
        return Err(invalid.value);
      }
      itinerary := itinerary.(title := req.title, description := req.description,
                              destination := req.destination, startDate := req.startDate,
                              endDate := req.endDate, isPublic := req.isPublic);
      var updated := repo.Update(itinerary, now);
      assert updated.Ok?;
      var reloaded := repo.GetByID(id);
      assert reloaded.Ok?;
      return Ok(reloaded.value.ToItineraryResponse());
    }

    /** DeleteItinerary: only the owner may delete, and then the itinerary
        goes with its days and items. */
    method DeleteItinerary(id: int, userId: int) returns (r: Result<()>)
      requires repo.Valid()
      modifies repo
      ensures repo.Valid()
      ensures id !in old(repo.itineraries) ==> r == Err(ErrNotFound) && repo.Tables() == old(repo.Tables())
      ensures id in old(repo.itineraries) && old(repo.itineraries[id].userId) != userId ==>
                r == Err(ErrNotOwnerDelete) && repo.Tables() == old(repo.Tables())
      ensures id in old(repo.itineraries) && old(repo.itineraries[id].userId) == userId ==>
                r == Ok(()) && repo.Tables() == WithoutItinerary(old(repo.Tables()), id)
    {
      var loaded := repo.GetByID(id);
      if loaded.Err? {
        return Err(ErrNotFound);
      }
      if loaded.value.userId != userId {
        return Err(ErrNotOwnerDelete);
      }
      r := repo.Delete(id);
      assert r.Ok?;
    }

    /** AddDay: the owner appends an empty day, numbered one past the days
        the itinerary has. */
    method AddDay(itineraryId: int, userId: int, date: Date, note: string, be: Backend)
      returns (r: Result<ItineraryDay>)
      requires repo.Valid()
      modifies repo
      ensures repo.Valid()
      ensures itineraryId !in old(repo.itineraries) ==> r == Err(ErrNotFound) && repo.Tables() == old(repo.Tables())
      ensures itineraryId in old(repo.itineraries) && old(repo.itineraries[itineraryId].userId) != userId ==>
                r == Err(ErrNotOwnerUpdate) && repo.Tables() == old(repo.Tables())
      ensures (&& itineraryId in old(repo.itineraries) && old(repo.itineraries[itineraryId].userId) == userId
               && IsZero(date)) ==> r == Err(ErrDateEmpty) && repo.Tables() == old(repo.Tables())
      ensures (&& itineraryId in old(repo.itineraries) && old(repo.itineraries[itineraryId].userId) == userId
               && !IsZero(date)) ==>
                var day := ItineraryDay(0, itineraryId, |DaysOf(old(repo.Tables()), itineraryId)| + 1, date, note, []);
                match InsertDay(Tx(old(repo.Tables()), 0), day, be)
                case Err(m) => r == Err("添加天数失败: " + m) && repo.Tables() == old(repo.Tables())
                case Ok(s) => && r == Ok(day.(id := s.value.id))
                              && s.value.id == old(repo.nextDayId)
                              && repo.Tables() == s.tx.db
    {
      var loaded := repo.GetByID(itineraryId);
      if loaded.Err? {
        return Err(ErrNotFound);
      }
      var itinerary := loaded.value;
      if itinerary.userId != userId {
        return Err(ErrNotOwnerUpdate);
      }
      if IsZero(date) {
        return Err(ErrDateEmpty);
      }
      assert |itinerary.days| == |DaysOf(repo.Tables(), itineraryId)| by {
        assert |Ids(itinerary.days, DayId)| == |multiset(Ids(itinerary.days, DayId))|;
      }
      var day := ItineraryDay(0, itineraryId, |itinerary.days| + 1, date, note, []);
      ghost var before := repo.Tables();
      var added := repo.AddDay(day, be);
      if added.Err? {
        return Err("添加天数失败: " + added.message);
      }
      InsertDayAssigns(Tx(before, 0), day, be);
      return Ok(day.(id := added.value));
    }
  }

  /** A day added through the service is stored under the itinerary, with
      the number the service chose and no items. */
  lemma AddedDayStored(db: Db, itineraryId: int, date: Date, note: string, be: Backend)
    requires KeysBelow(db)
    requires InsertDay(Tx(db, 0), ItineraryDay(0, itineraryId, |DaysOf(db, itineraryId)| + 1, date, note, []), be).Ok?
    ensures var s := InsertDay(Tx(db, 0), ItineraryDay(0, itineraryId, |DaysOf(db, itineraryId)| + 1, date, note, []), be).value;
            && s.value.id !in db.days
            && s.tx.db.days[s.value.id] == DayRow(itineraryId, |DaysOf(db, itineraryId)| + 1, date, note)
            && s.value.items == []
            && DaysOf(s.tx.db, itineraryId) == DaysOf(db, itineraryId) + {s.value.id}
  {
    var day := ItineraryDay(0, itineraryId, |DaysOf(db, itineraryId)| + 1, date, note, []);
    InsertDayAssigns(Tx(db, 0), day, be);
  }
}
