/** The parts of the itinerary handlers that decide something: the
    page/limit clamps, the page count, who may see an itinerary, and the item
    endpoints that are not implemented. */
module ItineraryController {
  import opened Wrappers
  import opened Decimal
  import opened ItineraryModel
  import opened ItineraryRepository
  import opened ItineraryService
  import opened JwtAuth

  const StatusOK := 200
  const StatusBadRequest := 400
  const StatusForbidden := 403
  const StatusNotFound := 404
  const StatusNotImplemented := 501

  datatype Body =
    | ErrorBody(error: string)
    | ItineraryBody(itinerary: Itinerary)
    | ListBody(data: seq<ItineraryResponse>, total: int, page: int, limit: int, pages: int)

  datatype Response = Response(status: int, body: Body)

  // ---------------------------------------------------------------------
  // Query parameters

  /** strconv.Atoi: an optional sign and at least one decimal digit (the
      64-bit range check is not modelled). */
  function Atoi(s: string): Option<int> {
    if |s| > 1 && (s[0] == '+' || s[0] == '-') && AllDigits(s[1..]) then
      var n: int := ParseNat(s[1..]);
      Some(if s[0] == '-' then -n else n)
    else if |s| > 0 && AllDigits(s) then Some(ParseNat(s))
    else None
  }

  /** Atoi reads back every number `%d` writes. */
  lemma AtoiIntToString(i: int)
    ensures Atoi(IntToString(i)) == Some(i)
  {
    if i < 0 {
      var digits := NatToString(-i);
      var s := "-" + digits;
      assert s[0] == '-' && s[1..] == digits;
      ParseNatToString(-i);
      assert s[1..] == digits && AllDigits(digits) && ParseNat(digits) == -i;
    } else {
      var s := NatToString(i);
      assert IsDigit(s[0]);
      ParseNatToString(i);
      assert Atoi(s) == Some(ParseNat(s));
    }
  }

  /** c.DefaultQuery: the parameter's text, or the default when it is absent. */
  function QueryOr(q: Option<string>, default: string): string {
    if q.Some? then q.value else default
  }

  /** `n, _ := strconv.Atoi(s)`: a text that is not a number reads as 0. */
  function AtoiOrZero(s: string): int {
    Atoi(s).GetOr(0)
  }

  /** The clamps of the package-level list handlers. */
  method ClampPageLimit(pageQ: Option<string>, limitQ: Option<string>) returns (page: int, limit: int)
    ensures page >= 1 && 1 <= limit <= 100
    ensures var p := AtoiOrZero(QueryOr(pageQ, "1")); page == (if p < 1 then 1 else p)
    ensures var l := AtoiOrZero(QueryOr(limitQ, "10"));
            limit == (if l < 1 then 10 else if l > 100 then 100 else l)
    ensures pageQ.None? ==> page == 1
    ensures limitQ.None? ==> limit == 10
  {
    page := AtoiOrZero(QueryOr(pageQ, "1"));
    limit := AtoiOrZero(QueryOr(limitQ, "10"));
    if page < 1 {
      page := 1;
    }
    if limit < 1 {
      limit := 10;
    }
    if limit > 100 {
      limit := 100;
    }
    if pageQ.None? {
      assert Atoi("1") == Some(1);
    }
    if limitQ.None? {
      assert Atoi("10") == Some(10) by { assert ParseNat("10") == 10 by { assert "10"[..1] == "1"; } }
    }
  }

  /** The clamps of the controller-struct list handlers. */
  method ClampPageSize(pageQ: Option<string>, sizeQ: Option<string>) returns (page: int, pageSize: int)
    ensures page >= 1 && 1 <= pageSize <= 50
    ensures var p := Atoi(QueryOr(pageQ, "1")); page == (if p.None? || p.value <= 0 then 1 else p.value)
    ensures var n := Atoi(QueryOr(sizeQ, "10"));
            pageSize == (if n.None? || n.value <= 0 then 10 else if n.value > 50 then 50 else n.value)
  {
    var parsed := Atoi(QueryOr(pageQ, "1"));
    if parsed.None? || parsed.value <= 0 {
      page := 1;
    } else {
      page := parsed.value;
    }
    parsed := Atoi(QueryOr(sizeQ, "10"));
    if parsed.None? || parsed.value <= 0 {
      pageSize := 10;
    } else {
      pageSize := parsed.value;
    }
    if pageSize > 50 {
      pageSize := 50;
    }
  }

  /** `(total + limit - 1) / limit`. */
  function TotalPages(total: nat, limit: int): int
    requires limit >= 1
  {
    (total + limit - 1) / limit
  }

  /** The page count is the ceiling of total / limit: the fewest pages of
      `limit` rows that hold `total` rows. */
  lemma TotalPagesIsCeiling(total: nat, limit: int)
    requires limit >= 1
    ensures TotalPages(total, limit) >= 0
    ensures TotalPages(total, limit) * limit >= total
    ensures total > 0 ==> (TotalPages(total, limit) - 1) * limit < total
    ensures total == 0 <==> TotalPages(total, limit) == 0
  {
    var q := TotalPages(total, limit);
    var r := (total + limit - 1) % limit;
    assert total + limit - 1 == q * limit + r;
    assert 0 <= r < limit;
  }

  /** As the handlers use it, `total` is the length of the one page just
      fetched, so the count never exceeds 1. */
  lemma TotalPagesOfOnePage(total: nat, limit: int)
    requires 1 <= limit && total <= limit
    ensures TotalPages(total, limit) == (if total == 0 then 0 else 1)
  {
    TotalPagesIsCeiling(total, limit);
  }

  // ---------------------------------------------------------------------
  // Visibility

  /** The test of GetItinerary: a private itinerary is forbidden unless the
      caller is known and is its owner. */
  predicate Forbidden(isPublic: bool, ownerId: int, caller: (int, bool)) {
    !isPublic && (!caller.1 || ownerId != caller.0)
  }

  /** An itinerary is shown exactly when it is public or the authenticated
      caller owns it; an anonymous caller never sees a private one, whatever
      the owner's id. */
  lemma ForbiddenExactly(isPublic: bool, ownerId: int, keys: map<string, ContextValue>)
    ensures !Forbidden(isPublic, ownerId, UserIdOf(keys)) <==>
              isPublic || ("userID" in keys && keys["userID"] == Int64Value(ownerId))
    ensures !isPublic && "userID" !in keys ==> Forbidden(isPublic, ownerId, UserIdOf(keys))
  {
  }

  /** The get-itinerary handler of the controller struct. */
  method GetItinerary(svc: ItineraryService, ctx: RequestContext, idParam: string) returns (resp: Response)
    ensures Atoi(idParam).None? ==> resp == Response(StatusBadRequest, ErrorBody("无效的行程ID"))
    ensures Atoi(idParam).Some? && Atoi(idParam).value !in svc.repo.itineraries ==>
              resp == Response(StatusNotFound, ErrorBody(ErrNotFound))
    ensures Atoi(idParam).Some? && Atoi(idParam).value in svc.repo.itineraries ==>
              var row := svc.repo.itineraries[Atoi(idParam).value];
              if Forbidden(row.isPublic, row.userId, ctx.GetUserID())
              then resp == Response(StatusForbidden, ErrorBody("无权访问此行程"))
              else && resp.status == StatusOK && resp.body.ItineraryBody?
                   && resp.body.itinerary.(days := []) == ScanItinerary(Atoi(idParam).value, row)
                   && LoadedDays(svc.repo.Tables(), Atoi(idParam).value, resp.body.itinerary.days)
  {
    var id := Atoi(idParam);
    if id.None? {
      return Response(StatusBadRequest, ErrorBody("无效的行程ID"));
    }
    var found := svc.GetItineraryByID(id.value);
    if found.Err? {
      return Response(StatusNotFound, ErrorBody(found.message));
    }
    var caller := ctx.GetUserID();
    if Forbidden(found.value.isPublic, found.value.userId, caller) {
      return Response(StatusForbidden, ErrorBody("无权访问此行程"));
    }
    return Response(StatusOK, ItineraryBody(found.value));
  }

  /** The package-level public list handler: clamped page and limit, and a
      page count computed from the length of the page itself. */
  method ListPublicItineraries(svc: ItineraryService, pageQ: Option<string>, limitQ: Option<string>)
    returns (resp: Response)
    ensures resp.status == StatusOK && resp.body.ListBody?
    ensures resp.body.page >= 1 && 1 <= resp.body.limit <= 100
    ensures resp.body.total == |resp.body.data| <= resp.body.limit
    ensures resp.body.pages == (if resp.body.total == 0 then 0 else 1)
    ensures var p := AtoiOrZero(QueryOr(pageQ, "1")); resp.body.page == (if p < 1 then 1 else p)
    ensures var l := AtoiOrZero(QueryOr(limitQ, "10"));
            resp.body.limit == (if l < 1 then 10 else if l > 100 then 100 else l)
    ensures exists order :: SummarisesPage(svc.repo.Tables(), PublicRows(svc.repo.Tables()),
                                           ListPaging(resp.body.page, resp.body.limit).offset,
                                           ListPaging(resp.body.page, resp.body.limit).limit, order, resp.body.data)
  {
    var page, limit := ClampPageLimit(pageQ, limitQ);
    var listed, order := svc.GetPublicItineraries(page, limit);
    ghost var db := svc.repo.Tables();
    ghost var paging := ListPaging(page, limit);
    ghost var pageRows :| && ListedPage(db, PublicRows(db), paging.offset, paging.limit, order, pageRows)
                          && |listed.value| == |pageRows|;
    ListedPageWithin(db, PublicRows(db), paging.offset, paging.limit, order, pageRows);
    var total := |listed.value|;
    TotalPagesOfOnePage(total, limit);
    return Response(StatusOK, ListBody(listed.value, total, page, limit, TotalPages(total, limit)));
  }

  /** The package-level list handler for the caller's own itineraries. */
  method ListUserItineraries(svc: ItineraryService, ctx: RequestContext, pageQ: Option<string>, limitQ: Option<string>)
    returns (resp: Response)
    ensures !ctx.GetUserID().1 ==> resp == Response(StatusUnauthorized, ErrorBody("未授权访问"))
    ensures ctx.GetUserID().1 ==> (&& resp.status == StatusOK && resp.body.ListBody?
                                   && resp.body.page >= 1 && 1 <= resp.body.limit <= 100
                                   && resp.body.total == |resp.body.data| <= resp.body.limit
                                   && resp.body.pages == (if resp.body.total == 0 then 0 else 1))
    ensures ctx.GetUserID().1 ==>
              var p := AtoiOrZero(QueryOr(pageQ, "1")); resp.body.page == (if p < 1 then 1 else p)
    ensures ctx.GetUserID().1 ==>
              var l := AtoiOrZero(QueryOr(limitQ, "10"));
              resp.body.limit == (if l < 1 then 10 else if l > 100 then 100 else l)
    ensures ctx.GetUserID().1 ==>
              exists order :: SummarisesPage(svc.repo.Tables(), OwnedBy(svc.repo.Tables(), ctx.GetUserID().0),
                                             ListPaging(resp.body.page, resp.body.limit).offset,
                                             ListPaging(resp.body.page, resp.body.limit).limit, order, resp.body.data)
  {
    var caller := ctx.GetUserID();
    if !caller.1 {
      return Response(StatusUnauthorized, ErrorBody("未授权访问"));
    }
    var page, limit := ClampPageLimit(pageQ, limitQ);
    var listed, order := svc.GetUserItineraries(caller.0, page, limit);
    ghost var db := svc.repo.Tables();
    ghost var paging := ListPaging(page, limit);
    ghost var pageRows :| && ListedPage(db, OwnedBy(db, caller.0), paging.offset, paging.limit, order, pageRows)
                          && |listed.value| == |pageRows|;
    ListedPageWithin(db, OwnedBy(db, caller.0), paging.offset, paging.limit, order, pageRows);
    var total := |listed.value|;
    TotalPagesOfOnePage(total, limit);
    return Response(StatusOK, ListBody(listed.value, total, page, limit, TotalPages(total, limit)));
  }

  // ---------------------------------------------------------------------
  // The item endpoints

  function AddItineraryItem(): (r: Response)
    ensures r.status == StatusNotImplemented
  {
    Response(StatusNotImplemented, ErrorBody("添加行程项目功能尚未实现"))
  }

  function UpdateItineraryItem(): (r: Response)
    ensures r.status == StatusNotImplemented
  {
    Response(StatusNotImplemented, ErrorBody("更新行程项目功能尚未实现"))
  }

  function DeleteItineraryItem(): (r: Response)
    ensures r.status == StatusNotImplemented
  {
    Response(StatusNotImplemented, ErrorBody("删除行程项目功能尚未实现"))
  }
}
