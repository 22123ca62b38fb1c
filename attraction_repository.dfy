/** The attraction search: the SQL text and argument list built from a
    search request, the matching count query, and the limit defaults of the
    fixed listing queries. */
module AttractionRepository {
  import opened Wrappers
  import opened Decimal

  /** A bound argument, with its Go type. */
  datatype Arg = TextArg(text: string) | RatingArg(rating: real) | IntArg(n: int)

  /** models.SearchAttractionsRequest; the minimum rating is a real. */
  datatype SearchRequest = SearchRequest(
    name: string,
    city: string,
    country: string,
    category: string,
    minRating: real,
    sortBy: string,
    page: int,
    limit: int)

  /** The five filters, in the order the builder considers them. */
  datatype FilterKind = NameFilter | CityFilter | CountryFilter | CategoryFilter | RatingFilter

  function Rank(k: FilterKind): nat {
    match k
    case NameFilter => 0
    case CityFilter => 1
    case CountryFilter => 2
    case CategoryFilter => 3
    case RatingFilter => 4
  }

  /** Distinct kinds have distinct ranks. */
  lemma RankInjective(a: FilterKind, b: FilterKind)
    requires Rank(a) == Rank(b)
    ensures a == b
  {
  }

  datatype Filter = Filter(kind: FilterKind, arg: Arg)

  /** The SQL of a filter bound to placeholder `$p`; the name filter uses the
      one placeholder for both name and description. */
  function RenderFilter(kind: FilterKind, p: int): string {
    var n := IntToString(p);
    match kind
    case NameFilter => "(name ILIKE $" + n + " OR description ILIKE $" + n + ")"
    case CityFilter => "city ILIKE $" + n
    case CountryFilter => "country ILIKE $" + n
    case CategoryFilter => "category = $" + n
    case RatingFilter => "rating >= $" + n
  }

  /** The filter of slot `k` of the request, if that field is set: text
      filters match "%v%" case-insensitively, the category exactly. */
  function Slot(params: SearchRequest, k: nat): Option<Filter> {
    if k == 0 then (if params.name != "" then Some(Filter(NameFilter, TextArg("%" + params.name + "%"))) else None)
    else if k == 1 then (if params.city != "" then Some(Filter(CityFilter, TextArg("%" + params.city + "%"))) else None)
    else if k == 2 then (if params.country != "" then Some(Filter(CountryFilter, TextArg("%" + params.country + "%"))) else None)
    else if k == 3 then (if params.category != "" then Some(Filter(CategoryFilter, TextArg(params.category))) else None)
    else if k == 4 then (if params.minRating > 0.0 then Some(Filter(RatingFilter, RatingArg(params.minRating))) else None)
    else None
  }

  /** The filters of the first `k` slots that apply, in slot order. */
  function FiltersUpTo(params: SearchRequest, k: nat): seq<Filter> {
    if k == 0 then []
    else FiltersUpTo(params, k - 1) + Present(Slot(params, k - 1))
  }

  function Filters(params: SearchRequest): seq<Filter> {
    FiltersUpTo(params, 5)
  }

  /** The i-th condition is bound to placeholder i + 1. */
  function Conditions(fs: seq<Filter>): seq<string> {
    seq(|fs|, i requires 0 <= i < |fs| => RenderFilter(fs[i].kind, i + 1))
  }

  function FilterArgs(fs: seq<Filter>): seq<Arg> {
    seq(|fs|, i requires 0 <= i < |fs| => fs[i].arg)
  }

  /** strings.Join. */
  function Join(parts: seq<string>, sep: string): string {
    if |parts| == 0 then ""
    else if |parts| == 1 then parts[0]
    else Join(parts[..|parts| - 1], sep) + sep + parts[|parts| - 1]
  }

  /** " WHERE " and the conditions joined by " AND ", or nothing at all when
      there is no condition. */
  function WhereClause(conds: seq<string>): string {
    if |conds| > 0 then " WHERE " + Join(conds, " AND ") else ""
  }

  /** The sort column: "name" ascending, "popularity" descending, rating
      descending for anything else. */
  function OrderBy(sortBy: string): string {
    if sortBy == "name" then "name ASC"
    else if sortBy == "popularity" then "popularity DESC"
    else "rating DESC"
  }

  /** The page size: the request's limit when it is 1..50, else 10. */
  function SearchLimit(limit: int): (n: int)
    ensures 1 <= n <= 50
    ensures 1 <= limit <= 50 <==> n == limit
    ensures !(1 <= limit <= 50) ==> n == 10
  {
    if limit > 0 && limit <= 50 then limit else 10
  }

  /** The offset: (page - 1) pages of `limit` rows when page > 1, else 0. */
  function SearchOffset(page: int, limit: int): (n: int)
    requires limit >= 1
    ensures n >= 0
    ensures page > 1 ==> n == (page - 1) * limit
    ensures page <= 1 ==> n == 0
  {
    if page > 1 then (page - 1) * limit else 0
  }

  const SearchSelect := "\n\t\tSELECT id, name, description, city, country, address, image_url, category, rating, latitude, longitude, duration\n\t\tFROM attractions\n\t"
  const CountSelect := "SELECT COUNT(*) FROM attractions"

  lemma ConditionsSnoc(fs: seq<Filter>, f: Filter)
    ensures Conditions(fs + [f]) == Conditions(fs) + [RenderFilter(f.kind, |fs| + 1)]
    ensures FilterArgs(fs + [f]) == FilterArgs(fs) + [f.arg]
  {
    assert forall i :: 0 <= i < |fs| ==> (fs + [f])[i] == fs[i];
  }

  lemma ConditionsLength(fs: seq<Filter>)
    ensures |Conditions(fs)| == |FilterArgs(fs)| == |fs|
  {
  }

  /** The filter of a slot as a sequence of none or one. */
  function Present(slot: Option<Filter>): seq<Filter> {
    if slot.Some? then [slot.value] else []
  }

  /** The five slots, one after another. */
  lemma FiltersUnrolled(params: SearchRequest)
    ensures Filters(params) == [] + Present(Slot(params, 0)) + Present(Slot(params, 1)) + Present(Slot(params, 2))
                                  + Present(Slot(params, 3)) + Present(Slot(params, 4))
  {
    assert FiltersUpTo(params, 1) == [] + Present(Slot(params, 0));
    assert FiltersUpTo(params, 2) == FiltersUpTo(params, 1) + Present(Slot(params, 1));
    assert FiltersUpTo(params, 3) == FiltersUpTo(params, 2) + Present(Slot(params, 2));
    assert FiltersUpTo(params, 4) == FiltersUpTo(params, 3) + Present(Slot(params, 3));
  }

  /** The conditions, arguments and next placeholder of filters `fs`. */
  predicate Built(fs: seq<Filter>, conds: seq<string>, args: seq<Arg>, paramIndex: int) {
    conds == Conditions(fs) && args == FilterArgs(fs) && paramIndex == |fs| + 1
  }

  /** One filter added: its condition on the next placeholder, its
      argument, and the placeholder counter moved on. */
  method AppendFilter(ghost fs: seq<Filter>, conds: seq<string>, args: seq<Arg>, paramIndex: int, f: Filter)
    returns (conds': seq<string>, args': seq<Arg>, paramIndex': int)
    requires Built(fs, conds, args, paramIndex)
    ensures Built(fs + Present(Some(f)), conds', args', paramIndex')
  {
    ConditionsSnoc(fs, f);
    assert fs + Present(Some(f)) == fs + [f];
    conds' := conds + [RenderFilter(f.kind, paramIndex)];
    args' := args + [f.arg];
    paramIndex' := paramIndex + 1;
  }

  /** A filter that does not apply changes nothing. */
  lemma SkipFilter(fs: seq<Filter>, conds: seq<string>, args: seq<Arg>, paramIndex: int)
    requires Built(fs, conds, args, paramIndex)
    ensures Built(fs + Present(None), conds, args, paramIndex)
  {
    assert fs + Present(None) == fs;
  }

  /** The conditions of a request, built the way both the search and the
      count query build them: one per set filter, each bound to the next
      placeholder. */
  method SearchConditions(params: SearchRequest) returns (conds: seq<string>, args: seq<Arg>, paramIndex: int)
    ensures conds == Conditions(Filters(params))
    ensures args == FilterArgs(Filters(params))
    ensures paramIndex == |args| + 1
  {
    conds, args, paramIndex := [], [], 1;
    // the filters applied so far
    ghost var fs: seq<Filter> := [];
    assert Built(fs, conds, args, paramIndex);
    if params.name != "" {
      var f := Filter(NameFilter, TextArg("%" + params.name + "%"));
      conds, args, paramIndex := AppendFilter(fs, conds, args, paramIndex, f);
    } else {
      SkipFilter(fs, conds, args, paramIndex);
    }
    fs := fs + Present(Slot(params, 0));
    assert Built(fs, conds, args, paramIndex);
    if params.city != "" {
      var f := Filter(CityFilter, TextArg("%" + params.city + "%"));
      conds, args, paramIndex := AppendFilter(fs, conds, args, paramIndex, f);
    } else {
      SkipFilter(fs, conds, args, paramIndex);
    }
    fs := fs + Present(Slot(params, 1));
    assert Built(fs, conds, args, paramIndex);
    if params.country != "" {
      var f := Filter(CountryFilter, TextArg("%" + params.country + "%"));
      conds, args, paramIndex := AppendFilter(fs, conds, args, paramIndex, f);
    } else {
      SkipFilter(fs, conds, args, paramIndex);
    }
    fs := fs + Present(Slot(params, 2));
    assert Built(fs, conds, args, paramIndex);
    if params.category != "" {
      var f := Filter(CategoryFilter, TextArg(params.category));
      conds, args, paramIndex := AppendFilter(fs, conds, args, paramIndex, f);
    } else {
      SkipFilter(fs, conds, args, paramIndex);
    }
    fs := fs + Present(Slot(params, 3));
    assert Built(fs, conds, args, paramIndex);
    if params.minRating > 0.0 {
      var f := Filter(RatingFilter, RatingArg(params.minRating));
      conds, args, paramIndex := AppendFilter(fs, conds, args, paramIndex, f);
    } else {
      SkipFilter(fs, conds, args, paramIndex);
    }
    fs := fs + Present(Slot(params, 4));
    assert Built(fs, conds, args, paramIndex);
    FiltersUnrolled(params);
    ConditionsLength(fs);
  }

  /** buildSearchQuery: the select, the WHERE clause, the sort, and LIMIT and
      OFFSET bound to the two placeholders after the filters'. */
  method BuildSearchQuery(params: SearchRequest) returns (query: string, args: seq<Arg>)
    ensures var fs := Filters(params);
            query == SearchSelect + WhereClause(Conditions(fs)) + " ORDER BY " + OrderBy(params.sortBy)
                     + " LIMIT $" + IntToString(|fs| + 1) + " OFFSET $" + IntToString(|fs| + 2)
    ensures var limit := SearchLimit(params.limit);
            args == FilterArgs(Filters(params)) + [IntArg(limit), IntArg(SearchOffset(params.page, limit))]
  {
    var conds, paramIndex;
    conds, args, paramIndex := SearchConditions(params);
    query := SearchSelect;
    if |conds| > 0 {
      query := query + " WHERE " + Join(conds, " AND ");
    }
    var orderBy := "rating DESC";
    if params.sortBy != "" {
      if params.sortBy == "name" {
        orderBy := "name ASC";
      } else if params.sortBy == "rating" {
        orderBy := "rating DESC";
      } else if params.sortBy == "popularity" {
        orderBy := "popularity DESC";
      }
    }
    assert orderBy == OrderBy(params.sortBy);
    ghost var prefix := query;
    assert prefix == SearchSelect + WhereClause(conds);
    query := query + " ORDER BY " + orderBy;
    var limit := 10;
    if params.limit > 0 && params.limit <= 50 {
      limit := params.limit;
    }
    var offset := 0;
    if params.page > 1 {
      offset := (params.page - 1) * limit;
    }
    assert limit == SearchLimit(params.limit) && offset == SearchOffset(params.page, limit);
    query := query + " LIMIT $" + IntToString(paramIndex) + " OFFSET $" + IntToString(paramIndex + 1);
    args := args + [IntArg(limit), IntArg(offset)];
  }

  /** The request Search uses: the caller's, or page 1 of 10 when there is
      none. */
  function SearchParams(params: Option<SearchRequest>): (p: SearchRequest)
    ensures params.Some? ==> p == params.value
    ensures params.None? ==> Filters(p) == [] && SearchLimit(p.limit) == 10 && SearchOffset(p.page, 10) == 0
  {
    if params.Some? then params.value else SearchRequest("", "", "", "", 0.0, "", 1, 10)
  }

  /** The two queries of Search: the count query carries the same
      conditions and arguments as the page query, without LIMIT and
      OFFSET. */
  method SearchQueries(params: Option<SearchRequest>)
    returns (countQuery: string, countArgs: seq<Arg>, query: string, args: seq<Arg>)
    ensures |args| == |countArgs| + 2 && args[..|countArgs|] == countArgs
    ensures countQuery == CountSelect + WhereClause(Conditions(Filters(SearchParams(params))))
    ensures countArgs == FilterArgs(Filters(SearchParams(params)))
    ensures var fs := Filters(SearchParams(params));
            query == SearchSelect + WhereClause(Conditions(fs)) + " ORDER BY " + OrderBy(SearchParams(params).sortBy)
                     + " LIMIT $" + IntToString(|fs| + 1) + " OFFSET $" + IntToString(|fs| + 2)
    ensures var limit := SearchLimit(SearchParams(params).limit);
            args == countArgs + [IntArg(limit), IntArg(SearchOffset(SearchParams(params).page, limit))]
    ensures params.None? ==> countQuery == CountSelect && args == [IntArg(10), IntArg(0)]
  {
    var p := SearchParams(params);
    var conds, paramIndex;
    conds, countArgs, paramIndex := SearchConditions(p);
    countQuery := CountSelect;
    if |conds| > 0 {
      countQuery := countQuery + " WHERE " + Join(conds, " AND ");
    }
    query, args := BuildSearchQuery(p);
  }

  /** One condition per set filter, in the fixed order name, city, country,
      category, rating, each filter at most once. */
  lemma {:induction false} FiltersUpToOrdered(params: SearchRequest, k: nat)
    ensures forall i, j :: 0 <= i < j < |FiltersUpTo(params, k)| ==>
              Rank(FiltersUpTo(params, k)[i].kind) < Rank(FiltersUpTo(params, k)[j].kind)
    ensures forall i :: 0 <= i < |FiltersUpTo(params, k)| ==> Rank(FiltersUpTo(params, k)[i].kind) < k
    ensures forall i :: 0 <= i < |FiltersUpTo(params, k)| ==>
              Slot(params, Rank(FiltersUpTo(params, k)[i].kind)) == Some(FiltersUpTo(params, k)[i])
    ensures forall r: nat :: r < k && Slot(params, r).Some? ==> Slot(params, r).value in FiltersUpTo(params, k)
  {
    if k > 0 {
      FiltersUpToOrdered(params, k - 1);
      var prev := FiltersUpTo(params, k - 1);
      var slot := Slot(params, k - 1);
      assert FiltersUpTo(params, k) == prev + Present(slot);
      if slot.Some? {
        SlotRank(params, k - 1);
        var cur := prev + [slot.value];
        assert FiltersUpTo(params, k) == cur;
        assert forall i :: 0 <= i < |prev| ==> cur[i] == prev[i];
        assert cur[|prev|] == slot.value;
      } else {
        assert FiltersUpTo(params, k) == prev;
      }
    }
  }

  /** A slot holds the filter of its own rank. */
  lemma SlotRank(params: SearchRequest, r: nat)
    ensures Slot(params, r).Some? ==> r < 5 && Rank(Slot(params, r).value.kind) == r
  {
  }

  /** Some condition is of kind `k`. */
  predicate HasKind(fs: seq<Filter>, k: FilterKind) {
    exists i :: 0 <= i < |fs| && fs[i].kind == k
  }

  /** The request field behind a filter kind is set: a non-empty text, or a
      positive minimum rating. */
  predicate FieldSet(params: SearchRequest, k: FilterKind) {
    match k
    case NameFilter => params.name != ""
    case CityFilter => params.city != ""
    case CountryFilter => params.country != ""
    case CategoryFilter => params.category != ""
    case RatingFilter => params.minRating > 0.0
  }

  /** The slot of a kind's rank is filled exactly when its field is set. */
  lemma SlotFilled(params: SearchRequest, k: FilterKind)
    ensures Slot(params, Rank(k)).Some? <==> FieldSet(params, k)
  {
  }

  /** A filter kind occurs among the conditions exactly when its request
      field is set. */
  lemma FiltersPresent(params: SearchRequest, k: FilterKind)
    ensures HasKind(Filters(params), k) <==> Slot(params, Rank(k)).Some?
    ensures HasKind(Filters(params), k) <==> FieldSet(params, k)
  {
    SlotFilled(params, k);
    var fs := FiltersUpTo(params, 5);
    FiltersUpToOrdered(params, 5);
    if HasKind(fs, k) {
      var i :| 0 <= i < |fs| && fs[i].kind == k;
      assert Slot(params, Rank(fs[i].kind)) == Some(fs[i]);
    }
    var slot := Slot(params, Rank(k));
    if slot.Some? {
      var f := slot.value;
      assert Rank(k) < 5;
      assert f in fs;
      var i :| 0 <= i < |fs| && fs[i] == f;
      SlotRank(params, Rank(k));
      RankInjective(f.kind, k);
      assert fs[i].kind == k;
    }
  }

  /** Placeholders run $1 .. $n for the n arguments: the conditions take
      $1 .. $(n-2) and LIMIT and OFFSET the last two. */
  lemma PlaceholdersMatchArguments(params: SearchRequest)
    ensures var fs := Filters(params);
            var args := FilterArgs(fs) + [IntArg(SearchLimit(params.limit)), IntArg(SearchOffset(params.page, SearchLimit(params.limit)))];
            && |args| == |fs| + 2
            && (forall i :: 0 <= i < |fs| ==> Conditions(fs)[i] == RenderFilter(fs[i].kind, i + 1) && args[i] == fs[i].arg)
            && args[|fs|] == IntArg(SearchLimit(params.limit))
  {
    var fs := Filters(params);
    var limit := SearchLimit(params.limit);
    var filterArgs := FilterArgs(fs);
    var args := filterArgs + [IntArg(limit), IntArg(SearchOffset(params.page, limit))];
    assert |filterArgs| == |fs|;
    forall i | 0 <= i < |fs|
      ensures Conditions(fs)[i] == RenderFilter(fs[i].kind, i + 1) && args[i] == fs[i].arg
    {
      assert args[i] == filterArgs[i];
    }
    assert args[|fs|] == IntArg(limit);
  }

  /** %d of distinct placeholder numbers differs, so no two conditions share
      a placeholder. */
  lemma ConditionsUseDistinctPlaceholders(fs: seq<Filter>, i: nat, j: nat)
    requires i < j < |fs|
    ensures Conditions(fs)[i] == RenderFilter(fs[i].kind, i + 1)
    ensures Conditions(fs)[j] == RenderFilter(fs[j].kind, j + 1)
    ensures IntToString(i + 1) != IntToString(j + 1)
  {
    if IntToString(i + 1) == IntToString(j + 1) {
      NatToStringInjective(i + 1, j + 1);
    }
  }

  /** There is a WHERE clause exactly when some filter is set. */
  lemma WhereOnlyWithFilters(params: SearchRequest)
    ensures WhereClause(Conditions(Filters(params))) == "" <==> Filters(params) == []
  {
  }

  // ---------------------------------------------------------------------
  // The fixed listing queries

  /** The limit of GetPopular, GetByCategory, GetByCountry and
      GetByCityOrCountry: 10 when not positive, otherwise as given (no upper
      bound). */
  function DefaultLimit(limit: int): (n: int)
    ensures n >= 1
    ensures limit > 0 ==> n == limit
    ensures limit <= 0 ==> n == 10
  {
    if limit <= 0 then 10 else limit
  }

  /** How a fixed listing compares a column with its argument. */
  datatype Comparison = ILike | Equal

  /** One condition of a fixed listing: a column compared with placeholder
      `$param`. */
  datatype Condition = Condition(column: string, op: Comparison, param: nat)

  /** A fixed listing query: its conditions (joined by OR), its sort, and
      the placeholder of its LIMIT. */
  datatype Listing = Listing(where: seq<Condition>, orderBy: string, limitParam: nat)

  /** GetPopular: no filter, by rating and then popularity. */
  const Popular := Listing([], "rating DESC, popularity DESC", 1)

  /** GetByCategory: the category equal to $1. */
  const ByCategory := Listing([Condition("category", Equal, 1)], "rating DESC", 2)

  /** GetByCountry: the country matched by $1. */
  const ByCountry := Listing([Condition("country", ILike, 1)], "rating DESC", 2)

  /** GetByCityOrCountry: the city or the country matched by the one
      argument $1. */
  const ByCityOrCountry := Listing([Condition("city", ILike, 1), Condition("country", ILike, 1)], "rating DESC", 2)

  function ConditionSql(c: Condition): string {
    c.column + (if c.op == ILike then " ILIKE $" else " = $") + IntToString(c.param)
  }

  function ConditionTexts(cs: seq<Condition>): seq<string> {
    seq(|cs|, i requires 0 <= i < |cs| => ConditionSql(cs[i]))
  }

  /** The SQL text of a listing (up to the layout of its white space). */
  function ListingSql(q: Listing): string {
    SearchSelect + ListingClauses(q)
  }

  /** What follows the SELECT: the conditions joined by " OR ", the sort
      and the LIMIT. */
  function ListingClauses(q: Listing): string {
    var conds := ConditionTexts(q.where);
    (if |conds| > 0 then " WHERE " + Join(conds, " OR ") else "")
    + " ORDER BY " + q.orderBy + " LIMIT $" + IntToString(q.limitParam)
  }

  /** The clauses of the four listings, as the repository writes them
      (each stated piece by piece). */
  lemma ListingTexts()
    ensures ListingClauses(Popular) == " ORDER BY " + "rating DESC, popularity DESC" + " LIMIT $" + "1"
    ensures ListingClauses(ByCategory) == " WHERE " + "category = $1" + " ORDER BY " + "rating DESC" + " LIMIT $" + "2"
    ensures ListingClauses(ByCountry) == " WHERE " + "country ILIKE $1" + " ORDER BY " + "rating DESC" + " LIMIT $" + "2"
    ensures ListingClauses(ByCityOrCountry)
            == " WHERE " + "city ILIKE $1" + " OR " + "country ILIKE $1" + " ORDER BY " + "rating DESC" + " LIMIT $" + "2"
  {
    OneAndTwo();
    assert ConditionTexts(ByCategory.where) == ["category = $1"] by {
      assert "category" + " = $" + "1" == "category = $1";
    }
    assert ConditionTexts(ByCountry.where) == ["country ILIKE $1"] by {
      assert "country" + " ILIKE $" + "1" == "country ILIKE $1";
    }
    var conds := ConditionTexts(ByCityOrCountry.where);
    assert conds == ["city ILIKE $1", "country ILIKE $1"] by {
      assert "city" + " ILIKE $" + "1" == "city ILIKE $1";
      assert "country" + " ILIKE $" + "1" == "country ILIKE $1";
    }
    assert conds[..1] == ["city ILIKE $1"];
  }

  lemma OneAndTwo()
    ensures IntToString(1) == "1" && IntToString(2) == "2"
  {
    assert NatToString(1) == "1";
    assert NatToString(2) == "2";
  }

  /** Placeholder `$p` occurs in the listing. */
  ghost predicate Uses(q: Listing, p: nat) {
    p == q.limitParam || exists c :: c in q.where && c.param == p
  }

  /** The arguments bind the listing: the placeholders it uses are exactly
      $1 .. $n for n arguments, every condition's is a text, and the LIMIT's
      is a positive integer. */
  ghost predicate BindsExactly(q: Listing, args: seq<Arg>) {
    && (forall p: nat :: Uses(q, p) <==> 1 <= p <= |args|)
    && (forall c :: c in q.where ==> 1 <= c.param <= |args| && args[c.param - 1].TextArg?)
    && 1 <= q.limitParam <= |args|
    && args[q.limitParam - 1].IntArg? && args[q.limitParam - 1].n >= 1
  }

  /** The arguments of GetPopular. */
  function PopularArgs(limit: int): (args: seq<Arg>)
    ensures BindsExactly(Popular, args)
    ensures args[Popular.limitParam - 1] == IntArg(DefaultLimit(limit))
  {
    [IntArg(DefaultLimit(limit))]
  }

  /** The arguments of GetByCategory: the category, matched exactly. */
  function ByCategoryArgs(category: string, limit: int): (args: seq<Arg>)
    ensures BindsExactly(ByCategory, args)
    ensures forall c :: c in ByCategory.where ==> args[c.param - 1] == TextArg(category)
    ensures args[ByCategory.limitParam - 1] == IntArg(DefaultLimit(limit))
  {
    [TextArg(category), IntArg(DefaultLimit(limit))]
  }

  /** The arguments of GetByCountry: the country as a "%v%" pattern. */
  function ByCountryArgs(country: string, limit: int): (args: seq<Arg>)
    ensures BindsExactly(ByCountry, args)
    ensures forall c :: c in ByCountry.where ==> args[c.param - 1] == TextArg("%" + country + "%")
    ensures args[ByCountry.limitParam - 1] == IntArg(DefaultLimit(limit))
  {
    [TextArg("%" + country + "%"), IntArg(DefaultLimit(limit))]
  }

  /** The arguments of GetByCityOrCountry: the destination as one "%v%"
      pattern, which both conditions use. */
  function ByCityOrCountryArgs(destination: string, limit: int): (args: seq<Arg>)
    ensures BindsExactly(ByCityOrCountry, args)
    ensures forall c :: c in ByCityOrCountry.where ==> args[c.param - 1] == TextArg("%" + destination + "%")
    ensures args[ByCityOrCountry.limitParam - 1] == IntArg(DefaultLimit(limit))
  {
    [TextArg("%" + destination + "%"), IntArg(DefaultLimit(limit))]
  }

  // ---------------------------------------------------------------------
  // Which attractions a fixed listing selects

  /** The columns of an attraction that the listings filter on. */
  datatype Place = Place(city: string, country: string, category: string)

  function Column(place: Place, name: string): string {
    if name == "city" then place.city
    else if name == "country" then place.country
    else if name == "category" then place.category
    else ""
  }

  /** A condition holds of a row with the arguments bound; `ilike` is the
      database's ILIKE. */
  predicate Holds(c: Condition, args: seq<Arg>, place: Place, ilike: (string, string) -> bool) {
    && 1 <= c.param <= |args|
    && args[c.param - 1].TextArg?
    && (if c.op == ILike then ilike(Column(place, c.column), args[c.param - 1].text)
        else Column(place, c.column) == args[c.param - 1].text)
  }

  /** The row passes the WHERE clause: there is none, or one of its
      conditions holds. */
  ghost predicate Selects(q: Listing, args: seq<Arg>, place: Place, ilike: (string, string) -> bool) {
    |q.where| == 0 || exists c :: c in q.where && Holds(c, args, place, ilike)
  }

  /** What each listing selects: GetPopular every row, GetByCategory the
      rows of the category, GetByCountry the rows whose country matches the
      pattern, and GetByCityOrCountry the rows whose city or whose country
      matches the one destination pattern. */
  lemma ListingSelections(category: string, country: string, destination: string, limit: int,
                          place: Place, ilike: (string, string) -> bool)
    ensures Selects(Popular, PopularArgs(limit), place, ilike)
    ensures Selects(ByCategory, ByCategoryArgs(category, limit), place, ilike) <==> place.category == category
    ensures Selects(ByCountry, ByCountryArgs(country, limit), place, ilike)
            <==> ilike(place.country, "%" + country + "%")
    ensures Selects(ByCityOrCountry, ByCityOrCountryArgs(destination, limit), place, ilike)
            <==> ilike(place.city, "%" + destination + "%") || ilike(place.country, "%" + destination + "%")
  {
    assert ByCategory.where[0] in ByCategory.where;
    assert ByCountry.where[0] in ByCountry.where;
    assert ByCityOrCountry.where[0] in ByCityOrCountry.where;
    assert ByCityOrCountry.where[1] in ByCityOrCountry.where;
  }
}
