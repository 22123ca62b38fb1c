# Travel Planning Assistant: the itinerary, user and search core in Dafny

This project models the back end of the Travel Planning Assistant, a web
service where users register, sign in, keep travel preferences and plan
itineraries. An itinerary is a list of days, and each day is a list of
items. The model covers these parts:

- **Itinerary aggregate** (`itinerary_model.dfy`): itineraries, days and
  items as values; appending a day or an item; the summary response with its
  day count; decoding an itinerary row, where a NULL description reads as "".
- **Itinerary store** (`itinerary_repository.dfy`): the PostgreSQL
  repository as a class over three tables and their id sequences.
  - Create writes the itinerary, its days and their items in one
    transaction. It stops at the first rejected statement and then leaves the
    tables as they were. Which statement the database rejects, and how it
    converts item time texts into minute columns, are parameters (`Backend`).
  - Reads return days in `day_number` order and items in `item_order`
    order. List queries are newest first, with a limit and an offset.
  - Update rewrites the itinerary row only; its days and items are kept.
  - Delete removes the itinerary together with its days and their items.
  - `formatMinutesToTime` is modelled with Go's truncating `/` and `%`.
- **Itinerary service** (`itinerary_service.dfy`): request validation, paging,
  the owner checks before update, delete and add-day, and the summaries of
  listed pages.
- **Itinerary controller** (`itinerary_controller.dfy`): the page, limit and
  page-size clamps of both handler families, the page count, the rule for who
  may see a private itinerary, and the three item endpoints that answer 501.
- **JWT middleware** (`jwt_auth.dfy`): parsing of the `Authorization: Bearer
  <token>` header (the form of section 2.1 of RFC 6750), the rejection
  messages, and the user id and name stored in the request context. The JWT
  library itself is a parameter.
- **Attraction search** (`attraction_repository.dfy`): the SQL text and
  argument list that `buildSearchQuery` builds from a search request, and the
  count query of `Search`. The four fixed listings (popular, by category, by
  country, by city or country) are modelled as structured queries: their
  conditions, sort and LIMIT placeholder, the text they render to, the
  arguments bound to the placeholders, and the rows they select.
- **Users and preferences** (`user_model.dfy`, `user_repository.dfy`,
  `user_service.dfy`, `auth_service.dfy`):
  - the users table with its NULL defaults;
  - the two preference tables, which are insert-or-update by user id, with
    their JSON tag columns;
  - the profile and password rules of the user service;
  - registration and login. Password hashing and checking and token minting
    are parameters.

Small shared modules: `wrappers.dfy` (Option, Result), `decimal.dfy` (Go's
`%d` and its inverse) and `ordering.dfy` (listing a key set in sort-key
order, the model of an `ORDER BY`).

Clocks (`time.Now`) are `now` parameters.

## Model

| member | source | states |
|---|---|---|
| ItineraryModel.ItineraryDay.AddItem | models/itinerary.go:129-134 | the item is appended at the end; the earlier items and every other field are kept |
| ItineraryModel.Itinerary.AddDay | models/itinerary.go:121-126 | the day is appended at the end; the earlier days and every other field are kept |
| ItineraryModel.Itinerary.ToItineraryResponse | models/itinerary.go:76-89 | the response copies every scalar field but the owner, and its day count is DaysCount of the two dates |
| ItineraryModel.CoveredDatesMembers | models/itinerary.go:84 | a date is among the covered dates exactly when it lies between the start and the end, both included |
| ItineraryModel.DaysCountIsInclusiveSpan | models/itinerary.go:84 | when the end is not before the start, the day count equals the number of covered dates; it is at least 1, and 1 for a one-day trip |
| ItineraryModel.ScanItinerary | models/itinerary.go:92-118 | decoding keeps every column; a NULL description reads as ""; the day list starts empty |
| ItineraryModel.ScanRowOf | models/itinerary.go:92-118 | a row written for an itinerary reads back as that itinerary without its days (the round trip) |
| ItineraryRepository.GoDivModNonNegative | repositories/itinerary_repository.go:697-701 | for a non-negative argument, Go's truncating / and % agree with Euclidean division |
| ItineraryRepository.ParseTwoDigits | repositories/itinerary_repository.go:697-701 | the two-digit pad of a minute value below 60 parses back to that value |
| ItineraryRepository.ZeroPad2Digits | repositories/itinerary_repository.go:697-701 | %02d of a value in 0..59 is exactly two digits |
| ItineraryRepository.FormatMinutesShape | repositories/itinerary_repository.go:697-701 | for minutes >= 0 the text is the hour in decimal, ':', and two minute digits |
| ItineraryRepository.ReadClockParts | repositories/itinerary_repository.go:697-701 | the hour and minute fields of a formatted time read back as minutes / 60 and minutes % 60 |
| ItineraryRepository.ReadClockFormat | repositories/itinerary_repository.go:697-701 | reading a formatted non-negative time back as a clock gives the original minutes (the round trip) |
| ItineraryRepository.FormatMinutesInjective | repositories/itinerary_repository.go:697-701 | distinct non-negative minute values format to distinct texts |
| ItineraryRepository.FormatMinutesExample | repositories/itinerary_repository.go:697-701 | 570 minutes formats as "9:30" |
| ItineraryRepository.FormatMinutesNegative | repositories/itinerary_repository.go:697-701 | a negative value formats with Go's truncating operators: -90 gives "-1:-30" |
| ItineraryRepository.ScanItem | repositories/itinerary_repository.go:231-281 | NULL ref_id, latitude and longitude read as 0; NULL texts and NULL times read as ""; other times as H:MM |
| ItineraryRepository.InsertItem | repositories/itinerary_repository.go:145-174 | a successful insert stores the item under the next item id, with its two times converted, and touches no other table |
| ItineraryRepository.InsertItems | repositories/itinerary_repository.go:128-138 | a successful item loop only adds rows and returns one item per input item |
| ItineraryRepository.AddDayRow | repositories/itinerary_repository.go:107-125 | the day row is stored under the next day id; every other table and sequence is kept |
| ItineraryRepository.InsertDay | repositories/itinerary_repository.go:107-142 | a successful day insert only adds rows |
| ItineraryRepository.InsertDays | repositories/itinerary_repository.go:85-97 | a successful day loop only adds rows and returns one day per input day |
| ItineraryRepository.AddItineraryRow | repositories/itinerary_repository.go:57-81 | the itinerary row is stored under the next itinerary id; days, items and their sequences are kept |
| ItineraryRepository.CreateTx | repositories/itinerary_repository.go:39-104 | a successful Create transaction only adds rows |
| ItineraryRepository.CreateTxUnfolds | repositories/itinerary_repository.go:39-104 | Create fails with the first statement's error when that statement is rejected; otherwise it writes the row and runs the day loop |
| ItineraryRepository.TimesConvertSnoc | repositories/itinerary_repository.go:128-138 | every item's times convert exactly when those of the prefix and of the last item do |
| ItineraryRepository.DayTimesConvertSnoc | repositories/itinerary_repository.go:85-97 | the same split for the days of an itinerary |
| ItineraryRepository.ItemsAssignedGrows | repositories/itinerary_repository.go:128-138 | items stored as assigned stay stored when later inserts only add rows |
| ItineraryRepository.DaysAssignedGrows | repositories/itinerary_repository.go:85-97 | days stored as assigned stay stored when later inserts only add rows |
| ItineraryRepository.ItemsAssignedSnoc | repositories/itinerary_repository.go:128-138 | one more stored item, numbered one past the prefix, extends the assignment |
| ItineraryRepository.DaysAssignedSnoc | repositories/itinerary_repository.go:85-97 | one more stored day, numbered one past the prefix, extends the assignment |
| ItineraryRepository.InsertItemsAssigns | repositories/itinerary_repository.go:128-138 | the item loop gives the j-th item the day's id, order j + 1 and a fresh increasing id, and stores it as given; no other table changes |
| ItineraryRepository.InsertItemsOutcome | repositories/itinerary_repository.go:128-138 | with no statement rejected, the item loop succeeds exactly when every start and end time converts |
| ItineraryRepository.InsertDayAssigns | repositories/itinerary_repository.go:107-142 | addDayTx stores the day under a fresh id, as given, and numbers its items; it makes 1 + the number of items inserts |
| ItineraryRepository.InsertDayUnfolds | repositories/itinerary_repository.go:107-142 | a successful day insert is the day row followed by the item loop under the new day id |
| ItineraryRepository.InsertDayOutcome | repositories/itinerary_repository.go:107-142 | with no statement rejected, a day insert succeeds exactly when its items' times convert |
| ItineraryRepository.InsertDaysAssigns | repositories/itinerary_repository.go:85-97 | the day loop gives the i-th day the itinerary's id, number i + 1 and a fresh increasing id, and stores its items as assigned |
| ItineraryRepository.InsertDaysOutcome | repositories/itinerary_repository.go:85-97 | with no statement rejected, the day loop succeeds exactly when every item time of every day converts |
| ItineraryRepository.CreateAssigns | repositories/itinerary_repository.go:39-104 | a successful Create stores the itinerary under a fresh id stamped with now, and its days and items as numbered |
| ItineraryRepository.CreateOutcome | repositories/itinerary_repository.go:39-104 | with no statement rejected, Create succeeds exactly when every item time converts |
| ItineraryRepository.InsertItemsStopsAtError | repositories/itinerary_repository.go:128-138 | once a prefix of the item loop fails, the whole loop fails with the same error |
| ItineraryRepository.InsertDaysStopsAtError | repositories/itinerary_repository.go:85-97 | once a prefix of the day loop fails, the whole loop fails with the same error |
| ItineraryRepository.InsertItemsStep | repositories/itinerary_repository.go:128-138 | one more turn of the item loop is one more insert of the next numbered item |
| ItineraryRepository.InsertDaysStep | repositories/itinerary_repository.go:85-97 | one more turn of the day loop is one more day insert |
| ItineraryRepository.InsertItemsInTx | repositories/itinerary_repository.go:128-138 | the imperative item loop computes exactly InsertItems |
| ItineraryRepository.InsertDaysInTx | repositories/itinerary_repository.go:85-97 | the imperative day loop computes exactly InsertDays |
| ItineraryRepository.AddDayInTx | repositories/itinerary_repository.go:107-142 | the imperative addDayTx computes exactly InsertDay |
| ItineraryRepository.Window | repositories/itinerary_repository.go:322-378 | LIMIT/OFFSET keeps min(limit, rows left after offset) ids, each the id offset + i of the ordering |
| ItineraryRepository.UpdatedRow | repositories/itinerary_repository.go:381-415 | the updated row reads back as the caller's itinerary with the stored owner, the stored created_at and updated_at = now |
| ItineraryRepository.WithoutDay | repositories/itinerary_repository.go:518-555 | the day and exactly its items are removed; every other row is kept unchanged; no row is left dangling |
| ItineraryRepository.WithoutItinerary | repositories/itinerary_repository.go:418-464 | the itinerary, exactly its days and exactly their items are removed; every other row is kept; no row is left dangling |
| ItineraryRepository.ItineraryStore.Commit | repositories/itinerary_repository.go:99-103 | the finished transaction's tables become the store's tables |
| ItineraryRepository.ItineraryStore.Create | repositories/itinerary_repository.go:39-104 | on success the tables are those of CreateTx and the result is its itinerary; on any error the tables are as before |
| ItineraryRepository.ItineraryStore.AddDay | repositories/itinerary_repository.go:467-485 | the day and its items in one transaction: success stores InsertDay's tables; an error leaves the tables unchanged |
| ItineraryRepository.ItineraryStore.AddItem | repositories/itinerary_repository.go:558-576 | one item in one transaction: success stores InsertItem's tables; an error leaves the tables unchanged |
| ItineraryRepository.ItineraryStore.ReadItems | repositories/itinerary_repository.go:218-283 | every item of the day exactly once, decoded, in item_order |
| ItineraryRepository.ItineraryStore.GetByID | repositories/itinerary_repository.go:177-290 | a missing id is sql.ErrNoRows; otherwise the decoded row with every day exactly once, in day_number order, each with its items |
| ItineraryRepository.ItineraryStore.ListPage | repositories/itinerary_repository.go:322-378 | a negative offset or limit is refused; otherwise the LIMIT/OFFSET window of the key set ordered newest first, decoded |
| ItineraryRepository.ItineraryStore.GetByUserID | repositories/itinerary_repository.go:322-378 | at most `limit` itineraries, all of the user, newest first, without days |
| ItineraryRepository.ItineraryStore.GetPublicItineraries | repositories/itinerary_repository.go:638-694 | at most `limit` itineraries, all public, newest first, without days |
| ItineraryRepository.ItineraryStore.Update | repositories/itinerary_repository.go:381-415 | a missing id gives "行程不存在" and changes nothing; otherwise only that row becomes UpdatedRow |
| ItineraryRepository.ItineraryStore.Delete | repositories/itinerary_repository.go:418-464 | a missing id gives "行程不存在" and changes nothing; otherwise the tables become WithoutItinerary |
| ItineraryRepository.ItineraryStore.UpdateDay | repositories/itinerary_repository.go:488-515 | a missing day gives "行程天数不存在"; otherwise day_number, date and note are rewritten and the parent is kept |
| ItineraryRepository.ItineraryStore.DeleteDay | repositories/itinerary_repository.go:518-555 | a missing day gives "行程天数不存在"; otherwise the tables become WithoutDay |
| ItineraryRepository.ItineraryStore.UpdateItem | repositories/itinerary_repository.go:579-616 | a time that does not convert is an error with no change; a missing item gives "行程项目不存在"; otherwise every column but day_id is rewritten |
| ItineraryRepository.ItineraryStore.DeleteItem | repositories/itinerary_repository.go:619-635 | a missing item gives "行程项目不存在"; otherwise exactly that item is removed |
| ItineraryRepository.ListedPageWithin | repositories/itinerary_repository.go:322-378 | a listed page holds at most `limit` itineraries, each from the key set and without days |
| Ordering.InsertBy | repositories/itinerary_repository.go:195 | inserting into a key-sorted list keeps it sorted and adds exactly the new element |
| Ordering.SortedKeys | repositories/itinerary_repository.go:195 | lists every element of the key set exactly once, in non-decreasing order of the sort key (ORDER BY) |
| Decimal.ParseNatToString | repositories/attraction_repository.go:64-103 | the decimal that %d writes for a natural number parses back to it |
| Decimal.NatToStringInjective | repositories/attraction_repository.go:64-103 | distinct numbers render to distinct %d texts |
| ItineraryService.ValidateRequest | services/itinerary_service.go:42-53 | each error exactly when its check is the first to fail: empty title, empty destination, a zero date, end before start; None exactly when all pass |
| ItineraryService.ValidRequestSpansADay | services/itinerary_service.go:42-53 | a request that passes validation covers a day count of at least 1, equal to the number of covered dates |
| ItineraryService.ListPaging | services/itinerary_service.go:94-102 | page <= 0 means 1 and pageSize <= 0 means 10; the offset is a whole number of pages, the page number minus one |
| ItineraryService.PagingOffset | services/itinerary_service.go:94-102 | k pages of `size` rows divide back into k pages with no remainder |
| ItineraryService.ListPagingConsecutive | services/itinerary_service.go:94-102 | page p + 1 starts where page p ends |
| ItineraryService.Summaries | services/itinerary_service.go:105-111 | one summary per listed itinerary, in the same order |
| ItineraryService.ItineraryService.CreateItinerary | services/itinerary_service.go:40-81 | an invalid request gives its validation error and stores nothing; a failed transaction gives "创建行程失败: " and the cause; otherwise the stored itinerary's summary as read back |
| ItineraryService.ItineraryService.GetItineraryByID | services/itinerary_service.go:84-90 | a missing id gives "行程不存在"; otherwise the whole aggregate as GetByID loads it |
| ItineraryService.ItineraryService.GetUserItineraries | services/itinerary_service.go:93-114 | the summaries of the page of the caller's itineraries that the clamped paging selects, newest first |
| ItineraryService.ItineraryService.GetPublicItineraries | services/itinerary_service.go:395-416 | the summaries of the page of public itineraries that the clamped paging selects, newest first |
| ItineraryService.ItineraryService.UpdateItinerary | services/itinerary_service.go:117-166 | missing, then not the owner, then invalid: each refused with no change; otherwise only the six request fields and updated_at change |
| ItineraryService.ItineraryService.DeleteItinerary | services/itinerary_service.go:169-188 | missing, then not the owner: each refused with no change; otherwise the itinerary goes with its days and items |
| ItineraryService.ItineraryService.AddDay | services/itinerary_service.go:191-228 | missing, not the owner, then a zero date: each refused; otherwise an empty day numbered one past the existing days is stored under a fresh id |
| ItineraryService.AddedDayStored | services/itinerary_service.go:191-228 | the added day is stored under the itinerary with the chosen number, and no item is added |
| ItineraryController.AtoiIntToString | controllers/itinerary_controller.go:30-31 | strconv.Atoi reads back every number that %d writes |
| ItineraryController.ClampPageLimit | controllers/itinerary_controller.go:30-41 | page is at least 1 and limit in 1..100: a non-number or a page below 1 gives 1, a limit below 1 gives 10, above 100 gives 100; absent parameters give 1 and 10 |
| ItineraryController.ClampPageSize | controllers/itinerary_controller.go:377-392 | page is at least 1 and page_size in 1..50: a non-number or a value <= 0 gives 1 and 10, a size above 50 gives 50 |
| ItineraryController.TotalPagesIsCeiling | controllers/itinerary_controller.go:54-57 | (total + limit - 1) / limit is the ceiling of total / limit, and 0 exactly when there are no rows |
| ItineraryController.TotalPagesOfOnePage | controllers/itinerary_controller.go:53-57 | with the total taken as the length of one page, the page count is 0 or 1 |
| ItineraryController.ForbiddenExactly | controllers/itinerary_controller.go:360-363 | an itinerary is shown exactly when it is public or the caller's context holds the owner's id; an anonymous caller never sees a private one |
| ItineraryController.GetItinerary | controllers/itinerary_controller.go:341-366 | a non-number id gives 400; a missing one gives 404; a private itinerary of someone else gives 403; otherwise 200 with the whole aggregate |
| ItineraryController.ListPublicItineraries | controllers/itinerary_controller.go:28-69 | 200 with the page and limit clamped from the query (defaults 1 and 10, limit at most 100), the data being the summaries of the public itineraries on that page, at most `limit` of them, the total being the page's own length and the page count 0 or 1 |
| ItineraryController.ListUserItineraries | controllers/itinerary_controller.go:110-161 | an anonymous caller gets 401; otherwise 200 with the same clamps, the data being the summaries of the caller's own itineraries on that page |
| ItineraryController.AddItineraryItem | controllers/itinerary_controller.go:278-283 | always 501 |
| ItineraryController.UpdateItineraryItem | controllers/itinerary_controller.go:286-291 | always 501 |
| ItineraryController.DeleteItineraryItem | controllers/itinerary_controller.go:294-299 | always 501 |
| JwtAuth.FirstSpace | middlewares/jwt_auth.go:24 | the index of the first space, or None when there is none |
| JwtAuth.SplitN2 | middlewares/jwt_auth.go:24 | strings.SplitN(s, " ", 2): one part exactly when there is no space; two parts that joined by a space give s, the first without a space |
| JwtAuth.BearerTokenExact | middlewares/jwt_auth.go:24-29 | a header yields a token t exactly when it is "Bearer " followed by t |
| JwtAuth.BearerTokenRejections | middlewares/jwt_auth.go:24-29 | "bearer abc", a bare "Bearer" and "Basic abc" carry no token |
| JwtAuth.ValidateToken | utils/jwt.go:57-80 | accepted exactly when the library parses the token and calls it valid, with the library's claims; a refusal is the library's error or a fresh "invalid token" error, never a sentinel |
| JwtAuth.AsWrittenNeverSaysExpired | middlewares/jwt_auth.go:37 | as written, every refused token is reported as "令牌无效" |
| JwtAuth.RejectionMessage | middlewares/jwt_auth.go:32-43 | "令牌已过期" exactly for a token refused as expired, "令牌无效" otherwise |
| JwtAuth.ExpiredTokenMessages | middlewares/jwt_auth.go:37 | for an expired token the code as written says "令牌无效" while the intended message is "令牌已过期" |
| JwtAuth.UserIdOf | middlewares/jwt_auth.go:55-63 | (id, true) exactly when the key holds an int64; otherwise (0, false) |
| JwtAuth.UsernameOf | middlewares/jwt_auth.go:66-74 | (name, true) exactly when the key holds a string; otherwise ("", false) |
| JwtAuth.ClaimsReadBack | middlewares/jwt_auth.go:47-48 | the id and name that the middleware stores are what GetUserID and GetUsername read back |
| JwtAuth.RequestContext.Reject | middlewares/jwt_auth.go:16-21 | writes a 401 with the message and aborts; the header and the context keys are kept |
| JwtAuth.RequestContext.JWTAuth | middlewares/jwt_auth.go:13-52 | no header, a header that is not "Bearer <token>" and a refused token are each a 401 with their own message; a refused token gets the corrected message of the finding below (expired or invalid); otherwise the claims are stored and read back |
| AttractionRepository.RankInjective | repositories/attraction_repository.go:64-103 | the five filters have distinct positions |
| AttractionRepository.SearchLimit | repositories/attraction_repository.go:120-123 | the limit is kept exactly when it is in 1..50, otherwise it is 10 |
| AttractionRepository.SearchOffset | repositories/attraction_repository.go:125-128 | (page - 1) * limit for page > 1, otherwise 0; never negative |
| AttractionRepository.ConditionsSnoc | repositories/attraction_repository.go:64-103 | one more filter adds one condition with the next placeholder number, and one argument |
| AttractionRepository.ConditionsLength | repositories/attraction_repository.go:64-103 | one condition and one argument per filter |
| AttractionRepository.FiltersUnrolled | repositories/attraction_repository.go:64-103 | the filters are the five slots in order, each present when its field is set |
| AttractionRepository.AppendFilter | repositories/attraction_repository.go:64-103 | a set field appends its condition at the next placeholder and its argument |
| AttractionRepository.SkipFilter | repositories/attraction_repository.go:64-103 | an unset field leaves the conditions, the arguments and the placeholder counter unchanged |
| AttractionRepository.SearchConditions | repositories/attraction_repository.go:64-103 | the imperative condition builder yields the conditions and arguments of the request's filters; the counter is one past the last placeholder |
| AttractionRepository.BuildSearchQuery | repositories/attraction_repository.go:57-134 | select, WHERE clause, sort and LIMIT/OFFSET, with the filter arguments followed by the limit and the offset |
| AttractionRepository.SearchParams | repositories/attraction_repository.go:138-143 | a nil request means no filters, limit 10 and offset 0 |
| AttractionRepository.SearchQueries | repositories/attraction_repository.go:138-183 | the request defaults to page 1 of 10; the page query is the select, the WHERE clause, the sort and LIMIT/OFFSET on the two placeholders after the filters'; the count query has the same WHERE clause, and its arguments are those of the page query without limit and offset |
| AttractionRepository.FiltersUpToOrdered | repositories/attraction_repository.go:64-103 | the filters appear in fixed order, name, city, country, category, rating, each at most once, and every set slot appears |
| AttractionRepository.SlotRank | repositories/attraction_repository.go:64-103 | a slot holds the filter of its own position |
| AttractionRepository.SlotFilled | repositories/attraction_repository.go:64-103 | a slot is filled exactly when its request field is set (a non-empty text or a positive rating) |
| AttractionRepository.FiltersPresent | repositories/attraction_repository.go:64-103 | a filter kind has a condition exactly when its request field is set |
| AttractionRepository.PlaceholdersMatchArguments | repositories/attraction_repository.go:64-103 | condition i uses placeholder $(i + 1) and argument i is its value, so $1..$n match the n arguments; limit and offset are $(n + 1) and $(n + 2) |
| AttractionRepository.ConditionsUseDistinctPlaceholders | repositories/attraction_repository.go:64-103 | conditions i and j render with placeholders i+1 and j+1, whose texts differ, so no two conditions share a placeholder |
| AttractionRepository.WhereOnlyWithFilters | repositories/attraction_repository.go:100-103 | there is a WHERE clause exactly when some filter is set |
| AttractionRepository.DefaultLimit | repositories/attraction_repository.go:239-241 | a positive limit is kept, otherwise it is 10 |
| AttractionRepository.PopularArgs | repositories/attraction_repository.go:238-286 | the arguments bind exactly the placeholders the listing uses ($1 only); $1, the LIMIT, is `DefaultLimit(limit)`, at least 1 |
| AttractionRepository.ByCategoryArgs | repositories/attraction_repository.go:289-338 | the arguments bind exactly $1 and $2; the condition's placeholder holds the category, the LIMIT's the defaulted limit |
| AttractionRepository.ByCountryArgs | repositories/attraction_repository.go:341-390 | the arguments bind exactly $1 and $2; the condition's placeholder holds "%country%", the LIMIT's the defaulted limit |
| AttractionRepository.ByCityOrCountryArgs | repositories/attraction_repository.go:393-442 | the arguments bind exactly $1 and $2, the highest placeholder being the number of arguments; both conditions use $1, which holds "%destination%", and the LIMIT's is the defaulted limit |
| AttractionRepository.ListingTexts | repositories/attraction_repository.go:243-404 | the four listings render to their SQL: no WHERE for popular, `category = $1`, `country ILIKE $1`, and `city ILIKE $1 OR country ILIKE $1`, each with its ORDER BY and `LIMIT $1` or `LIMIT $2` |
| AttractionRepository.ListingSelections | repositories/attraction_repository.go:243-404 | popular selects every row; by category exactly the rows of the category; by country exactly the rows whose country the pattern matches; by city or country exactly the rows whose city or country the one pattern matches |
| UserModel.ToUserResponse | models/user.go:67-76 | the response carries id, names, email and avatar |
| UserModel.ResponseHidesSecrets | models/user.go:67-76 | the response does not depend on the password, phone, active flag or timestamps |
| UserModel.ScanUser | models/user.go:79-118 | NULL phone and avatar read as "", a NULL is_active as true; every other column as stored |
| UserModel.ScanRowOf | models/user.go:79-118 | a user written with its flag set reads back unchanged |
| UserModel.RowOfScanReadsSame | models/user.go:79-118 | writing back what was read reads back the same user |
| UserModel.ScannedActive | services/auth_service.go:100 | a decoded user is active exactly when the column is not false |
| UserModel.ToLower | services/auth_service.go:56 | lower-cases each ASCII capital and keeps every other character, with the same length |
| UserModel.ToLowerIdempotent | services/auth_service.go:56 | lower-casing twice is lower-casing once |
| UserRepository.MarshalTags | repositories/user_repository.go:366-375 | a nil tag list marshals to null, a list to an array |
| UserRepository.UnmarshalTags | repositories/user_repository.go:341-353 | tags exactly when the column holds a JSON array; SQL NULL and null leave them nil |
| UserRepository.TagsRoundTrip | repositories/user_repository.go:341-375 | the tags written read back as written, a nil list and an empty one told apart |
| UserRepository.ScanPreference | repositories/user_repository.go:247-269 | the general columns as stored; the travel fields stay empty |
| UserRepository.ScanTravel | repositories/user_repository.go:319-356 | the travel columns and their tags; the general fields stay empty |
| UserRepository.TravelRowReadsBack | repositories/user_repository.go:319-413 | a saved travel row reads back with the saved travel fields and tags |
| UserRepository.UpdatePreferenceRows | repositories/user_repository.go:272-316 | an update by user id keeps the keys and every row's owner |
| UserRepository.UpdateTravelRows | repositories/user_repository.go:359-413 | an update by user id keeps the keys and every row's owner |
| UserRepository.InsertPreferenceKeepsOne | repositories/user_repository.go:272-316 | inserting for a user without a row keeps one preference row per user |
| UserRepository.InsertTravelKeepsOne | repositories/user_repository.go:359-413 | inserting for a user without a row keeps one travel row per user |
| UserRepository.UpdatePreferenceKeepsOne | repositories/user_repository.go:272-316 | an update by user id keeps one preference row per user |
| UserRepository.UpdateTravelKeepsOne | repositories/user_repository.go:359-413 | an update by user id keeps one travel row per user |
| UserRepository.UserStore.GetByID | repositories/user_repository.go:41-82 | None exactly when no row has the id; otherwise the decoded row |
| UserRepository.UserStore.GetByEmail | repositories/user_repository.go:85-126 | None exactly when no row has the email; otherwise a decoded row with that email |
| UserRepository.UserStore.GetByUsername | repositories/user_repository.go:129-170 | None exactly when no row has the username; otherwise a decoded row with that username |
| UserRepository.UserStore.Create | repositories/user_repository.go:173-202 | the user is stored under a fresh id, stamped with now, with a nil flag made true; nothing else changes |
| UserRepository.UserStore.Update | repositories/user_repository.go:205-221 | an existing row gets every column but password and created_at from the user; updated_at = now |
| UserRepository.UserStore.UpdatePassword | repositories/user_repository.go:224-233 | only the password and updated_at of the row change |
| UserRepository.UserStore.Delete | repositories/user_repository.go:236-244 | exactly the row with the id is removed, if there is one |
| UserRepository.UserStore.GetUserPreferences | repositories/user_repository.go:247-269 | None exactly when the user has no preference row; otherwise that row decoded |
| UserRepository.UserStore.SaveUserPreferences | repositories/user_repository.go:272-316 | inserts a row when the user has none, otherwise updates the user's row; afterwards the user's row holds the saved fields, and there is still one row per user |
| UserRepository.UserStore.GetTravelPreferences | repositories/user_repository.go:319-356 | None exactly when the user has no travel row; otherwise that row decoded with its tags |
| UserRepository.UserStore.SaveTravelPreferences | repositories/user_repository.go:359-413 | the same insert-or-update on the travel table; the fields and tags read back are those saved |
| UserService.WithProfile | services/user_service.go:81-87 | the six profile fields come from the request and updated_at is now; id, password, flag and created_at are kept |
| UserService.ProfileUpdateKeepsSecrets | services/user_service.go:55-91 | after a profile update the stored password, flag and created_at read as before |
| UserService.UserService.GetUserByID | services/user_service.go:36-52 | a missing user gives "用户不存在", an inactive one "账户已禁用"; otherwise the response of the decoded row |
| UserService.UserService.UpdateUserProfile | services/user_service.go:55-91 | missing, then a changed email another user has, then a changed username another user has: each refused with no change; otherwise the profile is written |
| UserService.UserService.UpdatePassword | services/user_service.go:94-116 | missing, a wrong current password, then a hash failure: each refused with no change; otherwise only the new hash and updated_at are written |
| UserService.UserService.DeleteUser | services/user_service.go:119-130 | a missing user is refused; otherwise exactly its row goes |
| UserService.UserService.GetUserPreferences | services/user_service.go:133-151 | the stored preferences, or zh-CN, CNY, notifications on and the light theme when there are none |
| UserService.UserService.SaveUserPreferences | services/user_service.go:154-157 | the preferences are saved as the caller's: a new row when the caller has none, otherwise the caller's row updated in place; the caller's row holds them, and other users' rows are unchanged |
| UserService.UserService.GetTravelPreferences | services/user_service.go:160-180 | the stored travel preferences, or balanced, medium, the tags 景点/美食/文化 and public transport when there are none |
| UserService.UserService.SaveTravelPreferences | services/user_service.go:183-186 | the travel preferences are saved as the caller's, insert or update as above; they read back as saved, and other users' rows are unchanged |
| AuthService.NewUser | services/auth_service.go:50-62 | the new user has the request's fields, the email lower-cased, the hashed password, an empty avatar and the active flag |
| AuthService.RegisterKeepsEmailsUnique | services/auth_service.go:31-84 | with the lower-cased email check, a registration keeps emails unique |
| AuthService.UppercaseEmailRegistersTwice | services/auth_service.go:33 | as written, "A@x.com" passes the check while "a@x.com" is stored, and the stored emails stop being unique; the lower-cased check refuses it |
| AuthService.LoginOutcome | services/auth_service.go:100-123 | an inactive account is refused first; success exactly when active, the password checks and a token is minted, with the user's response and the token |
| AuthService.AuthService.Register | services/auth_service.go:31-84 | a taken email, then a taken username, then a hash failure: each refused with no change; when the email and the username are free, a refused hash is answered "密码处理失败" with no change, and otherwise a fresh active user is stored with the email lower-cased and the call succeeds exactly when a token is minted, else "令牌生成失败"; the email check uses the corrected lower-cased lookup of the finding below, and under it emails stay unique |
| AuthService.AuthService.Login | services/auth_service.go:87-124 | no user with the lower-cased email gives "用户不存在"; otherwise the outcome is LoginOutcome of the user found, and with unique emails of every such user |
| AuthService.AuthService.GetUserByID | services/auth_service.go:127-149 | succeeds exactly for an existing user whose flag is not false, with that user's response; the two refusals otherwise |

## Left out

- Database and driver errors are left out. The model covers the itinerary faults that `Backend` names: a rejected statement and a time text that does not convert. It does not model a failing connection, a failing `Begin`, a failing commit, or the errors of the user and preference queries.
- ItineraryRepository.ItineraryStore.Create: its id sequences roll back with a failed transaction. PostgreSQL sequences do not roll back, so a failed Create in the source burns ids that the model hands out again.
- Aggregates are values. Go writes the new ids back into the caller's structs and appends in place (`AddDay`, `AddItem`); the model returns a new value, so it does not capture aliasing.
- ItineraryModel.Itinerary.ToItineraryResponse: the day count is computed on whole-day dates. Go computes it from `Hours()/24` of a time difference, a float path.
- The model does not cover floating-point latitude, longitude and rating conversions; ratings are `real` and coordinates are integers.
- The model does not cover 64-bit integer width. Ids, offsets and `(page - 1) * limit` are unbounded, and `strconv.Atoi` and `ParseInt` accept any length of digits.
- The day and item operations of the itinerary service (`services/itinerary_service.go:231-392`) are not part of this model. The repository operations they would call are modelled.
- Search and the four fixed listings are modelled by the SQL they send and the arguments they bind; the listings also by the rows their WHERE clause selects (`ListingSelections`). Running the query, the ORDER BY and LIMIT on the database side, and the scan loops over result rows are left out. The layout of white space inside the listing texts is not modelled, and `ILIKE` is a parameter.
- JwtAuth.RequestContext.JWTAuth: answers a refused token with the corrected message (`RejectionMessage`, "令牌已过期" for an expired token). As written, the source always answers "令牌无效" (middlewares/jwt_auth.go:36-40); `AsWrittenNeverSaysExpired` states that behaviour.
- AuthService.AuthService.Register: looks up the lower-cased email before inserting. As written, the source looks up the email as typed (services/auth_service.go:33), so the model's uniqueness guarantee holds for the corrected lookup only; `UppercaseEmailRegistersTwice` shows the source's behaviour.
- The write path of item times is a `Backend` parameter: how the database reads the text bound to `start_time`/`end_time`.
- UserModel.ToLower: lower-cases ASCII letters only, not the whole of Unicode as `strings.ToLower` does.
- A nil slice and an empty slice are told apart only for tag lists.
- The request-binding code of the handlers is left out: JSON binding, gin plumbing and responses other than the modelled status and body.
- Also left out: configuration, logging, Redis caching, routing, the attraction service and controllers, CORS, and concurrency.
- The model does not cover the internals of password hashing (bcrypt), token signing, token parsing (the JWT library) and `time.Now`. They are parameters.

## Findings

| source | as written | input that shows it | evidently intended | confidence | as-written member | corrected member |
|---|---|---|---|---|---|---|
| middlewares/jwt_auth.go:37 | `err == utils.ErrExpiredToken` compares with a sentinel that ValidateToken never returns; it passes on the library's error or a fresh one | an expired token | an expired token is answered with "令牌已过期" | not executed | JwtAuth.AsWrittenNeverSaysExpired | JwtAuth.RejectionMessage |
| services/auth_service.go:33 | the duplicate-email lookup uses the email as typed, while line 56 stores it lower-cased | stored "a@x.com", registering "A@x.com" | the lookup uses the lower-cased email, so emails stay unique | not executed | AuthService.UppercaseEmailRegistersTwice | AuthService.RegisterKeepsEmailsUnique |
