# Launch reshaping and resolver logic of the space-x GraphQL server

This project models two deterministic pieces of the tutorial GraphQL server
that fronts the SpaceX REST API, and proves properties of them in Dafny 4.11.

- **The launch datasource** (`LaunchApi`, `launch_api.dfy`). `LaunchReducer`
  turns one upstream launch record into the schema's flat `Launch`:
  - the id falls back to 0 when `flight_number` is falsy;
  - the cursor is the template-literal rendering of `launch_date_unix`;
  - the site is `launch_site && launch_site.site_name`;
  - mission and rocket fields are copied under new names.

  `GetAllLaunches`, `GetLaunchById` and `GetLaunchesByIds` are the three list
  adapters. The HTTP `get` is replaced by the parsed response value. For the
  by-id lookups it is a function from id to response.
- **The resolvers** (`Resolvers`, `resolvers.dfy`).
  - The `launches` query is a method. It copies the fetched list into a fresh
    array and reverses it in place, mirroring `Array.prototype.reverse`. It
    then hands the array to `paginateResults` and derives `cursor` and
    `hasMore` from the page.
  - `paginateResults` lives in a utilities file that is not part of this
    model. It is an arbitrary function parameter (`Paginator`), so the query's
    properties hold whatever page it returns. Two lemmas add an explicitly
    labelled assumption that the page is a contiguous run of its input.
  - `bookTrips`, `cancelTrip` and `missionPatch` are functions. What the user
    datasource returns comes in as a value.
- **JavaScript runtime pieces** (`Js`, `js.dfy`; `JsNumber`, `js_number.dfy`):
  - `Maybe` = `Undefined | Null | Defined(v)` for JSON fields and arguments;
  - `Result` = `Ok(v) | TypeError` for a resolver that throws;
  - comma joining, as template interpolation of an array does it, with its
    inverse `Split`;
  - array reversal;
  - decimal rendering of integral numbers, with its parser.

Points where the code's behaviour is easy to misread:
- `hasMore` compares cursors rather than positions. The resolver compares the
  page's last cursor with the cursor of the last element of the reversed full
  list. `Connection` models that comparison.
- Only a non-array response becomes `[]`. A rejected request propagates. The
  model has the non-array case (`Response.NotArray`) and nothing else.
- A record without `links` or `rocket` makes the reducer throw. `GetAllLaunches`
  then returns `TypeError`, and the `launches` query passes it on.
- An unknown id throws rather than reporting not-found. `getLaunchById` reads
  `response[0]` of whatever comes back, and an empty response makes the
  reducer throw. `GetLaunchById` states this as its `Fetchable` precondition.
  `GetLaunchesByIds` and `BookTrips` return `TypeError` when any id is not
  `Fetchable`, because the rejected `Promise.all` fails the whole mutation.
- The schema declares `cursor: String!`, but the resolver returns null for an
  empty page. The model's `cursor` is a `Maybe<string>` that is `Null` then.

Two consequences of the code, each with a witness lemma:
- `hasMore` compares cursors, not positions. It means "launches remain after
  the page" only when cursors are distinct. `LaunchesHasMoreUnderSlicing`
  proves this for upstream records with distinct `launch_date_unix`.
  `RepeatedDateEndsPageEarly` shows that with a repeated date a page can end
  early and still report `hasMore = false`.
- `success` compares only lengths. `RepeatedIdListsNothing` shows that with a
  repeated id the message can list no ids at all, because the filter drops
  every id that was booked.

## Model

| member | source | states |
|---|---|---|
| `Js.Join` | server/src/resolvers.js:57 | interpolating a list whose first element is non-empty gives a non-empty string |
| `Js.SplitJoin` | server/src/resolvers.js:57 | for non-empty, comma-free ids, splitting the comma-joined string gives the list back exactly |
| `Js.Reversed` | server/src/resolvers.js:18 | reversal keeps the length; its first element is the original's last and its last is the original's first |
| `Js.ReversedIndex` | server/src/resolvers.js:18 | the reversed list has the same length, and element i is element n-1-i of the original |
| `Js.ReversedSpec` | server/src/resolvers.js:18 | the same for all indices at once: length kept, element i equals original[n-1-i] |
| `Js.ReversedInvolution` | server/src/resolvers.js:18 | reversing twice restores the list |
| `Js.ReverseInPlace` | server/src/resolvers.js:18 | `allLaunches.reverse()`: the array afterwards holds the reversal of its old contents |
| `JsNumber.NatToString` | server/src/datasources/launch.js:24 | the decimal rendering is non-empty and all digits, with no leading zero for a positive number |
| `JsNumber.IntToString` | server/src/datasources/launch.js:24 | `${n}` for a safe integer: non-empty, starts with '-' iff n is negative, digits after the sign, no leading zero, a negative number's included |
| `JsNumber.Interpolate` | server/src/datasources/launch.js:24 | `${launch_date_unix}` is "undefined" iff the field is missing and "null" iff it is null; a number never renders as either word |
| `JsNumber.ParseNatToString` | server/src/datasources/launch.js:24 | parsing the decimal rendering of a natural number gives it back |
| `JsNumber.ParseIntToString` | server/src/datasources/launch.js:24 | parsing the rendering of any integer, sign included, gives it back |
| `JsNumber.ParseInterpolatedRoundTrip` | server/src/datasources/launch.js:24 | `${launch_date_unix}` is read back exactly; "undefined" and "null" are never confused with a number |
| `JsNumber.InterpolateInjective` | server/src/datasources/launch.js:24 | two date fields render to the same cursor iff they are equal |
| `LaunchApi.SiteName` | server/src/datasources/launch.js:25 | the site is `site_name` when `launch_site` is an object, and is the missing or null `launch_site` itself otherwise |
| `LaunchApi.LaunchReducer` | server/src/datasources/launch.js:21-37 | id is non-zero iff `flight_number` is present and non-zero, and then equals it; cursor is `${launch_date_unix}` and parses back to it; site is guarded by `launch_site`; name, both patches and the rocket's id/name/type are copied; requires `links` and `rocket` to be objects |
| `LaunchApi.ReducerCursorInjective` | server/src/datasources/launch.js:24 | two reshaped launches share a cursor iff their upstream dates are equal |
| `LaunchApi.ReduceAll` | server/src/datasources/launch.js:45 | the map keeps the length, and element i is the reducer applied to upstream element i |
| `LaunchApi.GetAllLaunches` | server/src/datasources/launch.js:39-49 | throws iff some element of an array response cannot be read by the reducer; a non-array response gives []; otherwise a list of the same length whose element i is the reducer applied to response[i] |
| `LaunchApi.GetLaunchById` | server/src/datasources/launch.js:51-54 | the result is the reducer applied to `response[0]`, which is also the first element of the reshaped response; requires a non-empty array response whose first element the reducer can read |
| `LaunchApi.GetLaunchesByIds` | server/src/datasources/launch.js:56-59 | succeeds iff every id's lookup can be reshaped, and otherwise throws; then there is one result per input id, in input order, and element i is the by-id lookup of launchIds[i] |
| `Resolvers.PageSizeArgument` | server/src/resolvers.js:15 | an omitted `pageSize` becomes 20; a given one, an explicit null included, is passed on |
| `Resolvers.Connection` | server/src/resolvers.js:27-35 | cursor is null iff the page is empty, and otherwise is the last page item's cursor; an empty page has `hasMore` false whatever the full list holds; for a non-empty page, `hasMore` iff the last page cursor differs from the full list's last cursor; a non-empty page with an empty full list throws |
| `Resolvers.RequestedPage` | server/src/resolvers.js:21-25 | `paginateResults` is called with `after` unchanged, the page size defaulted to 20 only when omitted, and the reshaped upstream list reversed |
| `Resolvers.Launches` | server/src/resolvers.js:15-36 | throws when fetching the launches throws, or when the paginator returns a non-empty page for an empty list, and in no other case; otherwise the result is the connection for the paginator's page over the reversed list; for a non-empty page and upstream list, `hasMore` iff the last page cursor differs from the first upstream launch's cursor |
| `Resolvers.DistinctDatesDistinctCursors` | server/src/resolvers.js:30-33 | upstream records with distinct dates give a reversed list of launches with distinct cursors |
| `Resolvers.HasMoreIffPageEndsEarly` | server/src/resolvers.js:30-34 | assuming the page is a contiguous non-empty run all[s..e] and cursors are distinct, `hasMore` iff e is less than the length of all |
| `Resolvers.LaunchesHasMoreUnderSlicing` | server/src/resolvers.js:15-35 | with distinct upstream dates and the assumption that the page is the reversed list's slice [s..e], `hasMore` iff the page stops before the end |
| `Resolvers.RepeatedDateEndsPageEarly` | server/src/resolvers.js:32-33 | witness: upstream dates 10, 20, 10 and a paginator taking the first item give a one-item page with two launches after it and `hasMore` false |
| `Resolvers.Unbooked` | server/src/resolvers.js:57 | the filtered list is no longer than the requested ids |
| `Resolvers.UnbookedMembers` | server/src/resolvers.js:57 | an id is listed iff it was requested and is not among the booked results |
| `Resolvers.UnbookedAppend` | server/src/resolvers.js:57 | the filter distributes over concatenation, so input order is kept |
| `Resolvers.UnbookedEmpty` | server/src/resolvers.js:57 | the list is empty iff every requested id is among the results |
| `Resolvers.BookTrips` | server/src/resolvers.js:48-60 | the mutation throws iff some id's lookup cannot be reshaped; otherwise success iff the datasource returned as many results as ids were requested; then the message is 'trips booked successfully', otherwise the prefix followed by the comma-joined unbooked ids; one launch per id, in input order |
| `Resolvers.BookTripsMessageListsUnbooked` | server/src/resolvers.js:55-57 | on partial success the message starts with the prefix, and the rest splits back into exactly the unbooked ids in input order |
| `Resolvers.RepeatedIdListsNothing` | server/src/resolvers.js:53-57 | witness: ids ["1", "1", "2"] with results ["1", "2"] give success false and a message that is the prefix alone |
| `Resolvers.CancelTrip` | server/src/resolvers.js:61-68 | always success, message 'trip cancelled', and a one-element list holding the cancelled launch |
| `Resolvers.MissionPatch` | server/src/resolvers.js:71-73 | the small patch iff size is SMALL; LARGE, null or an omitted size all give the large patch |
| `Resolvers.MissionPatchOfReducedLaunch` | server/src/resolvers.js:71-72 | for a reshaped launch, SMALL yields upstream `links.mission_patch_small` and anything else `links.mission_patch` |

## Left out

- `paginateResults`: its file is not part of this model. It stays an arbitrary function. Contiguity of its page is only assumed, explicitly, in `HasMoreIffPageEndsEarly` and `LaunchesHasMoreUnderSlicing`.
- HTTP transport, response caching and `baseURL`: network I/O. The parsed responses are inputs. A rejected request, which the code does not catch, is not modelled.
- `Promise.all` and `await`: `getLaunchesByIds` and the resolvers are modelled as sequential maps.
- Everything served by the user datasource (its source is not part of this model): `me`, `login` and its base64 session token via `Buffer`, `User.trips`, the booking inside `bookTrips`, and the lookup inside `cancelTrip`. Their outputs are inputs here.
- `Launch.isBooked`: it calls the user datasource without `return`, so it resolves to undefined. It is not modelled.
- `Query.launch`: a one-line delegate to `getLaunchById`, covered by `GetLaunchById`.
- Numbers: only integral values are modelled, and only safe ones (at most 2^53 - 1 in magnitude, the `JsNumber.SafeInteger` type). JavaScript's exponent notation for magnitudes of 1e21 and above is left out, and so are non-integral values and NaN. A `flight_number` or `launch_date_unix` that is a non-number JSON value is left out too.
- `IntToString`/`Interpolate`: exact only for safe integers, which is all the type admits. How JavaScript renders a larger double, whose low digits are lost, is not modelled.
- JSON element shapes: an array response is taken to hold launch records. A non-object element is not modelled.
- `BookTrips`/`GetLaunchesByIds`: when some id cannot be looked up, the mutation throws (`TypeError`) and returns no success or message. The bookings the user datasource already made for the other ids before the lookups are not modelled, because that datasource is not part of this model.
- `BookTrips`: `results` is taken to be a list of ids. A falsy `results`, which would make line 55 throw, is not modelled.
- Server setup, authentication, storage, the schema definition and the React client: framework wiring with no behaviour of this core.
