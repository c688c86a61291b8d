/** The resolver-level logic of the GraphQL server: the `launches` query's
    page metadata, the `bookTrips` and `cancelTrip` mutation results and the
    `missionPatch` field. The user datasource is not part of this model: what
    it returns is passed in as a value. */
module Resolvers {
  import opened Js
  import opened LaunchApi
  import JsNumber

  // ---------------------------------------------------------------------
  // Query.launches

  datatype LaunchConnection = LaunchConnection(launches: seq<Launch>, cursor: Maybe<string>, hasMore: bool)

  const DefaultPageSize: int := 20

  /** `{ pageSize = 20 }`: the default replaces an omitted argument only; an
      explicit null is handed on unchanged. */
  function PageSizeArgument(pageSize: Maybe<int>): (r: Maybe<int>)
    ensures pageSize.Undefined? ==> r == Defined(DefaultPageSize)
    ensures !pageSize.Undefined? ==> r == pageSize
  {
    if pageSize.Undefined? then Defined(DefaultPageSize) else pageSize
  }

  /** `paginateResults({ after, pageSize, results })`. Its definition is not
      part of this model, so the query is proved for every such function. */
  type Paginator = (Maybe<string>, Maybe<int>, seq<Launch>) -> seq<Launch>

  function Last<T>(s: seq<T>): T
    requires s != []
  {
    s[|s| - 1]
  }

  /** The connection built from the page and the full (already reversed)
      list. Reading the last element of an empty full list throws. */
  function Connection(page: seq<Launch>, all: seq<Launch>): (r: Result<LaunchConnection>)
    ensures r.Ok? <==> page == [] || all != []
    ensures r.Ok? ==> r.value.launches == page
    ensures r.Ok? ==> (r.value.cursor.Null? <==> page == [])
    ensures r.Ok? && page != [] ==> r.value.cursor == Defined(Last(page).cursor)
    ensures page == [] ==> r.Ok? && !r.value.hasMore
    ensures r.Ok? && page != [] ==> (r.value.hasMore <==> Last(page).cursor != Last(all).cursor)
  {
    if page == [] then Ok(LaunchConnection(page, Null, false))
    else if all == [] then TypeError
    else Ok(LaunchConnection(page, Defined(Last(page).cursor), Last(page).cursor != Last(all).cursor))
  }

  /** The page `paginateResults` returns for the query's arguments: `after`
      unchanged, `pageSize` defaulted, and the reshaped upstream list reversed. */
  function RequestedPage(upstream: seq<Launch>, pageSize: Maybe<int>, after: Maybe<string>, paginate: Paginator)
    : (r: seq<Launch>)
    ensures pageSize.Undefined? ==> r == paginate(after, Defined(DefaultPageSize), Reversed(upstream))
    ensures !pageSize.Undefined? ==> r == paginate(after, pageSize, Reversed(upstream))
  {
    paginate(after, PageSizeArgument(pageSize), Reversed(upstream))
  }

  /** The `launches` query: fetch, reverse in place, paginate, then derive the
      cursor and `hasMore`. The query throws when a record the reducer cannot
      read makes the fetch throw, and when the paginator returns a non-empty
      page for an empty list (`allLaunches[-1]` is undefined). `hasMore` compares the page's last cursor with
      the first launch in upstream order. */
  method Launches(response: Response, pageSize: Maybe<int>, after: Maybe<string>, paginate: Paginator)
    returns (r: Result<LaunchConnection>)
    ensures GetAllLaunches(response).TypeError? ==> r == TypeError
    ensures GetAllLaunches(response).Ok? ==>
              var upstream := GetAllLaunches(response).value;
              r == Connection(RequestedPage(upstream, pageSize, after, paginate), Reversed(upstream))
    ensures GetAllLaunches(response).Ok? ==>
              var upstream := GetAllLaunches(response).value;
              (r == TypeError <==> RequestedPage(upstream, pageSize, after, paginate) != [] && upstream == [])
    ensures GetAllLaunches(response).Ok? ==>
              var upstream := GetAllLaunches(response).value;
              var page := RequestedPage(upstream, pageSize, after, paginate);
              page != [] && upstream != [] ==>
                r.Ok? && (r.value.hasMore <==> Last(page).cursor != upstream[0].cursor)
  {
    var fetched := GetAllLaunches(response);
    if fetched.TypeError? {
      r := TypeError;
      return;
    }
    var upstream := fetched.value;
    var allLaunches := new Launch[|upstream|](i requires 0 <= i < |upstream| => upstream[i]);
    assert allLaunches[..] == upstream;
    ReverseInPlace(allLaunches);
    var launches := paginate(after, PageSizeArgument(pageSize), allLaunches[..]);
    r := Connection(launches, allLaunches[..]);
    if upstream != [] {
      assert Last(Reversed(upstream)) == upstream[0];
    }
  }

  /** Cursors of a list are pairwise distinct. */
  predicate DistinctCursors(all: seq<Launch>) {
    forall i, j :: 0 <= i < j < |all| ==> all[i].cursor != all[j].cursor
  }

  /** Upstream records with pairwise distinct `launch_date_unix` give a
      reversed list of reshaped launches with pairwise distinct cursors. */
  lemma DistinctDatesDistinctCursors(response: Response)
    requires response.LaunchArray?
    requires ResponseReducible(response)
    requires forall i, j :: 0 <= i < j < |response.launches| ==>
      response.launches[i].launchDateUnix != response.launches[j].launchDateUnix
    ensures DistinctCursors(Reversed(GetAllLaunches(response).value))
  {
    var xs := response.launches;
    var upstream := GetAllLaunches(response).value;
    var all := Reversed(upstream);
    forall i, j | 0 <= i < j < |all| ensures all[i].cursor != all[j].cursor {
      var n := |all|;
      ReversedIndex(upstream, i);
      ReversedIndex(upstream, j);
      ReducerCursorInjective(xs[n - 1 - j], xs[n - 1 - i]);
    }
  }

  /** Assuming `paginateResults` returns a contiguous run `all[s..e]` of the
      list it is given (an assumption: its definition is not part of this
      model), and that cursors are distinct, `hasMore` is true exactly when the
      page stops before the end of that list. */
  lemma HasMoreIffPageEndsEarly(all: seq<Launch>, s: nat, e: nat)
    requires s < e <= |all|
    requires DistinctCursors(all)
    ensures Connection(all[s..e], all).Ok?
    ensures Connection(all[s..e], all).value.hasMore <==> e < |all|
  {
    assert Last(all[s..e]) == all[e - 1];
  }

  /** The query under the contiguous-page assumption: for upstream launches
      with distinct dates, `hasMore` says whether launches remain after the
      page in the reversed list. */
  lemma LaunchesHasMoreUnderSlicing(
    response: Response, pageSize: Maybe<int>, after: Maybe<string>, paginate: Paginator, s: nat, e: nat)
    requires response.LaunchArray?
    requires ResponseReducible(response)
    requires forall i, j :: 0 <= i < j < |response.launches| ==>
      response.launches[i].launchDateUnix != response.launches[j].launchDateUnix
    requires s < e <= |response.launches|
    requires var upstream := GetAllLaunches(response).value;
             RequestedPage(upstream, pageSize, after, paginate) == Reversed(upstream)[s..e]
    ensures var upstream := GetAllLaunches(response).value;
            var r := Connection(RequestedPage(upstream, pageSize, after, paginate), Reversed(upstream));
            r.Ok? && (r.value.hasMore <==> e < |response.launches|)
  {
    DistinctDatesDistinctCursors(response);
    HasMoreIffPageEndsEarly(Reversed(GetAllLaunches(response).value), s, e);
  }

  /** A paginator that returns the first element of its input. */
  const FirstOnly: Paginator := (after, size, xs) => if xs == [] then [] else xs[..1]

  /** Upstream dates 10, 20, 10: pairwise distinct dates are needed above. A
      one-item page at the front of the reversed list reports `hasMore = false`
      although two launches follow it, because its cursor equals the cursor of
      the first upstream launch. */
  lemma RepeatedDateEndsPageEarly()
    ensures var response := LaunchArray([SampleLaunch(1, 10), SampleLaunch(2, 20), SampleLaunch(3, 10)]);
            var fetched := GetAllLaunches(response);
            var all := Reversed(fetched.value);
            var page := RequestedPage(fetched.value, Undefined, Undefined, FirstOnly);
            fetched.Ok? && |all| == 3 && page == all[..1] &&
            Connection(page, all).Ok? && !Connection(page, all).value.hasMore
  {
    var response := LaunchArray([SampleLaunch(1, 10), SampleLaunch(2, 20), SampleLaunch(3, 10)]);
    var all := Reversed(GetAllLaunches(response).value);
    assert all[0] == LaunchReducer(SampleLaunch(3, 10));
    assert all[2] == LaunchReducer(SampleLaunch(1, 10));
    assert all[0].cursor == all[2].cursor;
  }

  // ---------------------------------------------------------------------
  // Mutation.bookTrips and Mutation.cancelTrip

  datatype TripUpdateResponse<L> = TripUpdateResponse(success: bool, message: string, launches: seq<L>)

  const BookedMessage: string := "trips booked successfully"
  const UnbookedPrefix: string := "the following launches couldn't be booked "
  const CancelledMessage: string := "trip cancelled"

  /** `launchIds.filter((id) => !results.includes(id))` */
  function Unbooked(launchIds: seq<LaunchId>, results: seq<LaunchId>): (r: seq<LaunchId>)
    ensures |r| <= |launchIds|
  {
    if launchIds == [] then []
    else (if launchIds[0] in results then [] else [launchIds[0]]) + Unbooked(launchIds[1..], results)
  }

  /** An id is listed exactly when it was requested and not booked. */
  lemma {:induction false} UnbookedMembers(launchIds: seq<LaunchId>, results: seq<LaunchId>)
    ensures forall x :: x in Unbooked(launchIds, results) <==> x in launchIds && x !in results
  {
    if launchIds != [] {
      UnbookedMembers(launchIds[1..], results);
      assert launchIds == [launchIds[0]] + launchIds[1..];
    }
  }

  /** The filter keeps input order: it distributes over concatenation. */
  lemma {:induction false} UnbookedAppend(a: seq<LaunchId>, b: seq<LaunchId>, results: seq<LaunchId>)
    ensures Unbooked(a + b, results) == Unbooked(a, results) + Unbooked(b, results)
  {
    if a == [] {
      assert a + b == b;
    } else {
      assert (a + b)[1..] == a[1..] + b;
      UnbookedAppend(a[1..], b, results);
    }
  }

  /** The list is empty exactly when every requested id was booked. */
  lemma UnbookedEmpty(launchIds: seq<LaunchId>, results: seq<LaunchId>)
    ensures Unbooked(launchIds, results) == [] <==> forall i :: 0 <= i < |launchIds| ==> launchIds[i] in results
  {
    UnbookedMembers(launchIds, results);
    if Unbooked(launchIds, results) != [] {
      var x := Unbooked(launchIds, results)[0];
      assert x in Unbooked(launchIds, results);
    }
  }

  /** `bookTrips`: `results` are the ids the user datasource reports booked;
      the launches are then looked up one by one in input order. A lookup
      that throws rejects the whole mutation. */
  function BookTrips(get: LaunchId -> Response, launchIds: seq<LaunchId>, results: seq<LaunchId>)
    : (r: Result<TripUpdateResponse<Launch>>)
    ensures r.Ok? <==> forall i :: 0 <= i < |launchIds| ==> Fetchable(get, launchIds[i])
    ensures r.Ok? ==> (r.value.success <==> |results| == |launchIds|)
    ensures r.Ok? && r.value.success ==> r.value.message == BookedMessage
    ensures r.Ok? && !r.value.success ==> r.value.message == UnbookedPrefix + Join(Unbooked(launchIds, results))
    ensures r.Ok? ==> |r.value.launches| == |launchIds|
    ensures r.Ok? ==> forall i :: 0 <= i < |launchIds| ==> r.value.launches[i] == GetLaunchById(get, launchIds[i])
  {
    match GetLaunchesByIds(get, launchIds)
    case TypeError => TypeError
    case Ok(launches) =>
      Ok(TripUpdateResponse(
        success := |results| == |launchIds|,
        message := if |results| == |launchIds| then BookedMessage
                   else UnbookedPrefix + Join(Unbooked(launchIds, results)),
        launches := launches))
  }

  /** On partial success the message names exactly the unbooked ids, in input
      order: reading the list back after the prefix recovers it, when ids are
      non-empty and free of commas. */
  lemma BookTripsMessageListsUnbooked(get: LaunchId -> Response, launchIds: seq<LaunchId>, results: seq<LaunchId>)
    requires forall i :: 0 <= i < |launchIds| ==> Fetchable(get, launchIds[i])
    requires forall i :: 0 <= i < |launchIds| ==> launchIds[i] != [] && CommaFree(launchIds[i])
    requires |results| != |launchIds|
    ensures BookTrips(get, launchIds, results).Ok?
    ensures var m := BookTrips(get, launchIds, results).value.message;
            |UnbookedPrefix| <= |m| && m[..|UnbookedPrefix|] == UnbookedPrefix &&
            Split(m[|UnbookedPrefix|..]) == Unbooked(launchIds, results)
    ensures forall x :: x in Split(BookTrips(get, launchIds, results).value.message[|UnbookedPrefix|..]) <==>
      x in launchIds && x !in results
  {
    var u := Unbooked(launchIds, results);
    UnbookedMembers(launchIds, results);
    forall i | 0 <= i < |u| ensures u[i] != [] && CommaFree(u[i]) {
      assert u[i] in launchIds;
    }
    SplitJoin(u);
    var m := BookTrips(get, launchIds, results).value.message;
    assert m == UnbookedPrefix + Join(u);
    assert m[|UnbookedPrefix|..] == Join(u);
  }

  /** An upstream launch with the given flight number and date, without site
      or patches. */
  function SampleLaunch(flight: JsNumber.SafeInteger, date: JsNumber.SafeInteger): UpstreamLaunch {
    UpstreamLaunch(Defined(flight), Defined(date), Undefined, Undefined,
      Defined(UpstreamLinks(Undefined, Undefined)), Defined(UpstreamRocket(Undefined, Undefined, Undefined)))
  }

  /** Every id is found upstream, as flight 1. */
  const EveryIdFound: LaunchId -> Response := id => LaunchArray([SampleLaunch(1, 10)])

  /** With a repeated id, booking falls short yet the message lists no id:
      the filter drops both copies of the booked id. */
  lemma RepeatedIdListsNothing()
    ensures var r := BookTrips(EveryIdFound, ["1", "1", "2"], ["1", "2"]);
            r.Ok? && !r.value.success && r.value.message == UnbookedPrefix
  {
    var ids: seq<LaunchId> := ["1", "1", "2"];
    var results: seq<LaunchId> := ["1", "2"];
    UnbookedEmpty(ids, results);
  }

  /** `cancelTrip`: whatever launch the user datasource hands back. */
  function CancelTrip<L>(launch: L): (r: TripUpdateResponse<L>)
    ensures r.success && r.message == CancelledMessage
    ensures |r.launches| == 1 && r.launches[0] == launch
  {
    TripUpdateResponse(true, CancelledMessage, [launch])
  }

  // ---------------------------------------------------------------------
  // Mission.missionPatch

  datatype PatchSize = Small | Large

  /** `size === 'SMALL' ? small : large`; an omitted argument, an explicit
      null and `LARGE` all give the large patch. */
  function MissionPatch(mission: Mission, size: Maybe<PatchSize>): (r: Maybe<string>)
    ensures size == Defined(Small) ==> r == mission.missionPatchSmall
    ensures size != Defined(Small) ==> r == mission.missionPatchLarge
  {
    if size == Defined(Small) then mission.missionPatchSmall else mission.missionPatchLarge
  }

  /** For a reshaped launch the patch comes from the upstream `links`:
      `mission_patch_small` for SMALL, `mission_patch` otherwise. */
  lemma MissionPatchOfReducedLaunch(u: UpstreamLaunch, size: Maybe<PatchSize>)
    requires Reducible(u)
    ensures size == Defined(Small) ==> MissionPatch(LaunchReducer(u).mission, size) == u.links.value.missionPatchSmall
    ensures size != Defined(Small) ==> MissionPatch(LaunchReducer(u).mission, size) == u.links.value.missionPatch
  {
  }
}
