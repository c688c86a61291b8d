/** The launch datasource: reshaping upstream SpaceX launch records into the
    GraphQL `Launch` shape, and the three list adapters built on it. The HTTP
    `get` is replaced by the parsed response it would have produced. */
module LaunchApi {
  import opened Js
  import JsNumber

  /** A GraphQL `ID` as the resolvers receive it. */
  type LaunchId = string

  // ---------------------------------------------------------------------
  // Upstream records (JSON keys in the comments)

  /** `launch_site`: `{ site_name }` */
  datatype UpstreamSite = UpstreamSite(siteName: Maybe<string>)

  /** `links`: `{ mission_patch_small, mission_patch }` */
  datatype UpstreamLinks = UpstreamLinks(missionPatchSmall: Maybe<string>, missionPatch: Maybe<string>)

  /** `rocket`: `{ rocket_id, rocket_name, rocket_type }` */
  datatype UpstreamRocket = UpstreamRocket(rocketId: Maybe<string>, rocketName: Maybe<string>, rocketType: Maybe<string>)

  /** One element of the `launches` response: `flight_number`,
      `launch_date_unix`, `launch_site`, `mission_name`, `links`, `rocket`. */
  datatype UpstreamLaunch = UpstreamLaunch(
    flightNumber: Maybe<JsNumber.SafeInteger>,
    launchDateUnix: Maybe<JsNumber.SafeInteger>,
    launchSite: Maybe<UpstreamSite>,
    missionName: Maybe<string>,
    links: Maybe<UpstreamLinks>,
    rocket: Maybe<UpstreamRocket>)

  /** A parsed response body: an array of launch records, or anything else. */
  datatype Response = LaunchArray(launches: seq<UpstreamLaunch>) | NotArray

  // ---------------------------------------------------------------------
  // The schema's shape

  datatype Mission = Mission(name: Maybe<string>, missionPatchSmall: Maybe<string>, missionPatchLarge: Maybe<string>)

  datatype Rocket = Rocket(id: Maybe<string>, name: Maybe<string>, rocketType: Maybe<string>)

  datatype Launch = Launch(id: int, cursor: string, site: Maybe<string>, mission: Mission, rocket: Rocket)

  // ---------------------------------------------------------------------
  // launchReducer

  /** The reducer reads `links.*` and `rocket.*` without a guard, so it throws
      unless both are objects. */
  predicate Reducible(u: UpstreamLaunch) {
    u.links.Defined? && u.rocket.Defined?
  }

  /** `launch.launch_site && launch.launch_site.site_name`: a missing or null
      site object is passed through as it is. */
  function SiteName(site: Maybe<UpstreamSite>): (r: Maybe<string>)
    ensures site.Defined? ==> r == site.value.siteName
    ensures site.Undefined? ==> r.Undefined?
    ensures site.Null? ==> r.Null?
  {
    match site
    case Defined(s) => s.siteName
    case Undefined => Undefined
    case Null => Null
  }

  function LaunchReducer(u: UpstreamLaunch): (r: Launch)
    requires Reducible(u)
    ensures r.id != 0 <==> u.flightNumber.Defined? && u.flightNumber.value != 0
    ensures r.id != 0 ==> r.id == u.flightNumber.value
    ensures r.cursor == JsNumber.Interpolate(u.launchDateUnix)
    ensures JsNumber.ParseInterpolated(r.cursor) == u.launchDateUnix
    ensures u.launchSite.Defined? ==> r.site == u.launchSite.value.siteName
    ensures !u.launchSite.Defined? ==> !r.site.Defined?
    ensures r.mission.name == u.missionName
    ensures r.mission.missionPatchSmall == u.links.value.missionPatchSmall
    ensures r.mission.missionPatchLarge == u.links.value.missionPatch
    ensures r.rocket == Rocket(u.rocket.value.rocketId, u.rocket.value.rocketName, u.rocket.value.rocketType)
  {
    JsNumber.ParseInterpolatedRoundTrip(u.launchDateUnix);
    Launch(
      id := if u.flightNumber.Defined? && u.flightNumber.value != 0 then u.flightNumber.value else 0,
      cursor := JsNumber.Interpolate(u.launchDateUnix),
      site := SiteName(u.launchSite),
      mission := Mission(u.missionName, u.links.value.missionPatchSmall, u.links.value.missionPatch),
      rocket := Rocket(u.rocket.value.rocketId, u.rocket.value.rocketName, u.rocket.value.rocketType))
  }

  /** Two reshaped launches share a cursor exactly when their upstream
      `launch_date_unix` fields are equal. */
  lemma ReducerCursorInjective(a: UpstreamLaunch, b: UpstreamLaunch)
    requires Reducible(a) && Reducible(b)
    ensures LaunchReducer(a).cursor == LaunchReducer(b).cursor <==> a.launchDateUnix == b.launchDateUnix
  {
    JsNumber.InterpolateInjective(a.launchDateUnix, b.launchDateUnix);
  }

  // ---------------------------------------------------------------------
  // getAllLaunches

  /** `response.map((launch) => this.launchReducer(launch))` */
  function ReduceAll(xs: seq<UpstreamLaunch>): (r: seq<Launch>)
    requires forall i :: 0 <= i < |xs| ==> Reducible(xs[i])
    ensures |r| == |xs|
    ensures forall i :: 0 <= i < |xs| ==> r[i] == LaunchReducer(xs[i])
  {
    if xs == [] then [] else [LaunchReducer(xs[0])] + ReduceAll(xs[1..])
  }

  predicate ResponseReducible(response: Response) {
    response.LaunchArray? ==> forall i :: 0 <= i < |response.launches| ==> Reducible(response.launches[i])
  }

  /** `Array.isArray(response) ? response.map(...) : []`. The map throws as
      soon as one record cannot be reshaped. */
  function GetAllLaunches(response: Response): (r: Result<seq<Launch>>)
    ensures r.Ok? <==> ResponseReducible(response)
    ensures response.NotArray? ==> r == Ok([])
    ensures response.LaunchArray? && r.Ok? ==> |r.value| == |response.launches|
    ensures response.LaunchArray? && r.Ok? ==>
      forall i :: 0 <= i < |r.value| ==> r.value[i] == LaunchReducer(response.launches[i])
  {
    match response
    case NotArray => Ok([])
    case LaunchArray(xs) =>
      if ResponseReducible(response) then Ok(ReduceAll(xs)) else TypeError
  }

  // ---------------------------------------------------------------------
  // getLaunchById and getLaunchesByIds

  /** The response `get` gives for `launches?flight_number=<id>` has a first
      element the reducer can read (`response[0]` is otherwise undefined). */
  predicate Fetchable(get: LaunchId -> Response, launchId: LaunchId) {
    var response := get(launchId);
    response.LaunchArray? && |response.launches| > 0 && Reducible(response.launches[0])
  }

  /** The by-id lookup reshapes the first element of the response, and so
      agrees with reshaping the whole response and taking its first launch. */
  function GetLaunchById(get: LaunchId -> Response, launchId: LaunchId): (r: Launch)
    requires Fetchable(get, launchId)
    ensures r == LaunchReducer(get(launchId).launches[0])
    ensures ResponseReducible(get(launchId)) ==> r == GetAllLaunches(get(launchId)).value[0]
  {
    LaunchReducer(get(launchId).launches[0])
  }

  /** `Promise.all(launchIds.map(...))`, taken one id after the other. One
      lookup that throws rejects the whole list. */
  function GetLaunchesByIds(get: LaunchId -> Response, launchIds: seq<LaunchId>): (r: Result<seq<Launch>>)
    ensures r.Ok? <==> forall i :: 0 <= i < |launchIds| ==> Fetchable(get, launchIds[i])
    ensures r.Ok? ==> |r.value| == |launchIds|
    ensures r.Ok? ==> forall i :: 0 <= i < |launchIds| ==> r.value[i] == GetLaunchById(get, launchIds[i])
  {
    if launchIds == [] then Ok([])
    else if !Fetchable(get, launchIds[0]) then TypeError
    else
      match GetLaunchesByIds(get, launchIds[1..])
      case TypeError =>
        assert exists i :: 1 <= i < |launchIds| && !Fetchable(get, launchIds[i]) by {
          var j :| 0 <= j < |launchIds| - 1 && !Fetchable(get, launchIds[1..][j]);
          assert launchIds[1..][j] == launchIds[j + 1];
        }
        TypeError
      case Ok(rest) => Ok([GetLaunchById(get, launchIds[0])] + rest)
  }
}
