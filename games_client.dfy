/** The client-side game requests (src/API/services/gamesClient.ts). */
module GamesClient {
  import opened Common
  import opened Http
  import opened Auth
  import opened Games

  /** `createGamesApi`: JSON, ten seconds, the token if there is one. */
  function GamesApiConfig(documentCookie: string): (c: RequestConfig)
    ensures c.contentType == Some(Json) && c.timeoutMs == 10000 && c.baseUrl == ApiUrl
    ensures c.authorization != "" <==> IsAuthenticated(documentCookie)
  {
    RequestConfig(ApiUrl, Some(Json), Json, BearerOrEmpty(GetAccessToken(documentCookie)), 10000)
  }

  /** `getGames(page = 1, perPage = 100)`: never fails; any failure gives
      the empty first page of the requested size. */
  function GetGames(backend: GamesBackend, page: int := 1, perPage: int := 100): (r: GamesResponse)
    ensures backend(GamesQuery(page, perPage)).Returned? ==> r == backend(GamesQuery(page, perPage)).value
    ensures backend(GamesQuery(page, perPage)).Threw? ==> r == EmptyPage(perPage)
  {
    match backend(GamesQuery(page, perPage))
    case Returned(v) => v
    case Threw(_) => EmptyPage(perPage)
  }

  /** Called without arguments, the client asks for the first page of 100,
      so a failure yields an empty page of 100 where the server version's
      523 fallback claims 15. */
  lemma DefaultSizesDiffer(backend: GamesBackend)
    requires backend(GamesQuery(1, 100)).Threw?
    requires backend(GamesQuery(1, 15)).Threw? && backend(GamesQuery(1, 15)).error.HasStatus(523)
    ensures GetGames(backend) == GetGames(backend, 1, 100)
    ensures GetGames(backend).perPage == 100
    ensures Games.GetGames(backend).Ok? && Games.GetGames(backend).value.perPage == 15
  {
  }

  /** `{ data: GameItem }`, with `data` possibly absent. */
  datatype GameBody = GameBody(data: Option<GameItem>)

  /** `getGameBySlug`: the game, or nothing on any failure. */
  function GetGameBySlug(call: Call<GameBody, ()>): (r: Option<GameItem>)
    ensures call.Threw? ==> r.None?
    ensures call.Returned? ==> r == call.value.data
  {
    match call
    case Returned(body) => body.data
    case Threw(_) => None
  }

  /** The client version differs from the server one only where the server
      rethrows: the client turns every failure into the empty page. */
  lemma ClientAgreesWithServer(backend: GamesBackend, page: int, perPage: int)
    ensures Games.GetGames(backend, page, perPage).Ok? ==> GetGames(backend, page, perPage) == Games.GetGames(backend, page, perPage).value
    ensures Games.GetGames(backend, page, perPage).Err? ==> GetGames(backend, page, perPage) == EmptyPage(perPage)
  {
  }
}
