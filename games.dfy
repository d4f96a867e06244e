/** The server-side game requests (src/API/services/games.ts). */
module Games {
  import opened Common
  import opened Http

  datatype GameItem = GameItem(id: int, name: string, description: string, slug: string, imageUrl: string, createdAt: string, updatedAt: string)

  /** `GamesResponse` */
  datatype GamesResponse = GamesResponse(data: seq<GameItem>, currentPage: int, perPage: int, total: int)

  /** `GameDetailResponse` */
  datatype GameDetailResponse = GameDetailResponse(data: GameItem)

  /** The query string of a list request: `page` and `per_page`. */
  datatype GamesQuery = GamesQuery(page: int, perPage: int)

  /** The backend as `getGames` sees it: what `api.get` gives for the
      query it is sent. */
  type GamesBackend = GamesQuery -> Call<GamesResponse, ()>

  /** The first page of nothing, sized as asked. */
  function EmptyPage(perPage: int): (r: GamesResponse)
    ensures r.data == [] && r.currentPage == 1 && r.perPage == perPage && r.total == 0
  {
    GamesResponse([], 1, perPage, 0)
  }

  /** `getGames(page = 1, perPage = 15)`: the request carries both numbers;
      a 523 from the origin gives the empty first page of the requested
      size, any other failure is rethrown. */
  function GetGames(backend: GamesBackend, page: int := 1, perPage: int := 15): (r: Result<GamesResponse, Thrown<()>>)
    ensures backend(GamesQuery(page, perPage)).Returned? ==> r == Ok(backend(GamesQuery(page, perPage)).value)
    ensures backend(GamesQuery(page, perPage)).Threw? ==>
      var t := backend(GamesQuery(page, perPage)).error;
      if t.HasStatus(523) then r == Ok(EmptyPage(perPage)) else r == Err(t)
  {
    match backend(GamesQuery(page, perPage))
    case Returned(v) => Ok(v)
    case Threw(t) => if t.HasStatus(523) then Ok(EmptyPage(perPage)) else Err(t)
  }

  /** Only the query sent matters: two backends that answer it alike give
      the same result, whatever they would answer to other queries. */
  lemma GetGamesSendsQuery(a: GamesBackend, b: GamesBackend, page: int, perPage: int)
    requires a(GamesQuery(page, perPage)) == b(GamesQuery(page, perPage))
    ensures GetGames(a, page, perPage) == GetGames(b, page, perPage)
  {
  }

  /** Called without arguments, `getGames` asks for the first page of 15,
      and an unreachable origin yields an empty page that claims 15 per
      page. */
  lemma DefaultRequest(backend: GamesBackend)
    ensures GetGames(backend) == GetGames(backend, 1, 15)
    ensures backend(GamesQuery(1, 15)).Threw? && backend(GamesQuery(1, 15)).error.HasStatus(523) ==>
      GetGames(backend).Ok? && GetGames(backend).value.perPage == 15 && GetGames(backend).value.currentPage == 1
  {
  }

  /** A page, or Next's `notFound()`. */
  datatype GamePage<+T> = Found(value: T) | NotFound

  /** `getGameBySlug`: every failure ends in `notFound()`. */
  function GetGameBySlug(call: Call<GameDetailResponse, ()>): (r: GamePage<GameDetailResponse>)
    ensures r.Found? <==> call.Returned?
    ensures call.Returned? ==> r.value == call.value
  {
    match call
    case Returned(v) => Found(v)
    case Threw(_) => NotFound
  }

  /** The special case for 523 in `getGameBySlug` changes nothing: two
      failures lead to the same place whatever their status. */
  lemma GameBySlugIgnoresStatus(a: Thrown<()>, b: Thrown<()>)
    ensures GetGameBySlug(Threw(a)) == GetGameBySlug(Threw(b)) == NotFound
  {
  }
}
