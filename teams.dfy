/** The teams service (src/API/services/teams.ts): listing, creating and
    joining teams with an optional bearer token. */
module Teams {
  import opened Common
  import opened Http
  import opened Auth

  datatype TeamMember = TeamMember(id: int, name: string, email: Option<string>, isCaptain: bool, isInvited: bool, isAccepted: bool)

  datatype Team = Team(
    id: int,
    slug: string,
    name: string,
    avatarUrl: string,
    gameId: string,
    gameName: Option<string>,
    description: string,
    membersCount: int,
    members: seq<TeamMember>,
    createdAt: string,
    updatedAt: string)

  /** `TeamsResponse`; `data` may be missing from what the server sends. */
  datatype TeamsBody = TeamsBody(data: Option<seq<Team>>)

  /** `CreateTeamResponse` */
  datatype CreateTeamBody = CreateTeamBody(data: Option<Team>)

  /** `JoinTeamResponse` */
  datatype JoinTeamBody = JoinTeamBody(message: string, team: Team)

  /** An error body of unknown shape, as far as `String(...)` renders it: a
      string stays itself, an object turns into `[object Object]`. */
  datatype Unknown = Text(text: string) | Object

  function AsString(u: Unknown): (s: string)
    ensures u.Text? ==> s == u.text
    ensures u.Object? ==> s == "[object Object]"
  {
    match u
    case Text(t) => t
    case Object => "[object Object]"
  }

  /** `createTeamsApi`: JSON, ten seconds, the token if there is one. */
  function TeamsApiConfig(documentCookie: string): (c: RequestConfig)
    ensures c.contentType == Some(Json) && c.timeoutMs == 10000
    ensures c.authorization != "" <==> IsAuthenticated(documentCookie)
    ensures IsAuthenticated(documentCookie) ==> c.authorization == "Bearer " + GetAccessToken(documentCookie).value
  {
    RequestConfig(ApiUrl, Some(Json), Json, BearerOrEmpty(GetAccessToken(documentCookie)), 10000)
  }

  /** `createTeamsMultipartApi`: no content type of its own (the browser
      sets the multipart boundary), thirty seconds. */
  function TeamsMultipartApiConfig(documentCookie: string): (c: RequestConfig)
    ensures c.contentType.None? && c.timeoutMs == 30000
    ensures c.authorization == TeamsApiConfig(documentCookie).authorization
  {
    RequestConfig(ApiUrl, None, Json, BearerOrEmpty(GetAccessToken(documentCookie)), 30000)
  }

  /** `getTeams`: never fails; a body without `data`, or a failure without
      a body, gives the empty list; a failure's body is handed back as it
      is. */
  function GetTeams(call: Call<Option<TeamsBody>, TeamsBody>): (r: TeamsBody)
    ensures call.Returned? && call.value.Some? && call.value.value.data.Some? ==> r == call.value.value
    ensures call.Returned? && (call.value.None? || call.value.value.data.None?) ==> r == TeamsBody(Some([]))
    ensures call.Threw? && call.error.HasBody() ==> r == call.error.response.value.body.value
    ensures call.Threw? && !call.error.HasBody() ==> r == TeamsBody(Some([]))
  {
    match call
    case Returned(body) =>
      if body.Some? && body.value.data.Some? then body.value else TeamsBody(Some([]))
    case Threw(t) =>
      if t.HasBody() then t.response.value.body.value else TeamsBody(Some([]))
  }

  /** The list `getTeams` resolves with always has `data` unless the server
      sent a failure body without it. */
  lemma GetTeamsHasData(call: Call<Option<TeamsBody>, TeamsBody>)
    ensures GetTeams(call).data.None? ==> call.Threw? && call.error.HasBody() && call.error.response.value.body.value.data.None?
  {
  }

  /** `CreateTeamData` */
  datatype CreateTeamData = CreateTeamData(name: string, gameId: string, avatar: Option<File>, description: Option<string>)

  datatype FormValue = TextValue(text: string) | FileValue(file: File)
  datatype FormEntry = FormEntry(key: string, value: FormValue)

  function FormKeys(form: seq<FormEntry>): (keys: seq<string>)
    ensures |keys| == |form| && forall i :: 0 <= i < |form| ==> keys[i] == form[i].key
  {
    if |form| == 0 then [] else [form[0].key] + FormKeys(form[1..])
  }

  /** The `FormData` `createTeam` posts. */
  function TeamForm(d: CreateTeamData): (form: seq<FormEntry>)
    ensures |form| >= 2 && form[0] == FormEntry("name", TextValue(d.name)) && form[1] == FormEntry("game_id", TextValue(d.gameId))
    ensures |form| == 2 + (if d.avatar.Some? then 1 else 0) + (if d.description.Some? && d.description.value != "" then 1 else 0)
  {
    var base := [FormEntry("name", TextValue(d.name)), FormEntry("game_id", TextValue(d.gameId))];
    var withAvatar := if d.avatar.Some? then base + [FormEntry("avatar", FileValue(d.avatar.value))] else base;
    if d.description.Some? && d.description.value != "" then withAvatar + [FormEntry("description", TextValue(d.description.value))]
    else withAvatar
  }

  /** The avatar is sent exactly when there is one, the description exactly
      when it is not empty, each under its own key and with its own value. */
  lemma TeamFormFields(d: CreateTeamData)
    ensures "avatar" in FormKeys(TeamForm(d)) <==> d.avatar.Some?
    ensures "description" in FormKeys(TeamForm(d)) <==> d.description.Some? && d.description.value != ""
    ensures forall i :: 0 <= i < |TeamForm(d)| && TeamForm(d)[i].key == "avatar" ==> TeamForm(d)[i].value == FileValue(d.avatar.value)
    ensures forall i :: 0 <= i < |TeamForm(d)| && TeamForm(d)[i].key == "description" ==> TeamForm(d)[i].value == TextValue(d.description.value)
  {
    var name := FormEntry("name", TextValue(d.name));
    var game := FormEntry("game_id", TextValue(d.gameId));
    var hasDescription := d.description.Some? && d.description.value != "";
    if d.avatar.Some? {
      var avatar := FormEntry("avatar", FileValue(d.avatar.value));
      if hasDescription {
        assert TeamForm(d) == [name, game, avatar, FormEntry("description", TextValue(d.description.value))];
        assert FormKeys(TeamForm(d)) == ["name", "game_id", "avatar", "description"];
      } else {
        assert TeamForm(d) == [name, game, avatar];
        assert FormKeys(TeamForm(d)) == ["name", "game_id", "avatar"];
      }
    } else if hasDescription {
      assert TeamForm(d) == [name, game, FormEntry("description", TextValue(d.description.value))];
      assert FormKeys(TeamForm(d)) == ["name", "game_id", "description"];
    } else {
      assert TeamForm(d) == [name, game];
      assert FormKeys(TeamForm(d)) == ["name", "game_id"];
    }
  }

  /** The clock readings `createTeam` takes when it makes up a team:
      `Date.now()` for the id, again for the slug, and two ISO timestamps. */
  datatype Clock = Clock(idMs: int, slugMs: int, createdIso: string, updatedIso: string)

  /** The stand-in team for a 200/201 answer without `data`. */
  function PlaceholderTeam(d: CreateTeamData, clock: Clock): (t: Team)
    ensures t.name == d.name && t.gameId == d.gameId && t.gameName.None?
    ensures t.description == (if d.description.Some? then d.description.value else "")
    ensures t.membersCount == 1 && t.members == [] && t.avatarUrl == ""
    ensures t.id == clock.idMs && t.slug == "team-" + IntToString(clock.slugMs)
  {
    Team(clock.idMs, "team-" + IntToString(clock.slugMs), d.name, "", d.gameId, None,
         if d.description.Some? then d.description.value else "", 1, [], clock.createdIso, clock.updatedIso)
  }

  const CreateFailed := "Failed to create team"
  const JoinFailed := "Failed to join team"

  /** `createTeam`: the outcome given the request's answer. */
  function CreateTeam(d: CreateTeamData, clock: Clock, call: Call<Response<CreateTeamBody>, CreateTeamBody>): (r: Result<CreateTeamBody, Thrown<CreateTeamBody>>)
    ensures call.Returned? && call.value.body.Some? && call.value.body.value.data.Some? ==> r == Ok(call.value.body.value)
    ensures call.Returned? && !(call.value.body.Some? && call.value.body.value.data.Some?) ==>
      if call.value.status == 200 || call.value.status == 201 then r == Ok(CreateTeamBody(Some(PlaceholderTeam(d, clock))))
      else r == Err(ErrorWithMessage(CreateFailed))
    ensures call.Threw? && call.error.HasBody() ==> r == Ok(call.error.response.value.body.value)
    ensures call.Threw? && !call.error.HasBody() ==> r == Err(call.error)
  {
    match call
    case Returned(response) =>
      if response.body.Some? && response.body.value.data.Some? then Ok(response.body.value)
      else if response.status == 201 || response.status == 200 then Ok(CreateTeamBody(Some(PlaceholderTeam(d, clock))))
      else Err(ErrorWithMessage(CreateFailed))
    case Threw(t) =>
      if t.HasBody() then Ok(t.response.value.body.value) else Err(t)
  }

  /** `createTeam` fails only when the server's answer carries no body at
      all: an error response with a body resolves as if it were the result. */
  lemma CreateTeamRejectsOnlyWithoutBody(d: CreateTeamData, clock: Clock, call: Call<Response<CreateTeamBody>, CreateTeamBody>)
    ensures CreateTeam(d, clock, call).Err? ==>
      (call.Returned? && (call.value.body.None? || call.value.body.value.data.None?) && call.value.status != 200 && call.value.status != 201)
      || (call.Threw? && !call.error.HasBody())
    ensures CreateTeam(d, clock, call).Ok? && CreateTeam(d, clock, call).value.data.Some? && call.Returned? && call.value.body.None?
      ==> CreateTeam(d, clock, call).value.data.value.name == d.name
  {
  }

  /** `joinTeam`: a missing body fails with the fixed message, a failure's
      body becomes the message of a new error, anything else is rethrown. */
  function JoinTeam(call: Call<Option<JoinTeamBody>, Unknown>): (r: Result<JoinTeamBody, Thrown<Unknown>>)
    ensures call.Returned? && call.value.Some? ==> r == Ok(call.value.value)
    ensures call.Returned? && call.value.None? ==> r == Err(ErrorWithMessage(JoinFailed))
    ensures call.Threw? && call.error.HasBody() ==> r == Err(ErrorWithMessage(AsString(call.error.response.value.body.value)))
    ensures call.Threw? && !call.error.HasBody() ==> r == Err(call.error)
  {
    match call
    case Returned(body) =>
      if body.Some? then Ok(body.value) else Err(ErrorWithMessage(JoinFailed))
    case Threw(t) =>
      if t.HasBody() then Err(ErrorWithMessage(AsString(t.response.value.body.value))) else Err(t)
  }

  /** Every failure of `joinTeam` that came with a body loses the body: only
      a message survives, `[object Object]` for a JSON object. */
  lemma JoinTeamFailureIsMessageOnly(call: Call<Option<JoinTeamBody>, Unknown>)
    requires call.Threw? && call.error.HasBody()
    ensures JoinTeam(call).Err? && !JoinTeam(call).error.HasBody() && JoinTeam(call).error.message.Some?
    ensures call.error.response.value.body.value.Object? ==> JoinTeam(call).error.message == Some("[object Object]")
  {
  }
}
