/** Decoded requests and the responses the handlers write. */
module Http {
  import opened JsonValue
  import opened Auth
  import opened Tables
  import opened Leaderboard

  datatype Method = Get | Post | Put | Patch | Delete | Options | OtherMethod(name: string)

  /** A request as a handler sees it: method, URL (path and query), `Authorization` header, decoded JSON body. */
  datatype Request = Request(verb: Method, url: string, authorization: Option<string>, body: JsonObject)

  /** A row of `GET /sessions`. The duration is kept in seconds; `SEC_TO_TIME` formatting is not modelled. */
  datatype SessionView = SessionView(id: int, text: Json, durationSeconds: int, dateAdded: Date)

  /** The JSON the handlers write; every non-2xx answer is a `message`. */
  datatype Body =
    | NoContent
    | Message(message: string)
    | MessageWithError(message: string, error: string)
    | LoginToken(message: string, token: Token)
    | NewToken(message: string, newToken: Token)
    | ProfileRow(userId: int, username: Json, email: Json)
    | TaskRows(tasks: seq<Task>)
    | Created(fields: JsonObject)
    | SessionCreated(sessionId: int, sessionText: Json, duration: Json)
    | SessionRows(sessions: seq<SessionView>)
    | TopUserRows(standings: seq<Standing>)

  datatype Response = Response(status: int, body: Body)

  function Msg(status: int, text: string): Response {
    Response(status, Message(text))
  }
}
