/** `POST /api/admin/stop-meeting` with body `{ meetingID }`: builds the
    `end` call with the fixed moderator password and reports success
    exactly when the HTTP response is ok. */
module StopMeetingRoute {
  import opened Wrappers
  import opened BbbApi
  import opened JsNumber

  const Action: string := "end"

  /** The moderator password the remote protocol requires to end a meeting. */
  const ModeratorPassword: string := "mp"

  /** The `params` object: `meetingID`, then `password`. */
  function EndParams(meetingID: string): seq<Param> {
    [Param("meetingID", meetingID), Param("password", ModeratorPassword)]
  }

  /** `key=encodeURIComponent(value)` joined by `&`; keys are not encoded. */
  function EndQuery(meetingID: string, encode: string -> string): (q: string)
    ensures q == "meetingID=" + encode(meetingID) + "&password=" + encode(ModeratorPassword)
  {
    var enc := EncodeValues(EndParams(meetingID), encode);
    assert enc == [Param("meetingID", encode(meetingID)), Param("password", encode(ModeratorPassword))];
    SerializeTwo("meetingID", encode(meetingID), "password", encode(ModeratorPassword), "meetingID=", "&password=");
    Serialize(enc)
  }

  /** The URL the handler fetches, or the error it answers before fetching:
      400 without a meeting ID, then 500 without configuration. */
  function Request(meetingID: Option<string>, cfg: Config, encode: string -> string,
                   hash: string -> string): (r: Result<string, ApiFailure>)
    ensures !Truthy(meetingID) ==> r == Failure(ApiFailure(400, MeetingIdRequired, None))
    ensures Truthy(meetingID) && Credentials(cfg).None? ==> r == Failure(ApiFailure(500, ConfigMissing, None))
    ensures r.Success? <==> Truthy(meetingID) && Credentials(cfg).Some?
    ensures r.Success? ==>
              var query := "meetingID=" + encode(meetingID.value) + "&password=" + encode("mp");
              r.value == cfg.baseUrl.value + "/api/end?" + query + "&checksum="
                         + hash("end" + query + cfg.secret.value)
  {
    if !Truthy(meetingID) then Failure(ApiFailure(400, MeetingIdRequired, None))
    else
      match Credentials(cfg)
      case None => Failure(ApiFailure(500, ConfigMissing, None))
      case Some((base, secret)) =>
        var query := EndQuery(meetingID.value, encode);
        ApiUrlText(base, Action, "/api/end?", query, secret, hash);
        Success(ApiUrl(base, Action, query, secret, hash))
  }

  /** The JSON body of a successful stop. */
  datatype Ended = Ended(message: string, meetingID: string)

  /** The whole handler. `fetch` maps the end URL to what fetching it
      produced. */
  function Post(meetingID: Option<string>, cfg: Config, encode: string -> string, hash: string -> string,
                fetch: string -> FetchOutcome): (r: Result<Ended, ApiFailure>)
    ensures Request(meetingID, cfg, encode, hash).Failure? ==>
              r == Failure(Request(meetingID, cfg, encode, hash).error)
    ensures Request(meetingID, cfg, encode, hash).Success? ==>
              var out := fetch(Request(meetingID, cfg, encode, hash).value);
              && (r.Success? <==> out.Response? && out.ok)
              && (out.Response? && !out.ok ==>
                    r == Failure(ApiFailure(500, "Failed to end meeting: " + DecimalString(out.status)
                                                 + " " + out.statusText, Some(out.body))))
              && (out.Thrown? ==> r == Failure(ApiFailure(500, "Error ending meeting: " + out.reason, None)))
    ensures r.Success? ==> r.value == Ended("Successfully ended meeting: " + meetingID.value, meetingID.value)
  {
    match Request(meetingID, cfg, encode, hash)
    case Failure(e) => Failure(e)
    case Success(url) =>
      match fetch(url)
      case Response(ok, status, statusText, body) =>
        if ok then Success(Ended("Successfully ended meeting: " + meetingID.value, meetingID.value))
        else Failure(ApiFailure(500, "Failed to end meeting: " + DecimalString(status) + " " + statusText, Some(body)))
      case Thrown(reason) => Failure(ApiFailure(500, "Error ending meeting: " + reason, None))
  }

  /** The server receives exactly `meetingID` then `password=mp` (values
      encoded), and the checksum passes its check. */
  lemma EndRequestWellFormed(meetingID: string, secret: string, encode: string -> string, hash: string -> string)
    requires EscapesDelimiters(encode) && EscapesDelimiters(hash)
    ensures var query := EndQuery(meetingID, encode);
            && ParseQuery(query) == [Param("meetingID", encode(meetingID)), Param("password", encode(ModeratorPassword))]
            && Accepts(Action, SignedQuery(Action, query, secret, hash), secret, hash)
  {
    var ps := EndParams(meetingID);
    assert forall k :: 0 <= k < |ps| ==> '&' !in ps[k].key && '=' !in ps[k].key by {
      EndKeysPlain();
    }
    ValuesRequestWellFormed(Action, ps, secret, encode, hash);
    assert EncodeValues(ps, encode)
           == [Param("meetingID", encode(meetingID)), Param("password", encode(ModeratorPassword))];
  }

  /** The two key literals hold neither delimiter. Proved on its own so that
      the literal checks stay out of the larger `EndRequestWellFormed` proof. */
  lemma EndKeysPlain()
    ensures '&' !in "meetingID" && '=' !in "meetingID"
    ensures '&' !in "password" && '=' !in "password"
  {
  }
}
