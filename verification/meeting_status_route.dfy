/** `GET /api/admin/meeting-status?meetingID=…`: validates its input and
    configuration, signs a `getMeetingInfo` call, fetches it and interprets
    the XML with the recording-aware parser. */
module MeetingStatusRoute {
  import opened Wrappers
  import opened BbbApi
  import opened MeetingInfoXml

  const Action: string := "getMeetingInfo"
  const TransportError: string := "Failed to check meeting status"

  /** `new URLSearchParams({ meetingID }).toString()`. */
  function StatusQuery(meetingID: string, form: string -> string): (q: string)
    ensures q == form("meetingID") + "=" + form(meetingID)
  {
    var enc := EncodeBoth([Param("meetingID", meetingID)], form);
    assert enc == [Param(form("meetingID"), form(meetingID))];
    assert Fields(enc) == [Field(enc[0])];
    Serialize(enc)
  }

  /** The request `GET` would send, or the error it answers before sending
      anything: 400 without a meeting ID, then 500 without configuration. */
  function StatusRequest(meetingID: Option<string>, cfg: Config, form: string -> string,
                         hash: string -> string): (r: Result<string, HttpError>)
    ensures !Truthy(meetingID) ==> r == Failure(HttpError(400, MeetingIdRequired))
    ensures Truthy(meetingID) && Credentials(cfg).None? ==> r == Failure(HttpError(500, ConfigMissing))
    ensures r.Success? <==> Truthy(meetingID) && Credentials(cfg).Some?
    ensures r.Success? ==>
              var query := form("meetingID") + "=" + form(meetingID.value);
              r.value == cfg.baseUrl.value + "/api/getMeetingInfo?" + query + "&checksum="
                         + hash("getMeetingInfo" + query + cfg.secret.value)
  {
    if !Truthy(meetingID) then Failure(HttpError(400, MeetingIdRequired))
    else
      match Credentials(cfg)
      case None => Failure(HttpError(500, ConfigMissing))
      case Some((base, secret)) =>
        var query := StatusQuery(meetingID.value, form);
        ApiUrlText(base, Action, "/api/getMeetingInfo?", query, secret, hash);
        Success(ApiUrl(base, Action, query, secret, hash))
  }

  /** `checkMeetingStatus` after the fetch: the parsed reply, whatever the
      HTTP status, or the fixed transport error when `fetch` threw. */
  function Interpret(body: Option<string>): (r: MeetingInfo)
    ensures body.None? ==> r == Missing(TransportError, None)
    ensures body.Some? ==> r == Parse(body.value, true)
  {
    match body
    case None => Missing(TransportError, None)
    case Some(xml) => Parse(xml, true)
  }

  /** The whole handler. `fetch` maps a URL to the response text, or to
      `None` when the request throws. */
  function Get(meetingID: Option<string>, cfg: Config, form: string -> string, hash: string -> string,
               fetch: string -> Option<string>): (r: Result<MeetingInfo, HttpError>)
    ensures StatusRequest(meetingID, cfg, form, hash).Failure? ==>
              r == Failure(StatusRequest(meetingID, cfg, form, hash).error)
    ensures StatusRequest(meetingID, cfg, form, hash).Success? ==>
              r == Success(Interpret(fetch(StatusRequest(meetingID, cfg, form, hash).value)))
  {
    match StatusRequest(meetingID, cfg, form, hash)
    case Failure(e) => Failure(e)
    case Success(url) => Success(Interpret(fetch(url)))
  }

  /** The status request carries exactly one parameter, `meetingID`, and its
      checksum passes the server's check. */
  lemma StatusRequestWellFormed(meetingID: string, secret: string, form: string -> string, hash: string -> string)
    requires EscapesDelimiters(form) && EscapesDelimiters(hash)
    ensures var query := StatusQuery(meetingID, form);
            && ParseQuery(query) == [Param(form("meetingID"), form(meetingID))]
            && Accepts(Action, SignedQuery(Action, query, secret, hash), secret, hash)
  {
    var ps := [Param("meetingID", meetingID)];
    BothRequestWellFormed(Action, ps, secret, form, hash);
    assert EncodeBoth(ps, form) == [Param(form("meetingID"), form(meetingID))];
  }
}
