/** `POST /api/admin/start-meeting` with body `{ meetingID, enableRecording }`:
    builds the `create` call, with the three recording parameters added
    together or not at all, and reports success exactly when the HTTP
    response is ok. */
module StartMeetingRoute {
  import opened Wrappers
  import opened BbbApi
  import opened JsNumber

  const Action: string := "create"

  /** The display names `getMeetingName` knows. */
  const KnownRoomNames: map<string, string> := map[
    "general-room" := "General Room",
    "beginner-room" := "Beginner Room",
    "intermediate-room" := "Intermediate Room",
    "elite-room" := "Elite Room"]

  /** `getMeetingName(id)`: a known room's display name, else the id itself. */
  function MeetingName(id: string): (r: string)
    ensures id in KnownRoomNames ==> r == KnownRoomNames[id]
    ensures id !in KnownRoomNames ==> r == id
  {
    match id
    case "general-room" => "General Room"
    case "beginner-room" => "Beginner Room"
    case "intermediate-room" => "Intermediate Room"
    case "elite-room" => "Elite Room"
    case _ => id
  }

  /** `enableRecording = true`: an omitted flag means recording. */
  function RecordingRequested(flag: Option<bool>): bool {
    flag.GetOr(true)
  }

  const RecordingKeys: seq<string> := ["record", "autoStartRecording", "allowStartStopRecording"]

  predicate HasKey(ps: seq<Param>, key: string) {
    exists k :: 0 <= k < |ps| && ps[k].key == key
  }

  /** The `params` record in insertion order: `meetingID`, `name`, then
      the three recording switches, each `'true'`, only when recording. */
  function CreateParams(meetingID: string, recording: bool): (ps: seq<Param>)
    ensures |ps| >= 2 && ps[0] == Param("meetingID", meetingID) && ps[1] == Param("name", MeetingName(meetingID))
    ensures forall k :: 2 <= k < |ps| ==> ps[k].value == "true"
    ensures recording ==> |ps| == 5 && ps[2].key == "record" && ps[3].key == "autoStartRecording"
                          && ps[4].key == "allowStartStopRecording"
    ensures !recording ==> |ps| == 2
  {
    var base := [Param("meetingID", meetingID), Param("name", MeetingName(meetingID))];
    if recording then
      base + [Param("record", "true"), Param("autoStartRecording", "true"), Param("allowStartStopRecording", "true")]
    else base
  }

  /** The three recording switches are sent all together or not at all. */
  lemma RecordingAllOrNothing(meetingID: string, recording: bool)
    ensures var ps := CreateParams(meetingID, recording);
            forall key :: key in RecordingKeys ==> (HasKey(ps, key) <==> recording)
  {
    var ps := CreateParams(meetingID, recording);
    forall key | key in RecordingKeys
      ensures HasKey(ps, key) <==> recording
    {
      if !recording {
        assert ps[0].key != key && ps[1].key != key;
      } else {
        assert ps[2].key == RecordingKeys[0] && ps[3].key == RecordingKeys[1] && ps[4].key == RecordingKeys[2];
      }
    }
  }

  /** `key=encodeURIComponent(value)` joined by `&`; keys are not encoded. */
  function CreateQuery(meetingID: string, recording: bool, encode: string -> string): string {
    Serialize(EncodeValues(CreateParams(meetingID, recording), encode))
  }

  /** The URL the handler fetches, or the error it answers before fetching:
      400 without a meeting ID, then 500 without configuration. */
  function Request(meetingID: Option<string>, flag: Option<bool>, cfg: Config,
                   encode: string -> string, hash: string -> string): (r: Result<string, ApiFailure>)
    ensures !Truthy(meetingID) ==> r == Failure(ApiFailure(400, MeetingIdRequired, None))
    ensures Truthy(meetingID) && Credentials(cfg).None? ==> r == Failure(ApiFailure(500, ConfigMissing, None))
    ensures r.Success? <==> Truthy(meetingID) && Credentials(cfg).Some?
    ensures r.Success? ==>
              var query := CreateQuery(meetingID.value, RecordingRequested(flag), encode);
              r.value == cfg.baseUrl.value + "/api/create?" + query + "&checksum="
                         + hash("create" + query + cfg.secret.value)
  {
    if !Truthy(meetingID) then Failure(ApiFailure(400, MeetingIdRequired, None))
    else
      match Credentials(cfg)
      case None => Failure(ApiFailure(500, ConfigMissing, None))
      case Some((base, secret)) =>
        var query := CreateQuery(meetingID.value, RecordingRequested(flag), encode);
        ApiUrlText(base, Action, "/api/create?", query, secret, hash);
        Success(ApiUrl(base, Action, query, secret, hash))
  }

  /** The JSON body of a successful start. */
  datatype Created = Created(message: string, meetingID: string, meetingName: string, recordingEnabled: bool)

  function SuccessMessage(meetingID: string, recording: bool): string {
    "Successfully created meeting: " + MeetingName(meetingID) + " (ID: " + meetingID + ")"
    + (if recording then " with recording enabled" else "")
  }

  /** The whole handler. `fetch` maps the create URL to what fetching it
      produced. */
  function Post(meetingID: Option<string>, flag: Option<bool>, cfg: Config,
                encode: string -> string, hash: string -> string,
                fetch: string -> FetchOutcome): (r: Result<Created, ApiFailure>)
    ensures Request(meetingID, flag, cfg, encode, hash).Failure? ==>
              r == Failure(Request(meetingID, flag, cfg, encode, hash).error)
    ensures Request(meetingID, flag, cfg, encode, hash).Success? ==>
              var out := fetch(Request(meetingID, flag, cfg, encode, hash).value);
              && (r.Success? <==> out.Response? && out.ok)
              && (out.Response? && !out.ok ==>
                    r == Failure(ApiFailure(500, "Failed to create meeting: " + DecimalString(out.status)
                                                 + " " + out.statusText, Some(out.body))))
              && (out.Thrown? ==> r == Failure(ApiFailure(500, "Error creating meeting: " + out.reason, None)))
    ensures r.Success? ==>
              && r.value.meetingID == meetingID.value
              && r.value.meetingName == MeetingName(meetingID.value)
              && r.value.recordingEnabled == RecordingRequested(flag)
              && r.value.message == SuccessMessage(meetingID.value, RecordingRequested(flag))
  {
    match Request(meetingID, flag, cfg, encode, hash)
    case Failure(e) => Failure(e)
    case Success(url) =>
      var recording := RecordingRequested(flag);
      match fetch(url)
      case Response(ok, status, statusText, body) =>
        if ok then Success(Created(SuccessMessage(meetingID.value, recording), meetingID.value,
                                   MeetingName(meetingID.value), recording))
        else Failure(ApiFailure(500, "Failed to create meeting: " + DecimalString(status) + " " + statusText, Some(body)))
      case Thrown(reason) => Failure(ApiFailure(500, "Error creating meeting: " + reason, None))
  }

  /** The server receives the create parameters in insertion order, with
      values encoded, and the checksum passes its check. */
  lemma CreateRequestWellFormed(meetingID: string, recording: bool, secret: string,
                                encode: string -> string, hash: string -> string)
    requires EscapesDelimiters(encode) && EscapesDelimiters(hash)
    ensures var query := CreateQuery(meetingID, recording, encode);
            && ParseQuery(query) == EncodeValues(CreateParams(meetingID, recording), encode)
            && Accepts(Action, SignedQuery(Action, query, secret, hash), secret, hash)
  {
    CreateKeysPlain(meetingID, recording);
    ValuesRequestWellFormed(Action, CreateParams(meetingID, recording), secret, encode, hash);
  }

  /** No create parameter name holds `&` or `=`, so the names need no
      encoding. */
  lemma CreateKeysPlain(meetingID: string, recording: bool)
    ensures var ps := CreateParams(meetingID, recording);
            forall k :: 0 <= k < |ps| ==> '&' !in ps[k].key && '=' !in ps[k].key
  {
    var ps := CreateParams(meetingID, recording);
    KeyLiteralsPlain();
    forall k | 0 <= k < |ps|
      ensures '&' !in ps[k].key && '=' !in ps[k].key
    {
      if k == 0 {
        assert ps[k].key == "meetingID";
      } else if k == 1 {
        assert ps[k].key == "name";
      } else if k == 2 {
        assert ps[k].key == "record";
      } else if k == 3 {
        assert ps[k].key == "autoStartRecording";
      } else {
        assert ps[k].key == "allowStartStopRecording";
      }
    }
  }

  /** The five key literals, one fact each. Kept apart from `CreateKeysPlain`
      so that the character-by-character checks of the literals are made in
      a small proof of their own rather than next to the parameter list. */
  lemma KeyLiteralsPlain()
    ensures '&' !in "meetingID" && '=' !in "meetingID"
    ensures '&' !in "name" && '=' !in "name"
    ensures '&' !in "record" && '=' !in "record"
    ensures '&' !in "autoStartRecording" && '=' !in "autoStartRecording"
    ensures '&' !in "allowStartStopRecording" && '=' !in "allowStartStopRecording"
  {
    LongKeysPlain();
  }

  /** The two long key literals, split off again for the same reason. */
  lemma LongKeysPlain()
    ensures '&' !in "autoStartRecording" && '=' !in "autoStartRecording"
    ensures '&' !in "allowStartStopRecording" && '=' !in "allowStartStopRecording"
  {
  }

  /** The body of an ok response is never inspected: a reply whose XML
      reports `FAILED` still counts as a successful start. */
  lemma OkBodyIgnored(meetingID: Option<string>, flag: Option<bool>, cfg: Config,
                      encode: string -> string, hash: string -> string,
                      fetch1: string -> FetchOutcome, fetch2: string -> FetchOutcome)
    requires Request(meetingID, flag, cfg, encode, hash).Success?
    requires var url := Request(meetingID, flag, cfg, encode, hash).value;
             fetch1(url).Response? && fetch1(url).ok && fetch2(url).Response? && fetch2(url).ok
    ensures Post(meetingID, flag, cfg, encode, hash, fetch1) == Post(meetingID, flag, cfg, encode, hash, fetch2)
    ensures Post(meetingID, flag, cfg, encode, hash, fetch1).Success?
  {
  }
}
