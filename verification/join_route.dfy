/** `GET /api/bbb?name=…&level=…`: elevates the administrator, picks the
    meeting for the level, signs a `join` query, probes the meeting with a
    `getMeetingInfo` call over the same query, and hands back the join URL
    only for a meeting that exists. */
module JoinRoute {
  import opened Wrappers
  import opened BbbApi
  import opened MeetingInfoXml

  /** The environment the handler reads: the server credentials, the
      administrator's user name and the four pre-provisioned meeting IDs
      (`NEXT_PUBLIC_*`; `None` is `undefined`). */
  datatype JoinEnv = JoinEnv(
    config: Config,
    adminUsername: Option<string>,
    generalId: Option<string>,
    beginnerId: Option<string>,
    intermediateId: Option<string>,
    eliteId: Option<string>)

  datatype Role = Viewer | Moderator {
    function Text(): string {
      match this
      case Viewer => "VIEWER"
      case Moderator => "MODERATOR"
    }
  }

  const AdminLabel: string := "Admin"
  const NoMeetingFound: string := "No meeting found"

  /** The display name and role the join is made with. A name equal to the
      administrator's user name becomes `"Admin"` with the moderator role;
      every other name, including a missing one, is kept as a viewer. */
  function Elevate(name: Option<string>, adminUsername: Option<string>): (r: (Option<string>, Role))
    ensures r.1 == Moderator <==> name.Some? && name == adminUsername
    ensures r.1 == Moderator ==> r.0 == Some(AdminLabel)
    ensures r.1 == Viewer ==> r.0 == name
  {
    if name.Some? && name == adminUsername then (Some(AdminLabel), Moderator) else (name, Viewer)
  }

  /** The `switch (level)`: the three named levels select their meeting,
      anything else (or no level) the general one. */
  function MeetingIdForLevel(level: Option<string>, env: JoinEnv): (r: Option<string>)
    ensures level == Some("beginner") ==> r == env.beginnerId
    ensures level == Some("intermediate") ==> r == env.intermediateId
    ensures level == Some("elite") ==> r == env.eliteId
    ensures level !in {Some("beginner"), Some("intermediate"), Some("elite")} ==> r == env.generalId
  {
    match level
    case Some("beginner") => env.beginnerId
    case Some("intermediate") => env.intermediateId
    case Some("elite") => env.eliteId
    case _ => env.generalId
  }

  /** The parameters in the order the record literal lists them. */
  function JoinParams(meetingID: string, fullName: string, role: Role): seq<Param> {
    [Param("meetingID", meetingID), Param("fullName", fullName), Param("role", role.Text())]
  }

  /** `new URLSearchParams({ meetingID, fullName, role }).toString()`. */
  function JoinQuery(meetingID: string, fullName: string, role: Role, form: string -> string): string {
    Serialize(EncodeBoth(JoinParams(meetingID, fullName, role), form))
  }

  /** Everything the handler computes before its two outbound calls. */
  datatype JoinPlan = JoinPlan(
    meetingID: Option<string>,
    fullName: Option<string>,
    role: Role,
    query: string,
    probeUrl: string,
    joinUrl: string)

  /** The signed query shared by the probe and the join, or the
      configuration error. */
  function Plan(name: Option<string>, level: Option<string>, env: JoinEnv,
                form: string -> string, hash: string -> string): (r: Result<JoinPlan, HttpError>)
    ensures r.Failure? <==> Credentials(env.config).None?
    ensures r.Failure? ==> r.error == HttpError(500, ConfigMissing)
    ensures r.Success? ==>
              var p, base, secret := r.value, env.config.baseUrl.value, env.config.secret.value;
              && (p.fullName, p.role) == Elevate(name, env.adminUsername)
              && p.meetingID == MeetingIdForLevel(level, env)
              && p.query == JoinQuery(JsText(p.meetingID, "undefined"), JsText(p.fullName, "null"), p.role, form)
              && p.probeUrl == base + "/api/getMeetingInfo?" + p.query + "&checksum="
                               + hash("getMeetingInfo" + p.query + secret)
              && p.joinUrl == base + "/api/join?" + p.query + "&checksum=" + hash("join" + p.query + secret)
  {
    var (fullName, role) := Elevate(name, env.adminUsername);
    match Credentials(env.config)
    case None => Failure(HttpError(500, ConfigMissing))
    case Some((base, secret)) =>
      Success(SignedPlan(MeetingIdForLevel(level, env), fullName, role, base, secret, form, hash))
  }

  /** The plan for a known meeting, name and role: one query, signed once
      for the probe and once for the join. */
  function SignedPlan(meetingID: Option<string>, fullName: Option<string>, role: Role, base: string,
                      secret: string, form: string -> string, hash: string -> string): (p: JoinPlan)
    ensures p.meetingID == meetingID && p.fullName == fullName && p.role == role
    ensures p.query == JoinQuery(JsText(meetingID, "undefined"), JsText(fullName, "null"), role, form)
    ensures p.probeUrl == base + "/api/getMeetingInfo?" + p.query + "&checksum="
                          + hash("getMeetingInfo" + p.query + secret)
    ensures p.joinUrl == base + "/api/join?" + p.query + "&checksum=" + hash("join" + p.query + secret)
  {
    var query := JoinQuery(JsText(meetingID, "undefined"), JsText(fullName, "null"), role, form);
    ApiUrlText(base, "getMeetingInfo", "/api/getMeetingInfo?", query, secret, hash);
    ApiUrlText(base, "join", "/api/join?", query, secret, hash);
    JoinPlan(meetingID, fullName, role, query,
             ApiUrl(base, "getMeetingInfo", query, secret, hash), ApiUrl(base, "join", query, secret, hash))
  }

  /** The JSON body of a successful join. */
  datatype JoinReply = JoinReply(joinUrl: string, meetingID: Option<string>, fullName: Option<string>)

  /** `!meetingInfo?.exists`: the probe threw (`null`) or the meeting is
      not there. */
  predicate ProbeFound(body: Option<string>) {
    body.Some? && Parse(body.value, false).Found?
  }

  /** The whole handler. `fetch` maps the probe URL to the response text,
      or to `None` when the request throws. */
  function Get(name: Option<string>, level: Option<string>, env: JoinEnv,
               form: string -> string, hash: string -> string,
               fetch: string -> Option<string>): (r: Result<JoinReply, HttpError>)
    ensures Credentials(env.config).None? ==> r == Failure(HttpError(500, ConfigMissing))
    ensures Credentials(env.config).Some? ==>
              var p := Plan(name, level, env, form, hash).value;
              && (r.Success? <==> ProbeFound(fetch(p.probeUrl)))
              && (r.Failure? ==> r.error == HttpError(400, NoMeetingFound))
              && (r.Success? ==> r.value == JoinReply(p.joinUrl, p.meetingID, p.fullName))
  {
    match Plan(name, level, env, form, hash)
    case Failure(e) => Failure(e)
    case Success(p) =>
      if ProbeFound(fetch(p.probeUrl)) then Success(JoinReply(p.joinUrl, p.meetingID, p.fullName))
      else Failure(HttpError(400, NoMeetingFound))
  }

  /** The join parameters reach the server in the order `meetingID`,
      `fullName`, `role`. */
  lemma JoinQueryOrder(meetingID: string, fullName: string, role: Role, form: string -> string)
    requires EscapesDelimiters(form)
    ensures ParseQuery(JoinQuery(meetingID, fullName, role, form))
            == [Param(form("meetingID"), form(meetingID)),
                Param(form("fullName"), form(fullName)),
                Param(form("role"), form(role.Text()))]
  {
    var ps := JoinParams(meetingID, fullName, role);
    BothSeparable(ps, form);
    var enc := EncodeBoth(ps, form);
    ParseSerialize(enc);
    assert enc[0] == Param(form("meetingID"), form(meetingID));
    assert enc[1] == Param(form("fullName"), form(fullName));
    assert enc[2] == Param(form("role"), form(role.Text()));
  }

  /** The join query carries `meetingID`, `fullName`, `role` in that order,
      and both the probe and the join URL pass the server's check for
      their own action over that same query. */
  lemma PlanWellFormed(name: Option<string>, level: Option<string>, env: JoinEnv,
                       form: string -> string, hash: string -> string)
    requires EscapesDelimiters(form) && EscapesDelimiters(hash)
    requires Credentials(env.config).Some?
    ensures var p, secret := Plan(name, level, env, form, hash).value, env.config.secret.value;
            && ParseQuery(p.query) == [Param(form("meetingID"), form(JsText(p.meetingID, "undefined"))),
                                       Param(form("fullName"), form(JsText(p.fullName, "null"))),
                                       Param(form("role"), form(p.role.Text()))]
            && Accepts("getMeetingInfo", SignedQuery("getMeetingInfo", p.query, secret, hash), secret, hash)
            && Accepts("join", SignedQuery("join", p.query, secret, hash), secret, hash)
  {
    var p, secret := Plan(name, level, env, form, hash).value, env.config.secret.value;
    JoinQueryOrder(JsText(p.meetingID, "undefined"), JsText(p.fullName, "null"), p.role, form);
    HashedQueryAccepted("getMeetingInfo", p.query, secret, hash);
    HashedQueryAccepted("join", p.query, secret, hash);
  }

  /** Whoever signs in with the administrator's user name joins as the
      moderator `"Admin"`, whatever the level. */
  lemma AdminJoinsAsModerator(level: Option<string>, env: JoinEnv, form: string -> string, hash: string -> string)
    requires env.adminUsername.Some? && Credentials(env.config).Some?
    ensures var p := Plan(env.adminUsername, level, env, form, hash).value;
            p.role == Moderator && p.fullName == Some(AdminLabel)
            && p.query == JoinQuery(JsText(p.meetingID, "undefined"), AdminLabel, Moderator, form)
  {
  }
}
