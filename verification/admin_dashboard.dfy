/** The pure state logic of the admin page: the room catalogue, the
    snapshot-to-room mapping of `fetchMeetingStatuses`, the update-by-id
    after a successful start or stop, the room-to-level mapping of
    `joinMeeting`, and which actions a room card offers. */
module AdminDashboard {
  import opened Wrappers
  import opened BbbApi
  import opened MeetingInfoXml
  import MeetingStatusRoute
  import JoinRoute

  datatype RoomStatus = Idle | Starting | Running | Stopped

  datatype Room = Room(
    id: string,
    name: string,
    level: string,
    status: RoomStatus,
    participantCount: int,
    recordingStatus: RecordingStatus)

  function NewRoom(id: string, name: string, level: string): Room {
    Room(id, name, level, Idle, 0, NotRecording)
  }

  /** The rooms the page starts with. */
  const InitialRooms: seq<Room> := [
    NewRoom("general", "General", "all"),
    NewRoom("general-2", "General 2", "all"),
    NewRoom("beginner-scratch", "Beginner Scratch", "beginner"),
    NewRoom("intermediate-scratch", "Intermediate Scratch", "intermediate"),
    NewRoom("python-1", "Python 1", "python"),
    NewRoom("python-2", "Python 2", "python"),
    NewRoom("web-dev", "Web Dev", "web")]

  /** What `await response.json()` gave for one room: the status route's
      answer, or `None` when the fetch or the JSON decoding threw. */
  type StatusReply = Option<Result<MeetingInfo, HttpError>>

  /** `data.exists` is true: the reply carries an `exists: true` object. */
  predicate Exists(reply: StatusReply) {
    reply.Some? && reply.value.Success? && reply.value.value.Found?
  }

  /** The `exists: true` object of the reply. */
  function Info(reply: StatusReply): MeetingInfo
    requires Exists(reply)
  {
    reply.value.value
  }

  /** `data.exists ? (data.running ? 'running' : 'idle') : 'stopped'`. */
  function StatusOf(reply: StatusReply): (s: RoomStatus)
    ensures s == Running <==> Exists(reply) && Info(reply).running
    ensures s == Idle <==> Exists(reply) && !Info(reply).running
    ensures s == Stopped <==> !Exists(reply)
  {
    match reply
    case Some(Success(Found(_, _, _, running, _, _))) => if running then Running else Idle
    case _ => Stopped
  }

  /** `data.participantCount || 0`: absent, `0` and `NaN` all give `0`. */
  function CountOf(reply: StatusReply): (n: int)
    ensures n != 0 ==> Exists(reply) && Info(reply).participantCount == Some(n)
    ensures Exists(reply) && Info(reply).participantCount.Some? ==> n == Info(reply).participantCount.value
  {
    match reply
    case Some(Success(Found(_, _, Some(count), _, _, _))) => count
    case _ => 0
  }

  /** `data.recordingStatus || 'not-recording'`. */
  function RecordingOf(reply: StatusReply): (r: RecordingStatus)
    ensures r != NotRecording ==> Exists(reply) && Info(reply).recordingStatus == Some(r)
    ensures Exists(reply) && Info(reply).recordingStatus.Some? ==> r == Info(reply).recordingStatus.value
  {
    match reply
    case Some(Success(Found(_, _, _, _, Some(rs), _))) => rs
    case _ => NotRecording
  }

  /** One room after its status fetch: identity kept, the three status
      fields replaced. A failed fetch yields `stopped`, `0`, `not-recording`. */
  function Refresh(room: Room, reply: StatusReply): (r: Room)
    ensures r.id == room.id && r.name == room.name && r.level == room.level
    ensures r.status == StatusOf(reply) && r.participantCount == CountOf(reply)
            && r.recordingStatus == RecordingOf(reply)
    ensures reply.None? ==> r == room.(status := Stopped, participantCount := 0, recordingStatus := NotRecording)
  {
    room.(status := StatusOf(reply), participantCount := CountOf(reply), recordingStatus := RecordingOf(reply))
  }

  /** `fetchMeetingStatuses`, with the parallel fetches taken one after the
      other: `lookup` answers the status request for a room id. The last
      ensures follows from the one before and `Refresh`; it is kept so that
      callers matching rooms by id need not unfold `Refresh`. */
  method RefreshAll(rooms: seq<Room>, lookup: string -> StatusReply) returns (updated: seq<Room>)
    ensures |updated| == |rooms|
    ensures forall i :: 0 <= i < |rooms| ==> updated[i] == Refresh(rooms[i], lookup(rooms[i].id))
    ensures forall i :: 0 <= i < |rooms| ==> updated[i].id == rooms[i].id
  {
    updated := [];
    var i := 0;
    while i < |rooms|
      invariant 0 <= i <= |rooms|
      invariant |updated| == i
      invariant forall j :: 0 <= j < i ==> updated[j] == Refresh(rooms[j], lookup(rooms[j].id))
    {
      updated := updated + [Refresh(rooms[i], lookup(rooms[i].id))];
      i := i + 1;
    }
  }

  /** `prev.map(room => room.id === roomId ? change(room) : room)`. */
  function UpdateById(rooms: seq<Room>, roomId: string, change: Room -> Room): (r: seq<Room>)
    ensures |r| == |rooms|
    ensures forall i :: 0 <= i < |rooms| && rooms[i].id == roomId ==> r[i] == change(rooms[i])
    ensures forall i :: 0 <= i < |rooms| && rooms[i].id != roomId ==> r[i] == rooms[i]
  {
    if |rooms| == 0 then []
    else [if rooms[0].id == roomId then change(rooms[0]) else rooms[0]] + UpdateById(rooms[1..], roomId, change)
  }

  function MarkStarted(room: Room): Room {
    room.(status := Running, recordingStatus := Recording)
  }

  function MarkStopped(room: Room): Room {
    room.(status := Stopped, participantCount := 0, recordingStatus := NotRecording)
  }

  /** The rooms after `startMeeting(roomId)`; `success` is `data.success`. */
  function AfterStart(rooms: seq<Room>, roomId: string, success: bool): (r: seq<Room>)
    ensures |r| == |rooms|
    ensures forall i :: 0 <= i < |rooms| ==> r[i].id == rooms[i].id && r[i].name == rooms[i].name
                                             && r[i].level == rooms[i].level
                                             && r[i].participantCount == rooms[i].participantCount
    ensures forall i :: 0 <= i < |rooms| && success && rooms[i].id == roomId ==>
              r[i].status == Running && r[i].recordingStatus == Recording
    ensures forall i :: 0 <= i < |rooms| && (!success || rooms[i].id != roomId) ==> r[i] == rooms[i]
  {
    if success then UpdateById(rooms, roomId, MarkStarted) else rooms
  }

  /** The rooms after `stopMeeting(roomId)`; `success` is `data.success`. */
  function AfterStop(rooms: seq<Room>, roomId: string, success: bool): (r: seq<Room>)
    ensures |r| == |rooms|
    ensures forall i :: 0 <= i < |rooms| ==> r[i].id == rooms[i].id && r[i].name == rooms[i].name
                                             && r[i].level == rooms[i].level
    ensures forall i :: 0 <= i < |rooms| && success && rooms[i].id == roomId ==>
              r[i].status == Stopped && r[i].participantCount == 0 && r[i].recordingStatus == NotRecording
    ensures forall i :: 0 <= i < |rooms| && (!success || rooms[i].id != roomId) ==> r[i] == rooms[i]
  {
    if success then UpdateById(rooms, roomId, MarkStopped) else rooms
  }

  /** Starting twice is starting once, and a stop after a start of the
      same room leaves it as a stop alone would. */
  lemma StartStopAbsorb(rooms: seq<Room>, roomId: string)
    ensures AfterStart(AfterStart(rooms, roomId, true), roomId, true) == AfterStart(rooms, roomId, true)
    ensures AfterStop(AfterStart(rooms, roomId, true), roomId, true) == AfterStop(rooms, roomId, true)
  {
    var s := AfterStart(rooms, roomId, true);
    assert |AfterStart(s, roomId, true)| == |s|;
    assert forall i :: 0 <= i < |rooms| ==> AfterStart(s, roomId, true)[i] == s[i];
    assert forall i :: 0 <= i < |rooms| ==> AfterStop(s, roomId, true)[i] == AfterStop(rooms, roomId, true)[i];
  }

  /** Updates of two different rooms commute. */
  lemma UpdatesCommute(rooms: seq<Room>, a: string, b: string)
    requires a != b
    ensures AfterStop(AfterStart(rooms, a, true), b, true) == AfterStart(AfterStop(rooms, b, true), a, true)
  {
    var l, r := AfterStop(AfterStart(rooms, a, true), b, true), AfterStart(AfterStop(rooms, b, true), a, true);
    assert forall i :: 0 <= i < |rooms| ==> l[i] == r[i];
  }

  /** The `switch (roomId)` in `joinMeeting`. */
  function JoinLevel(roomId: string): (level: string)
    ensures level in {"beginner", "intermediate", "python", "web", "all"}
    ensures level == "beginner" <==> roomId == "beginner-scratch"
    ensures level == "intermediate" <==> roomId == "intermediate-scratch"
    ensures level == "python" <==> roomId == "python-1" || roomId == "python-2"
    ensures level == "web" <==> roomId == "web-dev"
    ensures level == "all" <==> roomId !in {"beginner-scratch", "intermediate-scratch", "python-1", "python-2", "web-dev"}
  {
    match roomId
    case "beginner-scratch" => "beginner"
    case "intermediate-scratch" => "intermediate"
    case "python-1" => "python"
    case "python-2" => "python"
    case "web-dev" => "web"
    case _ => "all"
  }

  datatype Action = Start | Stop | Join

  /** The buttons a room card shows. */
  function Actions(status: RoomStatus): (acts: set<Action>)
    ensures Start in acts <==> status == Stopped || status == Idle
    ensures Start in acts <==> Stop !in acts
    ensures Stop in acts <==> Join in acts
  {
    if status == Stopped || status == Idle then {Start} else {Stop, Join}
  }

  /** The catalogue is consistent with the join switch: every room's level
      is the level `joinMeeting` sends for its id, and ids are distinct. */
  lemma CatalogueConsistent()
    ensures forall i :: 0 <= i < |InitialRooms| ==> JoinLevel(InitialRooms[i].id) == InitialRooms[i].level
    ensures forall i, j :: 0 <= i < j < |InitialRooms| ==> InitialRooms[i].id != InitialRooms[j].id
  {
  }

  /** Joining from the dashboard lands in the beginner or intermediate
      meeting for those rooms and in the general meeting for every other
      room: the join route knows no `python`, `web` or `all` level. */
  lemma DashboardJoinTarget(roomId: string, env: JoinRoute.JoinEnv)
    ensures var id := JoinRoute.MeetingIdForLevel(Some(JoinLevel(roomId)), env);
            && (roomId == "beginner-scratch" ==> id == env.beginnerId)
            && (roomId == "intermediate-scratch" ==> id == env.intermediateId)
            && (roomId !in {"beginner-scratch", "intermediate-scratch"} ==> id == env.generalId)
  {
  }

  /** End to end: a room shows `running` exactly when the server's
      `getMeetingInfo` reply names the meeting, reports no failure and has
      `<running>true</running>`. */
  lemma RunningIffServerSaysSo(room: Room, cfg: Config, form: string -> string, hash: string -> string,
                               fetch: string -> Option<string>)
    requires room.id != "" && Credentials(cfg).Some?
    requires fetch(MeetingStatusRoute.StatusRequest(Some(room.id), cfg, form, hash).value).Some?
    ensures var xml := fetch(MeetingStatusRoute.StatusRequest(Some(room.id), cfg, form, hash).value).value;
            var r := Refresh(room, Some(MeetingStatusRoute.Get(Some(room.id), cfg, form, hash, fetch)));
            r.status == Running <==>
              !Text.Occurs(xml, FailedMarker) && Text.Occurs(xml, MeetingIdTag)
              && TagMatch.FieldIs(xml, "running", "true")
  {
  }
}
