/** `parseMeetingInfoXML`: the interpreter of a `getMeetingInfo` reply.
    Both copies (the admin status route and the join route) run the same
    first-match-wins decision: failure marker, then a `<meetingID>` tag,
    then "not found". Only the admin copy derives a recording status. */
module MeetingInfoXml {
  import opened Wrappers
  import opened Text
  import opened TagMatch
  import opened JsNumber

  datatype RecordingStatus = NotRecording | Recording | Processing

  /** The object the parser returns. `Missing` is every `exists: false`
      shape (`errorKey` is present only on a server-reported failure);
      `Found` is `exists: true`. `participantCount` is `None` where
      `parseInt` yields `NaN`; `recordingStatus` is `None` in the copy that
      does not report it. */
  datatype MeetingInfo =
    | Missing(error: string, errorKey: Option<string>)
    | Found(meetingID: string, meetingName: string, participantCount: Option<int>,
            running: bool, recordingStatus: Option<RecordingStatus>, rawXML: string)

  const FailedMarker: string := "<returncode>FAILED</returncode>"
  const MeetingIdTag: string := "<meetingID>"
  const NotFoundError: string := "Meeting not found"
  const UnknownError: string := "Unknown error"
  const UnknownKey: string := "unknown"

  /** The recording status: `'recording'` iff `<recording>` holds exactly
      `true`, overridden by `'processing'` iff `<processing>` holds exactly
      `true`, and `'not-recording'` otherwise. */
  function RecordingStatusOf(xml: string): (r: RecordingStatus)
    ensures r == Processing <==> FieldIs(xml, "processing", "true")
    ensures r == Recording <==> FieldIs(xml, "recording", "true") && !FieldIs(xml, "processing", "true")
  {
    var status :=
      match Extract("recording", xml)
      case Some(v) => if v == "true" then Recording else NotRecording
      case None => NotRecording;
    match Extract("processing", xml)
    case Some(v) => if v == "true" then Processing else status
    case None => status
  }

  /** `participantCountMatch ? parseInt(participantCountMatch[1]) : 0`. */
  function ParticipantCount(xml: string): (r: Option<int>)
    ensures !HasTag(xml, "participantCount") ==> r == Some(0)
    ensures forall c :: FieldIs(xml, "participantCount", c) ==> r == ParseInt(c)
  {
    match Extract("participantCount", xml)
    case Some(c) => ParseInt(c)
    case None => Some(0)
  }

  /** The `hasError` branch: the first `<message>` and `<messageKey>`. */
  function FailureInfo(xml: string): (r: MeetingInfo)
    ensures r.Missing? && r.errorKey.Some?
    ensures FieldOr(xml, "message", r.error, UnknownError)
    ensures FieldOr(xml, "messageKey", r.errorKey.value, UnknownKey)
  {
    Missing(ExtractOr("message", xml, UnknownError), Some(ExtractOr("messageKey", xml, UnknownKey)))
  }

  /** The `meetingExists` branch: each field extracted independently, with
      its default when the tag pair is absent. */
  function Snapshot(xml: string, withRecording: bool): (r: MeetingInfo)
    ensures r.Found? && r.rawXML == xml
    ensures FieldOr(xml, "meetingID", r.meetingID, "")
    ensures FieldOr(xml, "meetingName", r.meetingName, "")
    ensures r.running <==> FieldIs(xml, "running", "true")
    ensures !HasTag(xml, "participantCount") ==> r.participantCount == Some(0)
    ensures forall c :: FieldIs(xml, "participantCount", c) ==> r.participantCount == ParseInt(c)
    ensures r.recordingStatus.Some? <==> withRecording
    ensures withRecording ==> r.recordingStatus.value == RecordingStatusOf(xml)
  {
    var running := match Extract("running", xml) case Some(v) => v == "true" case None => false;
    Found(ExtractOr("meetingID", xml, ""),
          ExtractOr("meetingName", xml, ""),
          ParticipantCount(xml),
          running,
          if withRecording then Some(RecordingStatusOf(xml)) else None,
          xml)
  }

  /** `parseMeetingInfoXML(xml)`; `withRecording` selects the admin copy. */
  function Parse(xml: string, withRecording: bool): (r: MeetingInfo)
    // the failure marker is tested first and wins over a <meetingID> tag
    ensures Occurs(xml, FailedMarker) ==> r.Missing? && r.errorKey.Some?
    ensures Occurs(xml, FailedMarker) ==>
              FieldOr(xml, "message", r.error, UnknownError) &&
              FieldOr(xml, "messageKey", r.errorKey.value, UnknownKey)
    // exists:true exactly when there is no failure marker and a <meetingID>
    ensures r.Found? <==> !Occurs(xml, FailedMarker) && Occurs(xml, MeetingIdTag)
    ensures r.Found? ==>
              && FieldOr(xml, "meetingID", r.meetingID, "")
              && FieldOr(xml, "meetingName", r.meetingName, "")
              && (r.running <==> FieldIs(xml, "running", "true"))
              && (!HasTag(xml, "participantCount") ==> r.participantCount == Some(0))
              && (forall c :: FieldIs(xml, "participantCount", c) ==> r.participantCount == ParseInt(c))
              && r.rawXML == xml
    ensures r.Found? ==> (r.recordingStatus.Some? <==> withRecording)
    ensures r.Found? && withRecording ==>
              && (r.recordingStatus == Some(Processing) <==> FieldIs(xml, "processing", "true"))
              && (r.recordingStatus == Some(Recording) <==>
                    FieldIs(xml, "recording", "true") && !FieldIs(xml, "processing", "true"))
    // neither marker nor tag: exactly the not-found object
    ensures !Occurs(xml, FailedMarker) && !Occurs(xml, MeetingIdTag) ==> r == Missing(NotFoundError, None)
  {
    if Contains(xml, FailedMarker) then FailureInfo(xml)
    else if Contains(xml, MeetingIdTag) then Snapshot(xml, withRecording)
    else Missing(NotFoundError, None)
  }

  /** The copy in the join route is the admin copy with the recording
      status dropped. */
  lemma CopiesAgree(xml: string)
    ensures var a, j := Parse(xml, true), Parse(xml, false);
            a.Found? <==> j.Found?
    ensures var a, j := Parse(xml, true), Parse(xml, false);
            a.Found? ==> j == a.(recordingStatus := None)
    ensures var a, j := Parse(xml, true), Parse(xml, false);
            a.Missing? ==> j == a
  {
  }
}
