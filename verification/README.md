# bbbclassroom: signed BigBlueButton calls, meeting-info parsing and the admin dashboard

bbbclassroom is a Next.js front end for a BigBlueButton (BBB) server. Learners join level-specific meetings through it. One administrator starts, stops and monitors the meetings from a dashboard. This project models the part of the application that carries its logic:

- **The four server calls.** `create`, `end`, `getMeetingInfo` and `join` are each a query string signed with `hex(SHA-256(action ++ query ++ secret))`. The call goes to `base/api/<action>?<query>&checksum=<hex>`. Modules: `BbbApi`, `StartMeetingRoute`, `StopMeetingRoute`, `MeetingStatusRoute`, `JoinRoute`.
- **The reply interpreter `parseMeetingInfoXML`.** It reads a `getMeetingInfo` reply with substring tests and first-match regular expressions `/<tag>(.*?)<\/tag>/`. There are two copies, one in the admin status route and one in the join route. Modules: `TagMatch`, `MeetingInfoXml`, with the `parseInt` model in `JsNumber`.
- **The admin dashboard's state logic.** This covers the room catalogue, the mapping from a status reply to a room, the update-by-id after a start or stop, the room-to-level switch used for joining, and the buttons a room card shows. Module: `AdminDashboard`.

`Wrappers` holds `Option` and `Result`. `Text` holds substring search, split and join.

`BbbApi.Accepts` is not taken from the application. It is this project's model of the checksum check a BigBlueButton server makes on a call: the last parameter must be `checksum=<c>`, and `c` must be the digest of the action, the preceding query and the shared secret. The signing lemmas are stated against it.

Each route handler is a pure function from its inputs to its answer:

- query parameters or the JSON body;
- the environment variables, modelled as a `Config` or `JoinEnv` record;
- SHA-256 and the percent-encoders, passed in as functions;
- `fetch`, passed in as a function from URL to outcome.

Early errors are modelled with the source's status codes and texts, as `HttpError` or `ApiFailure`.

### Behaviour worth knowing

- When `fetch` throws, the admin status route answers `{exists: false, error: "Failed to check meeting status"}` with no error key (`MeetingStatusRoute.Interpret`). The join route's probe yields `null` there.
- A `<participantCount>` that `parseInt` cannot read yields `NaN` (`None` here) in the route's answer. It becomes `0` only on the dashboard, through `data.participantCount || 0` (`AdminDashboard.CountOf`).
- A join to a meeting the server does not report answers status 400 with the single field `error: "No meeting found"`.
- The `<meetingID>` test and the failure-marker test are plain substring tests, made before any regular expression runs. A reply holding `<meetingID>` but no complete `<meetingID>…</meetingID>` pair is still `exists: true`, with an empty `meetingID`.
- The dashboard's join switch sends the levels `python`, `web` and `all`. The join route knows none of these, so those rooms join the general meeting (`AdminDashboard.DashboardJoinTarget`).

## Model

| member | source | states |
|---|---|---|
| BbbApi.Checksum | src/app/api/admin/meeting-status/route.tsx:5-7 | `generateChecksum`: the digest of the action, the query and the secret concatenated with no separator. The same helper appears in all four routes. |
| BbbApi.ApiUrl | src/app/api/admin/meeting-status/route.tsx:49 | The request URL is `base/api/<action>?<query>&checksum=<digest>`, with the digest taken over action, query and secret. Built the same way at start-meeting:72, stop-meeting:47 and bbb:68 and :87. |
| BbbApi.EncodeValues | src/app/api/admin/start-meeting/route.tsx:64-65 | Each parameter keeps its key and its position. Only its value goes through `encodeURIComponent`. |
| BbbApi.EncodeBoth | src/app/api/admin/meeting-status/route.tsx:29-33 | `URLSearchParams.toString` passes each key and each value through the form encoder and keeps their order. |
| BbbApi.Serialize | src/app/api/admin/start-meeting/route.tsx:64-66 | The fields are joined by `&`. Splitting the result at `&` gives back exactly the `key=value` fields whenever the parameters are separable. |
| Text.Contains | src/app/api/admin/meeting-status/route.tsx:74-75 | `includes` is true exactly when the pattern occurs at some position of the text. |
| BbbApi.Credentials | src/app/api/admin/meeting-status/route.tsx:20-27 | The configuration is usable exactly when both the URL and the secret are defined and non-empty. An empty string counts as missing. |
| BbbApi.ParseSerialize | src/app/api/admin/start-meeting/route.tsx:63-66 | Joining `key=value` fields with `&` is undone by splitting at `&` and then at each field's first `=`. This holds whenever no key holds `&` or `=` and no value holds `&`. |
| BbbApi.ValuesSeparable | src/app/api/admin/start-meeting/route.tsx:64-66 | Once the values go through an encoder that escapes `&` and `=`, and the plain keys hold neither, the parameter list can be read back from its serialisation. |
| BbbApi.BothSeparable | src/app/api/admin/meeting-status/route.tsx:29-33 | When keys and values both go through such an encoder, as `URLSearchParams` does, the list can always be read back. |
| BbbApi.ValuesRequestWellFormed | src/app/api/admin/start-meeting/route.tsx:63-72 | A query built from `Object.entries` with encoded values reaches the server as exactly those encoded parameters, in order. Its checksum passes `Accepts`. |
| BbbApi.BothRequestWellFormed | src/app/api/bbb/route.tsx:47-56 | The same holds for a `URLSearchParams` query, with no condition on the keys. |
| BbbApi.HashedQueryAccepted | src/app/api/admin/stop-meeting/route.tsx:5-8 | With a digest that never contains `&`, every signed query passes `Accepts`. |
| BbbApi.SignedQueryAccepted | src/app/api/admin/start-meeting/route.tsx:5-8 | A query signed as `query&checksum=hash(action++query++secret)` passes `Accepts`. `Accepts` is this project's model of how a BigBlueButton server checks a call, which is not part of the modelled code: it strips the last parameter, requires it to be `checksum=`, and recomputes the hash. |
| BbbApi.AcceptedIsSigned | src/app/api/bbb/route.tsx:5-7 | Conversely, every full query the server accepts is `SignedQuery` of some query. |
| TagMatch.Extract | src/app/api/admin/meeting-status/route.tsx:90-93 | `text.match(/<tag>(.*?)<\/tag>/)[1]`: the content of the leftmost, then shortest, `<tag>…</tag>` whose content has no line terminator. It is `Some` exactly when such a match exists. |
| TagMatch.ExtractOr | src/app/api/admin/meeting-status/route.tsx:116-117 | `m ? m[1] : default`: the first match's content, or the default exactly when the tag pair does not match. |
| TagMatch.FieldOfElement | src/app/api/admin/meeting-status/route.tsx:90 | Writing `v` as `<tag>v</tag>` and matching the tag gives `v` back. This needs: no earlier `<tag>`, no line terminator in `v`, and no `</tag>` starting inside `v`. |
| TagMatch.FirstMatchUnique | src/app/api/admin/meeting-status/route.tsx:90 | The reported match is unique: at most one pair of positions is leftmost-then-shortest. |
| JsNumber.ParseInt | src/app/api/admin/meeting-status/route.tsx:118 | `parseInt(c)` is a number exactly when a decimal digit follows an optional sign. A negative result needs a leading `-`. |
| JsNumber.ParseIntDecimal | src/app/api/admin/meeting-status/route.tsx:118 | `parseInt` reads back the decimal rendering of any natural number, with or without a leading `-` and with any non-digit text after it. |
| JsNumber.ParseIntPadded | src/app/api/admin/meeting-status/route.tsx:118 | `parseInt` reads a decimal after no sign, `+` or `-` and any number of leading zeros, up to the first non-digit. `"+5"` gives 5, `"007"` gives 7, and `"-007x"` gives -7. |
| JsNumber.DecimalString | src/app/api/admin/start-meeting/route.tsx:93 | `${response.status}` is a non-empty run of digits with no leading zero. |
| MeetingInfoXml.RecordingStatusOf | src/app/api/admin/meeting-status/route.tsx:96-112 | The status is `processing` exactly when `<processing>` holds `true`. It is `recording` exactly when `<recording>` holds `true` and `<processing>` does not. Otherwise it is `not-recording`. |
| MeetingInfoXml.ParticipantCount | src/app/api/admin/meeting-status/route.tsx:118 | The count is `0` without a `<participantCount>` pair. Otherwise it is `parseInt` of the first match's content. |
| MeetingInfoXml.FailureInfo | src/app/api/admin/meeting-status/route.tsx:77-86 | On the failure branch, `error` is the first `<message>` or `Unknown error`, and `errorKey` is the first `<messageKey>` or `unknown`. |
| MeetingInfoXml.Snapshot | src/app/api/admin/meeting-status/route.tsx:88-123 | Each field of the `exists: true` object is its tag's first match or its default. `running` is true exactly when `<running>` holds `true`. The recording status is reported only by the admin copy. |
| MeetingInfoXml.Parse | src/app/api/admin/meeting-status/route.tsx:72-129 | The failure marker wins. The result is `exists: true` exactly when there is no marker and a `<meetingID>` occurs. With neither, it is exactly `{exists: false, error: "Meeting not found"}`. Fields follow `Snapshot` and `FailureInfo`. |
| MeetingInfoXml.CopiesAgree | src/app/api/bbb/route.tsx:107-145 | The join route's copy of the parser agrees with the admin copy on every input, except that it drops the recording status. |
| MeetingStatusRoute.StatusQuery | src/app/api/admin/meeting-status/route.tsx:29-33 | The status query is the single field `meetingID=<id>`, with key and value form-encoded. |
| MeetingStatusRoute.StatusRequest | src/app/api/admin/meeting-status/route.tsx:11-49 | A missing or empty `meetingID` gives 400 before anything else. Missing configuration gives 500. Otherwise the URL is `base/api/getMeetingInfo?meetingID=<id>&checksum=hash("getMeetingInfo"++query++secret)`, with form-encoded key and value. |
| MeetingStatusRoute.Interpret | src/app/api/admin/meeting-status/route.tsx:51-68 | A response of any HTTP status is parsed by the recording-aware parser. A thrown fetch gives the fixed `Failed to check meeting status` object. |
| MeetingStatusRoute.Get | src/app/api/admin/meeting-status/route.tsx:9-36 | The handler answers the early error or the interpreted reply from the signed URL, and nothing else. |
| MeetingStatusRoute.StatusRequestWellFormed | src/app/api/admin/meeting-status/route.tsx:29-33 | The server reads exactly one parameter, the encoded `meetingID`, and the checksum passes `Accepts`. |
| JoinRoute.Elevate | src/app/api/bbb/route.tsx:12-18 | The role is moderator exactly when the name is present and equals the administrator user name. The moderator's name is `Admin`. A viewer keeps the given name. |
| JoinRoute.MeetingIdForLevel | src/app/api/bbb/route.tsx:20-35 | `beginner`, `intermediate` and `elite` select their meeting IDs. Any other level, or none, selects the general ID. |
| JoinRoute.Plan | src/app/api/bbb/route.tsx:37-87 | Missing configuration gives 500. Otherwise the query is `meetingID`, `fullName`, `role` with `null`/`undefined` stringified. The probe URL and the join URL sign that same query for `getMeetingInfo` and `join`. |
| JoinRoute.Get | src/app/api/bbb/route.tsx:59-74 | The handler returns the join URL, meeting ID and name exactly when the probe's reply parses as an existing meeting. Otherwise it gives 400 `No meeting found`, including when the probe threw. |
| JoinRoute.JoinQueryOrder | src/app/api/bbb/route.tsx:47-53 | The server reads the join parameters as `meetingID`, `fullName`, `role`, in that order, each key and value form-encoded. |
| JoinRoute.PlanWellFormed | src/app/api/bbb/route.tsx:53-68 | Both the probe and the join URL carry the three parameters, and each passes `Accepts` for its own action. |
| JoinRoute.AdminJoinsAsModerator | src/app/api/bbb/route.tsx:15-18 | Signing in with the administrator's user name always joins as moderator `Admin`, whatever the level. |
| StartMeetingRoute.MeetingName | src/app/api/admin/start-meeting/route.tsx:33-46 | The four known room IDs map to their display names. Any other ID is its own name. |
| StartMeetingRoute.CreateParams | src/app/api/admin/start-meeting/route.tsx:51-61 | The parameters are `meetingID`, then `name`. When recording is on, they add `record`, `autoStartRecording` and `allowStartStopRecording`, in that order, all `true`. Otherwise there are exactly two. |
| StartMeetingRoute.RecordingAllOrNothing | src/app/api/admin/start-meeting/route.tsx:56-61 | Each of the three recording switches is sent exactly when recording is on, so they appear all together or not at all. |
| StartMeetingRoute.Request | src/app/api/admin/start-meeting/route.tsx:12-72 | A falsy `meetingID` gives 400 first, then missing configuration gives 500. Otherwise the URL is `base/api/create?query&checksum=hash("create"++query++secret)`. An omitted `enableRecording` means recording. |
| StartMeetingRoute.Post | src/app/api/admin/start-meeting/route.tsx:76-103 | Success exactly when the response is ok, with the name, the recording flag and the message text. A non-ok reply gives 500 `Failed to create meeting: <status> <statusText>` with the body. A thrown fetch gives 500 `Error creating meeting: <reason>`. |
| StartMeetingRoute.CreateRequestWellFormed | src/app/api/admin/start-meeting/route.tsx:63-72 | The server reads the create parameters in insertion order with values encoded, and the checksum passes `Accepts`. |
| StartMeetingRoute.CreateKeysPlain | src/app/api/admin/start-meeting/route.tsx:51-61 | No create parameter name holds `&` or `=`, so names need no encoding. |
| StartMeetingRoute.OkBodyIgnored | src/app/api/admin/start-meeting/route.tsx:82-89 | An ok response counts as success whatever its body says, even a `FAILED` return code. |
| StopMeetingRoute.EndQuery | src/app/api/admin/stop-meeting/route.tsx:33-41 | The query is `meetingID=<enc id>&password=<enc "mp">`. |
| StopMeetingRoute.Request | src/app/api/admin/stop-meeting/route.tsx:12-47 | 400 first, then 500. Otherwise the URL is `base/api/end?meetingID=…&password=…&checksum=hash("end"++query++secret)`. |
| StopMeetingRoute.Post | src/app/api/admin/stop-meeting/route.tsx:51-76 | Success exactly when the response is ok, with message `Successfully ended meeting: <id>`. Otherwise the two 500 error texts. |
| StopMeetingRoute.EndRequestWellFormed | src/app/api/admin/stop-meeting/route.tsx:33-47 | The server reads `meetingID` then `password=mp`, and the checksum passes `Accepts`. |
| AdminDashboard.StatusOf | src/app/admin/page.tsx:106 | `running` exactly when the reply exists and is running. `idle` exactly when it exists and is not running. `stopped` exactly when it does not exist. |
| AdminDashboard.CountOf | src/app/admin/page.tsx:107 | A non-zero count is the reply's own parsed count. An existing reply's count is always taken. `NaN` and absent give `0`. |
| AdminDashboard.RecordingOf | src/app/admin/page.tsx:108 | A status other than `not-recording` is the one the reply reports, and a reported status is always taken. |
| AdminDashboard.Refresh | src/app/admin/page.tsx:104-112 | A room keeps its id, name and level, and takes the three status fields from the reply. A failed fetch yields `stopped`, `0`, `not-recording`. |
| AdminDashboard.RefreshAll | src/app/admin/page.tsx:95-117 | Every room, in order, is refreshed from its own id's reply, and the list keeps its length. |
| AdminDashboard.UpdateById | src/app/admin/page.tsx:143-147 | Exactly the rooms with the given id are changed. All others stay as they are. |
| AdminDashboard.AfterStart | src/app/admin/page.tsx:141-147 | On success the room becomes `running` and `recording`. Every other room, or every room on failure, is unchanged. Identity and count are kept. |
| AdminDashboard.AfterStop | src/app/admin/page.tsx:172-178 | On success the room becomes `stopped`, `0`, `not-recording`. Everything else is unchanged. |
| AdminDashboard.StartStopAbsorb | src/app/admin/page.tsx:141-178 | Starting twice is starting once. A stop after a start gives the same rooms as the stop alone. |
| AdminDashboard.UpdatesCommute | src/app/admin/page.tsx:141-178 | A start of one room and a stop of another commute. |
| AdminDashboard.JoinLevel | src/app/admin/page.tsx:199-220 | The join switch sends `beginner` exactly for `beginner-scratch`, `intermediate` exactly for `intermediate-scratch`, `python` exactly for the two python rooms, `web` exactly for `web-dev`, and `all` exactly for every other room. |
| AdminDashboard.Actions | src/app/admin/page.tsx:384-410 | A card offers Start exactly when the room is idle or stopped. Otherwise it offers Stop and Join together. |
| AdminDashboard.CatalogueConsistent | src/app/admin/page.tsx:20-77 | The seven rooms have distinct ids, and each room's level is what the join switch sends for it. |
| AdminDashboard.DashboardJoinTarget | src/app/admin/page.tsx:199-222 | A dashboard join lands in the beginner or intermediate meeting for those two rooms. Every other room lands in the general meeting. |
| AdminDashboard.RunningIffServerSaysSo | src/app/admin/page.tsx:101-106 | End to end, a room shows `running` exactly when the server's reply has no failure marker, names a meeting, and has `<running>true</running>`. |

## Left out

- SHA-256, `encodeURIComponent` and the `URLSearchParams` form serializer are parameters. Only the strings fed to them and the fact that encoders escape `&` and `=` are modelled. A property such as "changing one character of the input changes the checksum" would need hash injectivity, which SHA-256 does not offer as a theorem.
- `fetch`, `response.text()`, `response.json()`, logging and `NextResponse` are left out. A fetch is a function from URL to outcome. A handler's answer is a `Result`.
- `Promise.all` in `fetchMeetingStatuses` is modelled as taking the replies one after the other. The fetches are independent, so the order does not change the result.
- The React rendering, `localStorage`, the router redirect, `alert`, the loading flag and the `starting` button label are left out. `src/app/dashboard/page.tsx` and `src/app/page.tsx` are not part of this model.
- The dashboard's status fetch puts the room id into the URL without encoding, and the route reads it back with `searchParams.get`. The model takes the id through unchanged, which holds for the seven catalogue ids.
- The outer `try`/`catch` answers `Internal server error` and `Failed to parse XML response` are left out. Besides I/O (`req.json()`, `new URL`, `response.text()`), the start and stop handlers also throw when the JSON body is `null`: destructuring it fails and the handler answers 500 `Internal server error`. The parser itself has nothing that throws.
- StartMeetingRoute.Request: a `null` JSON body is not modelled. The source throws at start-meeting/route.tsx:13 and answers 500 `Internal server error` (:105-110). Here the body is a record, and a missing `meetingID` gives 400. A number, string or boolean body has no `meetingID` and also gives 400 in the source, as in the model.
- StopMeetingRoute.Request: a `null` JSON body is not modelled. The source throws at stop-meeting/route.tsx:13 and answers 500 `Internal server error` (:78-83). Here the body is a record, and a missing `meetingID` gives 400. A number, string or boolean body has no `meetingID` and also gives 400 in the source, as in the model.
- JavaScript strings are UTF-16 code-unit sequences. Here a string is a sequence of Dafny characters. `.` in the regular expression excludes `\n`, `\r`, U+2028 and U+2029 as in JavaScript.
- JsNumber.ParseInt: leading whitespace skipping and the `0x` prefix of `parseInt` are not modelled. The server writes counts as plain decimal. `parseInt` returns an IEEE double, so a digit run above 2^53 is rounded; the model returns the exact integer.
- StartMeetingRoute.Request: `enableRecording` is modelled as an optional boolean. Any other JSON value (a string, `null`, `0`) and its truthiness are not modelled.
- StartMeetingRoute.Post: `${error}` of a thrown fetch is modelled as the given reason text.
- StopMeetingRoute.Post: `${error}` of a thrown fetch is modelled as the given reason text.
- The request's `meetingID` in the start and stop bodies is modelled as an optional string. Non-string JSON values are not modelled.
