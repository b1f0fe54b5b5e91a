# CodeSync interview scheduling, modelled in Dafny

CodeSync schedules technical interviews between a candidate and one or more
interviewers. It has three parts:

- a Convex backend that stores interviews and users;
- a Clerk webhook that keeps the users table in sync with the identity provider;
- a Next.js client that negotiates camera and microphone access, runs the
  video call and its code editor, then marks the interview completed.

This project models the decision logic of that code and proves what it
guarantees, and also what it does not guarantee.

Modules, one per source file plus two helpers:

| module | source | form |
|---|---|---|
| `Prelude` | – | `Option`, `Result`, order-preserving `Filter`, first-match `FirstIndex`/`FirstWhere` (the `.filter(...)`, `.first()` and `.find(...)` of the source) |
| `Text` | – | JavaScript `includes`, `trim` (ECMAScript white space), `split`/`pop` on strings |
| `Interviews` | convex/interview.ts | class `InterviewTable` over a sequence of records; queries are functions, the two mutations are methods |
| `Users` | convex/users.ts | class `UserTable`; `UpsertUser` is specified by the pure `Upserted` |
| `Webhook` | convex/http.ts | the pure `Plan` up to the upsert, then the method `HandleClerkWebhook` against a `UserTable` |
| `MeetingSetup` | src/components/MeetingSetup.tsx | class `Setup` with the two device flags and an effects log; each toggle run is specified by the pure `ToggleRun` |
| `EndCall` | src/components/EndCallButton.tsx | render guards and `HandleEndCall`, which runs the status mutation on an `InterviewTable` |
| `CallBuckets` | src/hooks/useGetCalls.tsx | the three bucket filters and the `CallsLoader` state |
| `MeetingModal` | src/components/MeetingModal.tsx | meeting-id extraction, the disabled predicate, class `Modal` |
| `CodeEditor` | src/components/CodeEditor.tsx | class `Editor`, specified by the transitions `QuestionChanged`, `LanguageChanged`, `Edited` |
| `UserRole` | src/hooks/useUserRole.ts | pure flags |
| `CallById` | src/hooks/useGetCallById.ts | generic class `CallLoader<C>`, specified by `AfterGetCall` |
| `StreamToken` | src/actions/stream.action.ts | the auth guard and the `iat`/`exp` window |

Everything outside the program is a parameter:

- the clock;
- the caller's identity;
- the Svix verification outcome;
- getUserMedia and enumerateDevices;
- every Stream SDK call (camera and microphone enable, join, endCall,
  queryCalls);
- the failure of a mutation.

What a UI handler does to the world is recorded as an effects log: SDK calls,
toasts, navigation and callbacks. Document ids come from a counter in each
table, and rows are kept in insertion order.

### What the code does not guarantee

- An interview's end time is not tied to its status. `createInterview`
  stores whatever status it is given, with no end time
  (convex/interview.ts:52-57). Moving an interview away from "completed"
  keeps its end time, because the patch only writes `endTime` for
  "completed" (convex/interview.ts:68-71, `LeavingCompletedKeepsEndTime`).
- Completing an interview twice is not idempotent. The second completion
  overwrites the end time with the later clock (convex/interview.ts:70,
  `CompletingTwiceOverwrites`).
- The call id is not checked for uniqueness. `createInterview` inserts a
  duplicate, and the `.first()` lookup keeps returning the earlier record
  (convex/interview.ts:33-36 and 55-57, `DuplicateStreamCallIdShadowed`).
- `updateInterviewStatus` reads no identity: it patches whatever id it is
  given (convex/interview.ts:67-71). The model's `caller` parameter is
  ignored for that reason.
- `upsertUser` is idempotent only for a known clerkId or a candidate role
  (`UpsertConvergesIff`). Its insert path always stores "candidate"
  (convex/users.ts:29), so a first `user.updated` event stores the wrong
  role.
- An empty `email_addresses` list makes `email_addresses[0]` undefined, so
  reading its `.email_address` throws a TypeError outside the try block
  (convex/http.ts:45). The result is an uncaught
  exception, not a 500 (`NoEmailThrows`).
- `disable()` is called without `await` inside a try block
  (src/components/MeetingSetup.tsx:21-25 and 88-92). The catch only sees a
  synchronous throw. A rejected promise escapes the handler, and no toast
  is shown either way. The model records the `Disable` effect and nothing
  else.

## Model

| member | source | states |
|---|---|---|
| `Prelude.Filter` | src/hooks/useGetCalls.tsx:39-41 | the result holds exactly the elements passing the test, in their original order (a subsequence), each as many times as in the input, and everything when all pass |
| `Prelude.FirstIndex` | convex/users.ts:13-16 | the index of the first match, or None exactly when nothing matches |
| `Prelude.FirstWhere` | src/components/CodeEditor.tsx:16 | the first element satisfying the test, or None exactly when none does |
| `Prelude.FirstIndexAppend` | convex/interview.ts:33-36 | appending records never changes an existing first match |
| `Text.ContainsIffOccurs` | src/components/MeetingSetup.tsx:38 | `includes` holds exactly when the needle occurs at some index |
| `Text.Trim` | src/components/MeetingModal.tsx:53 | the result is a window of the input with only white space cut on either side, starts and ends with non-space, and is empty iff the input is all white space |
| `Text.TrimIdempotent` | convex/http.ts:46 | trimming twice is trimming once |
| `Text.TrimUnchanged` | convex/http.ts:46 | a string with no white space at either end is its own trim |
| `Text.Split` | src/components/MeetingModal.tsx:20 | at least one part, no part holds the separator, a single part iff there is no separator, and then that part is the whole string |
| `Text.SplitLast` | src/components/MeetingModal.tsx:20 | the last part is a suffix of the string, preceded by the separator when it is shorter than the string |
| `Text.JoinSplit` | src/components/MeetingModal.tsx:20 | joining the parts with the separator gives back the string |
| `Text.LastPiece` | src/components/MeetingModal.tsx:20 | `split(sep).pop()` is the suffix after the last separator, free of it, or the whole string when there is none |
| `Text.LastPieceUnique` | src/components/MeetingModal.tsx:20 | any separator-free suffix preceded by a separator or spanning the string is that piece |
| `Interviews.Patched` | convex/interview.ts:68-71 | the status becomes the argument, the end time becomes the clock only for "completed" and otherwise stays, nothing else changes |
| `Interviews.SetStatus` | convex/interview.ts:68-71 | records with the id are patched, all others are unchanged, the length stays |
| `Interviews.WithCandidate` | convex/interview.ts:18-21 | exactly the records with that candidateId, in table order, each as often as in the table |
| `Interviews.ByStreamCallId` | convex/interview.ts:33-36 | the first record with that call id, or None iff no record has it |
| `Interviews.InterviewTable.GetAllInterviews` | convex/interview.ts:4-11 | an anonymous caller gets an error, anyone else every record |
| `Interviews.InterviewTable.GetMyInterviews` | convex/interview.ts:14-24 | an anonymous caller gets an error, anyone else exactly their interviews as candidate, in order and with their multiplicity |
| `Interviews.InterviewTable.GetInterviewByStreamId` | convex/interview.ts:28-39 | needs no identity; the first stored record with that call id, or None iff there is none |
| `Interviews.InterviewTable.CreateInterview` | convex/interview.ts:42-59 | anonymous: error and no write; otherwise one record equal to the arguments appended under a fresh id, which is returned |
| `Interviews.InterviewTable.UpdateInterviewStatus` | convex/interview.ts:62-73 | with any caller, a known id is patched as SetStatus says; an unknown id fails with nothing written |
| `Interviews.SetStatusWellKeyed` | convex/interview.ts:68-71 | patching keeps ids increasing and below the counter |
| `Interviews.SetStatusTouchesOne` | convex/interview.ts:68-71 | in a well-keyed table exactly the addressed record changes, and only in status and end time |
| `Interviews.CompletingTwiceOverwrites` | convex/interview.ts:70 | a second completion replaces the end time with the later clock |
| `Interviews.LeavingCompletedKeepsEndTime` | convex/interview.ts:68-71 | leaving "completed" keeps the old end time |
| `Interviews.DuplicateStreamCallIdShadowed` | convex/interview.ts:28-57 | a second interview with a used call id is stored, and the lookup still answers with the first |
| `Interviews.CreatedFoundByStreamCallId` | convex/interview.ts:28-57 | a new interview with an unused call id is what the lookup finds |
| `Users.FindByClerkId` | convex/users.ts:13-16 | the position of the first user with that clerkId, or None iff there is none |
| `Users.UserTable.UpsertUser` | convex/users.ts:12-33 | the table becomes Upserted; the id counter grows only on insert |
| `Users.UpsertPatchesExisting` | convex/users.ts:17-23 | the found record takes email, name, image and role, keeps its clerkId and id; size and other records stay |
| `Users.UpsertInsertsCandidate` | convex/users.ts:24-31 | for an unknown clerkId exactly one record is appended, with role candidate whatever was asked |
| `Users.UpsertSize` | convex/users.ts:17-32 | the table grows by one exactly on the insert path |
| `Users.UpsertKeepsOthers` | convex/users.ts:13-23 | records with other clerkIds are unchanged |
| `Users.UpsertKeepsUnique` | convex/users.ts:13-31 | at most one record per clerkId before implies the same after |
| `Users.UpsertWellKeyed` | convex/users.ts:24-31 | the insert path hands out a fresh, larger id |
| `Users.UpsertIdempotentWhenKnown` | convex/users.ts:17-23 | for a known clerkId two identical upserts equal one |
| `Users.UpsertMakesKnown` | convex/users.ts:13-32 | after any upsert the clerkId is known |
| `Users.UpsertConvergesIff` | convex/users.ts:17-32 | a repeated identical upsert changes nothing iff the clerkId was known or the role is candidate |
| `Users.FirstUpsertIgnoresRole` | convex/users.ts:18-29 | from empty, an interviewer upsert stores candidate first and interviewer on the second call |
| `Users.Upserted` | convex/users.ts:12-33 | the table after one upsert; its meaning is stated by UpsertPatchesExisting, UpsertInsertsCandidate, UpsertSize, UpsertKeepsOthers and UpsertKeepsUnique |
| `Webhook.DisplayName` | convex/http.ts:46 | the name is a window of `first + " " + last` (null parts render "null") with only white space cut on either side, starts and ends with non-space, and is empty iff the template is all white space |
| `Webhook.HandleClerkWebhook` | convex/http.ts:11-66 | early outcomes leave the table alone; a failed upsert is a 500 with the table unchanged; otherwise 200 with the table upserted and the id counter grown only on insert |
| `Webhook.MissingSecretThrows` | convex/http.ts:12-15 | a missing secret throws whatever the request is |
| `Webhook.UnverifiedIgnoresOracle` | convex/http.ts:12-40 | without secret and all three headers the verification outcome is never consulted and nothing is upserted |
| `Webhook.MissingHeaderRejects` | convex/http.ts:17-23 | any absent or empty svix header gives a 400 "Missing SVIX headers" |
| `Webhook.BadSignatureRejects` | convex/http.ts:31-40 | a failed verification gives a 400 "Invalid SVIX payload" |
| `Webhook.UserEventUpserts` | convex/http.ts:43-55 | created/updated run one upsert with the first email, the trimmed name, the avatar, the clerk id, and candidate/interviewer respectively |
| `Webhook.OtherEventsAcknowledged` | convex/http.ts:60-65 | user.deleted and every other type give 200 with no upsert |
| `Webhook.NoEmailThrows` | convex/http.ts:44-45 | a user event with no email address throws before any upsert |
| `Webhook.ResponseCodes` | convex/http.ts:17-65 | every response decided before storage is a 200 or a 400 |
| `Webhook.DisplayNameJoinsParts` | convex/http.ts:46 | with both parts present and no outer white space, the name is exactly `first + " " + last` |
| `Webhook.DisplayNameIsTrimmed` | convex/http.ts:46 | the stored name is its own trim |
| `Webhook.UpdateOfUnknownStoresCandidate` | convex/http.ts:43-59 | a user.updated event for an unknown clerkId asks for interviewer but stores candidate |
| `Webhook.Plan` | convex/http.ts:11-65 | the handler up to the upsert; its outcomes are stated by MissingSecretThrows, MissingHeaderRejects, BadSignatureRejects, UserEventUpserts, OtherEventsAcknowledged, NoEmailThrows and ResponseCodes |
| `MeetingSetup.Setup.constructor` | src/components/MeetingSetup.tsx:11-12 | camera disabled, microphone enabled, no effects |
| `MeetingSetup.Setup.OnSwitchChange` | src/components/MeetingSetup.tsx:202 | the device's flag becomes the negation of the switch, the other flag stays |
| `MeetingSetup.Setup.HandleToggle` | src/components/MeetingSetup.tsx:19-78 | the step-by-step handler appends exactly ToggleRun's effects and leaves the flag ToggleRun computes; the other device is untouched |
| `MeetingSetup.Setup.HandleCameraToggle` | src/components/MeetingSetup.tsx:19-78 | the camera run as ToggleRun says; the microphone flag stays |
| `MeetingSetup.Setup.HandleMicToggle` | src/components/MeetingSetup.tsx:86-145 | the microphone run as ToggleRun says; the camera flag stays |
| `MeetingSetup.Setup.HandleJoin` | src/components/MeetingSetup.tsx:151-155 | join comes before onSetupComplete, and there is nothing without a call |
| `MeetingSetup.NoCallNoEffect` | src/components/MeetingSetup.tsx:17 | with no call a run does nothing |
| `MeetingSetup.DisabledOnlyDisables` | src/components/MeetingSetup.tsx:20-25 | a disabled flag only calls disable(): no probe, no enumeration, no toast |
| `MeetingSetup.ProbeDeniedStops` | src/components/MeetingSetup.tsx:34-42 | a permission-denied probe gives one permission toast and the flag disabled, with no enumerate or enable |
| `MeetingSetup.OtherProbeErrorFallsThrough` | src/components/MeetingSetup.tsx:43-47 | any other probe error runs as if the probe had succeeded |
| `MeetingSetup.NoDeviceStops` | src/components/MeetingSetup.tsx:47-54 | no device of the kind gives one "no device" toast and the flag disabled, without enable() |
| `MeetingSetup.EnableFailureReverts` | src/components/MeetingSetup.tsx:58-76 | an enable() failure gives one classified toast and the flag reverted to disabled |
| `MeetingSetup.EnableSuccessKeepsEnabled` | src/components/MeetingSetup.tsx:57 | a successful enable() leaves the flag enabled with no toast |
| `MeetingSetup.EnablingRunOutcome` | src/components/MeetingSetup.tsx:26-76 | an enabling run ends with exactly one toast iff it ends disabled, calls enable() at most once, and ends enabled iff enable() was called and succeeded |
| `MeetingSetup.ClassifyPrecedence` | src/components/MeetingSetup.tsx:64-74 | permission beats not-found beats busy beats overconstrained beats the generic message |
| `MeetingSetup.PermissionBeatsNotFound` | src/components/MeetingSetup.tsx:64-66 | a NotFoundError whose message mentions permission is reported as a permission error |
| `MeetingSetup.EmptyMessageIsUnknown` | src/components/MeetingSetup.tsx:73 | an unclassified empty message is reported as "Unknown error" |
| `MeetingSetup.NotGrantedOnlyCaughtLater` | src/components/MeetingSetup.tsx:38-64 | "not granted" does not stop the probe step but counts as a permission error from enable() |
| `MeetingSetup.ToggleRun` | src/components/MeetingSetup.tsx:19-78 | one toggle run; stated by NoCallNoEffect, DisabledOnlyDisables, ProbeDeniedStops, NoDeviceStops, EnableFailureReverts, EnableSuccessKeepsEnabled and EnablingRunOutcome |
| `MeetingSetup.Classify` | src/components/MeetingSetup.tsx:60-74 | the first matching test decides the toast; stated by ClassifyPrecedence, PermissionBeatsNotFound, EmptyMessageIsUnknown and UnrecognisedErrorShown |
| `MeetingSetup.ProbeDenied` | src/components/MeetingSetup.tsx:38 | the probe's permission test; stated by ProbeDeniedStops, OtherProbeErrorFallsThrough and NotGrantedOnlyCaughtLater |
| `MeetingSetup.UnrecognisedErrorShown` | src/components/MeetingSetup.tsx:72-73 | an error no test recognises gets the failure toast, whose text contains the message, or "Unknown error" when it is empty |
| `MeetingSetup.NoticesAreTheToasts` | src/components/MeetingSetup.tsx:26-76 | the toast list is empty iff no effect is a toast, and holds every toast shown |
| `MeetingSetup.NoEnableCallsIff` | src/components/MeetingSetup.tsx:57 | the enable() count is zero iff no effect is an enable() call |
| `MeetingSetup.RetryAfterDenial` | src/components/MeetingSetup.tsx:19-78 | after a denied probe and the switch turned back on, the next run probes, enumerates and enables, and the device ends enabled |
| `EndCall.HandleEndCall` | src/components/EndCallButton.tsx:29-44 | without a successful endCall the table is untouched; with it the interview is completed as SetStatus says; no record is created; the effects are EndCallTrace's |
| `EndCall.NothingWithoutCallOrRecord` | src/components/EndCallButton.tsx:23 | no call or no record means no button |
| `EndCall.OwnerNeverSeesButton` | src/components/EndCallButton.tsx:25-26 | the button shows iff the viewer's id differs from the creator's; two absent ids count as equal |
| `EndCall.LookupKeyIsCallId` | src/components/EndCallButton.tsx:18-21 | the lookup uses the call's id, or "" without a call |
| `EndCall.EndCallTraceFacts` | src/components/EndCallButton.tsx:29-44 | endCall comes first; the status update is attempted iff endCall succeeded; one navigation home; one toast, success iff both steps succeeded |
| `EndCall.EndingCompletesInterview` | src/components/EndCallButton.tsx:18-35 | the record the button found is in the table under the call's id, and completing it stamps the clock as its end time |
| `EndCall.IsMeetingOwner` | src/components/EndCallButton.tsx:25 | the viewer is the call's creator; stated by OwnerNeverSeesButton |
| `EndCall.ShowsButton` | src/components/EndCallButton.tsx:23-26 | the render guards; stated by NothingWithoutCallOrRecord and OwnerNeverSeesButton |
| `EndCall.EndCallTrace` | src/components/EndCallButton.tsx:29-44 | the effects of one press; stated by EndCallTraceFacts |
| `EndCall.LookupKey` | src/components/EndCallButton.tsx:18-21 | the query argument; stated by LookupKeyIsCallId |
| `CallBuckets.Bucket` | src/hooks/useGetCalls.tsx:39-41 | no bucket before calls load; after, exactly the passing calls in load order, each as often as loaded |
| `CallBuckets.CallsLoader.constructor` | src/hooks/useGetCalls.tsx:8-9 | no calls, not loading |
| `CallBuckets.CallsLoader.LoadCalls` | src/hooks/useGetCalls.tsx:12-34 | no client or user: no change; otherwise the calls, or [] on error, and loading false |
| `CallBuckets.LiveIsEnded` | src/hooks/useGetCalls.tsx:39-41 | every live call is also ended |
| `CallBuckets.UpcomingNotLive` | src/hooks/useGetCalls.tsx:40-41 | no call is both upcoming and live |
| `CallBuckets.StartingNowInNoBucket` | src/hooks/useGetCalls.tsx:39-41 | a call starting now without end time is in no bucket |
| `CallBuckets.FutureEndedIsBoth` | src/hooks/useGetCalls.tsx:39-40 | a future call with an end time is upcoming and ended |
| `CallBuckets.BucketsCover` | src/hooks/useGetCalls.tsx:39-41 | a start time other than now puts a call in upcoming or ended; without a start time it is ended iff it has an end time |
| `CallBuckets.LiveBucketWithinEnded` | src/hooks/useGetCalls.tsx:39-41 | the live bucket lies inside the ended bucket and shares nothing with the upcoming one |
| `CallBuckets.FailedLoadGivesEmptyBuckets` | src/hooks/useGetCalls.tsx:28-30 | after a failed query every bucket is empty, not missing |
| `CallBuckets.Ended` | src/hooks/useGetCalls.tsx:39 | the ended test; stated by LiveIsEnded, FutureEndedIsBoth and BucketsCover |
| `CallBuckets.Upcoming` | src/hooks/useGetCalls.tsx:40 | the upcoming test; stated by UpcomingNotLive, StartingNowInNoBucket and BucketsCover |
| `CallBuckets.Live` | src/hooks/useGetCalls.tsx:41 | the live test; stated by LiveIsEnded, UpcomingNotLive and LiveBucketWithinEnded |
| `CallBuckets.EndedCalls` | src/hooks/useGetCalls.tsx:39 | `calls?.filter(...)` with the ended test: Bucket's contract for Ended; also LiveBucketWithinEnded and FailedLoadGivesEmptyBuckets |
| `CallBuckets.UpcomingCalls` | src/hooks/useGetCalls.tsx:40 | Bucket's contract for Upcoming; also LiveBucketWithinEnded and FailedLoadGivesEmptyBuckets |
| `CallBuckets.LiveCalls` | src/hooks/useGetCalls.tsx:41 | Bucket's contract for Live; also LiveBucketWithinEnded and FailedLoadGivesEmptyBuckets |
| `MeetingModal.Modal.constructor` | src/components/MeetingModal.tsx:15 | the link starts empty |
| `MeetingModal.Modal.OnUrlChange` | src/components/MeetingModal.tsx:43 | the link becomes the typed value |
| `MeetingModal.Modal.HandleStartMeeting` | src/components/MeetingModal.tsx:17-29 | appends StartEffects for the old link and clears the link |
| `MeetingModal.Modal.Cancel` | src/components/MeetingModal.tsx:48 | only closes; the typed link is kept |
| `MeetingModal.StartDisabledIffBlank` | src/components/MeetingModal.tsx:53 | disabled iff join mode and the link is empty or all white space |
| `MeetingModal.JoinedIdIsLastSegment` | src/components/MeetingModal.tsx:20-23 | a non-empty id is joined once, then close; the id is the '/'-free suffix after the last '/', or the whole link |
| `MeetingModal.TrailingSlashJoinsNothing` | src/components/MeetingModal.tsx:20-23 | a link ending in '/' enables the button but joins nothing |
| `MeetingModal.CreateModeIgnoresLink` | src/components/MeetingModal.tsx:24-26 | create mode creates one meeting and closes, whatever the link |
| `MeetingModal.StartAlwaysCloses` | src/components/MeetingModal.tsx:17-29 | every press closes exactly once, last, and starts at most one meeting |
| `MeetingModal.MeetingId` | src/components/MeetingModal.tsx:20 | `split("/").pop()`; stated by JoinedIdIsLastSegment and TrailingSlashJoinsNothing |
| `MeetingModal.StartDisabled` | src/components/MeetingModal.tsx:53 | the disabled expression; stated by StartDisabledIffBlank |
| `MeetingModal.StartEffects` | src/components/MeetingModal.tsx:17-29 | the effects of one press; stated by JoinedIdIsLastSegment, CreateModeIgnoresLink and StartAlwaysCloses |
| `CodeEditor.FindQuestion` | src/components/CodeEditor.tsx:16 | the first question with the id, or None iff there is none |
| `CodeEditor.FindLanguage` | src/components/CodeEditor.tsx:23 | the first listed language with the id, or None iff there is none |
| `CodeEditor.Editor.constructor` | src/components/CodeEditor.tsx:11-13 | the state is Initial: first question, first language, its starter code |
| `CodeEditor.Editor.HandleQuestionChange` | src/components/CodeEditor.tsx:15-20 | the state becomes QuestionChanged of the old state |
| `CodeEditor.Editor.HandleLanguageChange` | src/components/CodeEditor.tsx:22-27 | the state becomes LanguageChanged of the old state |
| `CodeEditor.Editor.OnEditorChange` | src/components/CodeEditor.tsx:145 | the state becomes Edited of the old state |
| `CodeEditor.InitialCodeIsStarter` | src/components/CodeEditor.tsx:11-13 | the initial code is the first question's starter code in the first language |
| `CodeEditor.UnknownQuestionKeepsState` | src/components/CodeEditor.tsx:16-17 | an unknown question id changes nothing |
| `CodeEditor.KnownQuestionSelectsFirst` | src/components/CodeEditor.tsx:16-19 | a known id selects the first question with it and its starter code in the current language; the language stays |
| `CodeEditor.UnknownLanguageKeepsState` | src/components/CodeEditor.tsx:23-24 | an unlisted language changes nothing |
| `CodeEditor.KnownLanguageLoadsStarter` | src/components/CodeEditor.tsx:23-26 | a listed language becomes current with the question's starter code for it; the question stays |
| `CodeEditor.SwitchDiscardsEdits` | src/components/CodeEditor.tsx:15-27 | after a successful switch the code does not depend on what was typed |
| `CodeEditor.EditKeepsSelection` | src/components/CodeEditor.tsx:145 | an edit keeps question and language; undefined empties the editor |
| `CodeEditor.Initial` | src/components/CodeEditor.tsx:11-13 | the initial state; stated by InitialCodeIsStarter |
| `CodeEditor.QuestionChanged` | src/components/CodeEditor.tsx:15-20 | the question transition; stated by UnknownQuestionKeepsState, KnownQuestionSelectsFirst and SwitchDiscardsEdits |
| `CodeEditor.LanguageChanged` | src/components/CodeEditor.tsx:22-27 | the language transition; stated by UnknownLanguageKeepsState, KnownLanguageLoadsStarter and SwitchDiscardsEdits |
| `CodeEditor.Edited` | src/components/CodeEditor.tsx:145 | the editor change; stated by EditKeepsSelection |
| `UserRole.QueryArg` | src/hooks/useUserRole.ts:10 | the user's id once loaded with a non-empty id, "" otherwise |
| `UserRole.RoleFlagsExclusive` | src/hooks/useUserRole.ts:15-16 | never both flags; neither without a record; exactly one with a record |
| `UserRole.NotLoadedIsLoading` | src/hooks/useUserRole.ts:12 | loading whenever auth is not loaded |
| `UserRole.LoadedLoadingIff` | src/hooks/useUserRole.ts:12 | once loaded, loading iff a user's record is pending; never for a signed-out visitor or a null answer |
| `UserRole.SettledFlagsFollowRole` | src/hooks/useUserRole.ts:12-16 | with a record the hook is not loading and the flags follow the stored role |
| `UserRole.IsLoading` | src/hooks/useUserRole.ts:12 | the loading flag; stated by NotLoadedIsLoading, LoadedLoadingIff and SettledFlagsFollowRole |
| `UserRole.IsInterviewer` | src/hooks/useUserRole.ts:15 | the interviewer flag; stated by RoleFlagsExclusive and SettledFlagsFollowRole |
| `UserRole.IsCandidate` | src/hooks/useUserRole.ts:16 | the candidate flag; stated by RoleFlagsExclusive and SettledFlagsFollowRole |
| `CallById.CallLoader.constructor` | src/hooks/useGetCallById.ts:5-6 | no call, loading |
| `CallById.CallLoader.GetCall` | src/hooks/useGetCallById.ts:10-24 | the state becomes AfterGetCall of the old state |
| `CallById.NoClientKeepsLoading` | src/hooks/useGetCallById.ts:10 | without a client nothing changes and loading stays true |
| `CallById.AttemptOutcomes` | src/hooks/useGetCallById.ts:12-23 | an attempt ends loading; the first result is taken, an empty result keeps the call, an error clears it |
| `CallById.StaleCallSurvivesEmptyAnswer` | src/hooks/useGetCallById.ts:13-17 | an empty answer after a found call keeps the old call |
| `CallById.AfterGetCall` | src/hooks/useGetCallById.ts:10-24 | one run of the effect; stated by NoClientKeepsLoading, AttemptOutcomes and StaleCallSurvivesEmptyAnswer |
| `StreamToken.FloorSeconds` | src/actions/stream.action.ts:15 | `floor(ms / 1000)` bracketed by `s*1000 <= ms < (s+1)*1000` |
| `StreamToken.TokenClaims` | src/actions/stream.action.ts:7-19 | no user: the "not authenticated" error; otherwise claims for that user with iat = now - 60 and exp = now + 3600 |
| `StreamToken.TokenWindow` | src/actions/stream.action.ts:15-19 | exp - iat = 3660 and iat < ms/1000 < exp |
| `StreamToken.TokenWindowMargins` | src/actions/stream.action.ts:15-19 | the window opens between 60 and 61 seconds before the clock and closes within the next 3600 seconds |

## Left out

- Concurrency and React scheduling are not modelled: effect re-runs, async
  interleaving and re-entrant toggles. Every flip of a flag to disabled
  re-runs the effect, which then calls `disable()`: after a denied probe,
  after a missing device and after a failed enable. The model treats each
  handler run as one step, and a client can call `HandleToggle` again to see
  that second run.
- Foreign calls are outcomes passed in as parameters, not code: Svix
  signature verification, getUserMedia, enumerateDevices, the Stream SDK,
  `generateUserToken` and the Convex query engine. The server-side filter
  and sort of `queryCalls` are not modelled; the result is taken as given.
- `req.json()` failing on a malformed body is not modelled; the handler would
  throw.
- Network or transport failure of `updateInterviewStatus` in `HandleEndCall`
  is not modelled; only a patch of a missing document fails.
- The Convex `_creationTime` field and the header-name case folding of
  `Headers.get` are not modelled. Headers are a map keyed by lower-case names.
- `startTime` and all timestamps are integers (milliseconds) where the
  source has JavaScript numbers and Dates; floating point is not modelled.
- UserRole.IsLoading: the model returns a boolean, while the source may
  return a falsy non-boolean (the `user` value) when no user is signed in.
- `getUserByClerkId` and the `CODING_QUESTIONS`/`LANGUAGES` constants are
  not part of this model. Their values are parameters.
- Not modelled:
  - src/components/providers/StreamClientProvider.tsx, which is Stream
    client construction;
  - src/components/providers/ConvexClerkProvider.tsx and src/app/page.tsx,
    which are wiring.
- Rendering, toast visuals, console logging and the Monaco editor options
  are presentation and are left out.
