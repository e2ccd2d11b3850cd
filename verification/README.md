# matrix-rust-sdk: a verified model of the base client

This project models, in Dafny, the part of matrix-rust-sdk that folds `/sync`
responses into the client's state, and proves what holds in every state the
client can reach. Around that core it models the `m.direct` reconciler, the
failure cache, the media cache keys, the latest-event search, the vector-diff
forwarding to list listeners and the chunk iterator.

`dafny verify dfyconfig.toml` checks everything.

## What is modelled

| module | subject |
|---|---|
| `Types` | identifiers, events with their deserialization results, the room record |
| `StateFold` | how state events fold into the state map, the record and the active users |
| `Timeline`, `Contexts` | timeline processing of one room, the incrementally kept push context and what it says |
| `Direct`, `AccountData` | global and room account data, reconciliation with `m.direct` |
| `Sync` | responses, the store, and what each operation does to the whole client, as functions |
| `Accumulator`, `RoomEvents`, `Gathering`, `Client` | the imperative handlers and the `BaseClient` class, proved against those functions |
| `Records` | the record of a room field by field after every report and call, and the recipients of room keys |
| `Runs` | sequential runs: token, store and memory, membership, direct targets |
| `Tracking`, `Reports` | device tracking and the recipients of room keys over whole runs; reports in the other sections |
| `Operations` | the calls of a `BaseClient` as steps of such runs |
| `Interleaving`, `Schedules` | interleaved operations split into unlocked reads and locked commits; sequential runs among them |
| `LatestEvent`, `FailuresCache`, `Media`, `VectorDiffs`, `ChunkIterator` | the smaller cores |

Conventions of the model:

- A raw event carries the results of the deserializations attempted on it
  (`Raw.parsed`, `Raw.fullPower`), so deserialization is a partial function.
  Push rules, decryption, stored push data and failing awaited calls are
  parameters (`Timeline.Session`).
- The nested maps from event type and state key to raw event are one map keyed
  by `Slot`, the pair of the two.
- The four room sections of a response are disjoint, as section "Syncing" of the
  Matrix Client-Server API has them; they are one map of tagged updates, visited
  in an arbitrary order. The four loops of the source are one loop over it.
- Saving is all or nothing and may fail. The store follows the in-memory store:
  stripped members, when there are any, hide full ones from the member query, and
  are dropped once a full member event of the room is saved.
- A sync that returns an error leaves rooms it created and users it tracked
  (`Sync.Abandoned`); which ones depends on where it stopped, so runs allow any.
- An Olm machine is present, as it is once the client is logged in.
- A member list (`receive_all_members`) and a sync read a member event alike.

## Findings

Properties that do not hold without a condition, each with an input for which it
fails and the exact condition under which it holds.

- The kept push context differs from a recomputed one when the two power level
  readers differ: the from-scratch reader needs a full event, whose room id sync
  events lack (`ReadersCanDisagree`; `ContextEqualsRecomputation`).
- `user_ids` exceeds the active members of the state map exactly when a user
  departs inside the state block (`DepartedUserStaysCollected`;
  `CollectedUsersCoverActiveMembers`).
- Two `m.direct` events in one response need not compose, because each is compared
  with the targets in memory (`TwoEventsNeedNotSettle`; `BatchFollowsLastEvent`).
- A response repeating the current token reconciles nothing, so a listed room made
  known by `room_joined` stays without targets (`RepeatNeedNotSettle`; `SyncSettlesIff`).
- Device tracking is kept for rooms that are only reported as joined. A report as
  invited, knocked or left can break it (`SampleInviteLosesTracking`,
  `SampleLeaveLosesTracking`; `StrippedReportKeepsTracking`, `LeaveReportKeepsTracking`).
- Until a full member event is stored, a room key can reach an untracked user
  (`SampleInviteSharesUntracked`; `KeysGoToTrackedUsers`).
- A sync whose direct pass cloned the record of a room it does not mention, before
  `room_left` committed, writes the old membership back, which no sequential order
  of the two calls does (`StaleSyncUndoesLeave`; `MembershipSurvivesIff`). Store
  and memory still agree.
- A failed call is not without effect when it made a room known: `room_joined` then
  saves a record it would not have saved otherwise (`FailedSyncCanMatter`;
  `FailureLeavesStore`, `FailedCallsDoNotMatter`).
- Media keys are unique over a set of resize methods exactly when no method is
  another one preceded by the separator (`KeysIdentifyIffSuffixFree`, whose proof
  builds the collision).
- The saturating delay is the exact one exactly when the product or the maximal
  delay fits a u64 number of seconds (`DelayCanBeInexact`; `DelayIsExact`).
- Translated diffs are exact exactly while positions fit a u32; beyond that the
  room list panics and directory search changes another entry (`LongListsDiverge`;
  `TranslateExact`).

The comment at crates/matrix-sdk-base/src/response_processors.rs:29-30 says the
record is loaded from the database; the code clones it from memory, and so does
the model.

## Model

| member | source | states |
|---|---|---|
| `StateFold.OverlayIsLastWriterWins` | crates/matrix-sdk-base/src/client.rs:613-651 | Each (type, state key) holds the raw event of the last write to it, and what it held before if nothing wrote to it. |
| `StateFold.SlotsSeparate` | crates/matrix-sdk-base/src/store/mod.rs:440-452 | State events write to one slot exactly if they have one event type and one state key. |
| `StateFold.HandleStateEventsEncryption` | crates/matrix-sdk-base/src/rooms/normal.rs:1259-1273 | A run of state events leaves a room encrypted exactly if it was or one of them enables encryption, never by redaction, and touches nothing outside the state fields. |
| `StateFold.RecordByLastEvents` | crates/matrix-sdk-base/src/rooms/mod.rs:150-170 | The record holds the content of the last history visibility event and the algorithm of the last event that enables encryption, else what it held. |
| `StateFold.EncryptionSynced` | crates/matrix-sdk-base/src/rooms/normal.rs:1259-1273 | The encryption state counts as synced exactly if it did, an event enables encryption, or any encryption event meets an encrypted room. |
| `StateFold.MembershipByLastEvent` | crates/matrix-sdk-base/src/client.rs:613-651 | A user's membership in the state map is the last one written, else the one it had. |
| `StateFold.UsersAfterByLastMembership` | crates/matrix-sdk-base/src/client.rs:444-451 | After a timeline a user is collected exactly if their last membership in it is active, or it has none and they were collected before. |
| `StateFold.ActiveInByLastMembership` | crates/matrix-sdk-base/src/client.rs:613-651 | The active members of the state map are decided by the last membership written for each user. |
| `StateFold.CollectedUsersCoverActiveMembers` | crates/matrix-sdk-base/src/client.rs:613-651 | The collected users contain the active members of the resulting state map, and equal them if and only if no user departs inside the state block. |
| `StateFold.DepartedUserStaysCollected` | crates/matrix-sdk-base/src/client.rs:632-640 | A state block in which a user joins and leaves: the user is collected and not active. |
| `Timeline.RunFolds` | crates/matrix-sdk-base/src/client.rs:425-466 | A timeline's effect on record, state map and users is the fold of its state events; deserialization failures and messages other than redactions change none of them. |
| `Timeline.RunFailsIffSomeEventFails` | crates/matrix-sdk-base/src/client.rs:425-549 | A timeline fails exactly when an awaited call for one of its deserializable events fails. |
| `Timeline.ContextEqualsRecomputation` | crates/matrix-sdk-base/src/client.rs:1549-1648 | After any events of a timeline the kept context is available exactly when our own name is known in the resulting state, and equals a recomputed one if and only if it has just been computed or the two power level readers agree on that state; the condition reads the events alone. |
| `Timeline.ContextStaysAvailable` | crates/matrix-sdk-base/src/client.rs:516-525 | Once available, the push context stays available to the end of the timeline. |
| `Timeline.ReadersCanDisagree` | crates/matrix-sdk-base/src/client.rs:1582-1588 | A power levels event that only the sync reader accepts drives the kept context away from the recomputed one. |
| `Timeline.RunItems` | crates/matrix-sdk-base/src/client.rs:425-549 | Every timeline that does not fail yields exactly one item per event, in order: an event that did not arrive encrypted as it is, else its decryption or itself as undecryptable, with the actions the push rules give what is shown in the context kept so far, none without a context or for an event that does not deserialize. |
| `Timeline.RunNotifications` | crates/matrix-sdk-base/src/client.rs:527-541 | The new notifications of every timeline run along a strictly increasing list of exactly the items whose actions include notify, each with those actions and that event. |
| `Timeline.TimelineMatchesScratch` | crates/matrix-sdk-base/src/client.rs:516-541 | Where the kept context agrees at every event, by the exact condition above, the actions and notifications are those of contexts recomputed from scratch. |
| `Accumulator.HandleState` | crates/matrix-sdk-base/src/client.rs:613-651 | The state block stores the last raw event per slot, folds the record and collects the users it ever reports as active; nothing is stored on failure. |
| `Accumulator.AbsorbStateEvent` | crates/matrix-sdk-base/src/client.rs:434-466 | A state event of a timeline changes record, users and the room's state map as the reference step does, and no other room's state. |
| `Accumulator.HandleTimeline` | crates/matrix-sdk-base/src/client.rs:408-552 | The loop computes the reference run: same failure, record, users, state map, items and notifications; other rooms are untouched. |
| `Accumulator.FoldStripped` | crates/matrix-sdk-base/src/client.rs:575-585 | Stripped events fold into the record; exactly the slots written are kept, each with the last event of it. |
| `Accumulator.AnnounceStripped` | crates/matrix-sdk-base/src/client.rs:589-602 | Whatever the visiting order, exactly the notifying slots are announced, each once. |
| `Accumulator.HandleInvitedState` | crates/matrix-sdk-base/src/client.rs:566-605 | The last stripped event per slot is stored, and the new notifications are exactly the notifying ones among them, each once, judged in the context of the whole state; fails exactly if that context cannot be read. |
| `RoomEvents.HandleRoomEvents` | crates/matrix-sdk-base/src/client.rs:1001-1051 | State block then timeline: succeeds exactly if no awaited call for the room's events or first push context fails, and yields the record, users, state map, items and notifications of the combined run. |
| `RoomEvents.ShownInOrder` | crates/matrix-sdk-base/src/client.rs:423-549 | What every successful sync reports for every joined or left room: one item per timeline event in order and in the right form, and notifications along exactly the notifying items. |
| `RoomEvents.ShownMatchesScratch` | crates/matrix-sdk-base/src/client.rs:516-541 | Where the contexts agree at every event of the room, the i-th reported item is that event judged in a context recomputed from scratch for the events up to it, and the notifications are the notifying ones in order. |
| `RoomEvents.ReadableEventsAgree` | crates/matrix-sdk-base/src/client.rs:1582-1645 | Contexts agree at every event of a room whose power levels read alike to both readers. |
| `Contexts.LocalpartOf` | crates/matrix-sdk-base/src/client.rs:1559-1571 | Without a display name we are called what stands between the sigil and the first colon of our id. |
| `Contexts.KeptContextContents` | crates/matrix-sdk-base/src/client.rs:1549-1648 | The context kept through a timeline counts joined plus invited members, capped, and has our name from the last event about us in state block and timeline, else from the store; there is one exactly if there is such a name. |
| `Contexts.KeptContextPower` | crates/matrix-sdk-base/src/client.rs:1582-1645 | Its power levels are those of the last event about them as a sync event, or as a full event where it was just computed, else the stored ones. |
| `Contexts.ScratchContextPower` | crates/matrix-sdk-base/src/client.rs:1582-1606 | A recomputed context has the power levels of the last event about them that reads as a full event, else the stored ones. |
| `Contexts.StrippedContextContents` | crates/matrix-sdk-base/src/client.rs:1562-1604 | The context of an invited or knocked room has the count of its record, and name and power levels of the last stripped events about them, else the stored ones. |
| `Direct.RawByTypeKeepsLastDirect` | crates/matrix-sdk-base/src/response_processors.rs:56-75 | The stored `m.direct` event is the last one of the batch that deserializes, and there is one exactly if the batch has one. |
| `Direct.ReconcileAllFrame` | crates/matrix-sdk-base/src/response_processors.rs:31-46 | Reconciliation changes nothing but direct targets, keeps every room of the changes and adds only rooms in memory. |
| `Direct.BatchOutcome` | crates/matrix-sdk-base/src/response_processors.rs:88-134 | The last event of a batch that disagrees with memory decides a room's targets. |
| `Direct.BatchFollowsLastEvent` | crates/matrix-sdk-base/src/response_processors.rs:88-134 | A batch leaves a room with the targets of its last event if and only if that event changes the room, or none does. |
| `Direct.SingleEventSettles` | crates/matrix-sdk-base/src/response_processors.rs:88-134 | One event leaves every known room with exactly the users that list it. |
| `Direct.TwoEventsNeedNotSettle` | crates/matrix-sdk-base/src/response_processors.rs:104-111 | Two events in one batch can leave a room with targets the last one does not list. |
| `Direct.SettledIsStable` | crates/matrix-sdk-base/src/response_processors.rs:113-132 | Reconciling settled rooms again adds no room to the changes. |
| `AccountData.ProcessAccountData` | crates/matrix-sdk-base/src/response_processors.rs:56-75 | The loop keeps the last raw event per type and every event that deserializes, in order. |
| `AccountData.InvertDirect` | crates/matrix-sdk-base/src/response_processors.rs:97-102 | Whatever the order of users, the result maps each listed room to exactly the users that list it. |
| `AccountData.MarkDirect` | crates/matrix-sdk-base/src/response_processors.rs:113-125 | All listed rooms are reconciled, whatever the order, and the known direct rooms that are not listed remain. |
| `AccountData.UnmarkDirect` | crates/matrix-sdk-base/src/response_processors.rs:127-132 | Rooms no longer listed lose their targets, whatever the order. |
| `AccountData.ProcessDirectEvent` | crates/matrix-sdk-base/src/response_processors.rs:97-132 | Inverting, diffing and patching computes the direct reference: exactly the rooms whose targets differ from the inverse relation are patched. |
| `AccountData.ProcessDirectRooms` | crates/matrix-sdk-base/src/response_processors.rs:88-134 | Every `m.direct` event of the list is reconciled in order; others are skipped. |
| `AccountData.ApplyAccountData` | crates/matrix-sdk-base/src/response_processors.rs:137-159 | Account data is stored, and rooms are reconciled with the response's events, else with the stored one if it can be read. |
| `AccountData.HandleRoomAccountData` | crates/matrix-sdk-base/src/client.rs:654-753 | Markers and tags patch the record in the changes in place when it is there, so the record fetched afterwards exists. |
| `Sync.RoomAccountMarker` | crates/matrix-sdk-base/src/client.rs:692-708 | Room account data leaves the last unread marker, stable or unstable, and touches only marker and tags. |
| `Sync.StrippedIsLastWriterWins` | crates/matrix-sdk-base/src/client.rs:575-585 | Stripped state keeps exactly the slots written, each with its last event. |
| `Sync.UpdatedInfoFrame` | crates/matrix-sdk-base/src/client.rs:988-1227 | Every section puts the room in its own state, never turns encryption off, and leaves identity and direct targets alone. |
| `Sync.JoinKeepsMarkerAndCounts` | crates/matrix-sdk-base/src/client.rs:1053-1104 | The record of a joined room has both the last unread marker and the new counts. |
| `Sync.SyncInfosFrame` | crates/matrix-sdk-base/src/client.rs:988-1231 | A sync saves a record for each of its rooms, and else only for rooms in memory, with nothing but targets changed. |
| `Sync.RecipientsByMembership` | crates/matrix-sdk-base/src/client.rs:1457-1486 | A room key goes to exactly the users known as joined, and to those known as invited unless the history is visible to joined members only. |
| `Records.LookedUpRecord` | crates/matrix-sdk-base/src/store/mod.rs:287-310 | A room a sync looks up is kept if known, else created in the state of its section with nothing known. |
| `Records.CommittedRecord` | crates/matrix-sdk-base/src/client.rs:988-1248 | After a processed response the record of each of its rooms, saved and in memory, has every field as its section, summary, events and account data say: state and previous state, counts, previous batch, members flag, sync state, encryption, history visibility, marker and tags. |
| `Records.StrippedMembershipAfter` | crates/matrix-sdk-base/src/store/memory_store.rs:399-437 | After a report as invited or knocked a user's stripped membership is the last one reported, else the stored one. |
| `Records.MembershipCallRecord` | crates/matrix-sdk-base/src/client.rs:856-929 | A membership call that changes the state leaves the room partially synced with members missing, and everything else as it was, saved and in memory. |
| `Records.MemberListRecord` | crates/matrix-sdk-base/src/client.rs:1394-1400 | A member list leaves the members known and everything else as it was, saved and in memory. |
| `Records.RecipientsAfterReport` | crates/matrix-sdk-base/src/client.rs:1457-1486 | After a report as joined or left of an encrypted room without stripped members, its key goes to exactly the users whose last membership, reported or stored, is joined, and to invited ones exactly if the last history visibility is not `joined`. |
| `Gathering.GatherOneMore` | crates/matrix-sdk-base/src/client.rs:988-1229 | Processing one more room extends the closed form of the accumulator and the client by that room, so the visiting order does not matter. |
| `Client.BaseClient.FullRoom` | crates/matrix-sdk-base/src/client.rs:1107-1170 | The common part of a joined and a left room: record, state map, users, timeline and notifications. |
| `Client.BaseClient.JoinRoom` | crates/matrix-sdk-base/src/client.rs:988-1105 | The record fetched again after account data exists, and the second `add_room` overwrites no update. |
| `Client.BaseClient.StrippedRoom` | crates/matrix-sdk-base/src/client.rs:1172-1227 | An invited or knocked room: record, stripped state and notifications. |
| `Client.BaseClient.ProcessRoom` | crates/matrix-sdk-base/src/client.rs:988-1227 | One room of any section changes the client and the accumulator by exactly its own effect; it fails exactly if an awaited call for its events or its tracking does, and then only the room is created and users may be tracked. |
| `Client.BaseClient.ProcessRooms` | crates/matrix-sdk-base/src/client.rs:988-1227 | All rooms, in any order, add up to the closed form; it fails exactly if some room does, and then only created rooms and tracked users remain. |
| `Client.BaseClient.ReceiveSyncResponse` | crates/matrix-sdk-base/src/client.rs:942-1268 | Exactly when a response is repeated, processed or failed (before the rooms, for an event, a push context or the tracking of a room, or while saving); the whole client afterwards in each case; and the timelines and notifications reported for every room. |
| `Client.BaseClient.Commit` | crates/matrix-sdk-base/src/client.rs:1243-1248 | Save, then token, then memory, or nothing at all if saving fails. |
| `Client.BaseClient.ApplyChanges` | crates/matrix-sdk-base/src/client.rs:1290-1297 | Exactly the rooms in memory that have a record in the changes take it. |
| `Client.BaseClient.ChangeMembership` | crates/matrix-sdk-base/src/client.rs:856-929 | `room_joined`, `room_left` and `room_knocked`: no commit when the state is right already, else record saved and then applied. |
| `Client.BaseClient.ReceiveAllMembers` | crates/matrix-sdk-base/src/client.rs:1312-1403 | Refused when filtered, ignored for unknown rooms, given up when tracking fails, else state, tracking and record of the room as the reference has them. |
| `Client.CollectMembers` | crates/matrix-sdk-base/src/client.rs:1340-1387 | The last event per member is stored, and the users ever reported as active are collected. |
| `Operations.PerformSync` | crates/matrix-sdk-base/src/client.rs:942-1268 | A sync on a client is one step of a run: processed or repeated, or, exactly if it fails, abandoned after creating some rooms and tracking some users. |
| `Operations.Perform` | crates/matrix-sdk-base/src/client.rs:856-1403 | Every call on a client takes it one step of a run further, one that fails exactly if the call does, so what is proved of every run, or of every run without failures, holds of every sequence of calls. |
| `Client.BaseClient.ShareRoomKey` | crates/matrix-sdk-base/src/client.rs:1457-1486 | Answers exactly for known encrypted rooms, with exactly the users known as joined, or invited where the history allows it. |
| `Runs.TokenNamesLastSaved` | crates/matrix-sdk-base/src/client.rs:949-1248 | In every run the token in memory names the last response that was processed successfully, and so does the stored one if they agreed at first. |
| `Runs.FailureLeavesStore` | crates/matrix-sdk-base/src/client.rs:1243-1248 | A call that fails, which a membership call or member list does only where it saves, leaves token and store unchanged, and memory too if and only if it creates no room. |
| `Runs.FailedCallsDoNotMatter` | crates/matrix-sdk-base/src/client.rs:856-1403 | Failed calls that create no room can be dropped from any run: token, store and memory come out the same. |
| `Runs.FailedSyncCanMatter` | crates/matrix-sdk-base/src/client.rs:864-873 | A failed sync that made a room known changes whether a later `room_joined` saves a record. |
| `Runs.RepeatsDoNotMatter` | crates/matrix-sdk-base/src/client.rs:949-952 | Every run ends in the same state as the run without responses repeating the last token. |
| `Runs.RunCoherent` | crates/matrix-sdk-base/src/client.rs:1243-1297 | In every state of every sequential run each persisted record is the one in memory. |
| `Runs.ProcessedMembership` | crates/matrix-sdk-base/src/client.rs:988-1229 | A processed response gives each of its rooms the state of its section; every other room keeps all but its direct targets. |
| `Runs.MembershipIsLastMention` | crates/matrix-sdk-base/src/client.rs:856-1229 | Over every run in which no call fails a room's membership is the one last mentioned, and an unmentioned room keeps its own. |
| `Runs.CommittedJoinRecord` | crates/matrix-sdk-base/src/client.rs:1053-1104 | The persisted record of a joined room holds the last unread marker and the new counts, also after the direct pass. |
| `Runs.TargetsAfter` | crates/matrix-sdk-base/src/response_processors.rs:88-159 | After a processed response a room's targets are those of the last applied event that disagrees with memory, else those it had. |
| `Runs.RunNoTargets` | crates/matrix-sdk-base/src/response_processors.rs:137-159 | In every run, no room has targets as long as no `m.direct` event was stored. |
| `Runs.StoredIsLastDirect` | crates/matrix-sdk-base/src/response_processors.rs:56-75 | In every run the stored `m.direct` event is the last one that deserialized in a processed response. |
| `Runs.TargetsFollowDirectEvents` | crates/matrix-sdk-base/src/response_processors.rs:88-159 | After every processed sync of every run, each known room, also one that became known after the event, has exactly the users listing it in the latest `m.direct` event of the run; reconciling again adds no room. |
| `Runs.SyncSettlesIff` | crates/matrix-sdk-base/src/response_processors.rs:137-159 | A successful sync leaves all rooms settled if and only if it is no repeat and has or could read an event, or they were settled anyway. |
| `Runs.RepeatNeedNotSettle` | crates/matrix-sdk-base/src/client.rs:949-952 | A repeated response leaves a listed room that `room_joined` made known without its targets. |
| `Tracking.JoinTracks` | crates/matrix-sdk-base/src/client.rs:1071-1085 | A report as joined leaves every stored active member tracked if the room is then encrypted, also when it has just turned encryption on. |
| `Tracking.RunKeepsMembersTracked` | crates/matrix-sdk-base/src/client.rs:1071-1085 | In every state of every run that reports a room only as joined, starting without stored full members of it, its stored active members are tracked if it is encrypted; also in the sync that turns encryption on and after a member list. |
| `Tracking.KeysGoToTrackedUsers` | crates/matrix-sdk-base/src/client.rs:1457-1482 | In such a state a room key goes to tracked users only, if and only if a full member event is stored or the stripped members are tracked. |
| `Tracking.KeysNeverReachUntracked` | crates/matrix-sdk-base/src/client.rs:1457-1482 | Once a processed join report or a member list has brought a member event of the room, in every later state of the run its key is shared with tracked users only. |
| `Reports.StrippedReportKeepsTracking` | crates/matrix-sdk-base/src/client.rs:1172-1227 | A report as invited or knocked keeps stored members tracked if and only if the room was encrypted, encryption is not turned on, or other rooms have them tracked. |
| `Reports.LeaveReportKeepsTracking` | crates/matrix-sdk-base/src/client.rs:1107-1170 | A report as left keeps stored members tracked if and only if the room was not encrypted and no event of the report enables encryption, or other rooms have everyone tracked whose last reported membership is active and, in a room that was not encrypted, every stored active member it does not mention. |
| `Reports.SampleLeaveLosesTracking` | crates/matrix-sdk-base/src/client.rs:1107-1170 | A report as left bringing an untracked member to an encrypted room leaves that member untracked. |
| `Reports.SampleInviteLosesTracking` | crates/matrix-sdk-base/src/client.rs:1172-1198 | An invite enabling encryption over a stored untracked member leaves that member untracked. |
| `Reports.InviteThenJoinSharesUntracked` | crates/matrix-sdk-base/src/client.rs:875-901 | After any invite to an encrypted room that shows an untracked joined member, and `room_joined`, the room key goes to that user. |
| `Reports.SampleInviteSharesUntracked` | crates/matrix-sdk-base/src/client.rs:875-901 | One concrete invite of that kind, to a client that knows nothing yet. |
| `Interleaving.StepInv` | crates/matrix-sdk-base/src/client.rs:1243-1297 | Every step of every call keeps the lock exclusive, records known in memory, and each saved record and the saved token in memory or pending with the lock's holder. |
| `Interleaving.InterleavingsStayCoherent` | crates/matrix-sdk-base/src/client.rs:856-1403 | In every interleaving, with failing saves, each persisted record equals the one in memory, and the persisted token the one in memory, whenever the lock is free. |
| `Interleaving.MembershipSurvivesIff` | crates/matrix-sdk-base/src/client.rs:995-1248 | While the lock is free, a room's membership survives every interleaving in which no new call is against it if and only if no running call is: no sync with a section or a built record, and no membership call, that gives the room another state. |
| `Schedules.ApplyIsInterleaving` | crates/matrix-sdk-base/src/client.rs:856-1403 | Every operation of a sequential run is an interleaving of one call, with the same records and tokens at the end. |
| `Schedules.RunIsInterleaving` | crates/matrix-sdk-base/src/client.rs:856-1403 | So is every sequential run, which the coherence of interleavings therefore covers. |
| `Schedules.StaleSyncUndoesLeave` | crates/matrix-sdk-base/src/response_processors.rs:36-42 | The direct pass clones a joined room that no section mentions, `room_left` commits, and the sync writes the old membership back, although the room ends up left in either order of the two calls. |
| `LatestEvent.DisplayableIsDecrypted` | crates/matrix-sdk-base/src/client.rs:372-403 | A displayable event is never still encrypted; for one that arrived encrypted it is a genuine decryption. |
| `LatestEvent.DisplayableIff` | crates/matrix-sdk-base/src/latest_event.rs:67-146 | An event is displayable exactly if what decryption leaves of it deserializes to a message that is no edit, a poll, a call, a call notification, a sticker, or a knock and our level is at least that for inviting or for kicking. |
| `LatestEvent.DecryptLatestSuitableEvent` | crates/matrix-sdk-base/src/client.rs:816-851 | The greatest index of an event of which decryption leaves something a preview can show, with that form, or nothing exactly if there is none. |
| `LatestEvent.Room.DecryptLatestEvents` | crates/matrix-sdk-base/src/client.rs:795-807 | The newest event that can be shown is recorded in the room's record of the changes, cloned if needed; it and all older ones are dropped and no kept one can be shown; else nothing changes. |
| `FailuresCache.DelayIsExact` | crates/matrix-sdk-common/src/failures_cache.rs:140-145 | The saturating delay is clamp(multiplier * 2^n seconds, 1 second, maximum) in unbounded arithmetic if and only if the product or the maximum fits a u64 of seconds. |
| `FailuresCache.DelayCanBeInexact` | crates/matrix-sdk-common/src/failures_cache.rs:140-145 | With a maximum of u64::MAX seconds and a fraction, the 256th failure gets less than the unbounded formula gives. |
| `FailuresCache.DelayMonotone` | crates/matrix-sdk-common/src/failures_cache.rs:140-145 | More failures never give a shorter window. |
| `FailuresCache.DefaultWindows` | crates/matrix-sdk-common/src/failures_cache.rs:134-145 | The default windows are 0.25, 0.5, 1, 2, 4 and 8 minutes, and 15 from then on. |
| `FailuresCache.ItemAfter` | crates/matrix-sdk-common/src/failures_cache.rs:157-199 | What one more insertion, removal or expiry does to the item a history gives a key, in terms of the stored item alone. |
| `FailuresCache.RepeatsCountSeparately` | crates/matrix-sdk-common/src/failures_cache.rs:162-174 | Each occurrence of a key within one call is a failure of its own. |
| `FailuresCache.FurtherFailureNeverShortens` | crates/matrix-sdk-common/src/failures_cache.rs:163-171 | A further failure never shortens the computed window. |
| `FailuresCache.FailuresCache.WithSettings` | crates/matrix-sdk-common/src/failures_cache.rs:91-100 | A new cache, whatever its settings, has the empty history. |
| `FailuresCache.FailuresCache.Extend` | crates/matrix-sdk-common/src/failures_cache.rs:157-175 | The cache keeps refining its history, extended by one insertion per key in order. |
| `FailuresCache.FailuresCache.Remove` | crates/matrix-sdk-common/src/failures_cache.rs:178-189 | The cache keeps refining its history, extended by one removal per key. |
| `FailuresCache.FailuresCache.Expire` | crates/matrix-sdk-common/src/failures_cache.rs:196-199 | The cache keeps refining its history, extended by a forced expiry; counts are kept. |
| `FailuresCache.FailuresCache.Contains` | crates/matrix-sdk-common/src/failures_cache.rs:103-113 | Holds exactly before the end of the window of the last insertion since removal, unless force-expired. |
| `FailuresCache.FailuresCache.WindowCloses` | crates/matrix-sdk-common/src/failures_cache.rs:68-72 | A blocked key was blocked at every earlier time, and no key is blocked a maximal delay after its last insertion. |
| `FailuresCache.FailuresCache.FailureCount` | crates/matrix-sdk-common/src/failures_cache.rs:125-132 | min(255, insertions since the last removal - 1), or nothing without an insertion. |
| `Media.SettingsKeyInjective` | crates/matrix-sdk-base/src/media.rs:61-101 | Thumbnail settings have equal keys exactly if they are equal, for every method. |
| `Media.UniqueSettingsKey` | crates/matrix-sdk-base/src/media.rs:90-101 | The built key is one that no other settings have. |
| `Media.DecimalValue` | crates/matrix-sdk-base/src/media.rs:61-65 | Widths and heights are printed so that the digits stand for the number. |
| `Media.KeyText` | crates/matrix-sdk-base/src/media.rs:37-136 | The text of every key: URI, then `file`, or method, width and height and whether animated, with the separators. |
| `Media.KeysEqualIffCollide` | crates/matrix-sdk-base/src/media.rs:132-136 | Two request keys are equal if and only if the requests agree, in URI and format, up to where the URI ends and the method begins. |
| `Media.KeysIdentifyIffSuffixFree` | crates/matrix-sdk-base/src/media.rs:37-136 | Over a set of methods, keys identify URI and format if and only if no method is another one preceded by the separator; URIs are arbitrary. |
| `Media.SeparatorFreeMethodsIdentify` | crates/matrix-sdk-base/src/media.rs:37-136 | For methods without the separator, keys are equal exactly for the same URI and format. |
| `VectorDiffs.TranslateExact` | bindings/matrix-sdk-ffi/src/room_list.rs:398-439 | A translated diff, checked or truncating, is the elementwise image at the same position if and only if the position fits a u32. |
| `VectorDiffs.PositionEffects` | bindings/matrix-sdk-ffi/src/room_list.rs:384-396 | An insertion puts the value at its position and shifts what follows, a removal undoes it, a replacement changes one position. |
| `VectorDiffs.FrontEffects` | bindings/matrix-sdk-ffi/src/room_list.rs:384-396 | A push to the front is an insertion there, and a pop undoes it. |
| `VectorDiffs.BackEffects` | bindings/matrix-sdk-ffi/src/room_list.rs:384-396 | A push to the back is an insertion there, and a pop undoes it. |
| `VectorDiffs.ListEffects` | bindings/matrix-sdk-ffi/src/room_list.rs:384-396 | Appending pushes values back one by one, truncating undoes it, clearing and resetting forget the list. |
| `VectorDiffs.ImageCommutes` | bindings/matrix-sdk-ffi/src/room_directory_search.rs:172-197 | Applying the image of a diff to the image of a list gives the image of the changed list. |
| `VectorDiffs.ShortListsFit` | bindings/matrix-sdk-ffi/src/room_list.rs:418-430 | Every position fits as long as no list the diffs meet is longer than a u32 can count. |
| `VectorDiffs.BatchCommutes` | bindings/matrix-sdk-ffi/src/room_list.rs:247-254 | A batch whose positions fit never panics, stays applicable, and commutes with taking images. |
| `VectorDiffs.LongListsDiverge` | bindings/matrix-sdk-ffi/src/room_directory_search.rs:191-191 | On a longer list the room list panics and directory search removes another entry. |
| `VectorDiffs.ForwardBatches` | bindings/matrix-sdk-ffi/src/room_list.rs:247-254 | After each batch the listener holds the image of the source list. |
| `VectorDiffs.ForwardResults` | bindings/matrix-sdk-ffi/src/room_directory_search.rs:134-149 | Whatever the listener held, it holds the image of the initial list after the reset and of the source list after each batch. |
| `ChunkIterator.ChunkIterator.Next` | bindings/matrix-sdk-ffi/src/chunk_iterator.rs:21-41 | For one caller: nothing exactly when the list is exhausted, else the next items up to the requested size, and the rest remains. |
| `ChunkIterator.CheckOutcome` | bindings/matrix-sdk-ffi/src/chunk_iterator.rs:21-25 | A check turns its caller away exactly if there are no items, and hands an empty chunk to a request for none. |
| `ChunkIterator.StepPartition` | bindings/matrix-sdk-ffi/src/chunk_iterator.rs:21-41 | Every step of every caller keeps chunks plus rest equal to the original list, chunks within their requests, and refusals justified. |
| `ChunkIterator.StepDeliveries` | bindings/matrix-sdk-ffi/src/chunk_iterator.rs:21-41 | Every step keeps each chunk delivered to its one caller, and nobody gets items otherwise. |
| `ChunkIterator.ChunksPartitionItems` | bindings/matrix-sdk-ffi/src/chunk_iterator.rs:21-41 | In every interleaving the chunks in split order followed by the rest are the original list, and as many splits as items exhaust it. |

## Left out

- Olm and Megolm: encryption, signatures and key derivation; the machine is a set of tracked users and an abstract decrypt function.
- JSON and serde: deserialization results are part of a raw event.
- Timeline.RunFolds: leaves out that a redaction also changes the record, as redactions of the record and of stored events are not modelled.
- Accumulator.HandleTimeline: leaves out redactions, for the same reason.
- Client.BaseClient.ReceiveSyncResponse: leaves out the latest-event updates that to-device events can start inside the call.
- Redactions of stored events and of the record, profiles, presence, receipts, the ambiguity cache and the display-name cache: independent of the invariants proved.
- Record fields no property depends on (avatar, name, topic, join rules, heroes, call members and so on), and the raw storage of room account data and stripped state.
- To-device events, including the latest-event update they can start inside a sync.
- Awaited calls that fail halfway: a failing read or tracking call of a sync changes nothing itself; the abandoned syncs of `Runs` allow any rooms and users.
- `ignore_state_events`, which only sliding sync sets, sliding sync itself and `forget_room`.
- Looking up push rules; they are a parameter of a session.
- Accumulator.AnnounceStripped: leaves open the order in which slots are visited; it is that of an event type enumeration defined outside the repository.
- Accumulator.HandleInvitedState: leaves that order open too.
- Interleaving.InterleavingsStayCoherent: covers records and the token; a membership survives interleaving under the condition of `MembershipSurvivesIff`, and tracking is proved for sequential runs.
- Tracking.RunKeepsMembersTracked: covers rooms reported only as joined from the start of the run; for other reports the exact conditions are stated instead.
- VectorDiffs.ForwardBatches: the stream is a finite list of batches, and a diff is one that a list can emit, at a position that fits.
- `ChunkIterator::len`, builders, enum conversions, error mappings and the other foreign-function wrappers: single-branch mappings.
- Verification requests, SAS and QR flows, the libolm migration, task handles, tracing, tooling and build scripts.
