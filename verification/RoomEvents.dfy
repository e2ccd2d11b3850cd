/** The events of one joined or left room: its state block, then its timeline. */
module RoomEvents {
  import opened Types
  import opened StateFold
  import opened Timeline
  import opened Sync
  import opened Accumulator

  /** The record and state block of a joined or left room, up to its timeline. */
  method HandleStateBlock(session: Session, r: RoomId, u: RoomUpdate, was: RoomInfo, changes: StateChanges)
    returns (ok: bool, info: RoomInfo, users: set<UserId>)
    requires HasFullState(u)
    modifies changes`state
    ensures ok <==> forall w <- Writes(u.state) :: !session.ioFails(w.raw)
    ensures ok ==> info == AfterState(was, u) && users == EverActive(Writes(u.state))
    ensures changes.state == if ok then old(changes.state)[r := Overlay(map[], Writes(u.state))] else old(changes.state)
  {
    info := if u.JoinUpdate? then PrepareJoin(was, u) else was.SetState(Left).(syncInfo := PartiallySynced);
    ok, info, users := HandleState(session, r, u.state, info, changes);
    if ok && u.JoinUpdate? && u.limited {
      info := info.(membersSynced := false);
    }
  }

  ghost function TimelineOf(session: Session, was: RoomInfo, r: RoomId, u: RoomUpdate): Result<Acc>
    requires HasFullState(u)
  {
    var env, ws := RoomEnv(session, r, map[]), Writes(u.state);
    Run(env, Start(env, AfterState(was, u), Overlay(map[], ws), EverActive(ws), []), u.timeline)
  }

  /** The notifications and items of a room are those of its timeline run. */
  ghost predicate ShowsTimeline(
      session: Session, was: RoomInfo, r: RoomId, u: RoomUpdate, notes: seq<Notification>, items: seq<Item>)
    requires HasFullState(u)
  {
    var run := TimelineOf(session, was, r, u);
    run.Ok? && run.value.notifications == notes && run.value.items == items
  }

  lemma TimelineFacts(session: Session, was: RoomInfo, r: RoomId, u: RoomUpdate)
    requires HasFullState(u)
    ensures TimelineOf(session, was, r, u).Ok? <==> !exists raw <- u.timeline :: raw.parsed.Some? && EventFails(session, raw)
    ensures TimelineOf(session, was, r, u).Ok? ==>
              var acc := TimelineOf(session, was, r, u).value;
              acc.info == AfterTimeline(was, u) && acc.state == GatheredState(u) && acc.users == CollectedUsers(u)
  {
    var env, ws := RoomEnv(session, r, map[]), Writes(u.state);
    var acc0 := Start(env, AfterState(was, u), Overlay(map[], ws), EverActive(ws), []);
    RunFailsIffSomeEventFails(env, acc0, u.timeline);
    if Run(env, acc0, u.timeline).Ok? {
      RunFolds(env, acc0, u.timeline);
      OverlayConcat(map[], ws, Writes(u.timeline));
    }
  }

  /** The timeline of a joined or left room, after its state block. */
  method HandleTimelineBlock(
      session: Session, r: RoomId, u: RoomUpdate, was: RoomInfo, users0: set<UserId>, info0: RoomInfo,
      changes: StateChanges, notes0: Notifications)
    returns (ok: bool, info: RoomInfo, users: set<UserId>, notes: Notifications, items: seq<Item>)
    requires HasFullState(u) && r !in changes.stripped && r !in notes0
    requires info0 == AfterState(was, u) && users0 == EverActive(Writes(u.state))
    requires r in changes.state && changes.state[r] == Overlay(map[], Writes(u.state))
    modifies changes`state
    ensures ok == (!session.contextFails(r) && TimelineOf(session, was, r, u).Ok?)
    ensures ok ==>
              && info == AfterTimeline(was, u) && users == CollectedUsers(u)
              && changes.state == old(changes.state)[r := GatheredState(u)]
              && notes - {r} == notes0 - {r}
              && ShowsTimeline(session, was, r, u, NotesFor(notes, r), items)
  {
    TimelineFacts(session, was, r, u);
    ok, info, users, notes, items := HandleTimeline(session, r, u.timeline, users0, info0, changes, notes0);
  }

  /** No awaited call for the events of the room returns an error. */
  ghost predicate EventsSucceed(session: Session, r: RoomId, u: RoomUpdate) {
    && !session.contextFails(r)
    && (HasFullState(u) ==>
      && (forall w <- Writes(u.state) :: !session.ioFails(w.raw))
      && !exists raw <- u.timeline :: raw.parsed.Some? && EventFails(session, raw))
  }

  /** The state block, then the timeline of a joined or left room. */
  method HandleRoomEvents(
      session: Session, r: RoomId, u: RoomUpdate, was: RoomInfo, changes: StateChanges, notes0: Notifications)
    returns (ok: bool, info: RoomInfo, users: set<UserId>, notes: Notifications, items: seq<Item>)
    requires HasFullState(u) && r !in changes.stripped && r !in notes0
    modifies changes`state
    ensures ok <==> EventsSucceed(session, r, u)
    ensures ok ==>
              && info == AfterTimeline(was, u) && users == CollectedUsers(u)
              && changes.state == old(changes.state)[r := GatheredState(u)]
              && notes - {r} == notes0 - {r}
              && ShowsTimeline(session, was, r, u, NotesFor(notes, r), items)
  {
    notes, items := notes0, [];
    ok, info, users := HandleStateBlock(session, r, u, was, changes);
    TimelineFacts(session, was, r, u);
    if ok {
      UpdateTwice(old(changes.state), r, changes.state[r], GatheredState(u));
      ok, info, users, notes, items := HandleTimelineBlock(session, r, u, was, users, info, changes, notes0);
    }
  }

  /** Tracking is attempted in encrypted rooms, of stored members only where
      encryption has just been turned on. */
  predicate TrackingSucceeds(session: Session, r: RoomId, was: RoomInfo, info: RoomInfo) {
    info.IsEncrypted() ==>
      !session.trackFault(r).UsersFail? && (session.trackFault(r).MembersFail? ==> was.IsEncrypted())
  }

  ghost predicate RoomSucceeds(session: Session, was: RoomInfo, r: RoomId, u: RoomUpdate) {
    && EventsSucceed(session, r, u)
    && (u.JoinUpdate? ==> TrackingSucceeds(session, r, was, UpdatedInfo(was, u)))
  }

  /** The notifications and items a response reports for a room are those of its
      timeline run, or those of its stripped state. */
  ghost predicate RoomShown(
      session: Session, was: RoomInfo, r: RoomId, u: RoomUpdate, notes: seq<Notification>, items: seq<Item>)
  {
    if HasFullState(u) then ShowsTimeline(session, was, r, u, notes, items)
    else ShowsStripped(session, r, StrippedEvents(u.stripped), UpdatedInfo(was, u), map[], notes) && items == []
  }

  /** What a sync reports for every joined or left room: one item per event of its
      timeline, in order and in the form it is shown in, and exactly the notifying
      items as notifications. */
  lemma ShownInOrder(
      session: Session, was: RoomInfo, r: RoomId, u: RoomUpdate, notes: seq<Notification>, items: seq<Item>)
    requires HasFullState(u) && ShowsTimeline(session, was, r, u, notes, items)
    ensures ReportedInOrder(session, u.timeline, items, notes)
  {
    var env, ws := RoomEnv(session, r, map[]), Writes(u.state);
    var acc0 := Start(env, AfterState(was, u), Overlay(map[], ws), EverActive(ws), []);
    FreshRunReports(env, acc0, u.timeline);
  }

  /** The kept push context of a room equals a recomputed one at every event. */
  predicate ContextsAgreeIn(session: Session, r: RoomId, u: RoomUpdate)
    requires HasFullState(u)
  {
    forall n :: 0 <= n <= |u.timeline| ==>
      ContextsAgree(RoomEnv(session, r, map[]), Overlay(map[], Writes(u.state)), u.timeline[..n])
  }

  /** Then the actions and notifications are those of judging every event in a
      push context recomputed from scratch. */
  lemma ShownMatchesScratch(
      session: Session, was: RoomInfo, r: RoomId, u: RoomUpdate, notes: seq<Notification>, items: seq<Item>)
    requires HasFullState(u) && ContextsAgreeIn(session, r, u) && ShowsTimeline(session, was, r, u, notes, items)
    ensures var env, info, m := RoomEnv(session, r, map[]), AfterState(was, u), Overlay(map[], Writes(u.state));
            && |items| == |u.timeline|
            && (forall i :: 0 <= i < |items| ==> items[i] == ScratchItem(env, info, m, u.timeline[..i + 1]))
            && notes == ScratchNotifications(env, info, m, u.timeline)
  {
    var env, ws := RoomEnv(session, r, map[]), Writes(u.state);
    var info, m := AfterState(was, u), Overlay(map[], ws);
    OverlayWellKeyed(map[], ws);
    TimelineMatchesScratch(env, info, m, EverActive(ws), [], u.timeline);
    forall i | 0 <= i < |u.timeline|
      ensures |items| == |u.timeline| && items[i] == ScratchItem(env, info, m, u.timeline[..i + 1])
    {
      ScratchItemsAt(env, info, m, u.timeline, i);
    }
    if u.timeline != [] {
      ScratchItemsAt(env, info, m, u.timeline, 0);
    }
  }

  /** Power levels that read the same to both readers suffice. */
  lemma ReadableEventsAgree(session: Session, r: RoomId, u: RoomUpdate)
    requires HasFullState(u) && forall raw <- u.state + u.timeline :: FullyReadable(raw)
    ensures ContextsAgreeIn(session, r, u)
  {
    var env, m := RoomEnv(session, r, map[]), Overlay(map[], Writes(u.state));
    assert forall raw <- u.state :: raw in u.state + u.timeline;
    assert forall raw <- u.timeline :: raw in u.state + u.timeline;
    WritesFullyReadable(u.state);
    OverlayReadersAgree(env, map[], Writes(u.state));
    forall n | 0 <= n <= |u.timeline|
      ensures ContextsAgree(env, m, u.timeline[..n])
    {
      ReadableContextsAgree(env, m, u.timeline[..n]);
    }
  }

  lemma AfterTimelineFrame(was: RoomInfo, u: RoomUpdate)
    requires HasFullState(u)
    ensures AfterTimeline(was, u).roomId == was.roomId
  {
    RoomAccountMarker(AfterTimeline(was, u), u.accountData);
    UpdatedInfoFrame(was, u);
  }
}
