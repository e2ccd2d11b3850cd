/** The base client: the operations that change its rooms, store, token and tracked users. */
module Client {
  import opened Types
  import opened StateFold
  import opened Timeline
  import opened Sync
  import opened Accumulator
  import opened AccountData
  import opened RoomEvents
  import opened Gathering

  datatype SyncOutcome = Repeated | Done | Failed

  lemma OneMoreWrite(ws: seq<Write>, w: Write)
    ensures EverActive(ws + [w]) == EverActive(ws) + if IsActiveMember(w.event) then {w.event.stateKey} else {}
    ensures Overlay(map[], ws + [w]) == Overlay(map[], ws)[SlotOf(w.event) := w.raw]
    ensures Overlay(map[], []) == map[]
  {
    var longer := ws + [w];
    assert longer[..|ws|] == ws && longer[..|ws| + 1] == longer;
    EverActiveExtends(longer, |ws|);
  }

  /** The state events of a member list and the users it reports as active. */
  method CollectMembers(r: RoomId, chunk: seq<Raw>, changes: StateChanges) returns (users: set<UserId>)
    requires r !in changes.state
    modifies changes`state
    ensures users == EverActive(MemberWrites(chunk))
    ensures changes.state ==
            if MemberWrites(chunk) == [] then old(changes.state)
            else old(changes.state)[r := Overlay(map[], MemberWrites(chunk))]
  {
    users := {};
    for i := 0 to |chunk|
      invariant users == EverActive(MemberWrites(chunk[..i]))
      invariant changes.state ==
        if MemberWrites(chunk[..i]) == [] then old(changes.state)
        else old(changes.state)[r := Overlay(map[], MemberWrites(chunk[..i]))]
    {
      var raw := chunk[i];
      assert chunk[..i + 1][..i] == chunk[..i];
      if IsState(raw) && IsMember(raw.parsed.value.event) {
        var e := raw.parsed.value.event;
        ghost var ws := MemberWrites(chunk[..i]);
        OneMoreWrite(ws, Write(raw, e));
        assert MemberWrites(chunk[..i + 1]) == ws + [Write(raw, e)];
        UpdateTwice(old(changes.state), r, Overlay(map[], ws), Overlay(map[], ws + [Write(raw, e)]));
        if IsActive(e.content.membership) {
          users := users + {e.stateKey};
        }
        changes.AddStateEvent(r, e, raw);
      } else {
        assert MemberWrites(chunk[..i + 1]) == MemberWrites(chunk[..i]);
      }
    }
    assert chunk[..|chunk|] == chunk;
  }

  ghost predicate Visiting(resp: Response, todo: set<RoomId>, done: set<RoomId>) {
    todo !! done && todo + done == resp.rooms.Keys
  }

  lemma VisitOneMore(resp: Response, todo: set<RoomId>, done: set<RoomId>, r: RoomId)
    requires Visiting(resp, todo, done) && r in todo
    ensures r in resp.rooms && r !in done && Visiting(resp, todo - {r}, done + {r})
  {
  }

  ghost predicate ReportShown(
      session: Session, rooms: RoomInfos, resp: Response, r: RoomId,
      notes: seq<Notification>, timeline: Option<seq<Item>>)
    requires r in resp.rooms
  {
    && RoomSucceeds(session, OldInfo(rooms, resp, r), r, resp.rooms[r])
    && timeline.Some? && RoomShown(session, OldInfo(rooms, resp, r), r, resp.rooms[r], notes, timeline.value)
  }

  /** The reported notifications and timelines are right for every room. */
  ghost predicate AllShown(
      session: Session, rooms: RoomInfos, resp: Response, done: set<RoomId>,
      notes: Notifications, timelines: map<RoomId, seq<Item>>)
  {
    && notes.Keys <= done <= resp.rooms.Keys
    && forall r <- done :: ReportShown(session, rooms, resp, r, NotesFor(notes, r), Lookup(timelines, r))
  }

  /** For every joined or left room: one item per timeline event, in order and in the
      right form, and the notifications of exactly the notifying items. */
  ghost predicate AllInOrder(
      session: Session, resp: Response, notes: Notifications, timelines: map<RoomId, seq<Item>>)
  {
    forall r <- resp.rooms :: HasFullState(resp.rooms[r]) ==>
      r in timelines && ReportedInOrder(session, resp.rooms[r].timeline, timelines[r], NotesFor(notes, r))
  }

  lemma ShownAllInOrder(
      session: Session, rooms: RoomInfos, resp: Response, notes: Notifications, timelines: map<RoomId, seq<Item>>)
    requires AllShown(session, rooms, resp, resp.rooms.Keys, notes, timelines)
    ensures AllInOrder(session, resp, notes, timelines)
  {
    forall r | r in resp.rooms && HasFullState(resp.rooms[r])
      ensures r in timelines && ReportedInOrder(session, resp.rooms[r].timeline, timelines[r], NotesFor(notes, r))
    {
      assert r in resp.rooms.Keys;
      assert ReportShown(session, rooms, resp, r, NotesFor(notes, r), Lookup(timelines, r));
      ShownInOrder(session, OldInfo(rooms, resp, r), r, resp.rooms[r], NotesFor(notes, r), timelines[r]);
    }
  }

  lemma NotesElsewhere(notes0: Notifications, notes: Notifications, r: RoomId)
    requires notes - {r} == notes0 - {r}
    ensures notes.Keys <= notes0.Keys + {r}
    ensures forall q :: q != r ==> NotesFor(notes, q) == NotesFor(notes0, q)
  {
    assert forall q :: q in notes && q != r ==> q in notes - {r};
    assert forall q :: q in notes0 && q != r ==> q in notes0 - {r};
    forall q | q != r
      ensures NotesFor(notes, q) == NotesFor(notes0, q)
    {
      if q in notes {
        assert (notes - {r})[q] == notes[q];
      }
    }
  }

  lemma ShowOneMore(
      session: Session, rooms: RoomInfos, resp: Response, done: set<RoomId>, r: RoomId,
      notes0: Notifications, timelines: map<RoomId, seq<Item>>,
      notes: Notifications, items: seq<Item>)
    requires r in resp.rooms && r !in done
    requires AllShown(session, rooms, resp, done, notes0, timelines)
    requires notes - {r} == notes0 - {r}
    requires ReportShown(session, rooms, resp, r, NotesFor(notes, r), Some(items))
    ensures AllShown(session, rooms, resp, done + {r}, notes, timelines[r := items])
  {
    NotesElsewhere(notes0, notes, r);
    forall q | q in done + {r}
      ensures ReportShown(session, rooms, resp, q, NotesFor(notes, q), Lookup(timelines[r := items], q))
    {
      assert q != r ==> Lookup(timelines[r := items], q) == Lookup(timelines, q);
    }
  }

  class BaseClient {
    var persisted: Persisted
    var rooms: RoomInfos
    var token: Option<Token>
    var tracked: set<UserId>

    ghost predicate Valid()
      reads this
    {
      RoomsKeyed(rooms)
    }

    function View(): ClientState
      reads this
    {
      ClientState(persisted, rooms, token, tracked)
    }

    method GetOrCreateRoom(r: RoomId, s: RoomState)
      requires Valid()
      modifies this`rooms
      ensures Valid() && rooms == old(rooms)[r := GetOr(old(rooms), r, NewRoomInfo(r, s))]
    {
      if r !in rooms {
        rooms := rooms[r := NewRoomInfo(r, s)];
      }
    }

    // ---- One room of a response ----

    /** The common part of a joined and a left room. */
    method FullRoom(session: Session, r: RoomId, u: RoomUpdate, changes: StateChanges, notes0: Notifications)
      returns (ok: bool, users: set<UserId>, notes: Notifications, items: seq<Item>)
      requires Valid() && RoomsKeyed(changes.infos) && HasFullState(u)
      requires r !in changes.stripped && r !in notes0
      modifies this`rooms, changes`infos, changes`state
      ensures Valid() && RoomsKeyed(changes.infos)
      ensures rooms == old(rooms)[r := GetOr(old(rooms), r, NewRoomInfo(r, SectionState(u)))]
      ensures ok <==> EventsSucceed(session, r, u)
      ensures ok ==>
                && changes.infos == old(changes.infos)[r := ApplyRoomAccount(AfterTimeline(rooms[r], u), u.accountData)]
                && changes.state == old(changes.state)[r := GatheredState(u)]
                && users == CollectedUsers(u)
                && notes - {r} == notes0 - {r}
                && RoomShown(session, rooms[r], r, u, NotesFor(notes, r), items)
    {
      GetOrCreateRoom(r, if u.JoinUpdate? then Joined else Left);
      var info;
      ok, info, users, notes, items := HandleRoomEvents(session, r, u, rooms[r], changes, notes0);
      if !ok {
        return;
      }
      AfterTimelineFrame(rooms[r], u);
      UpdateTwice(changes.infos, r, info, ApplyRoomAccount(info, u.accountData));
      changes.AddRoom(info);
      HandleRoomAccountData(rooms, r, u.accountData, changes);
    }

    /** Put the users of an encrypted room under tracking; when the room has just
        turned on encryption, also its stored members. */
    method TrackUsers(session: Session, r: RoomId, info: RoomInfo, users: set<UserId>) returns (ok: bool)
      requires r in rooms
      modifies this`tracked
      ensures ok <==> TrackingSucceeds(session, r, rooms[r], info)
      ensures old(tracked) <= tracked
      ensures ok ==>
                tracked == old(tracked) +
                  if !info.IsEncrypted() then {}
                  else users + if rooms[r].IsEncrypted() then {} else UserIds(persisted, r, false)
    {
      if info.IsEncrypted() {
        if !rooms[r].IsEncrypted() {
          if session.trackFault(r).MembersFail? {
            return false;
          }
          tracked := tracked + UserIds(persisted, r, false);
        }
        if session.trackFault(r).UsersFail? {
          return false;
        }
        tracked := tracked + users;
      }
      ok := true;
    }

    method JoinRoom(session: Session, r: RoomId, u: RoomUpdate, changes: StateChanges, notes0: Notifications)
      returns (ok: bool, notes: Notifications, items: seq<Item>)
      requires Valid() && RoomsKeyed(changes.infos) && u.JoinUpdate?
      requires r !in changes.stripped && r !in notes0
      modifies this`rooms, this`tracked, changes`infos, changes`state
      ensures Valid() && RoomsKeyed(changes.infos)
      ensures rooms == old(rooms)[r := GetOr(old(rooms), r, NewRoomInfo(r, Joined))]
      ensures ok <==> RoomSucceeds(session, rooms[r], r, u)
      ensures old(tracked) <= tracked
      ensures ok ==> tracked == old(tracked) + ToTrack(persisted, rooms[r], r, u)
      ensures ok ==>
                && changes.infos == old(changes.infos)[r := UpdatedInfo(rooms[r], u)]
                && changes.state == old(changes.state)[r := GatheredState(u)]
                && notes - {r} == notes0 - {r}
                && RoomShown(session, rooms[r], r, u, NotesFor(notes, r), items)
    {
      var users;
      ok, users, notes, items := FullRoom(session, r, u, changes, notes0);
      if !ok {
        return;
      }
      // Account data may have changed the record, so it is fetched again.
      var info := changes.infos[r];
      ok := TrackUsers(session, r, info, users);
      if !ok {
        return;
      }
      UpdateTwice(old(changes.infos), r, info, info.(notificationCounts := u.unread));
      changes.AddRoom(info.(notificationCounts := u.unread));
    }

    method StrippedRoom(session: Session, r: RoomId, u: RoomUpdate, changes: StateChanges, notes0: Notifications)
      returns (ok: bool, notes: Notifications)
      requires Valid() && RoomsKeyed(changes.infos) && !HasFullState(u)
      requires r !in changes.state && r !in notes0
      modifies this`rooms, changes`infos, changes`stripped
      ensures Valid() && RoomsKeyed(changes.infos)
      ensures rooms == old(rooms)[r := GetOr(old(rooms), r, NewRoomInfo(r, SectionState(u)))]
      ensures ok <==> RoomSucceeds(session, rooms[r], r, u)
      ensures ok ==>
                && changes.infos == old(changes.infos)[r := UpdatedInfo(rooms[r], u)]
                && changes.stripped == old(changes.stripped)[r := StrippedOverlay(StrippedEvents(u.stripped))]
                && notes - {r} == notes0 - {r}
                && RoomShown(session, rooms[r], r, u, NotesFor(notes, r), [])
    {
      var target := if u.InviteUpdate? then Invited else Knocked;
      GetOrCreateRoom(r, target);
      var ps := StrippedEvents(u.stripped);
      StrippedInfo(rooms[r], u);
      UpdatedInfoFrame(rooms[r], u);
      ghost var added;
      var info;
      info := rooms[r].SetState(target).(syncInfo := FullySynced);
      ok, info, notes, added := HandleInvitedState(session, r, ps, info, changes, notes0);
      if !ok {
        return;
      }
      AddNotesFrame(notes0, r, added);
      assert NotesFor(notes, r) == added;
      changes.AddRoom(info);
    }

    /** One room of a response, whatever its section. */
    method ProcessRoom(session: Session, resp: Response, r: RoomId, changes: StateChanges, notes0: Notifications)
      returns (ok: bool, notes: Notifications, items: seq<Item>)
      requires Valid() && RoomsKeyed(changes.infos) && r in resp.rooms
      requires r !in changes.stripped && r !in changes.state && r !in notes0
      modifies this`rooms, this`tracked, changes`infos, changes`state, changes`stripped
      ensures Valid() && RoomsKeyed(changes.infos)
      ensures ok <==> RoomSucceeds(session, OldInfo(old(rooms), resp, r), r, resp.rooms[r])
      ensures ok ==> RoomProcessed(resp, r, old(View()), old(changes.View()), View(), changes.View())
      ensures !ok ==>
                && old(tracked) <= tracked
                && View() == old(View()).(rooms := old(rooms)[r := OldInfo(old(rooms), resp, r)], tracked := tracked)
      ensures ok ==> notes - {r} == notes0 - {r}
      ensures ok ==> RoomShown(session, OldInfo(old(rooms), resp, r), r, resp.rooms[r], NotesFor(notes, r), items)
    {
      var u := resp.rooms[r];
      if u.JoinUpdate? {
        ok, notes, items := JoinRoom(session, r, u, changes, notes0);
      } else if u.LeaveUpdate? {
        var users;
        ok, users, notes, items := FullRoom(session, r, u, changes, notes0);
      } else {
        ok, notes := StrippedRoom(session, r, u, changes, notes0);
        items := [];
      }
    }

    ghost predicate Gathered(st: ClientState, resp: Response, changes: StateChanges, done: set<RoomId>)
      reads this, changes
    {
      View() == GatheredClient(st, resp, done) && changes.View() == GatheredChanges(st, resp, done)
    }

    /** One more room of a response. */
    method GatherRoom(
        session: Session, resp: Response, ghost st: ClientState, ghost done: set<RoomId>, r: RoomId,
        changes: StateChanges, notes0: Notifications)
      returns (ok: bool, notes: Notifications, items: seq<Item>)
      requires Valid() && RoomsKeyed(changes.infos) && Gathered(st, resp, changes, done)
      requires r in resp.rooms && r !in done && r !in notes0
      modifies this`rooms, this`tracked, changes`infos, changes`state, changes`stripped
      ensures Valid() && RoomsKeyed(changes.infos)
      ensures ok <==> RoomSucceeds(session, OldInfo(st.rooms, resp, r), r, resp.rooms[r])
      ensures ok ==> Gathered(st, resp, changes, done + {r})
      ensures !ok ==>
                && old(tracked) <= tracked
                && View() == old(View()).(rooms := Created(st.rooms, resp, done + {r}), tracked := tracked)
      ensures ok ==> notes - {r} == notes0 - {r}
      ensures ok ==> ReportShown(session, st.rooms, resp, r, NotesFor(notes, r), Some(items))
    {
      GatheredLacks(st, resp, done, r);
      ok, notes, items := ProcessRoom(session, resp, r, changes, notes0);
      if ok {
        GatherOneMore(st, resp, done, r, View(), changes.View());
      } else {
        CreatedOneMore(st.rooms, resp, done, r);
      }
    }

    /** All rooms of a response, whatever the order they are visited in. */
    method ProcessRooms(session: Session, resp: Response, changes: StateChanges)
      returns (ok: bool, notes: Notifications, timelines: map<RoomId, seq<Item>>, ghost created: set<RoomId>)
      requires Valid()
      requires changes.View() == Changes(Some(resp.nextBatch), map[], map[], map[], map[])
      modifies this`rooms, this`tracked, changes`infos, changes`state, changes`stripped
      ensures Valid() && RoomsKeyed(changes.infos)
      ensures ok <==> forall r <- resp.rooms :: RoomSucceeds(session, OldInfo(old(rooms), resp, r), r, resp.rooms[r])
      ensures ok ==> Gathered(old(View()), resp, changes, resp.rooms.Keys)
      ensures ok ==> AllShown(session, old(rooms), resp, resp.rooms.Keys, notes, timelines)
      ensures !ok ==> old(tracked) <= tracked && View() == old(View()).(rooms := Created(old(rooms), resp, created), tracked := tracked)
    {
      ghost var st := View();
      var todo := resp.rooms.Keys;
      notes, timelines, created := map[], map[], {};
      ghost var done: set<RoomId> := {};
      NothingGathered(st, resp);
      while todo != {}
        invariant Visiting(resp, todo, done)
        invariant Valid() && RoomsKeyed(changes.infos)
        invariant Gathered(st, resp, changes, done)
        invariant AllShown(session, st.rooms, resp, done, notes, timelines)
        decreases todo
      {
        var r :| r in todo;
        var items;
        ghost var notes1 := notes;
        VisitOneMore(resp, todo, done, r);
        ok, notes, items := GatherRoom(session, resp, st, done, r, changes, notes);
        if !ok {
          created := done + {r};
          return;
        }
        ShowOneMore(session, st.rooms, resp, done, r, notes1, timelines, notes, items);
        done := done + {r};
        todo := todo - {r};
        timelines := timelines[r := items];
      }
      assert done == resp.rooms.Keys;
      ok := true;
    }

    // ---- The operations ----

    /** A sync response: skipped when its token is the current one, else processed
        room by room and committed under the lock, or abandoned on the first error. */
    method ReceiveSyncResponse(session: Session, resp: Response, saveOk: bool, directReadOk: bool)
      returns (outcome: SyncOutcome, notes: Notifications, timelines: map<RoomId, seq<Item>>)
      requires Valid()
      modifies this
      ensures Valid()
      ensures outcome.Repeated? <==> old(token) == Some(resp.nextBatch)
      ensures outcome.Done? <==>
                && old(token) != Some(resp.nextBatch)
                && !session.prepareFails
                && (forall r <- resp.rooms :: RoomSucceeds(session, OldInfo(old(rooms), resp, r), r, resp.rooms[r]))
                && saveOk
      ensures outcome.Repeated? ==> View() == old(View())
      ensures outcome.Done? ==> View() == Processed(old(View()), resp, directReadOk)
      ensures outcome.Failed? ==>
                exists created: set<RoomId>, users: set<UserId> :: View() == Abandoned(old(View()), resp, created, users)
      ensures outcome.Done? ==> AllShown(session, old(rooms), resp, resp.rooms.Keys, notes, timelines)
      ensures outcome.Done? ==> AllInOrder(session, resp, notes, timelines)
    {
      if token == Some(resp.nextBatch) {
        return Repeated, map[], map[];
      }
      if session.prepareFails {
        assert View() == Abandoned(old(View()), resp, {}, {});
        return Failed, map[], map[];
      }
      var changes := new StateChanges(Some(resp.nextBatch));
      var ok;
      ghost var created;
      ok, notes, timelines, created := ProcessRooms(session, resp, changes);
      if ok {
        ApplyAccountData(rooms, persisted, resp, directReadOk, changes);
        assert changes.View() == SyncChanges(old(View()), resp, directReadOk);
        ok := Commit(changes, saveOk);
        if ok {
          ShownAllInOrder(session, old(rooms), resp, notes, timelines);
          return Done, notes, timelines;
        }
        created := resp.rooms.Keys;
      }
      assert View() == Abandoned(old(View()), resp, created, tracked) by {
        assert old(tracked) + tracked == tracked;
      }
      outcome := Failed;
    }

    /** The locked commit: save, then set the token, then apply to memory; nothing happens if saving fails. */
    method Commit(changes: StateChanges, saveOk: bool) returns (ok: bool)
      requires Valid() && RoomsKeyed(changes.infos)
      modifies this`persisted, this`token, this`rooms
      ensures Valid() && ok == saveOk
      ensures View() ==
              if !saveOk then old(View())
              else old(View()).(persisted := SaveChanges(old(persisted), changes.View()),
                                token := if changes.token.Some? then changes.token else old(token),
                                rooms := ApplyInfos(old(rooms), changes.infos))
    {
      if !saveOk {
        return false;
      }
      persisted := SaveChanges(persisted, changes.View());
      if changes.token.Some? {
        token := changes.token;
      }
      ApplyChanges(changes);
      ok := true;
    }

    method ApplyChanges(changes: StateChanges)
      requires Valid() && RoomsKeyed(changes.infos)
      modifies this`rooms
      ensures Valid() && rooms == ApplyInfos(old(rooms), changes.infos)
    {
      var todo := changes.infos.Keys;
      while todo != {}
        invariant todo <= changes.infos.Keys
        invariant Valid()
        invariant rooms == ApplyInfos(old(rooms), changes.infos - todo)
      {
        var r :| r in todo;
        todo := todo - {r};
        if r in rooms {
          rooms := rooms[r := changes.infos[r]];
        }
      }
      assert changes.infos - todo == changes.infos;
    }

    /** `room_joined`, `room_left` and `room_knocked`, which differ in the state they set. */
    method ChangeMembership(r: RoomId, target: RoomState, saveOk: bool) returns (ok: bool)
      requires Valid()
      modifies this`rooms, this`persisted
      ensures Valid()
      ensures ok <==> saveOk || GetOr(old(rooms), r, NewRoomInfo(r, target)).roomState == target
      ensures View() == Transition(old(View()), r, target, saveOk)
    {
      GetOrCreateRoom(r, target);
      if rooms[r].roomState == target {
        return true;
      }
      var info := rooms[r].SetState(target);
      info := info.(syncInfo := PartiallySynced, membersSynced := false);
      var changes := new StateChanges(None);
      changes.AddRoom(info);
      if !saveOk {
        return false;
      }
      persisted := SaveChanges(persisted, changes.View());
      rooms := rooms[r := info];
      ok := true;
    }

    /** A member list; a filtered request is refused, an unknown room ignored. */
    method ReceiveAllMembers(r: RoomId, filtered: bool, chunk: seq<Raw>, trackOk: bool, saveOk: bool) returns (ok: bool)
      requires Valid()
      modifies this
      ensures Valid()
      ensures ok <==> !filtered && (r in old(rooms) ==> (old(rooms)[r].IsEncrypted() ==> trackOk) && saveOk)
      ensures View() ==
              if filtered || (r in old(rooms) && old(rooms)[r].IsEncrypted() && !trackOk) then old(View())
              else ReceivedMembers(old(View()), r, chunk, saveOk)
    {
      if filtered {
        return false;
      }
      if r !in rooms {
        return true;
      }
      var changes := new StateChanges(None);
      var users := CollectMembers(r, chunk, changes);
      if rooms[r].IsEncrypted() {
        if !trackOk {
          return false;
        }
        tracked := tracked + users;
      }
      changes.AddRoom(rooms[r].(membersSynced := true));
      assert changes.View() == MemberChanges(old(rooms)[r], r, chunk);
      ok := Commit(changes, saveOk);
    }

    /** The users a room key is shared with, or `None` without encryption settings. */
    method ShareRoomKey(r: RoomId) returns (users: Option<set<UserId>>)
      ensures users.Some? <==> r in rooms && rooms[r].IsEncrypted()
      ensures users.Some? ==>
                var joinOnly := rooms[r].historyVisibility == Some(VisibleToJoined);
                forall u :: u in users.value <==>
                  var m := KnownMembership(persisted, r, u, joinOnly);
                  m == Some(Join) || (m == Some(Invite) && !joinOnly)
      ensures users == KeyRecipients(View(), r)
    {
      var joinOnly := r !in rooms || rooms[r].historyVisibility == Some(VisibleToJoined);
      var members := UserIds(persisted, r, joinOnly);
      if r !in rooms || !rooms[r].IsEncrypted() {
        return None;
      }
      users := Some(members);
      forall u
        ensures u in members <==>
                var m := KnownMembership(persisted, r, u, joinOnly);
                m == Some(Join) || (m == Some(Invite) && !joinOnly)
      {
        RecipientsByMembership(View(), r, u);
      }
    }
  }
}
