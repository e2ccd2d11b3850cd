/** The record of a room, field by field, after every report and every call, and
    what it means for the recipients of room keys. */
module Records {
  import opened Types
  import opened StateFold
  import opened Direct
  import opened Sync

  // ---- Room account data ----

  /** The tags of the last account data event that sets them. */
  function LastTags(raws: seq<RoomAccountRaw>): Option<set<string>> {
    if raws == [] then None
    else
      match raws[|raws| - 1].parsed
      case Some(Tag(tags)) => Some(tags)
      case _ => LastTags(raws[..|raws| - 1])
  }

  /** The notable tags are favourite and low priority, exactly as last set. */
  ghost predicate TagsAre(out: set<NotableTag>, was: set<NotableTag>, raws: seq<RoomAccountRaw>) {
    match LastTags(raws)
    case None => out == was
    case Some(tags) => (Favourite in out <==> "m.favourite" in tags) && (LowPriority in out <==> "m.lowpriority" in tags)
  }

  lemma {:induction false} RoomAccountTags(info: RoomInfo, raws: seq<RoomAccountRaw>)
    ensures TagsAre(ApplyRoomAccount(info, raws).notableTags, info.notableTags, raws)
  {
    if raws == [] {
    } else {
      RoomAccountTags(info, raws[..|raws| - 1]);
    }
  }

  // ---- Records of new rooms ----

  /** Nothing is known about the room but its state. */
  ghost predicate NothingKnown(info: RoomInfo, r: RoomId, s: RoomState) {
    && info.roomId == r && info.roomState == s && info.prevRoomState.None?
    && info.notificationCounts.highlight == 0 && info.notificationCounts.notification == 0
    && info.joinedCount == 0 && info.invitedCount == 0
    && !info.membersSynced && info.lastPrevBatch.None? && info.syncInfo == NoState
    && !info.IsEncrypted() && !info.encryptionStateSynced && info.historyVisibility.None?
    && info.dmTargets == {} && !info.isMarkedUnread && info.notableTags == {} && info.latestEvent.None?
  }

  /** A room that a sync looks up, whether it fails later or not, is kept if known
      and otherwise created in the state of its section with nothing known. */
  lemma LookedUpRecord(rooms: RoomInfos, resp: Response, created: set<RoomId>, r: RoomId)
    requires r in created && r in resp.rooms
    ensures var after := Created(rooms, resp, created);
            r in after && if r in rooms then after[r] == rooms[r] else NothingKnown(after[r], r, SectionState(resp.rooms[r]))
  {
  }

  // ---- Records after a report ----

  /** The state before the room last changed it. */
  ghost predicate StateIs(out: RoomInfo, was: RoomInfo, s: RoomState) {
    && out.roomState == s
    && out.prevRoomState == if was.roomState == s then was.prevRoomState else Some(was.roomState)
  }

  /** Encryption and history visibility are those of the last events about them. */
  ghost predicate SettingsAre(out: RoomInfo, was: RoomInfo, ws: seq<Write>) {
    && out.encryption == (if LastAlgorithm(ws).Some? then LastAlgorithm(ws) else was.encryption)
    && out.historyVisibility == LastVisibility(ws).UnwrapOr(was.historyVisibility)
    && (out.encryptionStateSynced <==>
        || was.encryptionStateSynced
        || (exists w <- ws :: EnablesEncryption(w.event))
        || (was.IsEncrypted() && exists w <- ws :: w.event.content.Encryption?))
  }

  ghost predicate JoinRecord(out: RoomInfo, was: RoomInfo, u: RoomUpdate)
    requires u.JoinUpdate?
  {
    && out.roomId == was.roomId
    && StateIs(out, was, Joined)
    && SettingsAre(out, was, Reported(u))
    && out.joinedCount == u.joinedCount.UnwrapOr(was.joinedCount)
    && out.invitedCount == u.invitedCount.UnwrapOr(was.invitedCount)
    && out.membersSynced == (was.membersSynced && !u.limited)
    && out.lastPrevBatch == u.prevBatch
    && out.syncInfo == FullySynced
    && out.notificationCounts == u.unread
    && out.isMarkedUnread == LastMarker(u.accountData).UnwrapOr(was.isMarkedUnread)
    && TagsAre(out.notableTags, was.notableTags, u.accountData)
    && out.latestEvent == was.latestEvent
  }

  ghost predicate LeaveRecord(out: RoomInfo, was: RoomInfo, u: RoomUpdate)
    requires u.LeaveUpdate?
  {
    && out.roomId == was.roomId
    && StateIs(out, was, Left)
    && SettingsAre(out, was, Reported(u))
    && out.joinedCount == was.joinedCount && out.invitedCount == was.invitedCount
    && out.membersSynced == was.membersSynced && out.lastPrevBatch == was.lastPrevBatch
    && out.syncInfo == PartiallySynced
    && out.notificationCounts == was.notificationCounts
    && out.isMarkedUnread == LastMarker(u.accountData).UnwrapOr(was.isMarkedUnread)
    && TagsAre(out.notableTags, was.notableTags, u.accountData)
    && out.latestEvent == was.latestEvent
  }

  lemma {:induction false} AlgorithmExists(ws: seq<Write>)
    ensures LastAlgorithm(ws).Some? <==> exists w <- ws :: EnablesEncryption(w.event)
  {
    if ws == [] {
    } else {
      var init, w := ws[..|ws| - 1], ws[|ws| - 1];
      AlgorithmExists(init);
      assert forall v :: v in ws <==> v in init || v == w by {
        assert ws == init + [w];
      }
    }
  }

  lemma SettingsOf(info: RoomInfo, ws: seq<Write>)
    ensures SettingsAre(HandleStateEvents(info, ws), info, ws)
  {
    RecordByLastEvents(info, ws);
    EncryptionSynced(info, ws);
  }

  /** Two runs of events one after the other. */
  lemma SettingsChain(was: RoomInfo, mid: RoomInfo, out: RoomInfo, a: seq<Write>, b: seq<Write>)
    requires SettingsAre(mid, was, a) && SettingsAre(out, mid, b)
    ensures SettingsAre(out, was, a + b)
  {
    LastEventsConcat(a, b);
    AlgorithmExists(a);
    AlgorithmExists(b);
    assert forall w :: w in a + b <==> w in a || w in b;
    assert (exists w <- a + b :: EnablesEncryption(w.event)) <==>
      (exists w <- a :: EnablesEncryption(w.event)) || (exists w <- b :: EnablesEncryption(w.event));
    assert (exists w <- a + b :: w.event.content.Encryption?) <==>
      (exists w <- a :: w.event.content.Encryption?) || (exists w <- b :: w.event.content.Encryption?);
  }

  lemma SettingsAfterBlocks(was: RoomInfo, u: RoomUpdate)
    requires HasFullState(u)
    ensures SettingsAre(AfterTimeline(was, u), was, Reported(u))
  {
    var prepared := if u.JoinUpdate? then PrepareJoin(was, u) else was.SetState(Left).(syncInfo := PartiallySynced);
    SettingsOf(prepared, Writes(u.state));
    assert SettingsAre(AfterState(was, u), was, Writes(u.state));
    SettingsOf(AfterState(was, u), Writes(u.timeline));
    SettingsChain(was, AfterState(was, u), AfterTimeline(was, u), Writes(u.state), Writes(u.timeline));
  }

  lemma BlocksKeepRest(was: RoomInfo, u: RoomUpdate)
    requires HasFullState(u)
    ensures var prepared := if u.JoinUpdate? then PrepareJoin(was, u) else was.SetState(Left).(syncInfo := PartiallySynced);
            var out := AfterTimeline(was, u);
            out == prepared.(encryption := out.encryption, encryptionStateSynced := out.encryptionStateSynced,
                             historyVisibility := out.historyVisibility,
                             membersSynced := if u.JoinUpdate? && u.limited then false else was.membersSynced)
  {
    var prepared := if u.JoinUpdate? then PrepareJoin(was, u) else was.SetState(Left).(syncInfo := PartiallySynced);
    HandleStateEventsEncryption(prepared, Writes(u.state));
    HandleStateEventsEncryption(AfterState(was, u), Writes(u.timeline));
  }

  /** The record after a report as joined. */
  lemma JoinRecordFields(was: RoomInfo, u: RoomUpdate)
    requires u.JoinUpdate?
    ensures JoinRecord(UpdatedInfo(was, u), was, u)
  {
    var handled := AfterTimeline(was, u);
    SettingsAfterBlocks(was, u);
    BlocksKeepRest(was, u);
    RoomAccountMarker(handled, u.accountData);
    RoomAccountTags(handled, u.accountData);
  }

  /** The record after a report as left. */
  lemma LeaveRecordFields(was: RoomInfo, u: RoomUpdate)
    requires u.LeaveUpdate?
    ensures LeaveRecord(UpdatedInfo(was, u), was, u)
  {
    var handled := AfterTimeline(was, u);
    SettingsAfterBlocks(was, u);
    BlocksKeepRest(was, u);
    RoomAccountMarker(handled, u.accountData);
    RoomAccountTags(handled, u.accountData);
  }

  // ---- Stripped records ----

  /** The content of the last stripped visibility event. */
  function LastStrippedVisibility(ps: seq<StrippedRaw>): Option<Option<HistoryVisibility>>
    requires forall p <- ps :: p.parsed.Some?
  {
    if ps == [] then None
    else if ps[|ps| - 1].parsed.value.content.Visibility? then Some(ps[|ps| - 1].parsed.value.content.visibility)
    else LastStrippedVisibility(ps[..|ps| - 1])
  }

  function LastStrippedAlgorithm(ps: seq<StrippedRaw>): Option<string>
    requires forall p <- ps :: p.parsed.Some?
  {
    if ps == [] then None
    else if EnablesEncryption(ps[|ps| - 1].parsed.value) then ps[|ps| - 1].parsed.value.content.algorithm
    else LastStrippedAlgorithm(ps[..|ps| - 1])
  }

  lemma {:induction false} StrippedByLastEvents(info: RoomInfo, ps: seq<StrippedRaw>)
    requires forall p <- ps :: p.parsed.Some?
    ensures HandleStripped(info, ps).historyVisibility == LastStrippedVisibility(ps).UnwrapOr(info.historyVisibility)
    ensures HandleStripped(info, ps).encryption ==
            if LastStrippedAlgorithm(ps).Some? then LastStrippedAlgorithm(ps) else info.encryption
  {
    if ps == [] {
    } else {
      StrippedByLastEvents(info, ps[..|ps| - 1]);
    }
  }

  ghost predicate StrippedRecord(out: RoomInfo, was: RoomInfo, u: RoomUpdate)
    requires !HasFullState(u)
  {
    var ps := StrippedEvents(u.stripped);
    && StateIs(out, was, if u.InviteUpdate? then Invited else Knocked)
    && out.encryption == (if LastStrippedAlgorithm(ps).Some? then LastStrippedAlgorithm(ps) else was.encryption)
    && out.historyVisibility == LastStrippedVisibility(ps).UnwrapOr(was.historyVisibility)
    && out == was.(roomState := out.roomState, prevRoomState := out.prevRoomState, encryption := out.encryption,
                   historyVisibility := out.historyVisibility, syncInfo := FullySynced, dmTargets := out.dmTargets)
  }

  /** The record after a report as invited or knocked. */
  lemma StrippedRecordFields(was: RoomInfo, u: RoomUpdate)
    requires !HasFullState(u)
    ensures StrippedRecord(UpdatedInfo(was, u), was, u)
  {
    var prepared := was.SetState(SectionState(u)).(syncInfo := FullySynced);
    StrippedInfo(was, u);
    StrippedByLastEvents(prepared, StrippedEvents(u.stripped));
    HandleStrippedFrame(prepared, StrippedEvents(u.stripped));
  }

  /** The membership last reported for a user by stripped events. */
  function LastStrippedMembership(ps: seq<StrippedRaw>, x: UserId): Option<Membership>
    requires forall p <- ps :: p.parsed.Some?
  {
    if ps == [] then None
    else
      var e := ps[|ps| - 1].parsed.value;
      if IsMember(e) && e.stateKey == x then Some(e.content.membership)
      else LastStrippedMembership(ps[..|ps| - 1], x)
  }

  lemma {:induction false} StrippedMembers(ps: seq<StrippedRaw>, x: UserId)
    requires forall p <- ps :: p.parsed.Some?
    ensures Lookup(MembersOfStripped(StrippedOverlay(ps)), x) == LastStrippedMembership(ps, x)
  {
    if ps == [] {
    } else {
      StrippedMembers(ps[..|ps| - 1], x);
      var m := StrippedOverlay(ps);
      assert MemberSlot(x) in m ==> MemberSlot(x).key == x;
    }
  }

  lemma SavedStrippedMembers(p: Persisted, c: Changes, r: RoomId, x: UserId)
    requires r in c.stripped && r !in c.state
    ensures var reported := Lookup(MembersOfStripped(c.stripped[r]), x);
            Lookup(GetOr(SaveChanges(p, c).strippedMembers, r, map[]), x) ==
            if reported.Some? then reported else Lookup(GetOr(p.strippedMembers, r, map[]), x)
  {
  }

  /** After a report as invited or knocked, a user's stripped membership is the last
      one reported, else the one stored before. */
  lemma StrippedMembershipAfter(st: ClientState, resp: Response, directReadOk: bool, r: RoomId, x: UserId)
    requires r in resp.rooms && !HasFullState(resp.rooms[r])
    ensures var reported := LastStrippedMembership(StrippedEvents(resp.rooms[r].stripped), x);
            Lookup(GetOr(Processed(st, resp, directReadOk).persisted.strippedMembers, r, map[]), x) ==
            if reported.Some? then reported else Lookup(GetOr(st.persisted.strippedMembers, r, map[]), x)
  {
    var c := SyncChanges(st, resp, directReadOk);
    assert r !in c.state && r in c.stripped && c.stripped[r] == StrippedOverlay(StrippedEvents(resp.rooms[r].stripped));
    StrippedMembers(StrippedEvents(resp.rooms[r].stripped), x);
    SavedStrippedMembers(st.persisted, c, r, x);
  }

  // ---- Committed records ----

  ghost predicate RecordIs(out: RoomInfo, was: RoomInfo, u: RoomUpdate) {
    match u
    case JoinUpdate(_, _, _, _, _, _, _, _) => JoinRecord(out, was, u)
    case LeaveUpdate(_, _, _) => LeaveRecord(out, was, u)
    case InviteUpdate(_) => StrippedRecord(out, was, u)
    case KnockUpdate(_) => StrippedRecord(out, was, u)
  }

  lemma UpdatedRecord(was: RoomInfo, u: RoomUpdate)
    ensures RecordIs(UpdatedInfo(was, u), was, u)
  {
    match u
    case JoinUpdate(_, _, _, _, _, _, _, _) => JoinRecordFields(was, u);
    case LeaveUpdate(_, _, _) => LeaveRecordFields(was, u);
    case InviteUpdate(_) => StrippedRecordFields(was, u);
    case KnockUpdate(_) => StrippedRecordFields(was, u);
  }

  lemma RecordIgnoresTargets(a: RoomInfo, b: RoomInfo, was: RoomInfo, u: RoomUpdate)
    requires SameButTargets(a, b) && RecordIs(b, was, u)
    ensures RecordIs(a, was, u)
  {
  }

  /** After a processed response the record of each of its rooms, saved and in
      memory, has every field as its section and its events say. */
  lemma CommittedRecord(st: ClientState, resp: Response, directReadOk: bool, r: RoomId)
    requires r in resp.rooms
    ensures var after := Processed(st, resp, directReadOk);
            && r in after.rooms && r in after.persisted.infos && after.rooms[r] == after.persisted.infos[r]
            && RecordIs(after.rooms[r], OldInfo(st.rooms, resp, r), resp.rooms[r])
  {
    var was, u := OldInfo(st.rooms, resp, r), resp.rooms[r];
    SyncInfosFrame(st, resp, directReadOk);
    UpdatedRecord(was, u);
    RecordIgnoresTargets(SyncChanges(st, resp, directReadOk).infos[r], UpdatedInfo(was, u), was, u);
  }

  /** A membership call that changes the state leaves the room partially synced and
      its members missing, and keeps everything else, saved and in memory. */
  lemma MembershipCallRecord(st: ClientState, r: RoomId, target: RoomState)
    requires GetOr(st.rooms, r, NewRoomInfo(r, target)).roomState != target
    ensures var was, after := GetOr(st.rooms, r, NewRoomInfo(r, target)), Transition(st, r, target, true);
            && r in after.rooms && r in after.persisted.infos && after.rooms[r] == after.persisted.infos[r]
            && after.rooms[r] == was.(roomState := target, prevRoomState := Some(was.roomState),
                                      syncInfo := PartiallySynced, membersSynced := false)
  {
  }

  /** A member list leaves the members known, and keeps everything else. */
  lemma MemberListRecord(st: ClientState, r: RoomId, chunk: seq<Raw>)
    requires r in st.rooms
    ensures var after := ReceivedMembers(st, r, chunk, true);
            && r in after.rooms && r in after.persisted.infos && after.rooms[r] == after.persisted.infos[r]
            && after.rooms[r] == st.rooms[r].(membersSynced := true)
  {
  }

  // ---- Recipients of room keys after a report ----

  lemma ReportedMembership(st: ClientState, resp: Response, directReadOk: bool, r: RoomId, x: UserId)
    requires r in resp.rooms && HasFullState(resp.rooms[r])
    ensures var ws := Reported(resp.rooms[r]);
            MembershipIn(StoredState(Processed(st, resp, directReadOk).persisted, r), x) ==
            if LastMembership(ws, x).Some? then LastMembership(ws, x) else MembershipIn(StoredState(st.persisted, r), x)
  {
    var base, ws := StoredState(st.persisted, r), Reported(resp.rooms[r]);
    SavedState(st.persisted, SyncChanges(st, resp, directReadOk), r);
    OverlayOnto(base, ws);
    MembershipByLastEvent(base, ws, x);
  }

  /** After a report as joined or left of an encrypted room without stripped
      members, its key goes to exactly the users whose last membership, reported or
      else stored, is joined, and to the invited ones exactly if the last history
      visibility, reported or else recorded, is not `joined`. */
  lemma RecipientsAfterReport(st: ClientState, resp: Response, directReadOk: bool, r: RoomId, x: UserId)
    requires r in resp.rooms && HasFullState(resp.rooms[r]) && r !in st.persisted.strippedMembers
    requires KeyRecipients(Processed(st, resp, directReadOk), r).Some?
    ensures var ws, was := Reported(resp.rooms[r]), OldInfo(st.rooms, resp, r);
            var m := if LastMembership(ws, x).Some? then LastMembership(ws, x) else MembershipIn(StoredState(st.persisted, r), x);
            var visibility := LastVisibility(ws).UnwrapOr(was.historyVisibility);
            x in KeyRecipients(Processed(st, resp, directReadOk), r).value <==>
              m == Some(Join) || (m == Some(Invite) && visibility != Some(VisibleToJoined))
  {
    var after := Processed(st, resp, directReadOk);
    CommittedRecord(st, resp, directReadOk, r);
    ReportedMembership(st, resp, directReadOk, r, x);
    RecipientsByMembership(after, r, x);
    assert r !in after.persisted.strippedMembers;
  }
}
