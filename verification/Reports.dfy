/** Reports of a room in the other sections: exactly when they keep its stored
    members tracked, and inputs for which they do not. */
module Reports {
  import opened Types
  import opened StateFold
  import opened Sync
  import opened Tracking

  lemma StrippedEncryption(was: RoomInfo, u: RoomUpdate)
    requires !HasFullState(u)
    ensures UpdatedInfo(was, u).IsEncrypted() <==>
            was.IsEncrypted() || exists p <- StrippedEvents(u.stripped) :: EnablesEncryption(p.parsed.value)
  {
    HandleStrippedFrame(was.SetState(SectionState(u)).(syncInfo := FullySynced), StrippedEvents(u.stripped));
  }

  lemma StrippedReportEncryption(st: ClientState, resp: Response, directReadOk: bool, r: RoomId)
    requires r in resp.rooms && !HasFullState(resp.rooms[r])
    ensures var rooms := Processed(st, resp, directReadOk).rooms;
            r in rooms && (rooms[r].IsEncrypted() <==>
              (r in st.rooms && st.rooms[r].IsEncrypted())
              || exists p <- StrippedEvents(resp.rooms[r].stripped) :: EnablesEncryption(p.parsed.value))
  {
    ProcessedEncryption(st, resp, directReadOk, r);
    StrippedEncryption(OldInfo(st.rooms, resp, r), resp.rooms[r]);
  }

  lemma UnreportedState(p: Persisted, c: Changes, r: RoomId)
    requires r !in c.state
    ensures StoredState(SaveChanges(p, c), r) == StoredState(p, r)
  {
    SavedState(p, c, r);
    assert StoredState(p, r) + map[] == StoredState(p, r);
  }

  lemma StrippedReportState(st: ClientState, resp: Response, directReadOk: bool, r: RoomId)
    requires r in resp.rooms && !HasFullState(resp.rooms[r])
    ensures StoredState(Processed(st, resp, directReadOk).persisted, r) == StoredState(st.persisted, r)
  {
    UnreportedState(st.persisted, SyncChanges(st, resp, directReadOk), r);
  }

  /** The users tracked before or on behalf of other rooms of the response. */
  ghost function TrackedElsewhere(st: ClientState, resp: Response, r: RoomId): set<UserId> {
    st.tracked + SectionTracked(st.persisted, st.rooms, resp, resp.rooms.Keys - {r})
  }

  /** A report in any section but `join` tracks nobody. */
  lemma OtherSectionsTrackNobody(st: ClientState, resp: Response, directReadOk: bool, r: RoomId)
    requires r in resp.rooms && !resp.rooms[r].JoinUpdate?
    ensures Processed(st, resp, directReadOk).tracked == TrackedElsewhere(st, resp, r)
  {
  }

  /** A report as invited or knocked keeps the stored members tracked if and only
      if the room was encrypted, the report does not turn encryption on, or other
      rooms have them tracked: the next join then takes them to be tracked. */
  lemma StrippedReportKeepsTracking(st: ClientState, resp: Response, directReadOk: bool, r: RoomId)
    requires MembersTracked(st, r) && r in resp.rooms && !HasFullState(resp.rooms[r])
    ensures MembersTracked(Processed(st, resp, directReadOk), r) <==>
            || (r in st.rooms && st.rooms[r].IsEncrypted())
            || !(exists p <- StrippedEvents(resp.rooms[r].stripped) :: EnablesEncryption(p.parsed.value))
            || FullUsers(st.persisted, r, false) <= TrackedElsewhere(st, resp, r)
  {
    StrippedReportEncryption(st, resp, directReadOk, r);
    StrippedReportState(st, resp, directReadOk, r);
    OtherSectionsTrackNobody(st, resp, directReadOk, r);
  }

  lemma LeaveEncryption(was: RoomInfo, u: RoomUpdate)
    requires u.LeaveUpdate?
    ensures UpdatedInfo(was, u).IsEncrypted() <==>
            was.IsEncrypted() || exists w <- Reported(u) :: EnablesEncryption(w.event)
  {
    HandleStateEventsEncryption(was.SetState(Left).(syncInfo := PartiallySynced), Writes(u.state));
    HandleStateEventsEncryption(AfterState(was, u), Writes(u.timeline));
    RoomAccountMarker(AfterTimeline(was, u), u.accountData);
    assert forall w :: w in Reported(u) <==> w in Writes(u.state) || w in Writes(u.timeline);
  }

  lemma LeaveReportMembers(st: ClientState, resp: Response, directReadOk: bool, r: RoomId, x: UserId)
    requires r in resp.rooms && resp.rooms[r].LeaveUpdate?
    ensures x in FullUsers(Processed(st, resp, directReadOk).persisted, r, false) <==>
            (match LastMembership(Reported(resp.rooms[r]), x)
             case Some(m) => IsActive(m)
             case None => x in FullUsers(st.persisted, r, false))
  {
    var base, ws := StoredState(st.persisted, r), Reported(resp.rooms[r]);
    SavedState(st.persisted, SyncChanges(st, resp, directReadOk), r);
    FullUsersIsActiveIn(st.persisted, r);
    FullUsersIsActiveIn(Processed(st, resp, directReadOk).persisted, r);
    OverlayOnto(base, ws);
    ActiveInByLastMembership(base, ws, x);
  }

  /** The users a report as left makes or leaves active without their being known
      as tracked: those it reports as active and, in a room that was not encrypted,
      the stored active members it does not mention. */
  ghost predicate NeedsTracking(st: ClientState, resp: Response, r: RoomId, x: UserId)
    requires r in resp.rooms && resp.rooms[r].LeaveUpdate?
  {
    match LastMembership(Reported(resp.rooms[r]), x)
    case Some(m) => IsActive(m)
    case None => !(r in st.rooms && st.rooms[r].IsEncrypted()) && x in FullUsers(st.persisted, r, false)
  }

  /** A report as left keeps the stored members tracked if and only if the room was
      not encrypted and no event of the report enables encryption, or other rooms
      have all the users tracked that need to be. */
  lemma LeaveReportKeepsTracking(st: ClientState, resp: Response, directReadOk: bool, r: RoomId)
    requires MembersTracked(st, r) && r in resp.rooms && resp.rooms[r].LeaveUpdate?
    ensures MembersTracked(Processed(st, resp, directReadOk), r) <==>
            || (!(r in st.rooms && st.rooms[r].IsEncrypted())
                && !exists w <- Reported(resp.rooms[r]) :: EnablesEncryption(w.event))
            || (forall x :: NeedsTracking(st, resp, r, x) ==> x in TrackedElsewhere(st, resp, r))
  {
    var after := Processed(st, resp, directReadOk);
    ProcessedEncryption(st, resp, directReadOk, r);
    LeaveEncryption(OldInfo(st.rooms, resp, r), resp.rooms[r]);
    OtherSectionsTrackNobody(st, resp, directReadOk, r);
    forall x
      ensures (x in FullUsers(after.persisted, r, false) ==> x in after.tracked) <==>
              (NeedsTracking(st, resp, r, x) ==> x in TrackedElsewhere(st, resp, r))
    {
      LeaveReportMembers(st, resp, directReadOk, r, x);
    }
  }

  lemma NewStripped(p: Persisted, c: Changes, r: RoomId)
    requires r !in p.strippedMembers && r in c.stripped
    ensures GetOr(SaveChanges(p, c).strippedMembers, r, map[]) == MembersOfStripped(c.stripped[r])
  {
    assert KeptStripped(p, c, r) == map[];
    assert map[] + MembersOfStripped(c.stripped[r]) == MembersOfStripped(c.stripped[r]);
  }

  lemma StrippedReportMembers(st: ClientState, resp: Response, directReadOk: bool, r: RoomId)
    requires r !in st.persisted.strippedMembers && r in resp.rooms && !HasFullState(resp.rooms[r])
    ensures GetOr(Processed(st, resp, directReadOk).persisted.strippedMembers, r, map[]) ==
            MembersOfStripped(StrippedOverlay(StrippedEvents(resp.rooms[r].stripped)))
  {
    NewStripped(st.persisted, SyncChanges(st, resp, directReadOk), r);
  }

  lemma StrippedReportTracksNobody(st: ClientState, resp: Response, directReadOk: bool)
    requires forall r <- resp.rooms :: !HasFullState(resp.rooms[r])
    ensures Processed(st, resp, directReadOk).tracked == st.tracked
  {
  }

  lemma JoinCallKeepsStripped(st: ClientState, r: RoomId)
    requires r in st.rooms && st.rooms[r].IsEncrypted()
    ensures var after := Transition(st, r, Joined, true);
            && r in after.rooms && after.rooms[r].IsEncrypted() && after.rooms[r].roomState == Joined
            && after.tracked == st.tracked
            && GetOr(after.persisted.strippedMembers, r, map[]) == GetOr(st.persisted.strippedMembers, r, map[])
  {
  }

  lemma InStrippedUsers(p: Persisted, r: RoomId, u: UserId)
    requires GetOr(GetOr(p.strippedMembers, r, map[]), u, Leave) == Join
    ensures u in UserIds(p, r, true)
  {
    assert u in StrippedUsers(p, r, true);
  }

  /** An untracked stripped member of an encrypted room. */
  ghost predicate HasUntrackedStripped(st: ClientState, r: RoomId, u: UserId) {
    && r in st.rooms && st.rooms[r].IsEncrypted() && u !in st.tracked
    && GetOr(GetOr(st.persisted.strippedMembers, r, map[]), u, Leave) == Join
  }

  lemma InviteLeavesUntracked(st: ClientState, resp: Response, r: RoomId, u: UserId)
    requires r !in st.persisted.strippedMembers && u !in st.tracked
    requires r in resp.rooms && resp.rooms[r].InviteUpdate? && forall q <- resp.rooms :: !HasFullState(resp.rooms[q])
    requires exists p <- StrippedEvents(resp.rooms[r].stripped) :: EnablesEncryption(p.parsed.value)
    requires GetOr(MembersOfStripped(StrippedOverlay(StrippedEvents(resp.rooms[r].stripped))), u, Leave) == Join
    ensures HasUntrackedStripped(Processed(st, resp, true), r, u)
  {
    StrippedReportEncryption(st, resp, true, r);
    StrippedReportTracksNobody(st, resp, true);
    StrippedReportMembers(st, resp, true, r);
  }

  /** Encrypted and joined, yet the room key goes to an untracked user. */
  ghost predicate SharesUntracked(st: ClientState, r: RoomId, u: UserId) {
    && r in st.rooms && st.rooms[r].IsEncrypted() && st.rooms[r].roomState == Joined
    && u in UserIds(st.persisted, r, true) && u !in st.tracked
  }

  lemma JoinCallSharesUntracked(st: ClientState, r: RoomId, u: UserId)
    requires HasUntrackedStripped(st, r, u)
    ensures SharesUntracked(Transition(st, r, Joined, true), r, u)
  {
    JoinCallKeepsStripped(st, r);
    InStrippedUsers(Transition(st, r, Joined, true).persisted, r, u);
  }

  /** Before the first report as joined a key can reach an untracked user: after
      an invite to an encrypted room and a `room_joined` call. */
  lemma InviteThenJoinSharesUntracked(st: ClientState, resp: Response, r: RoomId, u: UserId)
    requires r !in st.persisted.strippedMembers && u !in st.tracked
    requires r in resp.rooms && resp.rooms[r].InviteUpdate? && forall q <- resp.rooms :: !HasFullState(resp.rooms[q])
    requires exists p <- StrippedEvents(resp.rooms[r].stripped) :: EnablesEncryption(p.parsed.value)
    requires GetOr(MembersOfStripped(StrippedOverlay(StrippedEvents(resp.rooms[r].stripped))), u, Leave) == Join
    ensures SharesUntracked(Transition(Processed(st, resp, true), r, Joined, true), r, u)
  {
    InviteLeavesUntracked(st, resp, r, u);
    JoinCallSharesUntracked(Processed(st, resp, true), r, u);
  }

  /** An invite to an encrypted room with one joined member. */
  function SampleInvite(u: UserId): seq<StrippedRaw> {
    [StrippedRaw("", Some(StateEvent("", Encryption(Some("m.megolm.v1.aes-sha2")))), None),
     StrippedRaw("", Some(StateEvent(u, Member(Join, None))), None)]
  }

  lemma SampleInviteFacts(u: UserId)
    ensures StrippedEvents(SampleInvite(u)) == SampleInvite(u)
    ensures exists p <- SampleInvite(u) :: p.parsed.Some? && EnablesEncryption(p.parsed.value)
    ensures GetOr(MembersOfStripped(StrippedOverlay(StrippedEvents(SampleInvite(u)))), u, Leave) == Join
  {
    var invite := SampleInvite(u);
    assert invite[..1] == [invite[0]] && [invite[0]][..0] == [];
    assert StrippedEvents([]) == [] && StrippedEvents([invite[0]]) == [invite[0]];
    assert invite[0] in invite;
    assert StrippedOverlay(invite)[MemberSlot(u)] == invite[1];
    assert MemberSlot(u).key == u;
  }

  /** Such an invite, to a client that knows nothing yet. */
  lemma SampleInviteSharesUntracked(r: RoomId, u: UserId)
    ensures var st := ClientState(Persisted(map[], map[], map[], map[], None), map[], None, {});
            var resp := Response("s1", map[r := InviteUpdate(SampleInvite(u))], []);
            SharesUntracked(Transition(Processed(st, resp, true), r, Joined, true), r, u)
  {
    SampleInviteFacts(u);
    var st := ClientState(Persisted(map[], map[], map[], map[], None), map[], None, {});
    InviteThenJoinSharesUntracked(st, Response("s1", map[r := InviteUpdate(SampleInvite(u))], []), r, u);
  }

  /** A client in which a room is known and nobody is tracked. */
  function SampleClient(r: RoomId, info: RoomInfo, state: StateMap): ClientState {
    ClientState(Persisted(map[r := info], map[r := state], map[], map[], None), map[r := info], None, {})
  }

  function SampleReport(r: RoomId, u: RoomUpdate): Response {
    Response("s1", map[r := u], [])
  }

  lemma NothingElsewhere(st: ClientState, r: RoomId, u: RoomUpdate)
    requires st.tracked == {}
    ensures TrackedElsewhere(st, SampleReport(r, u), r) == {}
  {
  }

  lemma LeaveLosesTracking(st: ClientState, resp: Response, r: RoomId, x: UserId)
    requires MembersTracked(st, r) && r in st.rooms && st.rooms[r].IsEncrypted()
    requires r in resp.rooms && resp.rooms[r].LeaveUpdate?
    requires NeedsTracking(st, resp, r, x) && x !in TrackedElsewhere(st, resp, r)
    ensures !MembersTracked(Processed(st, resp, true), r)
  {
    LeaveReportKeepsTracking(st, resp, true, r);
  }

  function EncryptedInfo(r: RoomId): RoomInfo {
    NewRoomInfo(r, Joined).(encryption := Some("m.megolm.v1.aes-sha2"))
  }

  function SampleLeave(x: UserId): RoomUpdate {
    LeaveUpdate([], [MemberWrite(x, Join).raw], [])
  }

  /** A report as left that brings an active member to an encrypted room leaves
      that member untracked. */
  lemma SampleLeaveLosesTracking(r: RoomId, x: UserId)
    ensures var st := SampleClient(r, EncryptedInfo(r), map[]);
            MembersTracked(st, r) && !MembersTracked(Processed(st, SampleReport(r, SampleLeave(x)), true), r)
  {
    var st, u := SampleClient(r, EncryptedInfo(r), map[]), SampleLeave(x);
    assert u.timeline[..0] == [];
    assert Reported(u) == [MemberWrite(x, Join)];
    NothingElsewhere(st, r, u);
    LeaveLosesTracking(st, SampleReport(r, u), r, x);
  }

  lemma InviteLosesTracking(st: ClientState, resp: Response, r: RoomId, x: UserId)
    requires MembersTracked(st, r) && r in st.rooms && !st.rooms[r].IsEncrypted()
    requires r in resp.rooms && !HasFullState(resp.rooms[r])
    requires exists p <- StrippedEvents(resp.rooms[r].stripped) :: EnablesEncryption(p.parsed.value)
    requires x in FullUsers(st.persisted, r, false) && x !in TrackedElsewhere(st, resp, r)
    ensures !MembersTracked(Processed(st, resp, true), r)
  {
    StrippedReportKeepsTracking(st, resp, true, r);
  }

  /** A client in which a room that is not encrypted has a stored member. */
  function SampleMemberClient(r: RoomId, x: UserId): ClientState {
    SampleClient(r, NewRoomInfo(r, Left), map[MemberSlot(x) := MemberWrite(x, Join).raw])
  }

  lemma SampleMemberStored(r: RoomId, x: UserId)
    ensures x in FullUsers(SampleMemberClient(r, x).persisted, r, false)
  {
    var st := SampleMemberClient(r, x);
    FullUsersIsActiveIn(st.persisted, r);
    InActiveIn(StoredState(st.persisted, r), x);
  }

  /** An invite that turns encryption on over a stored, untracked member leaves
      that member untracked. */
  lemma SampleInviteLosesTracking(r: RoomId, x: UserId)
    ensures var st, resp := SampleMemberClient(r, x), SampleReport(r, InviteUpdate(SampleInvite(x)));
            MembersTracked(st, r) && !MembersTracked(Processed(st, resp, true), r)
  {
    var st := SampleMemberClient(r, x);
    SampleInviteFacts(x);
    SampleMemberStored(r, x);
    NothingElsewhere(st, r, InviteUpdate(SampleInvite(x)));
    InviteLosesTracking(st, SampleReport(r, InviteUpdate(SampleInvite(x))), r, x);
  }
}
