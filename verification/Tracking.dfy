/** Device tracking: in an encrypted room that is only reported as joined, every
    stored active member is tracked in every state of every sequential run. */
module Tracking {
  import opened Types
  import opened StateFold
  import opened Sync
  import opened Runs

  /** Every stored joined or invited member of the room is tracked, if it is encrypted. */
  ghost predicate MembersTracked(st: ClientState, r: RoomId) {
    r in st.rooms && st.rooms[r].IsEncrypted() ==> FullUsers(st.persisted, r, false) <= st.tracked
  }

  /** Stripped members do not hide stored ones from the member query. */
  ghost predicate Unshadowed(p: Persisted, r: RoomId) {
    HasMember(StoredState(p, r)) ==> GetOr(p.strippedMembers, r, map[]) == map[]
  }

  ghost predicate Guarded(st: ClientState, r: RoomId) {
    MembersTracked(st, r) && Unshadowed(st.persisted, r)
  }

  /** A room without stored full members is guarded, whatever invites it had. */
  lemma NoMembersGuarded(st: ClientState, r: RoomId)
    requires !HasMember(StoredState(st.persisted, r))
    ensures Guarded(st, r)
  {
  }

  predicate OnlyJoins(op: Op, r: RoomId) {
    op.SyncOp? && r in op.resp.rooms ==> op.resp.rooms[r].JoinUpdate?
  }

  // ---- Member sets of merged state ----

  lemma FullUsersIsActiveIn(p: Persisted, r: RoomId)
    ensures FullUsers(p, r, false) == ActiveIn(StoredState(p, r))
  {
  }

  lemma ActiveInMerge(a: StateMap, b: StateMap)
    ensures ActiveIn(a + b) <= ActiveIn(a) + ActiveIn(b)
  {
  }

  lemma HasMemberMerge(a: StateMap, b: StateMap)
    ensures HasMember(a + b) ==> HasMember(a) || HasMember(b)
  {
  }

  lemma GatheredUsersCollected(u: RoomUpdate)
    requires HasFullState(u)
    ensures ActiveIn(GatheredState(u)) <= CollectedUsers(u)
  {
    CollectedUsersCoverActiveMembers(Writes(u.state), Writes(u.timeline));
  }

  lemma {:induction false} MemberWritesRead(chunk: seq<Raw>)
    ensures forall w <- MemberWrites(chunk) :: IsState(w.raw) && w.raw.parsed.value.event == w.event
  {
    if chunk == [] {
    } else {
      MemberWritesRead(chunk[..|chunk| - 1]);
    }
  }

  lemma ChunkUsersCollected(chunk: seq<Raw>)
    ensures ActiveIn(Overlay(map[], MemberWrites(chunk))) <= EverActive(MemberWrites(chunk))
  {
    MemberWritesRead(chunk);
    assert MemberWrites(chunk) + [] == MemberWrites(chunk);
    CollectedUsersCoverActiveMembers(MemberWrites(chunk), []);
  }

  // ---- What saving does to one room ----

  lemma SavedStripped(p: Persisted, c: Changes, r: RoomId)
    requires r !in c.stripped
    ensures GetOr(SaveChanges(p, c).strippedMembers, r, map[]) == KeptStripped(p, c, r)
  {
    assert MembersOfStripped(map[]) == map[];
    assert KeptStripped(p, c, r) + map[] == KeptStripped(p, c, r);
  }

  lemma SavedUnshadowed(p: Persisted, c: Changes, r: RoomId)
    requires Unshadowed(p, r) && r !in c.stripped
    ensures Unshadowed(SaveChanges(p, c), r)
  {
    SavedState(p, c, r);
    SavedStripped(p, c, r);
    HasMemberMerge(StoredState(p, r), GetOr(c.state, r, map[]));
  }

  // ---- Each operation keeps the room guarded ----

  /** The member query returns the stored active members of an unshadowed room. */
  lemma QueryFindsMembers(p: Persisted, r: RoomId)
    requires Unshadowed(p, r)
    ensures FullUsers(p, r, false) <= UserIds(p, r, false)
  {
  }

  lemma ProcessedEncryption(st: ClientState, resp: Response, directReadOk: bool, r: RoomId)
    requires r in resp.rooms
    ensures var rooms := Processed(st, resp, directReadOk).rooms;
            r in rooms && (rooms[r].IsEncrypted() <==> UpdatedInfo(OldInfo(st.rooms, resp, r), resp.rooms[r]).IsEncrypted())
  {
    SyncInfosFrame(st, resp, directReadOk);
  }

  lemma ProcessedTracks(st: ClientState, resp: Response, directReadOk: bool, r: RoomId)
    requires r in resp.rooms
    ensures st.tracked + ToTrack(st.persisted, OldInfo(st.rooms, resp, r), r, resp.rooms[r]) <= Processed(st, resp, directReadOk).tracked
  {
  }

  lemma JoinTracks(st: ClientState, resp: Response, directReadOk: bool, r: RoomId)
    requires Guarded(st, r) && r in resp.rooms && resp.rooms[r].JoinUpdate?
    ensures MembersTracked(Processed(st, resp, directReadOk), r)
  {
    var after := Processed(st, resp, directReadOk);
    var u := resp.rooms[r];
    ProcessedEncryption(st, resp, directReadOk, r);
    if after.rooms[r].IsEncrypted() {
      ProcessedTracks(st, resp, directReadOk, r);
      SavedState(st.persisted, SyncChanges(st, resp, directReadOk), r);
      FullUsersIsActiveIn(st.persisted, r);
      FullUsersIsActiveIn(after.persisted, r);
      ActiveInMerge(StoredState(st.persisted, r), GatheredState(u));
      GatheredUsersCollected(u);
      QueryFindsMembers(st.persisted, r);
    }
  }

  lemma SyncKeepsGuarded(st: ClientState, resp: Response, directReadOk: bool, r: RoomId)
    requires Guarded(st, r) && (r in resp.rooms ==> resp.rooms[r].JoinUpdate?)
    ensures Guarded(Processed(st, resp, directReadOk), r)
  {
    var c := SyncChanges(st, resp, directReadOk);
    SavedUnshadowed(st.persisted, c, r);
    if r in resp.rooms {
      JoinTracks(st, resp, directReadOk, r);
    } else {
      SavedState(st.persisted, c, r);
      SyncInfosFrame(st, resp, directReadOk);
    }
  }

  lemma MembersKeepGuarded(st: ClientState, room: RoomId, chunk: seq<Raw>, saveOk: bool, r: RoomId)
    requires Guarded(st, r)
    ensures Guarded(ReceivedMembers(st, room, chunk, saveOk), r)
  {
    if room in st.rooms && saveOk {
      var after, c := ReceivedMembers(st, room, chunk, saveOk), MemberChanges(st.rooms[room], room, chunk);
      SavedUnshadowed(st.persisted, c, r);
      SavedState(st.persisted, c, r);
      if room == r && st.rooms[r].IsEncrypted() {
        FullUsersIsActiveIn(st.persisted, r);
        FullUsersIsActiveIn(after.persisted, r);
        ActiveInMerge(StoredState(st.persisted, r), GetOr(c.state, r, map[]));
        ChunkUsersCollected(chunk);
      }
    }
  }

  lemma ApplyKeepsGuarded(st: ClientState, op: Op, r: RoomId)
    requires Guarded(st, r) && OnlyJoins(op, r)
    ensures Guarded(Apply(st, op), r)
  {
    match op
    case SyncOp(resp, directReadOk) => SyncKeepsGuarded(st, resp, directReadOk, r);
    case FailedSyncOp(_, _, _) =>
    case MembershipOp(room, target, _) =>
      var info := MarkedAs(GetOr(st.rooms, room, NewRoomInfo(room, target)), target);
      var c := Changes(None, map[room := info], map[], map[], map[]);
      SavedUnshadowed(st.persisted, c, r);
      SavedState(st.persisted, c, r);
    case MembersOp(room, chunk, saveOk) => MembersKeepGuarded(st, room, chunk, saveOk, r);
  }

  /** From a state in which the room has no stored full members, in every state
      of every run that only ever reports it as joined, the stored active members
      of the room are tracked if it is encrypted. */
  lemma {:induction false} RunKeepsMembersTracked(st: ClientState, ops: seq<Op>, r: RoomId)
    requires !HasMember(StoredState(st.persisted, r))
    requires forall op <- ops :: OnlyJoins(op, r)
    ensures Guarded(Run(st, ops), r)
  {
    if ops == [] {
      NoMembersGuarded(st, r);
    } else {
      var init := ops[..|ops| - 1];
      assert forall op <- init :: op in ops;
      RunKeepsMembersTracked(st, init, r);
      assert ops[|ops| - 1] in ops;
      ApplyKeepsGuarded(Run(st, init), ops[|ops| - 1], r);
    }
  }

  // ---- Sharing room keys ----

  /** In a guarded, encrypted room a room key is shared with tracked users only,
      if and only if a full member event is stored or the invite's stripped
      members happen to be tracked. */
  lemma KeysGoToTrackedUsers(st: ClientState, r: RoomId, joinOnly: bool)
    requires Guarded(st, r) && r in st.rooms && st.rooms[r].IsEncrypted()
    ensures UserIds(st.persisted, r, joinOnly) <= st.tracked
            <==> HasMember(StoredState(st.persisted, r)) || StrippedUsers(st.persisted, r, joinOnly) <= st.tracked
  {
  }

  /** A saved full member is never lost again. */
  lemma SavedMember(p: Persisted, c: Changes, r: RoomId)
    requires HasMember(StoredState(p, r)) && WellKeyed(GetOr(c.state, r, map[]))
    ensures HasMember(StoredState(SaveChanges(p, c), r))
  {
  }

  lemma ApplyKeepsMember(st: ClientState, op: Op, r: RoomId)
    requires HasMember(StoredState(st.persisted, r))
    ensures HasMember(StoredState(Apply(st, op).persisted, r))
  {
    match op
    case SyncOp(resp, directReadOk) =>
      if r in resp.rooms && HasFullState(resp.rooms[r]) {
        OverlayWellKeyed(map[], Writes(resp.rooms[r].state) + Writes(resp.rooms[r].timeline));
      }
      SavedMember(st.persisted, SyncChanges(st, resp, directReadOk), r);
    case FailedSyncOp(_, _, _) =>
    case MembershipOp(room, target, _) =>
      var info := MarkedAs(GetOr(st.rooms, room, NewRoomInfo(room, target)), target);
      SavedMember(st.persisted, Changes(None, map[room := info], map[], map[], map[]), r);
    case MembersOp(room, chunk, _) =>
      MemberWritesRead(chunk);
      OverlayWellKeyed(map[], MemberWrites(chunk));
      if room in st.rooms {
        SavedMember(st.persisted, MemberChanges(st.rooms[room], room, chunk), r);
      }
  }

  lemma {:induction false} RunKeepsMember(st: ClientState, ops: seq<Op>, n: nat, r: RoomId)
    requires n <= |ops| && HasMember(StoredState(Run(st, ops[..n]).persisted, r))
    ensures HasMember(StoredState(Run(st, ops).persisted, r))
  {
    if n == |ops| {
      assert ops[..n] == ops;
    } else {
      var init := ops[..|ops| - 1];
      assert init[..n] == ops[..n];
      RunKeepsMember(st, init, n, r);
      ApplyKeepsMember(Run(st, init), ops[|ops| - 1], r);
    }
  }

  // ---- Operations that store a member event ----

  /** The room is in memory after a run: it was, or a call of the run looked it up. */
  predicate KnownAfter(st: ClientState, ops: seq<Op>, r: RoomId) {
    if ops == [] then r in st.rooms
    else
      var init, last := ops[..|ops| - 1], ops[|ops| - 1];
      || KnownAfter(st, init, r)
      || (!IsRepeat(LastSaved(st.token, init), last) &&
          match last
          case SyncOp(resp, _) => r in resp.rooms
          case FailedSyncOp(resp, created, _) => r in resp.rooms && r in created
          case MembershipOp(room, _, _) => room == r
          case MembersOp(_, _, _) => false)
  }

  lemma {:induction false} RunKnows(st: ClientState, ops: seq<Op>, r: RoomId)
    ensures r in Run(st, ops).rooms <==> KnownAfter(st, ops, r)
  {
    if ops == [] {
    } else {
      var init := ops[..|ops| - 1];
      RunKnows(st, init, r);
      TokenNamesLastSaved(st, init);
    }
  }

  /** An operation that saves a member event of a room: a report as joined that
      contains one, or a member list for a known room. */
  predicate BringsMember(st: ClientState, init: seq<Op>, op: Op, r: RoomId) {
    match op
    case SyncOp(resp, _) =>
      && !IsRepeat(LastSaved(st.token, init), op) && r in resp.rooms && resp.rooms[r].JoinUpdate?
      && exists w <- Writes(resp.rooms[r].state) + Writes(resp.rooms[r].timeline) :: IsMember(w.event)
    case MembersOp(room, chunk, saveOk) => room == r && KnownAfter(st, init, r) && saveOk && MemberWrites(chunk) != []
    case _ => false
  }

  lemma OverlayHasMember(ws: seq<Write>, w: Write)
    requires w in ws && IsMember(w.event)
    requires forall v <- ws :: IsState(v.raw) && v.raw.parsed.value.event == v.event
    ensures HasMember(Overlay(map[], ws))
  {
    var s := SlotOf(w.event);
    OverlayIsLastWriterWins(map[], ws, s);
    var j: nat :| IsLastWrite(ws, j) && SlotOf(ws[j].event) == s && Lookup(Overlay(map[], ws), s) == Some(ws[j].raw);
    assert s in Overlay(map[], ws) && ws[j] in ws;
  }

  lemma MergedHasMember(a: StateMap, b: StateMap)
    requires HasMember(b)
    ensures HasMember(a + b)
  {
    var s :| s in b && s.kind.RoomMember? && IsState(b[s]) && IsMember(b[s].parsed.value.event);
    assert s in a + b;
  }

  lemma {:induction false} MemberWritesAreMembers(chunk: seq<Raw>)
    ensures forall w <- MemberWrites(chunk) :: IsMember(w.event)
  {
    if chunk == [] {
    } else {
      MemberWritesAreMembers(chunk[..|chunk| - 1]);
    }
  }

  lemma JoinBringsMember(st: ClientState, resp: Response, directReadOk: bool, r: RoomId)
    requires r in resp.rooms && resp.rooms[r].JoinUpdate?
    requires exists w <- Writes(resp.rooms[r].state) + Writes(resp.rooms[r].timeline) :: IsMember(w.event)
    ensures HasMember(StoredState(Processed(st, resp, directReadOk).persisted, r))
  {
    var ws := Writes(resp.rooms[r].state) + Writes(resp.rooms[r].timeline);
    var w :| w in ws && IsMember(w.event);
    OverlayHasMember(ws, w);
    SavedState(st.persisted, SyncChanges(st, resp, directReadOk), r);
    MergedHasMember(StoredState(st.persisted, r), GatheredState(resp.rooms[r]));
  }

  lemma ListBringsMember(st: ClientState, r: RoomId, chunk: seq<Raw>)
    requires r in st.rooms && MemberWrites(chunk) != []
    ensures HasMember(StoredState(ReceivedMembers(st, r, chunk, true).persisted, r))
  {
    var ws := MemberWrites(chunk);
    MemberWritesAreMembers(chunk);
    MemberWritesRead(chunk);
    assert ws[0] in ws;
    OverlayHasMember(ws, ws[0]);
    SavedState(st.persisted, MemberChanges(st.rooms[r], r, chunk), r);
    MergedHasMember(StoredState(st.persisted, r), Overlay(map[], ws));
  }

  lemma BroughtMemberStored(st: ClientState, init: seq<Op>, op: Op, r: RoomId)
    requires BringsMember(st, init, op, r)
    ensures HasMember(StoredState(Apply(Run(st, init), op).persisted, r))
  {
    TokenNamesLastSaved(st, init);
    match op
    case SyncOp(resp, directReadOk) => JoinBringsMember(Run(st, init), resp, directReadOk, r);
    case MembersOp(_, chunk, _) =>
      RunKnows(st, init, r);
      ListBringsMember(Run(st, init), r, chunk);
  }

  /** Once an operation of a run has brought a member event of a room, and as long
      as the room is only reported as joined, its key is never shared with an
      untracked user. */
  lemma KeysNeverReachUntracked(st: ClientState, ops: seq<Op>, n: nat, r: RoomId)
    requires !HasMember(StoredState(st.persisted, r))
    requires forall op <- ops :: OnlyJoins(op, r)
    requires n < |ops| && BringsMember(st, ops[..n], ops[n], r)
    ensures KeyRecipients(Run(st, ops), r).Some? ==> KeyRecipients(Run(st, ops), r).value <= Run(st, ops).tracked
  {
    var after := Run(st, ops);
    BroughtMemberStored(st, ops[..n], ops[n], r);
    assert ops[..n + 1][..n] == ops[..n];
    RunKeepsMember(st, ops, n + 1, r);
    RunKeepsMembersTracked(st, ops, r);
    if r in after.rooms && after.rooms[r].IsEncrypted() {
      KeysGoToTrackedUsers(after, r, after.rooms[r].historyVisibility == Some(VisibleToJoined));
    }
  }
}
