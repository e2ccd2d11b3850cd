/** Sequential runs of client operations: what holds in every state they reach. */
module Runs {
  import opened Types
  import opened Direct
  import opened Sync

  /** A call and how it ended: a sync that returned successfully, a sync that
      failed after creating rooms and tracking users, a membership call, or a
      member list for an unfiltered request. */
  datatype Op =
    | SyncOp(resp: Response, directReadOk: bool)
    | FailedSyncOp(resp: Response, created: set<RoomId>, users: set<UserId>)
    | MembershipOp(room: RoomId, target: RoomState, saveOk: bool)
    | MembersOp(room: RoomId, chunk: seq<Raw>, saveOk: bool)

  function Apply(st: ClientState, op: Op): ClientState {
    match op
    case SyncOp(resp, directReadOk) =>
      if st.token == Some(resp.nextBatch) then st else Processed(st, resp, directReadOk)
    case FailedSyncOp(resp, created, users) =>
      if st.token == Some(resp.nextBatch) then st else Abandoned(st, resp, created, users)
    case MembershipOp(r, target, saveOk) => Transition(st, r, target, saveOk)
    case MembersOp(r, chunk, saveOk) => ReceivedMembers(st, r, chunk, saveOk)
  }

  function Run(st: ClientState, ops: seq<Op>): ClientState {
    if ops == [] then st else Apply(Run(st, ops[..|ops| - 1]), ops[|ops| - 1])
  }

  // ---- The sync token ----

  /** The `next_batch` of the last sync that returned successfully. */
  function LastSaved(token: Option<Token>, ops: seq<Op>): Option<Token> {
    if ops == [] then token
    else if ops[|ops| - 1].SyncOp? then Some(ops[|ops| - 1].resp.nextBatch)
    else LastSaved(token, ops[..|ops| - 1])
  }

  /** In memory and in the store, the token names the last successful response. */
  lemma {:induction false} TokenNamesLastSaved(st: ClientState, ops: seq<Op>)
    ensures Run(st, ops).token == LastSaved(st.token, ops)
    ensures st.token == st.persisted.token ==> Run(st, ops).persisted.token == LastSaved(st.token, ops)
  {
    if ops == [] {
    } else {
      TokenNamesLastSaved(st, ops[..|ops| - 1]);
    }
  }

  predicate IsRepeat(token: Option<Token>, op: Op) {
    (op.SyncOp? || op.FailedSyncOp?) && token == Some(op.resp.nextBatch)
  }

  function WithoutRepeats(token: Option<Token>, ops: seq<Op>): seq<Op> {
    if ops == [] then []
    else
      var init := ops[..|ops| - 1];
      WithoutRepeats(token, init) + if IsRepeat(LastSaved(token, init), ops[|ops| - 1]) then [] else [ops[|ops| - 1]]
  }

  /** Responses repeating the token of the last successful one can be dropped from a run. */
  lemma {:induction false} RepeatsDoNotMatter(st: ClientState, ops: seq<Op>)
    ensures Run(st, WithoutRepeats(st.token, ops)) == Run(st, ops)
  {
    if ops == [] {
    } else {
      var init, last := ops[..|ops| - 1], ops[|ops| - 1];
      RepeatsDoNotMatter(st, init);
      TokenNamesLastSaved(st, init);
      if !IsRepeat(LastSaved(st.token, init), last) {
        var kept := WithoutRepeats(st.token, ops);
        assert kept[..|kept| - 1] == WithoutRepeats(st.token, init);
      } else {
        assert WithoutRepeats(st.token, ops) == WithoutRepeats(st.token, init);
      }
    }
  }

  // ---- Store and memory ----

  /** Every room with a saved record has the same record in memory. */
  ghost predicate Coherent(st: ClientState) {
    forall r <- st.persisted.infos :: r in st.rooms && st.rooms[r] == st.persisted.infos[r]
  }

  lemma ProcessedCoherent(st: ClientState, resp: Response, directReadOk: bool)
    requires Coherent(st)
    ensures Coherent(Processed(st, resp, directReadOk))
  {
    SyncInfosFrame(st, resp, directReadOk);
  }

  lemma TransitionCoherent(st: ClientState, r: RoomId, target: RoomState, saveOk: bool)
    requires Coherent(st)
    ensures Coherent(Transition(st, r, target, saveOk))
  {
  }

  lemma MembersCoherent(st: ClientState, r: RoomId, chunk: seq<Raw>, saveOk: bool)
    requires Coherent(st)
    ensures Coherent(ReceivedMembers(st, r, chunk, saveOk))
  {
  }

  lemma ApplyCoherent(st: ClientState, op: Op)
    requires Coherent(st)
    ensures Coherent(Apply(st, op))
  {
    match op
    case SyncOp(resp, directReadOk) => ProcessedCoherent(st, resp, directReadOk);
    case FailedSyncOp(_, _, _) =>
    case MembershipOp(r, target, saveOk) => TransitionCoherent(st, r, target, saveOk);
    case MembersOp(r, chunk, saveOk) => MembersCoherent(st, r, chunk, saveOk);
  }

  lemma {:induction false} RunCoherent(st: ClientState, ops: seq<Op>)
    requires Coherent(st)
    ensures Coherent(Run(st, ops))
  {
    if ops == [] {
    } else {
      RunCoherent(st, ops[..|ops| - 1]);
      ApplyCoherent(Run(st, ops[..|ops| - 1]), ops[|ops| - 1]);
    }
  }

  // ---- Membership ----

  /** The call returns an error: a membership call or a member list only where it
      gets as far as saving, and a sync not where it repeats the token. */
  predicate Fails(st: ClientState, op: Op) {
    match op
    case SyncOp(_, _) => false
    case FailedSyncOp(resp, _, _) => st.token != Some(resp.nextBatch)
    case MembershipOp(r, target, saveOk) => !saveOk && GetOr(st.rooms, r, NewRoomInfo(r, target)).roomState != target
    case MembersOp(r, _, saveOk) => !saveOk && r in st.rooms
  }

  ghost predicate NoneFails(st: ClientState, ops: seq<Op>) {
    forall n :: 0 <= n < |ops| ==> !Fails(Run(st, ops[..n]), ops[n])
  }

  function Mention(token: Option<Token>, op: Op, r: RoomId): Option<RoomState> {
    match op
    case SyncOp(resp, _) =>
      if token != Some(resp.nextBatch) && r in resp.rooms then Some(SectionState(resp.rooms[r])) else None
    case MembershipOp(room, target, _) => if room == r then Some(target) else None
    case _ => None
  }

  /** The state implied by the last response section or call that mentions a room. */
  function LastMention(token: Option<Token>, ops: seq<Op>, r: RoomId): Option<RoomState> {
    if ops == [] then None
    else
      var init := ops[..|ops| - 1];
      var m := Mention(LastSaved(token, init), ops[|ops| - 1], r);
      if m.Some? then m else LastMention(token, init, r)
  }

  lemma ProcessedMembership(st: ClientState, resp: Response, directReadOk: bool, r: RoomId)
    ensures var after := Processed(st, resp, directReadOk);
            && (r in after.rooms <==> r in st.rooms || r in resp.rooms)
            && (r in resp.rooms ==> after.rooms[r].roomState == SectionState(resp.rooms[r]))
            && (r in st.rooms && r !in resp.rooms ==> SameButTargets(after.rooms[r], st.rooms[r]))
  {
    SyncInfosFrame(st, resp, directReadOk);
    if r in resp.rooms {
      UpdatedInfoFrame(OldInfo(st.rooms, resp, r), resp.rooms[r]);
    }
  }

  lemma TransitionMembership(st: ClientState, room: RoomId, target: RoomState, saveOk: bool, r: RoomId)
    requires saveOk || GetOr(st.rooms, room, NewRoomInfo(room, target)).roomState == target
    ensures var after := Transition(st, room, target, saveOk);
            && (r in after.rooms <==> r in st.rooms || r == room)
            && (r == room ==> after.rooms[r].roomState == target)
            && (r in st.rooms && r != room ==> after.rooms[r] == st.rooms[r])
  {
  }

  lemma MembersMembership(st: ClientState, room: RoomId, chunk: seq<Raw>, saveOk: bool, r: RoomId)
    ensures var after := ReceivedMembers(st, room, chunk, saveOk);
            && (r in after.rooms <==> r in st.rooms)
            && (r in st.rooms ==> after.rooms[r].roomState == st.rooms[r].roomState)
  {
  }

  lemma ApplyMembership(st: ClientState, op: Op, r: RoomId)
    requires !Fails(st, op)
    ensures match Mention(st.token, op, r)
            case Some(s) => r in Apply(st, op).rooms && Apply(st, op).rooms[r].roomState == s
            case None =>
              && (r in Apply(st, op).rooms <==> r in st.rooms)
              && (r in st.rooms ==> Apply(st, op).rooms[r].roomState == st.rooms[r].roomState)
  {
    match op
    case SyncOp(resp, directReadOk) => ProcessedMembership(st, resp, directReadOk, r);
    case FailedSyncOp(_, _, _) =>
    case MembershipOp(room, target, saveOk) => TransitionMembership(st, room, target, saveOk, r);
    case MembersOp(room, chunk, saveOk) => MembersMembership(st, room, chunk, saveOk, r);
  }

  /** A room's membership is the one last mentioned; an unmentioned room keeps
      its own, whatever direct rooms are rewritten. */
  lemma {:induction false} MembershipIsLastMention(st: ClientState, ops: seq<Op>, r: RoomId)
    requires NoneFails(st, ops)
    ensures match LastMention(st.token, ops, r)
            case Some(s) => r in Run(st, ops).rooms && Run(st, ops).rooms[r].roomState == s
            case None =>
              && (r in Run(st, ops).rooms <==> r in st.rooms)
              && (r in st.rooms ==> Run(st, ops).rooms[r].roomState == st.rooms[r].roomState)
  {
    if ops == [] {
    } else {
      var init := ops[..|ops| - 1];
      assert forall n :: 0 <= n < |init| ==> init[..n] == ops[..n];
      MembershipIsLastMention(st, init, r);
      TokenNamesLastSaved(st, init);
      ApplyMembership(Run(st, init), ops[|ops| - 1], r);
    }
  }

  /** The saved record of a joined room holds both the last unread marker and the
      new notification counts, also after its direct targets were patched. */
  lemma CommittedJoinRecord(st: ClientState, resp: Response, directReadOk: bool, r: RoomId)
    requires r in resp.rooms && resp.rooms[r].JoinUpdate?
    ensures var infos := Processed(st, resp, directReadOk).persisted.infos;
            && r in infos
            && infos[r].isMarkedUnread ==
               LastMarker(resp.rooms[r].accountData).UnwrapOr(OldInfo(st.rooms, resp, r).isMarkedUnread)
            && infos[r].notificationCounts == resp.rooms[r].unread
  {
    SyncInfosFrame(st, resp, directReadOk);
    JoinKeepsMarkerAndCounts(OldInfo(st.rooms, resp, r), resp.rooms[r]);
  }

  // ---- Failed calls ----

  /** A failed call finds every room it looks up in memory. */
  predicate CreatesNothing(st: ClientState, op: Op)
    requires Fails(st, op)
  {
    match op
    case FailedSyncOp(resp, created, _) => created * resp.rooms.Keys <= st.rooms.Keys
    case MembershipOp(r, _, _) => r in st.rooms
    case MembersOp(_, _, _) => true
  }

  /** A failed call leaves token and store unchanged, and leaves the client as it
      was but for tracked users if and only if it creates no room. */
  lemma FailureLeavesStore(st: ClientState, op: Op)
    requires Fails(st, op)
    ensures Apply(st, op).token == st.token && Apply(st, op).persisted == st.persisted
    ensures Apply(st, op).rooms == st.rooms <==> CreatesNothing(st, op)
  {
    match op
    case FailedSyncOp(resp, created, _) =>
      if !CreatesNothing(st, op) {
        var r :| r in created * resp.rooms.Keys && r !in st.rooms;
        assert r in Apply(st, op).rooms;
      }
    case MembershipOp(r, _, _) => assert r in Apply(st, op).rooms;
    case MembersOp(_, _, _) =>
  }

  function Successful(st: ClientState, ops: seq<Op>): seq<Op> {
    if ops == [] then []
    else
      var init, last := ops[..|ops| - 1], ops[|ops| - 1];
      Successful(st, init) + if Fails(Run(st, init), last) then [] else [last]
  }

  /** Everything but the tracked users agrees. */
  ghost predicate SameButTracked(a: ClientState, b: ClientState) {
    a == b.(tracked := a.tracked)
  }

  lemma ApplyIgnoresTracked(st: ClientState, tracked: set<UserId>, op: Op)
    ensures SameButTracked(Apply(st.(tracked := tracked), op), Apply(st, op))
  {
    match op
    case SyncOp(resp, directReadOk) =>
      assert SyncChanges(st.(tracked := tracked), resp, directReadOk) == SyncChanges(st, resp, directReadOk);
    case FailedSyncOp(_, _, _) =>
    case MembershipOp(_, _, _) =>
    case MembersOp(_, _, _) =>
  }

  ghost predicate FailuresCreateNothing(st: ClientState, ops: seq<Op>) {
    forall n :: 0 <= n < |ops| && Fails(Run(st, ops[..n]), ops[n]) ==> CreatesNothing(Run(st, ops[..n]), ops[n])
  }

  /** Failed calls that create no room can be dropped from a run: token, store and
      memory come out the same. */
  lemma {:induction false} FailedCallsDoNotMatter(st: ClientState, ops: seq<Op>)
    requires FailuresCreateNothing(st, ops)
    ensures SameButTracked(Run(st, ops), Run(st, Successful(st, ops)))
  {
    if ops == [] {
    } else {
      var init, last := ops[..|ops| - 1], ops[|ops| - 1];
      assert forall n :: 0 <= n < |init| ==> init[..n] == ops[..n];
      FailedCallsDoNotMatter(st, init);
      if Fails(Run(st, init), last) {
        FailureLeavesStore(Run(st, init), last);
        assert Successful(st, ops) == Successful(st, init);
      } else {
        var kept := Successful(st, ops);
        assert kept[..|kept| - 1] == Successful(st, init);
        ApplyIgnoresTracked(Run(st, kept[..|kept| - 1]), Run(st, init).tracked, last);
      }
    }
  }

  /** One that does create a room can matter: `room_joined` saves the record of a
      room that a failed sync made known as invited, and saves nothing for a room
      it makes known itself. */
  lemma FailedSyncCanMatter(r: RoomId)
    ensures var st := ClientState(Persisted(map[], map[], map[], map[], None), map[], None, {});
            var failed := FailedSyncOp(Response("s1", map[r := InviteUpdate([])], []), {r}, {});
            var join := MembershipOp(r, Joined, true);
            r in Apply(Apply(st, failed), join).persisted.infos && r !in Apply(st, join).persisted.infos
  {
    var st := ClientState(Persisted(map[], map[], map[], map[], None), map[], None, {});
    var resp := Response("s1", map[r := InviteUpdate([])], []);
    assert r in {r} * resp.rooms.Keys;
    var known := Apply(st, FailedSyncOp(resp, {r}, {}));
    assert known.rooms == map[r := NewRoomInfo(r, Invited)];
  }

  // ---- Direct rooms ----

  /** The users that list a room in the stored `m.direct` event. */
  function StoredTargets(p: Persisted, r: RoomId): set<UserId> {
    match StoredDirect(p.accountData)
    case Some(c) => Targets(c, r)
    case None => {}
  }

  ghost predicate Settled(st: ClientState) {
    forall r <- st.rooms :: st.rooms[r].dmTargets == StoredTargets(st.persisted, r)
  }

  /** As long as no `m.direct` event was ever stored, no room has targets. */
  ghost predicate NoTargetsWithoutDirect(st: ClientState) {
    StoredDirect(st.persisted.accountData).None? ==> forall r <- st.rooms :: st.rooms[r].dmTargets == {}
  }

  lemma StoredDirectAfter(st: ClientState, resp: Response, directReadOk: bool)
    ensures var contents := DirectContents(ParsedEvents(resp.accountData));
            StoredDirect(Processed(st, resp, directReadOk).persisted.accountData) ==
            if contents == [] then StoredDirect(st.persisted.accountData) else Some(contents[|contents| - 1])
  {
    RawByTypeKeepsLastDirect(resp.accountData);
  }

  lemma SectionKeepsTargets(rooms: RoomInfos, resp: Response, r: RoomId)
    ensures var created := Created(rooms, resp, resp.rooms.Keys);
            Outcome(SectionInfos(rooms, resp, resp.rooms.Keys), created, r) == KnownTargets(created, r)
  {
    if r in resp.rooms {
      UpdatedInfoFrame(OldInfo(rooms, resp, r), resp.rooms[r]);
    }
  }

  lemma TargetsAfter(st: ClientState, resp: Response, directReadOk: bool, r: RoomId)
    requires r in Processed(st, resp, directReadOk).rooms
    ensures var rooms := Created(st.rooms, resp, resp.rooms.Keys);
            var ds := Disagreeing(DirectsToApply(st.persisted, resp, directReadOk), rooms, r);
            Processed(st, resp, directReadOk).rooms[r].dmTargets ==
            if ds == [] then KnownTargets(rooms, r) else Targets(ds[|ds| - 1], r)
  {
    var rooms, infos := Created(st.rooms, resp, resp.rooms.Keys), SectionInfos(st.rooms, resp, resp.rooms.Keys);
    SectionKeepsTargets(st.rooms, resp, r);
    BatchOutcome(infos, rooms, DirectsToApply(st.persisted, resp, directReadOk), r);
  }

  lemma ProcessedNoTargets(st: ClientState, resp: Response, directReadOk: bool)
    requires NoTargetsWithoutDirect(st)
    ensures NoTargetsWithoutDirect(Processed(st, resp, directReadOk))
  {
    var after := Processed(st, resp, directReadOk);
    RawByTypeKeepsLastDirect(resp.accountData);
    StoredDirectAfter(st, resp, directReadOk);
    if StoredDirect(after.persisted.accountData).None? {
      assert DirectsToApply(st.persisted, resp, directReadOk) == [];
      forall r | r in after.rooms
        ensures after.rooms[r].dmTargets == {}
      {
        TargetsAfter(st, resp, directReadOk, r);
      }
    }
  }

  lemma TransitionNoTargets(st: ClientState, r: RoomId, target: RoomState, saveOk: bool)
    requires NoTargetsWithoutDirect(st)
    ensures NoTargetsWithoutDirect(Transition(st, r, target, saveOk))
  {
  }

  lemma MembersNoTargets(st: ClientState, r: RoomId, chunk: seq<Raw>, saveOk: bool)
    requires NoTargetsWithoutDirect(st)
    ensures NoTargetsWithoutDirect(ReceivedMembers(st, r, chunk, saveOk))
  {
  }

  lemma ApplyNoTargets(st: ClientState, op: Op)
    requires NoTargetsWithoutDirect(st)
    ensures NoTargetsWithoutDirect(Apply(st, op))
  {
    match op
    case SyncOp(resp, directReadOk) => ProcessedNoTargets(st, resp, directReadOk);
    case FailedSyncOp(_, _, _) =>
    case MembershipOp(r, target, saveOk) => TransitionNoTargets(st, r, target, saveOk);
    case MembersOp(r, chunk, saveOk) => MembersNoTargets(st, r, chunk, saveOk);
  }

  lemma {:induction false} RunNoTargets(st: ClientState, ops: seq<Op>)
    requires NoTargetsWithoutDirect(st)
    ensures NoTargetsWithoutDirect(Run(st, ops))
  {
    if ops == [] {
    } else {
      RunNoTargets(st, ops[..|ops| - 1]);
      ApplyNoTargets(Run(st, ops[..|ops| - 1]), ops[|ops| - 1]);
    }
  }

  /** With at most one `m.direct` event per response, the one stored afterwards is the one applied. */
  lemma AppliesStoredDirect(st: ClientState, resp: Response)
    requires |DirectContents(ParsedEvents(resp.accountData))| <= 1
    ensures DirectsToApply(st.persisted, resp, true) ==
            match StoredDirect(Processed(st, resp, true).persisted.accountData)
            case Some(c) => [c]
            case None => []
  {
    RawByTypeKeepsLastDirect(resp.accountData);
    StoredDirectAfter(st, resp, true);
  }

  lemma ProcessedSettlesRoom(st: ClientState, resp: Response, r: RoomId)
    requires NoTargetsWithoutDirect(st)
    requires |DirectContents(ParsedEvents(resp.accountData))| <= 1
    requires r in Processed(st, resp, true).rooms
    ensures Processed(st, resp, true).rooms[r].dmTargets == StoredTargets(Processed(st, resp, true).persisted, r)
  {
    var rooms, cs := Created(st.rooms, resp, resp.rooms.Keys), DirectsToApply(st.persisted, resp, true);
    ProcessedNoTargets(st, resp, true);
    AppliesStoredDirect(st, resp);
    TargetsAfter(st, resp, true, r);
    DisagreeingMembers(cs, rooms, r);
    if cs != [] {
      assert cs[0] in cs && |Disagreeing(cs, rooms, r)| <= 1;
    }
  }

  /** One processed sync settles a client whatever targets its rooms had before. */
  lemma ProcessedSettles(st: ClientState, resp: Response)
    requires NoTargetsWithoutDirect(st)
    requires |DirectContents(ParsedEvents(resp.accountData))| <= 1
    ensures Settled(Processed(st, resp, true))
  {
    forall r | r in Processed(st, resp, true).rooms
      ensures Processed(st, resp, true).rooms[r].dmTargets == StoredTargets(Processed(st, resp, true).persisted, r)
    {
      ProcessedSettlesRoom(st, resp, r);
    }
  }

  /** The content of the last `m.direct` event of the processed syncs of a run, or
      of the event stored before it. */
  function LastDirect(st: ClientState, ops: seq<Op>): Option<DirectContent> {
    if ops == [] then StoredDirect(st.persisted.accountData)
    else
      var init, last := ops[..|ops| - 1], ops[|ops| - 1];
      if last.SyncOp? && !IsRepeat(LastSaved(st.token, init), last) then
        var contents := DirectContents(ParsedEvents(last.resp.accountData));
        if contents == [] then LastDirect(st, init) else Some(contents[|contents| - 1])
      else LastDirect(st, init)
  }

  lemma SavedAccountData(p: Persisted, c: Changes)
    requires c.accountData == map[]
    ensures SaveChanges(p, c).accountData == p.accountData
  {
    assert p.accountData + map[] == p.accountData;
  }

  lemma TransitionKeepsAccountData(st: ClientState, r: RoomId, target: RoomState, saveOk: bool)
    ensures Transition(st, r, target, saveOk).persisted.accountData == st.persisted.accountData
  {
    var info := MarkedAs(GetOr(st.rooms, r, NewRoomInfo(r, target)), target);
    SavedAccountData(st.persisted, Changes(None, map[r := info], map[], map[], map[]));
  }

  lemma MembersKeepAccountData(st: ClientState, r: RoomId, chunk: seq<Raw>, saveOk: bool)
    ensures ReceivedMembers(st, r, chunk, saveOk).persisted.accountData == st.persisted.accountData
  {
    if r in st.rooms {
      SavedAccountData(st.persisted, MemberChanges(st.rooms[r], r, chunk));
    }
  }

  /** The stored `m.direct` event is the latest of the run. */
  lemma {:induction false} StoredIsLastDirect(st: ClientState, ops: seq<Op>)
    ensures StoredDirect(Run(st, ops).persisted.accountData) == LastDirect(st, ops)
  {
    if ops == [] {
    } else {
      var init, last := ops[..|ops| - 1], ops[|ops| - 1];
      StoredIsLastDirect(st, init);
      TokenNamesLastSaved(st, init);
      match last
      case SyncOp(resp, directReadOk) => StoredDirectAfter(Run(st, init), resp, directReadOk);
      case FailedSyncOp(_, _, _) =>
      case MembershipOp(r, target, saveOk) => TransitionKeepsAccountData(Run(st, init), r, target, saveOk);
      case MembersOp(r, chunk, saveOk) => MembersKeepAccountData(Run(st, init), r, chunk, saveOk);
    }
  }

  /** After every sync of a run that is processed, each known room, including one
      that became known after the event arrived, has exactly the targets that list
      it in the latest `m.direct` event; reconciling once more adds no room. */
  lemma TargetsFollowDirectEvents(st: ClientState, ops: seq<Op>, resp: Response)
    requires NoTargetsWithoutDirect(st)
    requires LastSaved(st.token, ops) != Some(resp.nextBatch)
    requires |DirectContents(ParsedEvents(resp.accountData))| <= 1
    ensures var longer := ops + [SyncOp(resp, true)];
            var rooms, latest := Run(st, longer).rooms, LastDirect(st, longer);
            && (forall r <- rooms :: rooms[r].dmTargets == if latest.Some? then Targets(latest.value, r) else {})
            && (latest.Some? ==> Reconcile(map[], rooms, latest.value) == map[])
  {
    RunNoTargets(st, ops);
    TokenNamesLastSaved(st, ops);
    ProcessedSettles(Run(st, ops), resp);
    var longer := ops + [SyncOp(resp, true)];
    assert longer[..|longer| - 1] == ops;
    StoredIsLastDirect(st, longer);
    if LastDirect(st, longer).Some? {
      SettledIsStable(Run(st, longer).rooms, LastDirect(st, longer).value);
    }
  }

  /** The rooms a sync reconciles: those in memory once its own are created. */
  function Reconciled(st: ClientState, resp: Response): ClientState {
    if st.token == Some(resp.nextBatch) then st else st.(rooms := Created(st.rooms, resp, resp.rooms.Keys))
  }

  lemma UnreconciledTargets(st: ClientState, resp: Response)
    requires DirectContents(ParsedEvents(resp.accountData)) == []
    ensures Settled(Processed(st, resp, false)) <==> Settled(st.(rooms := Created(st.rooms, resp, resp.rooms.Keys)))
  {
    var after, rooms := Processed(st, resp, false), Created(st.rooms, resp, resp.rooms.Keys);
    RawByTypeKeepsLastDirect(resp.accountData);
    StoredDirectAfter(st, resp, false);
    assert after.rooms.Keys == rooms.Keys;
    forall r | r in rooms
      ensures after.rooms[r].dmTargets == rooms[r].dmTargets
    {
      TargetsAfter(st, resp, false, r);
    }
  }

  /** A successful sync leaves every room settled if and only if it reconciles (it
      is no repeat, and it has or could read an `m.direct` event), or the rooms
      were settled anyway. */
  lemma SyncSettlesIff(st: ClientState, resp: Response, directReadOk: bool)
    requires NoTargetsWithoutDirect(st)
    requires |DirectContents(ParsedEvents(resp.accountData))| <= 1
    ensures var reconciles := st.token != Some(resp.nextBatch) && (directReadOk || HasDirect(ParsedEvents(resp.accountData)));
            Settled(Apply(st, SyncOp(resp, directReadOk))) <==> reconciles || Settled(Reconciled(st, resp))
  {
    RawByTypeKeepsLastDirect(resp.accountData);
    if st.token != Some(resp.nextBatch) {
      if directReadOk || HasDirect(ParsedEvents(resp.accountData)) {
        assert Processed(st, resp, directReadOk) == Processed(st, resp, true);
        ProcessedSettles(st, resp);
      } else {
        UnreconciledTargets(st, resp);
      }
    }
  }

  /** A repeated response need not settle a listed room that a `room_joined` call made known. */
  lemma RepeatNeedNotSettle(st: ClientState, resp: Response, directReadOk: bool, r: RoomId, saveOk: bool)
    requires r !in st.rooms && StoredTargets(st.persisted, r) != {} && st.token == Some(resp.nextBatch)
    ensures !Settled(Run(st, [MembershipOp(r, Joined, saveOk), SyncOp(resp, directReadOk)]))
  {
    var first, ops := MembershipOp(r, Joined, saveOk), [MembershipOp(r, Joined, saveOk), SyncOp(resp, directReadOk)];
    assert ops[..1] == [first] && [first][..0] == [];
    var after := Apply(st, first);
    assert Run(st, []) == st && Run(st, [first]) == after;
    assert Run(st, ops) == after;
    assert r in after.rooms && after.rooms[r].dmTargets == {};
  }
}
