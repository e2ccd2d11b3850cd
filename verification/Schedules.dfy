/** Sequential runs as interleavings, and an interleaving that is like no sequential run. */
module Schedules {
  import opened Types
  import opened Direct
  import opened Sync
  import opened Interleaving
  import Runs

  // ---- Sequential runs are interleavings ----

  /** The world shows the records and tokens of a client, with no call in its locked part. */
  ghost predicate Shows(w: World, st: ClientState) {
    && w.saved == st.persisted.infos && w.rooms == st.rooms
    && w.savedToken == st.persisted.token && w.token == st.token
    && w.lock.None?
  }

  function Sections(resp: Response): map<RoomId, RoomState> {
    map r | r in resp.rooms :: SectionState(resp.rooms[r])
  }

  /** A run that starts with the given world and ends with it showing the client,
      in which the call has finished. */
  ghost predicate Performs(ws: seq<World>, w: World, t: TaskId, st: ClientState) {
    IsRun(ws) && ws[0] == w && Shows(Last(ws), st) && Last(ws).tasks == w.tasks[t := Finished]
  }

  lemma OneStep(w: World, t: TaskId, e: Event, w': World)
    requires Step(w, t, e, w')
    ensures IsRun([w, w'])
  {
    assert Follows(w, w');
  }

  /** A call that starts with one step and goes on by itself. */
  lemma StartThenContinue(w: World, t: TaskId, e: Event, ws: seq<World>)
    requires Continues(ws, t) && Step(w, t, e, ws[0])
    ensures IsRun([w, ws[0]] + ws[1..]) && Last([w, ws[0]] + ws[1..]) == Last(ws)
  {
    OneStep(w, t, e, ws[0]);
    ContinuesIsRun(ws, t);
    JoinRuns([w, ws[0]], ws);
  }

  lemma CreatedIsWithRooms(rooms: RoomInfos, resp: Response, done: set<RoomId>)
    ensures Created(rooms, resp, done) == WithRooms(rooms, Sections(resp), done * resp.rooms.Keys)
  {
  }

  lemma UpdatedKeyed(st: ClientState, resp: Response, r: RoomId)
    requires RoomsKeyed(st.rooms) && r in resp.rooms
    ensures var info := UpdatedInfo(OldInfo(st.rooms, resp, r), resp.rooms[r]);
            info.roomId == r && info.roomState == SectionState(resp.rooms[r])
  {
    UpdatedInfoFrame(OldInfo(st.rooms, resp, r), resp.rooms[r]);
  }

  /** The records of a sync are records its task can build. */
  lemma SyncRecordsCanBeBuilt(st: ClientState, resp: Response, directReadOk: bool, w: World)
    requires RoomsKeyed(st.rooms) && w.rooms == Created(st.rooms, resp, resp.rooms.Keys)
    ensures CanBuildAll(w, SyncReading(resp.nextBatch, Sections(resp), map[]), SyncChanges(st, resp, directReadOk).infos)
    ensures resp.rooms.Keys <= SyncChanges(st, resp, directReadOk).infos.Keys <= w.rooms.Keys
  {
    var infos := SyncChanges(st, resp, directReadOk).infos;
    SyncInfosFrame(st, resp, directReadOk);
    forall r | r in infos
      ensures infos[r].roomId == r && CanBuild(w, SyncReading(resp.nextBatch, Sections(resp), map[]), infos[r])
    {
      if r in resp.rooms {
        UpdatedKeyed(st, resp, r);
      }
    }
  }

  lemma AppliedIsMerged(rooms: RoomInfos, infos: RoomInfos)
    requires infos.Keys <= rooms.Keys
    ensures ApplyInfos(rooms, infos) == rooms + infos
  {
  }

  lemma ProcessedShown(st: ClientState, resp: Response, directReadOk: bool, w: World, t: TaskId)
    requires w.saved == st.persisted.infos && w.rooms == Created(st.rooms, resp, resp.rooms.Keys)
    requires SyncChanges(st, resp, directReadOk).infos.Keys <= w.rooms.Keys
    ensures Shows(Committed(w, t, Some(resp.nextBatch), SyncChanges(st, resp, directReadOk).infos),
                  Processed(st, resp, directReadOk))
  {
    AppliedIsMerged(w.rooms, SyncChanges(st, resp, directReadOk).infos);
  }

  /** A sync that looks up its rooms, builds its records and commits undisturbed. */
  lemma SyncSchedule(w: World, t: TaskId, next: Token, sections: map<RoomId, RoomState>, infos: RoomInfos)
    returns (ws: seq<World>)
    requires w.lock.None? && t !in w.tasks && w.token != Some(next)
    requires var created := w.(rooms := WithRooms(w.rooms, sections, sections.Keys));
             CanBuildAll(created, SyncReading(next, sections, map[]), infos) && sections.Keys <= infos.Keys <= created.rooms.Keys
    ensures IsRun(ws) && ws[0] == w
    ensures Last(ws) == Committed(w.(rooms := WithRooms(w.rooms, sections, sections.Keys)), t, Some(next), infos)
  {
    var task := SyncReading(next, sections, map[]);
    var started := w.(tasks := w.tasks[t := task]);
    var steps := CreateAll([started], t, sections.Keys);
    steps := BuildAll(steps, t, infos);
    assert map[] + infos == infos;
    UpdateTwice(w.tasks, t, task, WithRecords(task, infos));
    steps := CommitAll(steps, t, Some(next), infos);
    UpdateTwice(w.tasks, t, WithRecords(task, infos), Finished);
    StartThenContinue(w, t, StartSync(next, sections), steps);
    ws := [w, steps[0]] + steps[1..];
  }

  lemma SyncIsInterleaving(w: World, t: TaskId, st: ClientState, resp: Response, directReadOk: bool)
    returns (ws: seq<World>)
    requires Shows(w, st) && t !in w.tasks && RoomsKeyed(st.rooms) && st.token != Some(resp.nextBatch)
    ensures Performs(ws, w, t, Processed(st, resp, directReadOk))
  {
    var sections := Sections(resp);
    var created := w.(rooms := WithRooms(w.rooms, sections, sections.Keys));
    assert created.rooms == Created(st.rooms, resp, resp.rooms.Keys) by {
      CreatedIsWithRooms(st.rooms, resp, resp.rooms.Keys);
      assert resp.rooms.Keys * resp.rooms.Keys == sections.Keys;
    }
    SyncRecordsCanBeBuilt(st, resp, directReadOk, created);
    ws := SyncSchedule(w, t, resp.nextBatch, sections, SyncChanges(st, resp, directReadOk).infos);
    ProcessedShown(st, resp, directReadOk, created, t);
  }

  lemma FailedSyncIsInterleaving(w: World, t: TaskId, st: ClientState, resp: Response, created: set<RoomId>, users: set<UserId>)
    returns (ws: seq<World>)
    requires Shows(w, st) && t !in w.tasks && st.token != Some(resp.nextBatch)
    ensures Performs(ws, w, t, Abandoned(st, resp, created, users))
  {
    var sections := Sections(resp);
    var task := SyncReading(resp.nextBatch, sections, map[]);
    var started := w.(tasks := w.tasks[t := task]);
    var steps := CreateAll([started], t, created * resp.rooms.Keys);
    CreatedIsWithRooms(st.rooms, resp, created);
    var ended := Last(steps).(tasks := w.tasks[t := Finished]);
    UpdateTwice(w.tasks, t, task, Finished);
    Extend(steps, t, GiveUp, ended);
    StartThenContinue(w, t, StartSync(resp.nextBatch, sections), steps + [ended]);
    ws := [w, (steps + [ended])[0]] + (steps + [ended])[1..];
  }

  /** A response that repeats the token. */
  lemma RepeatIsInterleaving(w: World, t: TaskId, st: ClientState, resp: Response) returns (ws: seq<World>)
    requires Shows(w, st) && t !in w.tasks && st.token == Some(resp.nextBatch)
    ensures Performs(ws, w, t, st)
  {
    var ended := w.(tasks := w.tasks[t := Finished]);
    OneStep(w, t, StartSync(resp.nextBatch, Sections(resp)), ended);
    ws := [w, ended];
  }

  /** The locked part of a membership call or a member list. */
  lemma FinishCall(w: World, t: TaskId, infos: RoomInfos, saveOk: bool) returns (ws: seq<World>)
    requires w.lock.None? && t in w.tasks && CanLock(w, t) && LockedTask(w, t) == Locked(None, infos)
    requires infos.Keys <= w.rooms.Keys
    ensures Continues(ws, t) && ws[0] == w
    ensures Last(ws) == if saveOk then Committed(w, t, None, infos) else w.(tasks := w.tasks[t := Finished])
  {
    if saveOk {
      ws := CommitAll([w], t, None, infos);
    } else {
      var locked := w.(lock := Some(t), tasks := w.tasks[t := Locked(None, infos)]);
      UpdateTwice(w.tasks, t, Locked(None, infos), Finished);
      Extend([w], t, Acquire, locked);
      Extend([w] + [locked], t, FailSave, w.(tasks := w.tasks[t := Finished]));
      ws := [w] + [locked] + [w.(tasks := w.tasks[t := Finished])];
    }
  }

  lemma MembershipIsInterleaving(w: World, t: TaskId, st: ClientState, r: RoomId, target: RoomState, saveOk: bool)
    returns (ws: seq<World>)
    requires Shows(w, st) && t !in w.tasks
    ensures Performs(ws, w, t, Transition(st, r, target, saveOk))
  {
    var rooms := w.rooms[r := GetOr(w.rooms, r, NewRoomInfo(r, target))];
    if rooms[r].roomState == target {
      var ended := w.(rooms := rooms, tasks := w.tasks[t := Finished]);
      OneStep(w, t, StartMembership(r, target), ended);
      ws := [w, ended];
    } else {
      var task, infos := MembershipChecked(r, target), map[r := MarkedAs(rooms[r], target)];
      var started := w.(rooms := rooms, tasks := w.tasks[t := task]);
      UpdateTwice(w.tasks, t, task, Finished);
      var steps := FinishCall(started, t, infos, saveOk);
      assert rooms + infos == rooms[r := infos[r]];
      StartThenContinue(w, t, StartMembership(r, target), steps);
      ws := [w, steps[0]] + steps[1..];
    }
  }

  lemma MembersIsInterleaving(w: World, t: TaskId, st: ClientState, r: RoomId, chunk: seq<Raw>, saveOk: bool)
    returns (ws: seq<World>)
    requires Shows(w, st) && t !in w.tasks
    ensures Performs(ws, w, t, ReceivedMembers(st, r, chunk, saveOk))
  {
    if r !in st.rooms {
      var ended := w.(tasks := w.tasks[t := Finished]);
      OneStep(w, t, StartMembers(r), ended);
      ws := [w, ended];
    } else {
      var infos := map[r := st.rooms[r].(membersSynced := true)];
      var started := w.(tasks := w.tasks[t := MembersFound(r)]);
      UpdateTwice(w.tasks, t, MembersFound(r), Finished);
      var steps := FinishCall(started, t, infos, saveOk);
      AppliedIsMerged(st.rooms, infos);
      StartThenContinue(w, t, StartMembers(r), steps);
      ws := [w, steps[0]] + steps[1..];
    }
  }

  /** Every operation of a sequential run is an interleaving of one call. */
  lemma ApplyIsInterleaving(w: World, t: TaskId, st: ClientState, op: Runs.Op) returns (ws: seq<World>)
    requires Shows(w, st) && t !in w.tasks && RoomsKeyed(st.rooms)
    ensures Performs(ws, w, t, Runs.Apply(st, op))
  {
    match op {
      case SyncOp(resp, directReadOk) =>
        if st.token == Some(resp.nextBatch) {
          ws := RepeatIsInterleaving(w, t, st, resp);
        } else {
          ws := SyncIsInterleaving(w, t, st, resp, directReadOk);
        }
      case FailedSyncOp(resp, created, users) =>
        if st.token == Some(resp.nextBatch) {
          ws := RepeatIsInterleaving(w, t, st, resp);
        } else {
          ws := FailedSyncIsInterleaving(w, t, st, resp, created, users);
        }
      case MembershipOp(r, target, saveOk) => ws := MembershipIsInterleaving(w, t, st, r, target, saveOk);
      case MembersOp(r, chunk, saveOk) => ws := MembersIsInterleaving(w, t, st, r, chunk, saveOk);
    }
  }

  lemma ProcessedKeyed(st: ClientState, resp: Response, directReadOk: bool)
    requires RoomsKeyed(st.rooms)
    ensures RoomsKeyed(Processed(st, resp, directReadOk).rooms)
  {
    var w := World(map[], Created(st.rooms, resp, resp.rooms.Keys), None, None, None, map[]);
    SyncRecordsCanBeBuilt(st, resp, directReadOk, w);
  }

  lemma ApplyKeyed(st: ClientState, op: Runs.Op)
    requires RoomsKeyed(st.rooms)
    ensures RoomsKeyed(Runs.Apply(st, op).rooms)
  {
    match op
    case SyncOp(resp, directReadOk) => ProcessedKeyed(st, resp, directReadOk);
    case FailedSyncOp(_, _, _) =>
    case MembershipOp(_, _, _) =>
    case MembersOp(_, _, _) =>
  }

  /** Every sequential run is an interleaving, so the coherence of interleavings
      covers it. */
  lemma {:induction false} RunIsInterleaving(w: World, st: ClientState, ops: seq<Runs.Op>) returns (ws: seq<World>)
    requires Shows(w, st) && w.tasks == map[] && RoomsKeyed(st.rooms)
    ensures IsRun(ws) && ws[0] == w && Shows(Last(ws), Runs.Run(st, ops)) && RoomsKeyed(Runs.Run(st, ops).rooms)
    ensures forall t <- Last(ws).tasks :: t < |ops|
  {
    if ops == [] {
      ws := [w];
    } else {
      var init, last := ops[..|ops| - 1], ops[|ops| - 1];
      var before := RunIsInterleaving(w, st, init);
      var more := ApplyIsInterleaving(Last(before), |init|, Runs.Run(st, init), last);
      ApplyKeyed(Runs.Run(st, init), last);
      JoinRuns(before, more);
      ws := before + more[1..];
    }
  }

  // ---- An interleaving that is like no sequential run ----

  /** A client with one room, and a sync that mentions no room but has an `m.direct` event. */
  function SampleClient(info: RoomInfo): ClientState {
    ClientState(Persisted(map[info.roomId := info], map[], map[], map[], None), map[info.roomId := info], None, {})
  }

  function DirectResponse(next: Token, c: DirectContent): Response {
    Response(next, map[], [AccountRaw("", Some(DirectEvent(c)))])
  }

  lemma DirectResponseApplies(st: ClientState, next: Token, c: DirectContent)
    ensures DirectsToApply(st.persisted, DirectResponse(next, c), true) == [c]
  {
    var raws := DirectResponse(next, c).accountData;
    assert raws[..0] == [] && ParsedEvents([]) == [];
    assert ParsedEvents(raws) == [DirectEvent(c)];
    assert [DirectEvent(c)][..0] == [] && DirectContents([]) == [];
    assert DirectEvent(c) in [DirectEvent(c)];
  }

  /** The one record such a sync builds: a clone from memory with new targets. */
  lemma DirectResponseRecord(info: RoomInfo, next: Token, c: DirectContent)
    requires Differs(c, map[info.roomId := info], info.roomId)
    ensures SyncChanges(SampleClient(info), DirectResponse(next, c), true).infos ==
            map[info.roomId := info.(dmTargets := Targets(c, info.roomId))]
  {
    var st, resp := SampleClient(info), DirectResponse(next, c);
    DirectResponseApplies(st, next, c);
    assert resp.rooms.Keys == {};
    assert Created(st.rooms, resp, {}) == st.rooms && SectionInfos(st.rooms, resp, {}) == map[];
    assert [c][..0] == [] && ReconcileAll(map[], st.rooms, []) == map[];
    assert ReconcileAll(map[], st.rooms, [c]) == Reconcile(map[], st.rooms, c);
    assert Reconcile(map[], st.rooms, c) == map[info.roomId := info.(dmTargets := Targets(c, info.roomId))];
  }

  predicate HasState(st: ClientState, r: RoomId, s: RoomState) {
    r in st.rooms && st.rooms[r].roomState == s
  }

  /** In sequence, a sync that does not mention a room leaves it left, before or
      after `room_left`. */
  lemma SequencesLeave(info: RoomInfo, next: Token, c: DirectContent)
    ensures var st, resp, r := SampleClient(info), DirectResponse(next, c), info.roomId;
            && HasState(Processed(Transition(st, r, Left, true), resp, true), r, Left)
            && HasState(Transition(Processed(st, resp, true), r, Left, true), r, Left)
  {
    var st, resp, r := SampleClient(info), DirectResponse(next, c), info.roomId;
    Runs.TransitionMembership(st, r, Left, true, r);
    Runs.ProcessedMembership(Transition(st, r, Left, true), resp, true, r);
    Runs.TransitionMembership(Processed(st, resp, true), r, Left, true, r);
  }

  function Clean(info: RoomInfo): World {
    World(map[info.roomId := info], map[info.roomId := info], None, None, None, map[])
  }

  /** A sync that has built a clone's record, and then a `room_left` call about to commit. */
  lemma SyncThenLeave(info: RoomInfo, built: RoomInfo, next: Token) returns (ws: seq<World>)
    requires info.roomState == Joined && built == info.(dmTargets := built.dmTargets)
    ensures IsRun(ws) && |ws| == 4 && ws[0] == Clean(info)
    ensures Last(ws) ==
            Clean(info).(tasks := map[0 := SyncReading(next, map[], map[info.roomId := built]),
                                      1 := MembershipChecked(info.roomId, Left)])
  {
    var r, w0 := info.roomId, Clean(info);
    var w1 := w0.(tasks := map[0 := SyncReading(next, map[], map[])]);
    var w2 := w0.(tasks := map[0 := SyncReading(next, map[], map[r := built])]);
    var w3 := w0.(tasks := map[0 := SyncReading(next, map[], map[r := built]), 1 := MembershipChecked(r, Left)]);
    assert Step(w0, 0, StartSync(next, map[]), w1);
    assert Step(w1, 0, BuildRecord(built), w2);
    assert Step(w2, 1, StartMembership(r, Left), w3);
    assert Follows(w0, w1) && Follows(w1, w2) && Follows(w2, w3);
    ws := [w0, w1, w2, w3];
  }

  /** Both calls commit, the membership call first. */
  lemma LeaveThenStaleSync(info: RoomInfo, built: RoomInfo, next: Token) returns (ws: seq<World>, left: nat)
    requires info.roomState == Joined && built == info.(dmTargets := built.dmTargets)
    ensures IsRun(ws) && ws[0] == Clean(info) && left < |ws|
    ensures ws[left].lock.None? && InState(ws[left], info.roomId, Left)
    ensures Last(ws).lock.None? && Last(ws).rooms == map[info.roomId := built] == Last(ws).saved
  {
    var r, gone := info.roomId, MarkedAs(info, Left);
    var a := SyncThenLeave(info, built, next);
    var b := CommitAll([Last(a)], 1, None, map[r := gone]);
    ContinuesIsRun(b, 1);
    JoinRuns(a, b);
    var c := CommitAll([Last(b)], 0, Some(next), map[r := built]);
    ContinuesIsRun(c, 0);
    JoinRuns(a + b[1..], c);
    left := |a + b[1..]| - 1;
    ws := a + b[1..] + c[1..];
    assert ws[left] == Last(b);
  }

  /** The direct pass of a sync clones a joined room that no section mentions,
      `room_left` commits, and the sync writes the old membership back, although
      in neither order of the two calls does the room end up joined: the last
      mention decides only in sequential runs. */
  lemma StaleSyncUndoesLeave(info: RoomInfo, c: DirectContent, next: Token) returns (ws: seq<World>, left: nat)
    requires info.roomState == Joined && Differs(c, map[info.roomId := info], info.roomId)
    ensures IsRun(ws) && Shows(ws[0], SampleClient(info)) && ws[0].tasks == map[]
    ensures left < |ws| && ws[left].lock.None? && InState(ws[left], info.roomId, Left)
    ensures Last(ws).lock.None? && InState(Last(ws), info.roomId, Joined)
    ensures Last(ws).rooms == SyncChanges(SampleClient(info), DirectResponse(next, c), true).infos
    ensures var st, resp, r := SampleClient(info), DirectResponse(next, c), info.roomId;
            && HasState(Processed(Transition(st, r, Left, true), resp, true), r, Left)
            && HasState(Transition(Processed(st, resp, true), r, Left, true), r, Left)
  {
    DirectResponseRecord(info, next, c);
    SequencesLeave(info, next, c);
    ws, left := LeaveThenStaleSync(info, info.(dmTargets := Targets(c, info.roomId)), next);
  }
}
