/** Interleaved operations: store and memory agree whenever the sync lock is free.

    Each call is a task whose unlocked part reads and creates rooms step by step,
    and whose locked part saves, sets the token, then applies its records to
    memory one by one. Steps of other tasks may fall anywhere in between. */
module Interleaving {
  import opened Types
  import opened Sync

  type TaskId = nat

  /** Where a call stands. A sync carries its token, the states its room sections
      give, and the records it has built so far; the other calls build theirs from
      memory once they hold the lock. */
  datatype Task =
    | SyncReading(next: Token, sections: map<RoomId, RoomState>, infos: RoomInfos)
    | MembershipChecked(room: RoomId, target: RoomState)
    | MembersFound(room: RoomId)
    | Locked(tokenToSave: Option<Token>, infos: RoomInfos)
    | Applying(tokenToSet: Option<Token>, infos: RoomInfos)
    | Finished

  datatype World = World(
    saved: RoomInfos,
    rooms: RoomInfos,
    savedToken: Option<Token>,
    token: Option<Token>,
    lock: Option<TaskId>,
    tasks: map<TaskId, Task>)

  datatype Event =
    | StartSync(next: Token, sections: map<RoomId, RoomState>)
    | StartMembership(room: RoomId, target: RoomState)
    | StartMembers(room: RoomId)
    | CreateRoom(room: RoomId, state: RoomState)
    | BuildRecord(info: RoomInfo)
    | GiveUp
    | Acquire
    | Save
    | FailSave
    | SetToken
    | ApplyOne(room: RoomId)
    | Release

  /** A record of a room in memory, with the state of its section if it has one;
      else it patches the record built so far, or a clone of the one in memory. */
  predicate CanBuild(w: World, task: Task, info: RoomInfo)
    requires task.SyncReading?
  {
    var r := info.roomId;
    && r in w.rooms
    && info.roomState ==
         if r in task.sections then task.sections[r] else GetOr(task.infos, r, w.rooms[r]).roomState
  }

  function WithRecords(task: Task, infos: RoomInfos): Task
    requires task.SyncReading?
  {
    SyncReading(task.next, task.sections, infos)
  }

  /** A sync commits once it has a record for every room of its sections. */
  predicate CanLock(w: World, t: TaskId)
    requires t in w.tasks
  {
    match w.tasks[t]
    case SyncReading(_, sections, infos) => sections.Keys <= infos.Keys
    case MembershipChecked(r, _) => r in w.rooms
    case MembersFound(r) => r in w.rooms
    case _ => false
  }

  /** What a call commits once it holds the lock. */
  function LockedTask(w: World, t: TaskId): Task
    requires t in w.tasks && CanLock(w, t)
  {
    match w.tasks[t]
    case SyncReading(next, _, infos) => Locked(Some(next), infos)
    case MembershipChecked(r, target) => Locked(None, map[r := MarkedAs(w.rooms[r], target)])
    case MembersFound(r) => Locked(None, map[r := w.rooms[r].(membersSynced := true)])
  }

  /** One step of task `t`. */
  ghost predicate Step(w: World, t: TaskId, e: Event, w': World) {
    match e
    case StartSync(next, sections) =>
      // A response that repeats the current token is skipped.
      var task := if w.token == Some(next) then Finished else SyncReading(next, sections, map[]);
      t !in w.tasks && w' == w.(tasks := w.tasks[t := task])
    case StartMembership(r, target) =>
      // The room is created if needed, and the call goes on only if its state differs.
      var rooms := w.rooms[r := GetOr(w.rooms, r, NewRoomInfo(r, target))];
      var task := if rooms[r].roomState == target then Finished else MembershipChecked(r, target);
      t !in w.tasks && w' == w.(rooms := rooms, tasks := w.tasks[t := task])
    case StartMembers(r) =>
      t !in w.tasks && w' == w.(tasks := w.tasks[t := if r in w.rooms then MembersFound(r) else Finished])
    case CreateRoom(r, s) =>
      && t in w.tasks && w.tasks[t].SyncReading?
      && w' == w.(rooms := w.rooms[r := GetOr(w.rooms, r, NewRoomInfo(r, s))])
    case BuildRecord(info) =>
      && t in w.tasks && w.tasks[t].SyncReading? && CanBuild(w, w.tasks[t], info)
      && w' == w.(tasks := w.tasks[t := WithRecords(w.tasks[t], w.tasks[t].infos[info.roomId := info])])
    case GiveUp =>
      t in w.tasks && w.tasks[t].SyncReading? && w' == w.(tasks := w.tasks[t := Finished])
    case Acquire =>
      && t in w.tasks && w.lock.None?
      && CanLock(w, t) && w' == w.(lock := Some(t), tasks := w.tasks[t := LockedTask(w, t)])
    case Save =>
      && t in w.tasks && w.lock == Some(t) && w.tasks[t].Locked?
      && var n := w.tasks[t].tokenToSave;
         w' == w.(saved := w.saved + w.tasks[t].infos, savedToken := if n.Some? then n else w.savedToken,
                  tasks := w.tasks[t := Applying(n, w.tasks[t].infos)])
    case FailSave =>
      && t in w.tasks && w.lock == Some(t) && w.tasks[t].Locked?
      && w' == w.(lock := None, tasks := w.tasks[t := Finished])
    case SetToken =>
      && t in w.tasks && w.lock == Some(t) && w.tasks[t].Applying? && w.tasks[t].tokenToSet.Some?
      && w' == w.(token := w.tasks[t].tokenToSet, tasks := w.tasks[t := Applying(None, w.tasks[t].infos)])
    case ApplyOne(r) =>
      && t in w.tasks && w.lock == Some(t) && w.tasks[t].Applying?
      && w.tasks[t].tokenToSet.None? && r in w.tasks[t].infos
      && w' == w.(rooms := if r in w.rooms then w.rooms[r := w.tasks[t].infos[r]] else w.rooms,
                  tasks := w.tasks[t := Applying(None, w.tasks[t].infos - {r})])
    case Release =>
      && t in w.tasks && w.lock == Some(t) && w.tasks[t] == Applying(None, map[])
      && w' == w.(lock := None, tasks := w.tasks[t := Finished])
  }

  ghost predicate Follows(w: World, w': World) {
    exists t, e :: Step(w, t, e, w')
  }

  /** A finite run: each state follows from the previous one by a step of some task. */
  ghost predicate IsRun(ws: seq<World>) {
    ws != [] && forall i :: 0 <= i < |ws| - 1 ==> Follows(ws[i], ws[i + 1])
  }

  // ---- The invariant ----

  predicate HoldsLock(task: Task) {
    task.Locked? || task.Applying?
  }

  /** What the lock's holder has saved and not yet brought to memory. */
  function Holder(w: World): Task {
    if w.lock.Some? && w.lock.value in w.tasks && w.tasks[w.lock.value].Applying? then w.tasks[w.lock.value]
    else Applying(None, map[])
  }

  /** Rooms a task has records or plans for are in memory, and the records of a
      sync have the states of their sections. */
  ghost predicate TaskKnown(w: World, task: Task) {
    match task
    case SyncReading(_, sections, infos) =>
      infos.Keys <= w.rooms.Keys && forall r <- infos :: r in sections ==> infos[r].roomState == sections[r]
    case MembershipChecked(r, _) => r in w.rooms
    case MembersFound(r) => r in w.rooms
    case Locked(_, infos) => infos.Keys <= w.rooms.Keys
    case Applying(_, infos) => infos.Keys <= w.rooms.Keys
    case Finished => true
  }

  /** Every saved record is in memory, or about to be applied by the lock's holder. */
  ghost predicate Agrees(w: World) {
    forall r <- w.saved :: r in w.rooms && w.saved[r] == GetOr(Holder(w).infos, r, w.rooms[r])
  }

  /** So is the saved token. */
  ghost predicate TokenAgrees(w: World) {
    w.savedToken == if Holder(w).tokenToSet.Some? then Holder(w).tokenToSet else w.token
  }

  /** Exactly the tasks in their locked part hold the lock. */
  ghost predicate LockInv(w: World) {
    && (forall t <- w.tasks :: HoldsLock(w.tasks[t]) <==> w.lock == Some(t))
    && (w.lock.Some? ==> w.lock.value in w.tasks)
  }

  ghost predicate Inv(w: World) {
    && (forall t <- w.tasks :: TaskKnown(w, w.tasks[t]))
    && LockInv(w)
    && Agrees(w)
    && TokenAgrees(w)
  }

  ghost predicate CoherentWhenFree(w: World) {
    w.lock.None? ==>
      && (forall r <- w.saved :: r in w.rooms && w.rooms[r] == w.saved[r])
      && w.token == w.savedToken
  }

  lemma StepLock(w: World, t: TaskId, e: Event, w': World)
    requires LockInv(w) && Step(w, t, e, w')
    ensures LockInv(w')
  {
  }

  lemma StepTasks(w: World, t: TaskId, e: Event, w': World)
    requires (forall u <- w.tasks :: TaskKnown(w, w.tasks[u])) && Step(w, t, e, w')
    ensures w.rooms.Keys <= w'.rooms.Keys && forall u <- w'.tasks :: TaskKnown(w', w'.tasks[u])
  {
  }

  lemma StepAgrees(w: World, t: TaskId, e: Event, w': World)
    requires Inv(w) && Step(w, t, e, w')
    ensures Agrees(w')
  {
    StepTasks(w, t, e, w');
    StepLock(w, t, e, w');
  }

  lemma StepToken(w: World, t: TaskId, e: Event, w': World)
    requires LockInv(w) && TokenAgrees(w) && Step(w, t, e, w')
    ensures TokenAgrees(w')
  {
  }

  lemma StepInv(w: World, t: TaskId, e: Event, w': World)
    requires Inv(w) && Step(w, t, e, w')
    ensures Inv(w')
  {
    StepTasks(w, t, e, w');
    StepLock(w, t, e, w');
    StepAgrees(w, t, e, w');
    StepToken(w, t, e, w');
  }

  /** In every state of every interleaving in which the lock is free, each saved
      record equals the one in memory, and so does the saved token. */
  lemma InterleavingsStayCoherent(ws: seq<World>, n: nat)
    requires IsRun(ws) && n < |ws|
    requires ws[0].tasks == map[] && ws[0].lock == None && CoherentWhenFree(ws[0])
    ensures Inv(ws[n]) && CoherentWhenFree(ws[n])
  {
    if n == 0 {
    } else {
      InterleavingsStayCoherent(ws, n - 1);
      assert Follows(ws[n - 1], ws[n - 1 + 1]);
      var t, e :| Step(ws[n - 1], t, e, ws[n]);
      StepInv(ws[n - 1], t, e, ws[n]);
    }
  }

  // ---- Schedules ----

  function Last(ws: seq<World>): World
    requires ws != []
  {
    ws[|ws| - 1]
  }

  predicate IsStart(e: Event) {
    e.StartSync? || e.StartMembership? || e.StartMembers?
  }

  ghost predicate ContinuesTo(w: World, t: TaskId, w': World) {
    exists e :: Step(w, t, e, w') && !IsStart(e)
  }

  /** A run in which one task that has started takes every step. */
  ghost predicate Continues(ws: seq<World>, t: TaskId) {
    ws != [] && forall i :: 0 <= i < |ws| - 1 ==> ContinuesTo(ws[i], t, ws[i + 1])
  }

  lemma Extend(ws: seq<World>, t: TaskId, e: Event, w: World)
    requires Continues(ws, t) && Step(Last(ws), t, e, w) && !IsStart(e)
    ensures Continues(ws + [w], t) && Last(ws + [w]) == w && ws <= ws + [w]
  {
    var longer := ws + [w];
    forall i | 0 <= i < |longer| - 1
      ensures ContinuesTo(longer[i], t, longer[i + 1])
    {
      if i < |ws| - 1 {
        assert ContinuesTo(ws[i], t, ws[i + 1]);
      }
    }
  }

  lemma JoinRuns(a: seq<World>, b: seq<World>)
    requires IsRun(a) && IsRun(b) && Last(a) == b[0]
    ensures IsRun(a + b[1..]) && Last(a + b[1..]) == Last(b)
  {
    var c := a + b[1..];
    forall i | 0 <= i < |c| - 1
      ensures Follows(c[i], c[i + 1])
    {
      if i < |a| - 1 {
        assert Follows(a[i], a[i + 1]);
      } else {
        var j := i - (|a| - 1);
        assert c[i] == b[j] && c[i + 1] == b[j + 1];
        assert Follows(b[j], b[j + 1]);
      }
    }
  }

  lemma ContinuesIsRun(ws: seq<World>, t: TaskId)
    requires Continues(ws, t)
    ensures IsRun(ws)
  {
    forall i | 0 <= i < |ws| - 1
      ensures Follows(ws[i], ws[i + 1])
    {
      assert ContinuesTo(ws[i], t, ws[i + 1]);
    }
  }

  /** The rooms in memory once some of a sync's rooms were looked up. */
  function WithRooms(rooms: RoomInfos, sections: map<RoomId, RoomState>, todo: set<RoomId>): RoomInfos
    requires todo <= sections.Keys
  {
    map r | r in rooms.Keys + todo :: if r in rooms then rooms[r] else NewRoomInfo(r, sections[r])
  }

  lemma WithRoomsStep(rooms: RoomInfos, sections: map<RoomId, RoomState>, todo: set<RoomId>, r: RoomId)
    requires r in todo && todo <= sections.Keys
    ensures WithRooms(rooms[r := GetOr(rooms, r, NewRoomInfo(r, sections[r]))], sections, todo - {r}) ==
            WithRooms(rooms, sections, todo)
  {
  }

  lemma WithNoRooms(rooms: RoomInfos, sections: map<RoomId, RoomState>)
    ensures WithRooms(rooms, sections, {}) == rooms
  {
  }

  lemma PlusStep(a: RoomInfos, b: RoomInfos, r: RoomId)
    requires r in b
    ensures a[r := b[r]] + (b - {r}) == a + b
  {
  }

  lemma SameTask(tasks: map<TaskId, Task>, t: TaskId)
    requires t in tasks
    ensures tasks[t := tasks[t]] == tasks
  {
  }

  /** A sync looks up its rooms. */
  lemma {:induction false} CreateAll(ws: seq<World>, t: TaskId, todo: set<RoomId>) returns (longer: seq<World>)
    requires Continues(ws, t) && t in Last(ws).tasks && Last(ws).tasks[t].SyncReading?
    requires todo <= Last(ws).tasks[t].sections.Keys
    ensures Continues(longer, t) && ws <= longer
    ensures Last(longer) == Last(ws).(rooms := WithRooms(Last(ws).rooms, Last(ws).tasks[t].sections, todo))
    decreases todo
  {
    var w, sections := Last(ws), Last(ws).tasks[t].sections;
    if todo == {} {
      WithNoRooms(w.rooms, sections);
      longer := ws;
    } else {
      var r :| r in todo;
      var next := w.(rooms := w.rooms[r := GetOr(w.rooms, r, NewRoomInfo(r, sections[r]))]);
      Extend(ws, t, CreateRoom(r, sections[r]), next);
      WithRoomsStep(w.rooms, sections, todo, r);
      longer := CreateAll(ws + [next], t, todo - {r});
    }
  }

  /** A sync can build each of these records next. */
  ghost predicate CanBuildAll(w: World, task: Task, infos: RoomInfos)
    requires task.SyncReading?
  {
    forall r <- infos :: infos[r].roomId == r && CanBuild(w, task, infos[r])
  }

  lemma BuildOne(w: World, t: TaskId, infos: RoomInfos, r: RoomId) returns (next: World)
    requires t in w.tasks && w.tasks[t].SyncReading? && CanBuildAll(w, w.tasks[t], infos) && r in infos
    ensures next == w.(tasks := w.tasks[t := WithRecords(w.tasks[t], w.tasks[t].infos[r := infos[r]])])
    ensures Step(w, t, BuildRecord(infos[r]), next)
    ensures CanBuildAll(next, next.tasks[t], infos - {r})
  {
    next := w.(tasks := w.tasks[t := WithRecords(w.tasks[t], w.tasks[t].infos[r := infos[r]])]);
  }

  /** A sync builds some records, whatever the order. */
  lemma {:induction false} BuildAll(ws: seq<World>, t: TaskId, infos: RoomInfos) returns (longer: seq<World>)
    requires Continues(ws, t) && t in Last(ws).tasks && Last(ws).tasks[t].SyncReading?
    requires CanBuildAll(Last(ws), Last(ws).tasks[t], infos)
    ensures Continues(longer, t) && ws <= longer
    ensures Last(longer) ==
            Last(ws).(tasks := Last(ws).tasks[t := WithRecords(Last(ws).tasks[t], Last(ws).tasks[t].infos + infos)])
    decreases infos.Keys
  {
    var w, task := Last(ws), Last(ws).tasks[t];
    if infos == map[] {
      assert task.infos + infos == task.infos;
      SameTask(w.tasks, t);
      longer := ws;
    } else {
      var r :| r in infos;
      var next := BuildOne(w, t, infos, r);
      Extend(ws, t, BuildRecord(infos[r]), next);
      PlusStep(task.infos, infos, r);
      UpdateTwice(w.tasks, t, next.tasks[t], WithRecords(task, task.infos + infos));
      longer := BuildAll(ws + [next], t, infos - {r});
    }
  }

  /** The lock's holder applies its remaining records, whatever the order. */
  lemma {:induction false} ApplyAll(ws: seq<World>, t: TaskId, infos: RoomInfos) returns (longer: seq<World>)
    requires Continues(ws, t) && t in Last(ws).tasks && Last(ws).lock == Some(t)
    requires Last(ws).tasks[t] == Applying(None, infos) && infos.Keys <= Last(ws).rooms.Keys
    ensures Continues(longer, t) && ws <= longer
    ensures Last(longer) ==
            Last(ws).(rooms := Last(ws).rooms + infos, tasks := Last(ws).tasks[t := Applying(None, map[])])
    decreases infos.Keys
  {
    var w := Last(ws);
    if infos == map[] {
      assert w.rooms + infos == w.rooms;
      SameTask(w.tasks, t);
      longer := ws;
    } else {
      var r :| r in infos;
      var rest := Applying(None, infos - {r});
      var next := w.(rooms := w.rooms[r := infos[r]], tasks := w.tasks[t := rest]);
      Extend(ws, t, ApplyOne(r), next);
      PlusStep(w.rooms, infos, r);
      UpdateTwice(w.tasks, t, rest, Applying(None, map[]));
      longer := ApplyAll(ws + [next], t, infos - {r});
    }
  }

  /** A task that commits undisturbed. */
  function Committed(w: World, t: TaskId, n: Option<Token>, infos: RoomInfos): World {
    World(w.saved + infos, w.rooms + infos,
          if n.Some? then n else w.savedToken, if n.Some? then n else w.token, None, w.tasks[t := Finished])
  }

  /** Taking the lock, saving and setting the token. */
  lemma SaveAll(ws: seq<World>, t: TaskId, n: Option<Token>, infos: RoomInfos) returns (longer: seq<World>)
    requires Continues(ws, t) && Last(ws).lock.None? && t in Last(ws).tasks && CanLock(Last(ws), t)
    requires LockedTask(Last(ws), t) == Locked(n, infos)
    ensures Continues(longer, t) && ws <= longer
    ensures Last(longer) ==
            Last(ws).(saved := Last(ws).saved + infos,
                      savedToken := if n.Some? then n else Last(ws).savedToken,
                      token := if n.Some? then n else Last(ws).token,
                      lock := Some(t), tasks := Last(ws).tasks[t := Applying(None, infos)])
  {
    var w := Last(ws);
    var locked := w.(lock := Some(t), tasks := w.tasks[t := Locked(n, infos)]);
    var saved := locked.(saved := w.saved + infos, savedToken := if n.Some? then n else w.savedToken,
                         tasks := w.tasks[t := Applying(n, infos)]);
    UpdateTwice(w.tasks, t, Locked(n, infos), Applying(n, infos));
    UpdateTwice(w.tasks, t, Applying(n, infos), Applying(None, infos));
    Extend(ws, t, Acquire, locked);
    Extend(ws + [locked], t, Save, saved);
    longer := ws + [locked] + [saved];
    if n.Some? {
      var ready := saved.(token := n, tasks := w.tasks[t := Applying(None, infos)]);
      Extend(longer, t, SetToken, ready);
      longer := longer + [ready];
    }
  }

  lemma CommitAll(ws: seq<World>, t: TaskId, n: Option<Token>, infos: RoomInfos) returns (longer: seq<World>)
    requires Continues(ws, t) && Last(ws).lock.None? && t in Last(ws).tasks && CanLock(Last(ws), t)
    requires LockedTask(Last(ws), t) == Locked(n, infos) && infos.Keys <= Last(ws).rooms.Keys
    ensures Continues(longer, t) && ws <= longer && Last(longer) == Committed(Last(ws), t, n, infos)
  {
    var w := Last(ws);
    longer := SaveAll(ws, t, n, infos);
    longer := ApplyAll(longer, t, infos);
    UpdateTwice(w.tasks, t, Applying(None, infos), Applying(None, map[]));
    UpdateTwice(w.tasks, t, Applying(None, map[]), Finished);
    Extend(longer, t, Release, Committed(w, t, n, infos));
    longer := longer + [Committed(w, t, n, infos)];
  }

  // ---- When a membership survives ----

  predicate InState(w: World, r: RoomId, s: RoomState) {
    r in w.rooms && w.rooms[r].roomState == s
  }

  /** A new call that gives the room another state. */
  predicate Brings(e: Event, r: RoomId, s: RoomState) {
    match e
    case StartSync(_, sections) => r in sections && sections[r] != s
    case StartMembership(room, target) => room == r && target != s
    case _ => false
  }

  /** A task holds no record and no plan that gives the room another state. */
  predicate TaskKeeps(task: Task, r: RoomId, s: RoomState) {
    match task
    case SyncReading(_, sections, infos) =>
      (r in sections ==> sections[r] == s) && (r in infos ==> infos[r].roomState == s)
    case MembershipChecked(room, target) => room == r ==> target == s
    case MembersFound(_) => true
    case Locked(_, infos) => r in infos ==> infos[r].roomState == s
    case Applying(_, infos) => r in infos ==> infos[r].roomState == s
    case Finished => true
  }

  ghost predicate AllKeep(w: World, r: RoomId, s: RoomState) {
    forall t <- w.tasks :: TaskKeeps(w.tasks[t], r, s)
  }

  ghost predicate QuietStep(w: World, w': World, r: RoomId, s: RoomState) {
    exists t, e :: Step(w, t, e, w') && !Brings(e, r, s)
  }

  /** A run in which no new call gives the room another state. */
  ghost predicate QuietRun(ws: seq<World>, r: RoomId, s: RoomState) {
    ws != [] && forall i :: 0 <= i < |ws| - 1 ==> QuietStep(ws[i], ws[i + 1], r, s)
  }

  /** The room's membership survives every such run. */
  ghost predicate Survives(w: World, r: RoomId, s: RoomState) {
    forall ws :: QuietRun(ws, r, s) && ws[0] == w ==> InState(Last(ws), r, s)
  }

  lemma QuietStepKeeps(w: World, t: TaskId, e: Event, w': World, r: RoomId, s: RoomState)
    requires InState(w, r, s) && AllKeep(w, r, s) && Step(w, t, e, w') && !Brings(e, r, s)
    ensures InState(w', r, s) && AllKeep(w', r, s)
  {
  }

  lemma {:induction false} QuietRunKeeps(ws: seq<World>, r: RoomId, s: RoomState)
    requires QuietRun(ws, r, s) && InState(ws[0], r, s) && AllKeep(ws[0], r, s)
    ensures InState(Last(ws), r, s) && AllKeep(Last(ws), r, s)
  {
    if |ws| == 1 {
    } else {
      var init := ws[..|ws| - 1];
      QuietRunKeeps(init, r, s);
      assert QuietStep(ws[|ws| - 2], ws[|ws| - 2 + 1], r, s);
      var t, e :| Step(ws[|ws| - 2], t, e, ws[|ws| - 1]) && !Brings(e, r, s);
      QuietStepKeeps(Last(init), t, e, Last(ws), r, s);
    }
  }

  lemma ContinuesQuietly(ws: seq<World>, t: TaskId, r: RoomId, s: RoomState)
    requires Continues(ws, t)
    ensures QuietRun(ws, r, s)
  {
    forall i | 0 <= i < |ws| - 1
      ensures QuietStep(ws[i], ws[i + 1], r, s)
    {
      assert ContinuesTo(ws[i], t, ws[i + 1]);
      var e :| Step(ws[i], t, e, ws[i + 1]) && !IsStart(e);
      assert !Brings(e, r, s);
    }
  }

  /** A sync that finishes its sections and is then able to commit. */
  lemma FinishReading(w: World, t: TaskId) returns (ws: seq<World>, infos: RoomInfos)
    requires Inv(w) && t in w.tasks && w.tasks[t].SyncReading?
    ensures Continues(ws, t) && ws[0] == w
    ensures Last(ws) ==
            w.(rooms := WithRooms(w.rooms, w.tasks[t].sections, w.tasks[t].sections.Keys),
               tasks := w.tasks[t := WithRecords(w.tasks[t], infos)])
    ensures w.tasks[t].sections.Keys <= infos.Keys <= Last(ws).rooms.Keys
    ensures forall r <- infos :: infos[r].roomState ==
              if r in w.tasks[t].sections then w.tasks[t].sections[r] else GetOr(w.tasks[t].infos, r, infos[r]).roomState
    ensures w.tasks[t].infos.Keys <= infos.Keys
  {
    var task := w.tasks[t];
    var sections := task.sections;
    var missing := map r | r in sections :: NewRoomInfo(r, sections[r]);
    ws := CreateAll([w], t, sections.Keys);
    ws := BuildAll(ws, t, missing);
    infos := task.infos + missing;
  }

  lemma OtherStateWins(w: World, t: TaskId, r: RoomId, s: RoomState)
    requires Inv(w) && w.lock.None? && InState(w, r, s) && t in w.tasks && !TaskKeeps(w.tasks[t], r, s)
    ensures !Survives(w, r, s)
  {
    assert !HoldsLock(w.tasks[t]);
    var ws, n, infos := [w], None, map[];
    if w.tasks[t].SyncReading? {
      n := Some(w.tasks[t].next);
      ws, infos := FinishReading(w, t);
    } else {
      infos := LockedTask(w, t).infos;
    }
    assert r in infos && infos[r].roomState != s;
    ws := CommitAll(ws, t, n, infos);
    ContinuesQuietly(ws, t, r, s);
    assert QuietRun(ws, r, s) && ws[0] == w && !InState(Last(ws), r, s);
  }

  /** While the lock is free, a room's membership survives every interleaving in
      which no new call is against it if and only if no running call is: no sync
      with a section or a record, and no membership call, that gives the room
      another state. Running calls one after the other meets the condition. */
  lemma MembershipSurvivesIff(w: World, r: RoomId, s: RoomState)
    requires Inv(w) && w.lock.None? && InState(w, r, s)
    ensures Survives(w, r, s) <==> AllKeep(w, r, s)
  {
    if AllKeep(w, r, s) {
      forall ws | QuietRun(ws, r, s) && ws[0] == w
        ensures InState(Last(ws), r, s)
      {
        QuietRunKeeps(ws, r, s);
      }
    } else {
      var t :| t in w.tasks && !TaskKeeps(w.tasks[t], r, s);
      OtherStateWins(w, t, r, s);
    }
  }
}
