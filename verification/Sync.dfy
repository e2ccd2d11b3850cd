/** What a sync response, a member list and a membership call do to the client,
    as functions of the whole client state. */
module Sync {
  import opened Types
  import opened StateFold
  import opened Direct

  // ---- Room updates ----

  datatype RoomAccountEvent =
    | MarkedUnread(unread: bool)
    | UnstableMarkedUnread(unread: bool)
    | Tag(tags: set<string>)
    | OtherRoomData(name: string)

  datatype RoomAccountRaw = RoomAccountRaw(json: string, parsed: Option<RoomAccountEvent>)

  datatype RoomUpdate =
    | JoinUpdate(
        joinedCount: Option<nat>,
        invitedCount: Option<nat>,
        state: seq<Raw>,
        timeline: seq<Raw>,
        limited: bool,
        prevBatch: Option<string>,
        accountData: seq<RoomAccountRaw>,
        unread: Counts)
    | LeaveUpdate(state: seq<Raw>, timeline: seq<Raw>, accountData: seq<RoomAccountRaw>)
    | InviteUpdate(stripped: seq<StrippedRaw>)
    | KnockUpdate(stripped: seq<StrippedRaw>)

  /** A response; its four disjoint room sections are one map of tagged updates. */
  datatype Response = Response(nextBatch: Token, rooms: map<RoomId, RoomUpdate>, accountData: seq<AccountRaw>)

  function SectionState(u: RoomUpdate): RoomState {
    match u
    case JoinUpdate(_, _, _, _, _, _, _, _) => Joined
    case LeaveUpdate(_, _, _) => Left
    case InviteUpdate(_) => Invited
    case KnockUpdate(_) => Knocked
  }

  predicate HasFullState(u: RoomUpdate) {
    u.JoinUpdate? || u.LeaveUpdate?
  }

  function NotableTags(tags: set<string>): set<NotableTag> {
    (if "m.favourite" in tags then {Favourite} else {}) + (if "m.lowpriority" in tags then {LowPriority} else {})
  }

  function ApplyRoomEvent(info: RoomInfo, e: RoomAccountEvent): RoomInfo {
    match e
    case MarkedUnread(b) => info.(isMarkedUnread := b)
    case UnstableMarkedUnread(b) => info.(isMarkedUnread := b)
    case Tag(tags) => info.(notableTags := NotableTags(tags))
    case OtherRoomData(_) => info
  }

  function ApplyRoomAccount(info: RoomInfo, raws: seq<RoomAccountRaw>): RoomInfo {
    if raws == [] then info
    else
      var rest, last := ApplyRoomAccount(info, raws[..|raws| - 1]), raws[|raws| - 1];
      if last.parsed.Some? then ApplyRoomEvent(rest, last.parsed.value) else rest
  }

  /** The unread marker of the last account data event that sets one. */
  function LastMarker(raws: seq<RoomAccountRaw>): Option<bool> {
    if raws == [] then None
    else
      match raws[|raws| - 1].parsed
      case Some(MarkedUnread(b)) => Some(b)
      case Some(UnstableMarkedUnread(b)) => Some(b)
      case _ => LastMarker(raws[..|raws| - 1])
  }

  lemma {:induction false} RoomAccountMarker(info: RoomInfo, raws: seq<RoomAccountRaw>)
    ensures var out := ApplyRoomAccount(info, raws);
            && out.isMarkedUnread == LastMarker(raws).UnwrapOr(info.isMarkedUnread)
            && out == info.(isMarkedUnread := out.isMarkedUnread, notableTags := out.notableTags)
  {
    if raws == [] {
    } else {
      RoomAccountMarker(info, raws[..|raws| - 1]);
    }
  }

  /** The record of a joined room before its events are handled. */
  function PrepareJoin(was: RoomInfo, u: RoomUpdate): RoomInfo
    requires u.JoinUpdate?
  {
    was.SetState(Joined).(
      joinedCount := u.joinedCount.UnwrapOr(was.joinedCount),
      invitedCount := u.invitedCount.UnwrapOr(was.invitedCount),
      lastPrevBatch := u.prevBatch,
      syncInfo := FullySynced)
  }

  /** The record between the state block and the timeline. */
  function AfterState(was: RoomInfo, u: RoomUpdate): RoomInfo
    requires HasFullState(u)
  {
    var prepared := if u.JoinUpdate? then PrepareJoin(was, u) else was.SetState(Left).(syncInfo := PartiallySynced);
    var info := HandleStateEvents(prepared, Writes(u.state));
    if u.JoinUpdate? && u.limited then info.(membersSynced := false) else info
  }

  function AfterTimeline(was: RoomInfo, u: RoomUpdate): RoomInfo
    requires HasFullState(u)
  {
    HandleStateEvents(AfterState(was, u), Writes(u.timeline))
  }

  /** Stripped events that deserialize. */
  function StrippedEvents(raws: seq<StrippedRaw>): (ps: seq<StrippedRaw>)
    ensures forall p <- ps :: p.parsed.Some?
  {
    if raws == [] then []
    else
      var last := raws[|raws| - 1];
      StrippedEvents(raws[..|raws| - 1]) + if last.parsed.Some? then [last] else []
  }

  /** The record's reaction to one stripped event; a redacted one cannot turn encryption off. */
  function HandleStrippedEvent(info: RoomInfo, e: StateEvent): RoomInfo {
    match e.content
    case Encryption(Some(a)) => info.(encryption := Some(a))
    case Visibility(v) => info.(historyVisibility := v)
    case _ => info
  }

  function HandleStripped(info: RoomInfo, ps: seq<StrippedRaw>): RoomInfo
    requires forall p <- ps :: p.parsed.Some?
  {
    if ps == [] then info
    else HandleStrippedEvent(HandleStripped(info, ps[..|ps| - 1]), ps[|ps| - 1].parsed.value)
  }

  /** The last stripped event per slot. */
  function StrippedOverlay(ps: seq<StrippedRaw>): (m: StrippedMap)
    requires forall p <- ps :: p.parsed.Some?
    ensures forall s <- m :: m[s] in ps && SlotOf(m[s].parsed.value) == s
  {
    if ps == [] then map[]
    else StrippedOverlay(ps[..|ps| - 1])[SlotOf(ps[|ps| - 1].parsed.value) := ps[|ps| - 1]]
  }

  /** The stripped event at `i` is the last one of its slot. */
  ghost predicate IsLastStripped(ps: seq<StrippedRaw>, i: nat)
    requires forall p <- ps :: p.parsed.Some?
  {
    i < |ps| && forall j :: i < j < |ps| ==> SlotOf(ps[j].parsed.value) != SlotOf(ps[i].parsed.value)
  }

  lemma {:induction false} StrippedSlotHoldsLast(ps: seq<StrippedRaw>, i: nat)
    requires (forall p <- ps :: p.parsed.Some?) && IsLastStripped(ps, i)
    ensures Lookup(StrippedOverlay(ps), SlotOf(ps[i].parsed.value)) == Some(ps[i])
  {
    if i < |ps| - 1 {
      var init := ps[..|ps| - 1];
      assert IsLastStripped(init, i);
      StrippedSlotHoldsLast(init, i);
      assert SlotOf(ps[|ps| - 1].parsed.value) != SlotOf(ps[i].parsed.value);
    }
  }

  lemma LastStrippedExists(ps: seq<StrippedRaw>, i: nat) returns (j: nat)
    requires (forall p <- ps :: p.parsed.Some?) && i < |ps|
    ensures IsLastStripped(ps, j) && SlotOf(ps[j].parsed.value) == SlotOf(ps[i].parsed.value)
    decreases |ps| - i
  {
    if k: nat :| i < k < |ps| && SlotOf(ps[k].parsed.value) == SlotOf(ps[i].parsed.value) {
      j := LastStrippedExists(ps, k);
    } else {
      j := i;
    }
  }

  /** Exactly the slots of some event are there, each with the last event of it. */
  ghost predicate KeepsLast(m: StrippedMap, ps: seq<StrippedRaw>)
    requires forall p <- ps :: p.parsed.Some?
  {
    && (forall p <- ps :: SlotOf(p.parsed.value) in m)
    && (forall s <- m :: exists j: nat :: IsLastStripped(ps, j) && SlotOf(ps[j].parsed.value) == s && m[s] == ps[j])
  }

  /** Stripped state, too, is last-writer-wins. */
  lemma StrippedIsLastWriterWins(ps: seq<StrippedRaw>)
    requires forall p <- ps :: p.parsed.Some?
    ensures KeepsLast(StrippedOverlay(ps), ps)
  {
    var m := StrippedOverlay(ps);
    forall i | 0 <= i < |ps|
      ensures SlotOf(ps[i].parsed.value) in m
    {
      var j := LastStrippedExists(ps, i);
      StrippedSlotHoldsLast(ps, j);
    }
    forall s | s in m
      ensures exists j: nat :: IsLastStripped(ps, j) && SlotOf(ps[j].parsed.value) == s && m[s] == ps[j]
    {
      var i: nat :| i < |ps| && ps[i] == m[s];
      var j := LastStrippedExists(ps, i);
      StrippedSlotHoldsLast(ps, j);
    }
  }

  function UpdatedInfo(was: RoomInfo, u: RoomUpdate): RoomInfo {
    match u
    case JoinUpdate(_, _, _, _, _, _, data, unread) =>
      ApplyRoomAccount(AfterTimeline(was, u), data).(notificationCounts := unread)
    case LeaveUpdate(_, _, data) =>
      ApplyRoomAccount(AfterTimeline(was, u), data)
    case InviteUpdate(raws) =>
      HandleStripped(was.SetState(Invited).(syncInfo := FullySynced), StrippedEvents(raws))
    case KnockUpdate(raws) =>
      HandleStripped(was.SetState(Knocked).(syncInfo := FullySynced), StrippedEvents(raws))
  }

  lemma StrippedInfo(was: RoomInfo, u: RoomUpdate)
    requires !HasFullState(u)
    ensures UpdatedInfo(was, u) ==
            HandleStripped(was.SetState(SectionState(u)).(syncInfo := FullySynced), StrippedEvents(u.stripped))
  {
  }

  lemma StrippedEventFrame(info: RoomInfo, e: StateEvent)
    ensures var out := HandleStrippedEvent(info, e);
            && (out.IsEncrypted() <==> info.IsEncrypted() || EnablesEncryption(e))
            && out == info.(encryption := out.encryption, historyVisibility := out.historyVisibility)
  {
  }

  lemma {:induction false} HandleStrippedFrame(info: RoomInfo, ps: seq<StrippedRaw>)
    requires forall p <- ps :: p.parsed.Some?
    ensures var out := HandleStripped(info, ps);
            && (out.IsEncrypted() <==> info.IsEncrypted() || exists p <- ps :: EnablesEncryption(p.parsed.value))
            && out == info.(encryption := out.encryption, historyVisibility := out.historyVisibility)
  {
    if ps == [] {
    } else {
      var init, last := ps[..|ps| - 1], ps[|ps| - 1];
      HandleStrippedFrame(info, init);
      StrippedEventFrame(HandleStripped(info, init), last.parsed.value);
      assert forall p :: p in ps <==> p in init || p == last by {
        assert ps == init + [last];
      }
    }
  }

  /** Every update puts the room in the state of its section, never turns
      encryption off, and leaves its identity and direct targets alone. */
  lemma UpdatedInfoFrame(was: RoomInfo, u: RoomUpdate)
    ensures var out := UpdatedInfo(was, u);
            && out.roomState == SectionState(u)
            && out.roomId == was.roomId
            && out.dmTargets == was.dmTargets
            && (was.IsEncrypted() ==> out.IsEncrypted())
  {
    match u
    case JoinUpdate(_, _, state, timeline, _, _, data, _) =>
      HandleStateEventsEncryption(PrepareJoin(was, u), Writes(state));
      HandleStateEventsEncryption(AfterState(was, u), Writes(timeline));
      RoomAccountMarker(AfterTimeline(was, u), data);
    case LeaveUpdate(state, timeline, data) =>
      HandleStateEventsEncryption(was.SetState(Left).(syncInfo := PartiallySynced), Writes(state));
      HandleStateEventsEncryption(AfterState(was, u), Writes(timeline));
      RoomAccountMarker(AfterTimeline(was, u), data);
    case InviteUpdate(raws) =>
      HandleStrippedFrame(was.SetState(Invited).(syncInfo := FullySynced), StrippedEvents(raws));
    case KnockUpdate(raws) =>
      HandleStrippedFrame(was.SetState(Knocked).(syncInfo := FullySynced), StrippedEvents(raws));
  }

  /** The record of a joined room carries both the last unread marker of its
      account data and the new notification counts. */
  lemma JoinKeepsMarkerAndCounts(was: RoomInfo, u: RoomUpdate)
    requires u.JoinUpdate?
    ensures UpdatedInfo(was, u).isMarkedUnread == LastMarker(u.accountData).UnwrapOr(was.isMarkedUnread)
    ensures UpdatedInfo(was, u).notificationCounts == u.unread
  {
    HandleStateEventsEncryption(PrepareJoin(was, u), Writes(u.state));
    HandleStateEventsEncryption(AfterState(was, u), Writes(u.timeline));
    RoomAccountMarker(AfterTimeline(was, u), u.accountData);
  }

  /** The state events a full report contains, in order. */
  function Reported(u: RoomUpdate): seq<Write>
    requires HasFullState(u)
  {
    Writes(u.state) + Writes(u.timeline)
  }

  function GatheredState(u: RoomUpdate): StateMap
    requires HasFullState(u)
  {
    Overlay(map[], Writes(u.state) + Writes(u.timeline))
  }

  function CollectedUsers(u: RoomUpdate): set<UserId>
    requires HasFullState(u)
  {
    UsersAfter(EverActive(Writes(u.state)), Writes(u.timeline))
  }

  // ---- The store ----

  datatype Persisted = Persisted(
    infos: RoomInfos,
    state: map<RoomId, StateMap>,
    strippedMembers: map<RoomId, map<UserId, Membership>>,
    accountData: map<AccountType, AccountRaw>,
    token: Option<Token>)

  /** The value of a `StateChanges` accumulator. */
  datatype Changes = Changes(
    token: Option<Token>,
    infos: RoomInfos,
    state: map<RoomId, StateMap>,
    stripped: map<RoomId, StrippedMap>,
    accountData: map<AccountType, AccountRaw>)

  function MembersOfStripped(m: StrippedMap): map<UserId, Membership> {
    map u | u in (set s <- m :: s.key) && MemberSlot(u) in m && m[MemberSlot(u)].parsed.Some?
            && IsMember(m[MemberSlot(u)].parsed.value) ::
      m[MemberSlot(u)].parsed.value.content.membership
  }

  predicate HasMember(m: StateMap) {
    exists s <- m :: s.kind.RoomMember? && IsState(m[s]) && IsMember(m[s].parsed.value.event)
  }

  /** Stripped members of a room are dropped once a full member event arrives. */
  function KeptStripped(p: Persisted, c: Changes, r: RoomId): map<UserId, Membership> {
    if r in p.strippedMembers && !(r in c.state && HasMember(c.state[r])) then p.strippedMembers[r] else map[]
  }

  function SaveChanges(p: Persisted, c: Changes): Persisted {
    Persisted(
      p.infos + c.infos,
      map r | r in p.state.Keys + c.state.Keys :: GetOr(p.state, r, map[]) + GetOr(c.state, r, map[]),
      map r | r in p.strippedMembers.Keys + c.stripped.Keys ::
        KeptStripped(p, c, r) + MembersOfStripped(GetOr(c.stripped, r, map[])),
      p.accountData + c.accountData,
      if c.token.Some? then c.token else p.token)
  }

  function StoredState(p: Persisted, r: RoomId): StateMap {
    GetOr(p.state, r, map[])
  }

  lemma SavedState(p: Persisted, c: Changes, r: RoomId)
    ensures StoredState(SaveChanges(p, c), r) == StoredState(p, r) + GetOr(c.state, r, map[])
  {
  }

  predicate Matches(m: Membership, joinOnly: bool) {
    m.Join? || (!joinOnly && m.Invite?)
  }

  function StrippedUsers(p: Persisted, r: RoomId, joinOnly: bool): set<UserId> {
    var members := GetOr(p.strippedMembers, r, map[]);
    set u <- members | Matches(members[u], joinOnly)
  }

  function FullUsers(p: Persisted, r: RoomId, joinOnly: bool): set<UserId> {
    var m := StoredState(p, r);
    set s <- m | s.kind.RoomMember? && IsState(m[s]) && IsMember(m[s].parsed.value.event)
                 && Matches(m[s].parsed.value.event.content.membership, joinOnly) :: s.key
  }

  /** The store's member query: stripped members, when there are any, hide the full ones. */
  function UserIds(p: Persisted, r: RoomId, joinOnly: bool): set<UserId> {
    if StrippedUsers(p, r, joinOnly) != {} then StrippedUsers(p, r, joinOnly) else FullUsers(p, r, joinOnly)
  }

  // ---- The client ----

  datatype ClientState = ClientState(
    persisted: Persisted,
    rooms: RoomInfos,
    token: Option<Token>,
    tracked: set<UserId>)

  /** Whom a room key is shared with; invited members are left out where only
      joined ones may read, and nobody gets one without encryption settings. */
  function KeyRecipients(st: ClientState, r: RoomId): Option<set<UserId>> {
    if r !in st.rooms || !st.rooms[r].IsEncrypted() then None
    else Some(UserIds(st.persisted, r, st.rooms[r].historyVisibility == Some(VisibleToJoined)))
  }

  /** The membership of a user according to the room's stripped members if it has
      any that match, else according to its stored member event. */
  function KnownMembership(p: Persisted, r: RoomId, u: UserId, joinOnly: bool): Option<Membership> {
    if StrippedUsers(p, r, joinOnly) != {} then Lookup(GetOr(p.strippedMembers, r, map[]), u)
    else MembershipIn(StoredState(p, r), u)
  }

  /** A room key goes to exactly the users known as joined, and to those known as
      invited unless only joined members may read the history. */
  lemma RecipientsByMembership(st: ClientState, r: RoomId, u: UserId)
    requires KeyRecipients(st, r).Some?
    ensures var joinOnly := st.rooms[r].historyVisibility == Some(VisibleToJoined);
            var m := KnownMembership(st.persisted, r, u, joinOnly);
            u in KeyRecipients(st, r).value <==> m == Some(Join) || (m == Some(Invite) && !joinOnly)
  {
    var joinOnly := st.rooms[r].historyVisibility == Some(VisibleToJoined);
    if StrippedUsers(st.persisted, r, joinOnly) == {} {
      var m := StoredState(st.persisted, r);
      assert u in FullUsers(st.persisted, r, joinOnly) <==>
        MemberSlot(u) in m && IsState(m[MemberSlot(u)]) && IsMember(m[MemberSlot(u)].parsed.value.event)
        && Matches(m[MemberSlot(u)].parsed.value.event.content.membership, joinOnly) by {
        assert MemberSlot(u).key == u;
      }
    }
  }

  /** The rooms in memory once the given rooms of a response have been looked up. */
  function Created(rooms: RoomInfos, resp: Response, done: set<RoomId>): RoomInfos {
    map r | r in rooms.Keys + (done * resp.rooms.Keys) ::
      if r in rooms then rooms[r] else NewRoomInfo(r, SectionState(resp.rooms[r]))
  }

  function OldInfo(rooms: RoomInfos, resp: Response, r: RoomId): RoomInfo
    requires r in resp.rooms
  {
    GetOr(rooms, r, NewRoomInfo(r, SectionState(resp.rooms[r])))
  }

  function SectionInfos(rooms: RoomInfos, resp: Response, done: set<RoomId>): RoomInfos {
    map r | r in done && r in resp.rooms :: UpdatedInfo(OldInfo(rooms, resp, r), resp.rooms[r])
  }

  function SectionStates(resp: Response, done: set<RoomId>): map<RoomId, StateMap> {
    map r | r in done && r in resp.rooms && HasFullState(resp.rooms[r]) :: GatheredState(resp.rooms[r])
  }

  function SectionStripped(resp: Response, done: set<RoomId>): map<RoomId, StrippedMap> {
    map r | r in done && r in resp.rooms && !HasFullState(resp.rooms[r]) ::
      StrippedOverlay(StrippedEvents(resp.rooms[r].stripped))
  }

  /** The users an update of a joined, encrypted room puts under device tracking. */
  function ToTrack(p: Persisted, was: RoomInfo, r: RoomId, u: RoomUpdate): set<UserId> {
    if u.JoinUpdate? && UpdatedInfo(was, u).IsEncrypted()
    then CollectedUsers(u) + if was.IsEncrypted() then {} else UserIds(p, r, false)
    else {}
  }

  function SectionTracked(p: Persisted, rooms: RoomInfos, resp: Response, done: set<RoomId>): set<UserId> {
    set r, u | r in done && r in resp.rooms && u in ToTrack(p, OldInfo(rooms, resp, r), r, resp.rooms[r]) :: u
  }

  /** The `m.direct` contents a sync reconciles with: its own, else the stored one. */
  function DirectsToApply(p: Persisted, resp: Response, directReadOk: bool): seq<DirectContent> {
    var events := ParsedEvents(resp.accountData);
    if HasDirect(events) then DirectContents(events)
    else if directReadOk && StoredDirect(p.accountData).Some? then [StoredDirect(p.accountData).value]
    else []
  }

  function SyncChanges(st: ClientState, resp: Response, directReadOk: bool): Changes {
    var all := resp.rooms.Keys;
    var rooms := Created(st.rooms, resp, all);
    Changes(
      Some(resp.nextBatch),
      ReconcileAll(SectionInfos(st.rooms, resp, all), rooms, DirectsToApply(st.persisted, resp, directReadOk)),
      SectionStates(resp, all),
      SectionStripped(resp, all),
      RawByType(resp.accountData))
  }

  function ApplyInfos(rooms: RoomInfos, infos: RoomInfos): RoomInfos {
    map r <- rooms :: GetOr(infos, r, rooms[r])
  }

  /** The records a sync saves: those of its rooms, and rooms in memory whose targets changed. */
  lemma SyncInfosFrame(st: ClientState, resp: Response, directReadOk: bool)
    ensures var infos, rooms := SyncChanges(st, resp, directReadOk).infos, Created(st.rooms, resp, resp.rooms.Keys);
            && resp.rooms.Keys <= infos.Keys <= rooms.Keys
            && (forall r <- infos :: SameButTargets(infos[r],
                  if r in resp.rooms then UpdatedInfo(OldInfo(st.rooms, resp, r), resp.rooms[r]) else rooms[r]))
  {
    var all := resp.rooms.Keys;
    ReconcileAllFrame(SectionInfos(st.rooms, resp, all), Created(st.rooms, resp, all), DirectsToApply(st.persisted, resp, directReadOk));
  }

  /** A response that was processed and saved. */
  function Processed(st: ClientState, resp: Response, directReadOk: bool): ClientState {
    var changes := SyncChanges(st, resp, directReadOk);
    ClientState(
      SaveChanges(st.persisted, changes),
      ApplyInfos(Created(st.rooms, resp, resp.rooms.Keys), changes.infos),
      Some(resp.nextBatch),
      st.tracked + SectionTracked(st.persisted, st.rooms, resp, resp.rooms.Keys))
  }

  /** What a failed sync leaves behind: empty rooms in memory and tracked users. */
  function Abandoned(st: ClientState, resp: Response, created: set<RoomId>, tracked: set<UserId>): ClientState {
    st.(rooms := Created(st.rooms, resp, created), tracked := st.tracked + tracked)
  }

  /** `room_joined`, `room_left` and `room_knocked`. */
  function MarkedAs(info: RoomInfo, target: RoomState): RoomInfo {
    info.SetState(target).(syncInfo := PartiallySynced, membersSynced := false)
  }

  function Transition(st: ClientState, r: RoomId, target: RoomState, saveOk: bool): ClientState {
    var rooms := st.rooms[r := GetOr(st.rooms, r, NewRoomInfo(r, target))];
    var info := MarkedAs(rooms[r], target);
    if rooms[r].roomState == target || !saveOk then st.(rooms := rooms)
    else
      st.(rooms := rooms[r := info],
          persisted := SaveChanges(st.persisted, Changes(None, map[r := info], map[], map[], map[])))
  }

  /** `receive_all_members` for an unfiltered request. */
  function MemberWrites(chunk: seq<Raw>): seq<Write> {
    if chunk == [] then []
    else
      var last := chunk[|chunk| - 1];
      MemberWrites(chunk[..|chunk| - 1]) +
      if IsState(last) && IsMember(last.parsed.value.event) then [Write(last, last.parsed.value.event)] else []
  }

  function MemberChanges(info: RoomInfo, r: RoomId, chunk: seq<Raw>): Changes {
    var ws := MemberWrites(chunk);
    Changes(None, map[r := info.(membersSynced := true)], if ws == [] then map[] else map[r := Overlay(map[], ws)], map[], map[])
  }

  function ReceivedMembers(st: ClientState, r: RoomId, chunk: seq<Raw>, saveOk: bool): ClientState {
    if r !in st.rooms then st
    else
      var changes := MemberChanges(st.rooms[r], r, chunk);
      var tracked := if st.rooms[r].IsEncrypted() then st.tracked + EverActive(MemberWrites(chunk)) else st.tracked;
      if !saveOk then st.(tracked := tracked)
      else
        ClientState(SaveChanges(st.persisted, changes), ApplyInfos(st.rooms, changes.infos), st.token, tracked)
  }
}
