/** How a run of state events folds into the room's state map, its record and
    the set of active users. */
module StateFold {
  import opened Types

  /** A state event together with the raw event it was read from. */
  datatype Write = Write(raw: Raw, event: StateEvent)

  predicate IsState(raw: Raw) {
    raw.parsed.Some? && raw.parsed.value.State?
  }

  /** The raw events that deserialize to state events, in order. */
  function Writes(raws: seq<Raw>): (ws: seq<Write>)
    ensures forall w <- ws :: IsState(w.raw) && w.raw.parsed.value.event == w.event
  {
    if raws == [] then []
    else
      var init, last := raws[..|raws| - 1], raws[|raws| - 1];
      Writes(init) + if IsState(last) then [Write(last, last.parsed.value.event)] else []
  }

  /** Contents of one event type. */
  ghost predicate SameType(a: StateContent, b: StateContent) {
    || (a.Member? && b.Member?) || (a.Encryption? && b.Encryption?) || (a.Visibility? && b.Visibility?)
    || (a.Power? && b.Power?) || (a.OtherState? && b.OtherState? && a.name == b.name)
  }

  /** Events write to one slot exactly if they have one type and one state key. */
  lemma SlotsSeparate(a: StateEvent, b: StateEvent)
    ensures SlotOf(a) == SlotOf(b) <==> SameType(a.content, b.content) && a.stateKey == b.stateKey
  {
  }

  /** Writing each event over the previous content of its slot. */
  function Overlay(base: StateMap, ws: seq<Write>): StateMap {
    if ws == [] then base
    else
      var w := ws[|ws| - 1];
      Overlay(base, ws[..|ws| - 1])[SlotOf(w.event) := w.raw]
  }

  lemma {:induction false} OverlayConcat(base: StateMap, a: seq<Write>, b: seq<Write>)
    ensures Overlay(base, a + b) == Overlay(Overlay(base, a), b)
  {
    if b == [] {
      assert a + b == a;
    } else {
      var c := a + b;
      assert c[..|c| - 1] == a + b[..|b| - 1];
      OverlayConcat(base, a, b[..|b| - 1]);
    }
  }

  /** The write at `i` is the last one to its slot. */
  ghost predicate IsLastWrite(ws: seq<Write>, i: nat) {
    i < |ws| && forall j :: i < j < |ws| ==> SlotOf(ws[j].event) != SlotOf(ws[i].event)
  }

  lemma {:induction false} WrittenSlotHoldsLastWrite(base: StateMap, ws: seq<Write>, i: nat)
    requires IsLastWrite(ws, i)
    ensures Lookup(Overlay(base, ws), SlotOf(ws[i].event)) == Some(ws[i].raw)
  {
    if i < |ws| - 1 {
      var init := ws[..|ws| - 1];
      assert IsLastWrite(init, i);
      WrittenSlotHoldsLastWrite(base, init, i);
      assert SlotOf(ws[|ws| - 1].event) != SlotOf(ws[i].event);
    }
  }

  lemma {:induction false} UnwrittenSlotKept(base: StateMap, ws: seq<Write>, s: Slot)
    requires forall w <- ws :: SlotOf(w.event) != s
    ensures Lookup(Overlay(base, ws), s) == Lookup(base, s)
  {
    if ws == [] {
    } else {
      assert ws[|ws| - 1] in ws && forall w <- ws[..|ws| - 1] :: w in ws;
      UnwrittenSlotKept(base, ws[..|ws| - 1], s);
    }
  }

  /** Every write to a slot is the last one or followed by another. */
  lemma LastWriteExists(ws: seq<Write>, i: nat) returns (j: nat)
    requires i < |ws|
    ensures IsLastWrite(ws, j) && SlotOf(ws[j].event) == SlotOf(ws[i].event)
    decreases |ws| - i
  {
    if k: nat :| i < k < |ws| && SlotOf(ws[k].event) == SlotOf(ws[i].event) {
      j := LastWriteExists(ws, k);
    } else {
      j := i;
    }
  }

  /** The state map is last-writer-wins: a slot holds the raw event of the last
      write to it, and what it held before if nothing wrote to it. */
  lemma OverlayIsLastWriterWins(base: StateMap, ws: seq<Write>, s: Slot)
    ensures (forall w <- ws :: SlotOf(w.event) != s) ==> Lookup(Overlay(base, ws), s) == Lookup(base, s)
    ensures (exists w <- ws :: SlotOf(w.event) == s) ==>
              exists j: nat :: IsLastWrite(ws, j) && SlotOf(ws[j].event) == s && Lookup(Overlay(base, ws), s) == Some(ws[j].raw)
  {
    if w :| w in ws && SlotOf(w.event) == s {
      var i: nat :| i < |ws| && ws[i] == w;
      var j := LastWriteExists(ws, i);
      WrittenSlotHoldsLastWrite(base, ws, j);
    } else {
      UnwrittenSlotKept(base, ws, s);
    }
  }

  /** Every entry was written to the slot it deserializes to. */
  ghost predicate WellKeyed(m: StateMap) {
    forall s <- m :: IsState(m[s]) && SlotOf(m[s].parsed.value.event) == s
  }

  lemma {:induction false} OverlayWellKeyed(base: StateMap, ws: seq<Write>)
    requires WellKeyed(base)
    requires forall w <- ws :: IsState(w.raw) && w.raw.parsed.value.event == w.event
    ensures WellKeyed(Overlay(base, ws))
  {
    if ws == [] {
    } else {
      OverlayWellKeyed(base, ws[..|ws| - 1]);
    }
  }

  // ---- The room record ----

  /** The record's reaction to one state event; enabling encryption cannot be
      undone by redacting the event. */
  function HandleStateEvent(info: RoomInfo, e: StateEvent): RoomInfo {
    match e.content
    case Encryption(Some(a)) => info.(encryption := Some(a), encryptionStateSynced := true)
    case Encryption(None) => if info.IsEncrypted() then info.(encryptionStateSynced := true) else info
    case Visibility(v) => info.(historyVisibility := v)
    case _ => info
  }

  function HandleStateEvents(info: RoomInfo, ws: seq<Write>): RoomInfo {
    if ws == [] then info
    else HandleStateEvent(HandleStateEvents(info, ws[..|ws| - 1]), ws[|ws| - 1].event)
  }

  predicate EnablesEncryption(e: StateEvent) {
    e.content.Encryption? && e.content.algorithm.Some?
  }

  lemma StateEventFrame(info: RoomInfo, e: StateEvent)
    ensures var out := HandleStateEvent(info, e);
            && (out.IsEncrypted() <==> info.IsEncrypted() || EnablesEncryption(e))
            && out == info.(encryption := out.encryption, encryptionStateSynced := out.encryptionStateSynced,
                            historyVisibility := out.historyVisibility)
  {
  }

  /** A run of state events leaves the room encrypted exactly if it was, or one
      of them enables encryption; it touches no field outside the state. */
  lemma {:induction false} HandleStateEventsEncryption(info: RoomInfo, ws: seq<Write>)
    ensures HandleStateEvents(info, ws).IsEncrypted() <==>
            info.IsEncrypted() || exists w <- ws :: EnablesEncryption(w.event)
    ensures var out := HandleStateEvents(info, ws);
            out == info.(encryption := out.encryption, encryptionStateSynced := out.encryptionStateSynced,
                         historyVisibility := out.historyVisibility)
  {
    if ws == [] {
    } else {
      var init, w := ws[..|ws| - 1], ws[|ws| - 1];
      HandleStateEventsEncryption(info, init);
      StateEventFrame(HandleStateEvents(info, init), w.event);
      assert forall v :: v in ws <==> v in init || v == w by {
        assert ws == init + [w];
      }
    }
  }

  /** The content of the last history visibility event. */
  function LastVisibility(ws: seq<Write>): Option<Option<HistoryVisibility>> {
    if ws == [] then None
    else if ws[|ws| - 1].event.content.Visibility? then Some(ws[|ws| - 1].event.content.visibility)
    else LastVisibility(ws[..|ws| - 1])
  }

  /** The algorithm of the last event that enables encryption. */
  function LastAlgorithm(ws: seq<Write>): Option<string> {
    if ws == [] then None
    else if EnablesEncryption(ws[|ws| - 1].event) then ws[|ws| - 1].event.content.algorithm
    else LastAlgorithm(ws[..|ws| - 1])
  }

  /** A record holds the content of the last visibility event and the algorithm of
      the last event that enables encryption, else what it held before. */
  lemma {:induction false} RecordByLastEvents(info: RoomInfo, ws: seq<Write>)
    ensures HandleStateEvents(info, ws).historyVisibility == LastVisibility(ws).UnwrapOr(info.historyVisibility)
    ensures HandleStateEvents(info, ws).encryption ==
            if LastAlgorithm(ws).Some? then LastAlgorithm(ws) else info.encryption
  {
    if ws == [] {
    } else {
      RecordByLastEvents(info, ws[..|ws| - 1]);
    }
  }

  /** The encryption state counts as synced once an encryption event meets or makes
      an encrypted room. */
  lemma {:induction false} EncryptionSynced(info: RoomInfo, ws: seq<Write>)
    ensures HandleStateEvents(info, ws).encryptionStateSynced <==>
            || info.encryptionStateSynced
            || (exists w <- ws :: EnablesEncryption(w.event))
            || (info.IsEncrypted() && exists w <- ws :: w.event.content.Encryption?)
  {
    if ws == [] {
    } else {
      var init, w := ws[..|ws| - 1], ws[|ws| - 1];
      EncryptionSynced(info, init);
      HandleStateEventsEncryption(info, init);
      assert forall v :: v in ws <==> v in init || v == w by {
        assert ws == init + [w];
      }
    }
  }

  lemma {:induction false} LastEventsConcat(a: seq<Write>, b: seq<Write>)
    ensures LastVisibility(a + b) == if LastVisibility(b).Some? then LastVisibility(b) else LastVisibility(a)
    ensures LastAlgorithm(a + b) == if LastAlgorithm(b).Some? then LastAlgorithm(b) else LastAlgorithm(a)
  {
    if b == [] {
      assert a + b == a;
    } else {
      var c := a + b;
      assert c[..|c| - 1] == a + b[..|b| - 1];
      LastEventsConcat(a, b[..|b| - 1]);
    }
  }

  // ---- Members ----

  predicate IsMember(e: StateEvent) {
    e.content.Member?
  }

  predicate IsActiveMember(e: StateEvent) {
    e.content.Member? && IsActive(e.content.membership)
  }

  /** The users whose entry in a state map is a joined or invited member. */
  function ActiveIn(m: StateMap): set<UserId> {
    set s <- m | s.kind.RoomMember? && IsState(m[s]) && IsActiveMember(m[s].parsed.value.event) :: s.key
  }

  /** The users of a state block that it reports as active at least once. */
  function EverActive(ws: seq<Write>): set<UserId> {
    set i | 0 <= i < |ws| && IsActiveMember(ws[i].event) :: ws[i].event.stateKey
  }

  /** A timeline adds the users it reports as active and removes the others it
      has a membership for. */
  function UsersAfter(users: set<UserId>, ws: seq<Write>): set<UserId> {
    if ws == [] then users
    else
      var prev, e := UsersAfter(users, ws[..|ws| - 1]), ws[|ws| - 1].event;
      if !IsMember(e) then prev
      else if IsActiveMember(e) then prev + {e.stateKey}
      else prev - {e.stateKey}
  }

  /** The membership last reported for a user. */
  function LastMembership(ws: seq<Write>, u: UserId): Option<Membership> {
    if ws == [] then None
    else
      var e := ws[|ws| - 1].event;
      if IsMember(e) && e.stateKey == u then Some(e.content.membership)
      else LastMembership(ws[..|ws| - 1], u)
  }

  lemma {:induction false} LastMembershipConcat(a: seq<Write>, b: seq<Write>, u: UserId)
    ensures LastMembership(a + b, u) ==
            if LastMembership(b, u).Some? then LastMembership(b, u) else LastMembership(a, u)
  {
    if b == [] {
      assert a + b == a;
    } else {
      var c := a + b;
      assert c[..|c| - 1] == a + b[..|b| - 1];
      LastMembershipConcat(a, b[..|b| - 1], u);
    }
  }

  lemma {:induction false} UsersAfterByLastMembership(users: set<UserId>, ws: seq<Write>, u: UserId)
    ensures u in UsersAfter(users, ws) <==>
            (match LastMembership(ws, u) case Some(m) => IsActive(m) case None => u in users)
  {
    if ws == [] {
    } else {
      UsersAfterByLastMembership(users, ws[..|ws| - 1], u);
    }
  }

  lemma InActiveIn(m: StateMap, u: UserId)
    ensures u in ActiveIn(m) <==>
            MemberSlot(u) in m && IsState(m[MemberSlot(u)]) && IsActiveMember(m[MemberSlot(u)].parsed.value.event)
  {
  }

  lemma {:induction false} ActiveInByLastMembership(base: StateMap, ws: seq<Write>, u: UserId)
    requires forall w <- ws :: IsState(w.raw) && w.raw.parsed.value.event == w.event
    ensures u in ActiveIn(Overlay(base, ws)) <==>
            (match LastMembership(ws, u) case Some(m) => IsActive(m) case None => u in ActiveIn(base))
  {
    InActiveIn(Overlay(base, ws), u);
    InActiveIn(base, u);
    if ws == [] {
    } else {
      ActiveInByLastMembership(base, ws[..|ws| - 1], u);
      InActiveIn(Overlay(base, ws[..|ws| - 1]), u);
      var w := ws[|ws| - 1];
      assert w in ws;
    }
  }

  /** The membership a state map has for a user. */
  function MembershipIn(m: StateMap, u: UserId): Option<Membership> {
    var s := MemberSlot(u);
    if s in m && IsState(m[s]) && IsMember(m[s].parsed.value.event)
    then Some(m[s].parsed.value.event.content.membership)
    else None
  }

  lemma {:induction false} MembershipByLastEvent(base: StateMap, ws: seq<Write>, u: UserId)
    requires forall w <- ws :: IsState(w.raw) && w.raw.parsed.value.event == w.event
    ensures MembershipIn(Overlay(base, ws), u) ==
            if LastMembership(ws, u).Some? then LastMembership(ws, u) else MembershipIn(base, u)
  {
    if ws == [] {
    } else {
      assert ws[|ws| - 1] in ws;
      MembershipByLastEvent(base, ws[..|ws| - 1], u);
    }
  }

  lemma {:induction false} OverlayOnto(base: StateMap, ws: seq<Write>)
    ensures Overlay(base, ws) == base + Overlay(map[], ws)
  {
    if ws == [] {
    } else {
      OverlayOnto(base, ws[..|ws| - 1]);
    }
  }

  lemma {:induction false} EverActiveSeesLastMembership(ws: seq<Write>, u: UserId)
    ensures LastMembership(ws, u).Some? && IsActive(LastMembership(ws, u).value) ==> u in EverActive(ws)
    ensures u in EverActive(ws) ==> LastMembership(ws, u).Some?
  {
    if ws == [] {
    } else {
      var init := ws[..|ws| - 1];
      EverActiveSeesLastMembership(init, u);
      assert forall i :: 0 <= i < |init| ==> ws[i] == init[i];
      assert u in EverActive(init) ==> u in EverActive(ws);
    }
  }

  /** A user the state block reports as active but leaves inactive, and about
      whom the timeline says nothing. */
  ghost predicate DepartedInState(state: seq<Write>, timeline: seq<Write>, u: UserId) {
    && u in EverActive(state)
    && !IsActive(LastMembership(state, u).UnwrapOr(Leave))
    && LastMembership(timeline, u).None?
  }

  /** The users collected from a state block and a timeline cover the active
      members of the resulting state map, and are exactly those members if and
      only if no user departs inside the state block. */
  lemma CollectedUsersCoverActiveMembers(state: seq<Write>, timeline: seq<Write>)
    requires forall w <- state + timeline :: IsState(w.raw) && w.raw.parsed.value.event == w.event
    ensures ActiveIn(Overlay(map[], state + timeline)) <= UsersAfter(EverActive(state), timeline)
    ensures ActiveIn(Overlay(map[], state + timeline)) == UsersAfter(EverActive(state), timeline)
            <==> forall u :: !DepartedInState(state, timeline, u)
  {
    var active, users := ActiveIn(Overlay(map[], state + timeline)), UsersAfter(EverActive(state), timeline);
    forall u
      ensures u in active ==> u in users
      ensures u in users && u !in active <==> DepartedInState(state, timeline, u)
    {
      ActiveInByLastMembership(map[], state + timeline, u);
      LastMembershipConcat(state, timeline, u);
      UsersAfterByLastMembership(EverActive(state), timeline, u);
      EverActiveSeesLastMembership(state, u);
    }
  }

  /** A membership as a state event. */
  function MemberWrite(u: UserId, m: Membership): Write {
    var e := StateEvent(u, Member(m, None));
    Write(Raw("", Some(State(e)), None), e)
  }

  /** A state block in which a user joins and leaves keeps collecting that user. */
  lemma DepartedUserStaysCollected(u: UserId)
    ensures var state := [MemberWrite(u, Join), MemberWrite(u, Leave)];
            u in UsersAfter(EverActive(state), []) && u !in ActiveIn(Overlay(map[], state + []))
  {
    var state := [MemberWrite(u, Join), MemberWrite(u, Leave)];
    assert u == state[0].event.stateKey;
    assert state + [] == state;
    ActiveInByLastMembership(map[], state, u);
  }
}
