/** The `StateChanges` accumulator of a sync and the handlers that fill it event by event. */
module Accumulator {
  import opened Types
  import opened StateFold
  import opened Timeline
  import opened Direct
  import opened Sync

  class StateChanges {
    var token: Option<Token>
    var infos: RoomInfos
    var state: map<RoomId, StateMap>
    var stripped: map<RoomId, StrippedMap>
    var accountData: map<AccountType, AccountRaw>

    constructor (token: Option<Token>)
      ensures View() == Changes(token, map[], map[], map[], map[])
    {
      this.token := token;
      infos, state, stripped, accountData := map[], map[], map[], map[];
    }

    function View(): Changes
      reads this
    {
      Changes(token, infos, state, stripped, accountData)
    }

    method AddRoom(info: RoomInfo)
      modifies this`infos
      ensures infos == old(infos)[info.roomId := info]
    {
      infos := infos[info.roomId := info];
    }

    method AddStateEvent(r: RoomId, e: StateEvent, raw: Raw)
      modifies this`state
      ensures state == old(state)[r := GetOr(old(state), r, map[])[SlotOf(e) := raw]]
    {
      var events := if r in state then state[r] else map[];
      state := state[r := events[SlotOf(e) := raw]];
    }
  }

  // ---- Handlers that only touch the accumulator ----

  lemma EverActiveExtends(ws: seq<Write>, i: nat)
    requires i < |ws|
    ensures EverActive(ws[..i + 1]) ==
            EverActive(ws[..i]) + if IsActiveMember(ws[i].event) then {ws[i].event.stateKey} else {}
  {
  }

  /** The state block of a room: last writer per slot, and the users it reports as active. */
  method HandleState(session: Session, r: RoomId, raws: seq<Raw>, info0: RoomInfo, changes: StateChanges)
    returns (ok: bool, info: RoomInfo, users: set<UserId>)
    modifies changes`state
    ensures ok <==> forall w <- Writes(raws) :: !session.ioFails(w.raw)
    ensures ok ==> info == HandleStateEvents(info0, Writes(raws)) && users == EverActive(Writes(raws))
    ensures changes.state == if ok then old(changes.state)[r := Overlay(map[], Writes(raws))] else old(changes.state)
  {
    var ws := Writes(raws);
    var events: StateMap := map[];
    info, users := info0, {};
    for i := 0 to |ws|
      invariant forall w <- ws[..i] :: !session.ioFails(w.raw)
      invariant info == HandleStateEvents(info0, ws[..i])
      invariant users == EverActive(ws[..i])
      invariant events == Overlay(map[], ws[..i])
      invariant changes.state == old(changes.state)
    {
      var w := ws[i];
      assert ws[..i + 1][..i] == ws[..i];
      if session.ioFails(w.raw) {
        assert w in ws;
        return false, info, users;
      }
      info := HandleStateEvent(info, w.event);
      EverActiveExtends(ws, i);
      if IsActiveMember(w.event) {
        users := users + {w.event.stateKey};
      }
      events := events[SlotOf(w.event) := w.raw];
    }
    assert ws[..|ws|] == ws;
    changes.state := changes.state[r := events];
    ok := true;
  }

  function NotesFor(notes: Notifications, r: RoomId): seq<Notification> {
    GetOr(notes, r, [])
  }

  function AddNotes(notes: Notifications, r: RoomId, more: seq<Notification>): Notifications {
    if more == [] then notes else notes[r := NotesFor(notes, r) + more]
  }

  lemma AddNotesFrame(notes: Notifications, r: RoomId, more: seq<Notification>)
    ensures NotesFor(AddNotes(notes, r, more), r) == NotesFor(notes, r) + more
    ensures AddNotes(notes, r, more) - {r} == notes - {r}
  {
  }

  /** A state event of a timeline: members update the users, other events the record. */
  method AbsorbStateEvent(r: RoomId, raw: Raw, users0: set<UserId>, info0: RoomInfo, changes: StateChanges)
    returns (info: RoomInfo, users: set<UserId>)
    requires IsState(raw) && r in changes.state
    modifies changes`state
    ensures var acc := Absorb(Acc(info0, old(changes.state)[r], users0, None, [], []), raw);
            && info == acc.info && users == acc.users
            && changes.state == old(changes.state)[r := acc.state]
  {
    var e := raw.parsed.value.event;
    info, users := info0, users0;
    if IsMember(e) {
      users := if IsActiveMember(e) then users + {e.stateKey} else users - {e.stateKey};
    } else {
      info := HandleStateEvent(info, e);
    }
    changes.AddStateEvent(r, e, raw);
  }

  /** The form an event is shown in, unless decrypting it returns an error. */
  method DecryptEvent(session: Session, raw: Raw) returns (ok: bool, kind: Kind, shown: Raw)
    ensures ok <==> !(IsEncryptedOriginal(raw) && session.decrypt(raw).DecryptionFailed?)
    ensures ok ==> Shown(session, raw) == (kind, shown)
  {
    ok, kind, shown := true, PlainText, raw;
    if IsEncryptedOriginal(raw) {
      match session.decrypt(raw) {
        case NoMachine =>
        case Decrypted(d) => kind, shown := DecryptedEvent, d;
        case UnableToDecrypt => kind := Undecryptable;
        case DecryptionFailed => ok := false;
      }
    }
  }

  lemma RunPrefixFails(env: RoomEnv, acc0: Acc, raws: seq<Raw>, n: nat)
    requires n <= |raws| && Run(env, acc0, raws[..n]).Err?
    ensures Run(env, acc0, raws).Err?
  {
    if Run(env, acc0, raws).Ok? {
      RunPrefix(env, acc0, raws, n);
    }
  }

  /** The timeline of a room, event by event. */
  method HandleTimeline(
      session: Session, r: RoomId, raws: seq<Raw>, users0: set<UserId>, info0: RoomInfo,
      changes: StateChanges, notes0: Notifications)
    returns (ok: bool, info: RoomInfo, users: set<UserId>, notes: Notifications, items: seq<Item>)
    requires r in changes.state
    modifies changes`state
    ensures var env := RoomEnv(session, r, GetOr(changes.stripped, r, map[]));
            var result := Run(env, Start(env, info0, old(changes.state)[r], users0, NotesFor(notes0, r)), raws);
            && ok == (!session.contextFails(r) && result.Ok?)
            && (ok ==>
              && changes.state == old(changes.state)[r := result.value.state]
              && info == result.value.info && users == result.value.users && items == result.value.items
              && NotesFor(notes, r) == result.value.notifications
              && notes - {r} == notes0 - {r})
  {
    var env := RoomEnv(session, r, GetOr(changes.stripped, r, map[]));
    ghost var acc0 := Start(env, info0, changes.state[r], users0, NotesFor(notes0, r));
    ghost var acc := acc0;
    info, users, notes, items := info0, users0, notes0, [];
    if session.contextFails(r) {
      return false, info, users, notes, items;
    }
    var context := GetPushRoomContext(env, info, changes.state[r]);
    for i := 0 to |raws|
      invariant Run(env, acc0, raws[..i]) == Ok(acc)
      invariant changes.state == old(changes.state)[r := acc.state]
      invariant notes - {r} == notes0 - {r} && NotesFor(notes, r) == acc.notifications
      invariant info == acc.info && users == acc.users && context == acc.context && items == acc.items
    {
      var raw := raws[i];
      assert raws[..i + 1][..i] == raws[..i];
      assert Run(env, acc0, raws[..i + 1]) == Step(env, acc, raw);
      if raw.parsed.None? {
        items := items + [Item(PlainText, raw, [])];
        acc := Step(env, acc, raw).value;
        continue;
      }
      if session.ioFails(raw) {
        RunPrefixFails(env, acc0, raws, i + 1);
        return false, info, users, notes, items;
      }
      ghost var absorbed := Absorb(acc, raw);
      if IsState(raw) {
        info, users := AbsorbStateEvent(r, raw, users, info, changes);
        UpdateTwice(old(changes.state), r, acc.state, absorbed.state);
      }
      var decrypted, kind, shown := DecryptEvent(session, raw);
      if !decrypted {
        RunPrefixFails(env, acc0, raws, i + 1);
        return false, info, users, notes, items;
      }
      if context.Some? {
        context := Some(UpdatePushRoomContext(context.value, session.ownUser, info, changes.state[r]));
      } else {
        context := GetPushRoomContext(env, info, changes.state[r]);
      }
      assert context == NextContext(env, absorbed);
      var actions := [];
      AddNotesFrame(notes, r, Announce(Judge(env, raw, context), SyncEvent(shown)));
      if context.Some? {
        actions := session.rules(SyncEvent(shown), context.value);
        if Notify in actions {
          notes := notes[r := NotesFor(notes, r) + [Notification(actions, SyncEvent(shown))]];
        }
      }
      assert actions == Judge(env, raw, context);
      items := items + [Item(kind, shown, actions)];
      acc := Step(env, acc, raw).value;
    }
    assert raws[..|raws|] == raws;
    ok := true;
  }

  /** The notifying slots of some stripped state, each exactly once. */
  ghost predicate ListsNotifying(
      order: seq<Slot>, slots: set<Slot>, m: StrippedMap, session: Session, context: PushContext) {
    && (forall i, j :: 0 <= i < j < |order| ==> order[i] != order[j])
    && (forall s :: s in order <==> s in slots && s in m && Notify in session.rules(StrippedEvent(m[s]), context))
  }

  /** One notification per listed slot. */
  ghost predicate AnnouncesSlots(
      added: seq<Notification>, order: seq<Slot>, m: StrippedMap, session: Session, context: PushContext) {
    && |added| == |order|
    && forall i :: 0 <= i < |order| ==>
         order[i] in m && added[i] == Notification(session.rules(StrippedEvent(m[order[i]]), context), StrippedEvent(m[order[i]]))
  }

  /** Fold stripped events into the record and keep the last one per slot. */
  method FoldStripped(ps: seq<StrippedRaw>, info0: RoomInfo) returns (info: RoomInfo, m: StrippedMap)
    requires forall p <- ps :: p.parsed.Some?
    ensures info == HandleStripped(info0, ps) && m == StrippedOverlay(ps) && KeepsLast(m, ps)
  {
    info, m := info0, map[];
    for i := 0 to |ps|
      invariant info == HandleStripped(info0, ps[..i])
      invariant m == StrippedOverlay(ps[..i])
    {
      assert ps[..i + 1][..i] == ps[..i];
      info := HandleStrippedEvent(info, ps[i].parsed.value);
      m := m[SlotOf(ps[i].parsed.value) := ps[i]];
    }
    assert ps[..|ps|] == ps;
    StrippedIsLastWriterWins(ps);
  }

  lemma AddNotesTwice(notes: Notifications, r: RoomId, added: seq<Notification>, note: Notification)
    ensures AddNotes(AddNotes(notes, r, added), r, [note]) == AddNotes(notes, r, added + [note])
  {
    if added == [] {
      assert added + [note] == [note];
    } else {
      assert NotesFor(notes, r) + (added + [note]) == NotesFor(notes, r) + added + [note];
    }
  }

  lemma ListsOneMore(
      order: seq<Slot>, slots: set<Slot>, m: StrippedMap, session: Session, context: PushContext, s: Slot)
    requires ListsNotifying(order, slots, m, session, context)
    requires s !in slots && s in m && Notify in session.rules(StrippedEvent(m[s]), context)
    ensures ListsNotifying(order + [s], slots + {s}, m, session, context)
  {
  }

  /** Judge every stripped event, whatever the order the slots are visited in. */
  method AnnounceStripped(session: Session, r: RoomId, m: StrippedMap, context: PushContext, notes0: Notifications)
    returns (notes: Notifications, ghost order: seq<Slot>, ghost added: seq<Notification>)
    ensures ListsNotifying(order, m.Keys, m, session, context)
    ensures AnnouncesSlots(added, order, m, session, context)
    ensures notes == AddNotes(notes0, r, added)
  {
    order, added := [], [];
    notes := notes0;
    var todo := m.Keys;
    while todo != {}
      invariant todo <= m.Keys
      invariant ListsNotifying(order, m.Keys - todo, m, session, context)
      invariant AnnouncesSlots(added, order, m, session, context)
      invariant notes == AddNotes(notes0, r, added)
    {
      var s :| s in todo;
      var actions := session.rules(StrippedEvent(m[s]), context);
      assert m.Keys - (todo - {s}) == (m.Keys - todo) + {s};
      if Notify in actions {
        var note := Notification(actions, StrippedEvent(m[s]));
        AddNotesTwice(notes0, r, added, note);
        notes := AddNotes(notes, r, [note]);
        ListsOneMore(order, m.Keys - todo, m, session, context, s);
        order, added := order + [s], added + [note];
      }
      todo := todo - {s};
    }
    assert m.Keys - todo == m.Keys;
  }

  /** The notifications of an invited or knocked room: the notifying last events
      per slot, each once, judged once the whole stripped state is known. */
  ghost predicate ShowsStripped(
      session: Session, r: RoomId, ps: seq<StrippedRaw>, info: RoomInfo, gathered: StateMap, notes: seq<Notification>)
    requires forall p <- ps :: p.parsed.Some?
  {
    var m := StrippedOverlay(ps);
    match GetPushRoomContext(RoomEnv(session, r, m), info, gathered)
    case None => notes == []
    case Some(context) =>
      exists order :: ListsNotifying(order, m.Keys, m, session, context) && AnnouncesSlots(notes, order, m, session, context)
  }

  /** The stripped state of an invited or knocked room. */
  method HandleInvitedState(
      session: Session, r: RoomId, ps: seq<StrippedRaw>, info0: RoomInfo,
      changes: StateChanges, notes0: Notifications)
    returns (ok: bool, info: RoomInfo, notes: Notifications, ghost added: seq<Notification>)
    requires forall p <- ps :: p.parsed.Some?
    modifies changes`stripped
    ensures ok <==> !session.contextFails(r)
    ensures info == HandleStripped(info0, ps)
    ensures changes.stripped == old(changes.stripped)[r := StrippedOverlay(ps)] && KeepsLast(changes.stripped[r], ps)
    ensures notes == AddNotes(notes0, r, added)
    ensures ok ==> ShowsStripped(session, r, ps, info, GetOr(changes.state, r, map[]), added)
  {
    var m;
    info, m := FoldStripped(ps, info0);
    changes.stripped := changes.stripped[r := m];
    added, notes := [], notes0;
    if session.contextFails(r) {
      return false, info, notes, added;
    }
    var context := GetPushRoomContext(RoomEnv(session, r, m), info, GetOr(changes.state, r, map[]));
    if context.Some? {
      ghost var order;
      notes, order, added := AnnounceStripped(session, r, m, context.value, notes0);
    }
    ok := true;
  }
}
