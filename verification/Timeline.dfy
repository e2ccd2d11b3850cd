/** Timeline processing of one room: the incrementally kept push context, the
    notifications it decides, and the form each event is shown in. */
module Timeline {
  import opened Types
  import opened StateFold

  // ---- The world outside one room ----

  datatype Action = Notify | Tweak(name: string)

  /** What the store holds about our own membership and the power levels. */
  datatype StoredView = StoredView(ownName: Option<string>, power: Option<PowerLevels>)

  datatype Decryption = NoMachine | Decrypted(raw: Raw) | UnableToDecrypt | DecryptionFailed

  /** How putting the users of a room under device tracking fails, if it does:
      finding or tracking its stored members, or tracking the users just collected. */
  datatype TrackFault = NoFault | MembersFail | UsersFail

  datatype PushContext = PushContext(
    userId: UserId,
    roomId: RoomId,
    memberCount: nat,
    displayName: string,
    powerLevels: Option<PowerLevels>)

  /** Reads and foreign calls made during a sync: push rules, decryption and the
      stored push data, and which awaited calls return an error: those made before
      the rooms, for the first push context of a room, for an event, or for tracking. */
  datatype Session = Session(
    ownUser: UserId,
    rules: (AnyRaw, PushContext) -> seq<Action>,
    decrypt: Raw -> Decryption,
    stored: RoomId -> StoredView,
    prepareFails: bool,
    contextFails: RoomId -> bool,
    ioFails: Raw -> bool,
    trackFault: RoomId -> TrackFault)

  datatype RoomEnv = RoomEnv(session: Session, roomId: RoomId, stripped: StrippedMap)

  // ---- The push context ----

  const UINT_MAX: nat := 0x1F_FFFF_FFFF_FFFF

  function Until(s: string, c: char): string {
    if s == [] || s[0] == c then [] else [s[0]] + Until(s[1..], c)
  }

  function Localpart(u: UserId): string {
    if u == "" then "" else Until(u[1..], ':')
  }

  /** Joined plus invited members, saturating first as a u64 and then as a Matrix integer. */
  function MemberCount(info: RoomInfo): nat {
    Min(Min(info.joinedCount + info.invitedCount, U64_MAX), UINT_MAX)
  }

  /** Our display name according to the state gathered in this sync. */
  function SyncedName(own: UserId, m: StateMap): Option<string> {
    var s := MemberSlot(own);
    if s in m && IsState(m[s]) && IsMember(m[s].parsed.value.event)
    then Some(m[s].parsed.value.event.content.displayName.UnwrapOr(Localpart(own)))
    else None
  }

  function StrippedName(own: UserId, m: StrippedMap): Option<string> {
    var s := MemberSlot(own);
    if s in m && m[s].parsed.Some? && IsMember(m[s].parsed.value)
    then Some(m[s].parsed.value.content.displayName.UnwrapOr(Localpart(own)))
    else None
  }

  function OwnName(env: RoomEnv, m: StateMap): Option<string> {
    var own := env.session.ownUser;
    if SyncedName(own, m).Some? then SyncedName(own, m)
    else if StrippedName(own, env.stripped).Some? then StrippedName(own, env.stripped)
    else env.session.stored(env.roomId).ownName
  }

  /** Power levels as the from-scratch reader sees them: the synced event read as
      a full event, else the stripped one, else the stored one. */
  function FallbackPower(env: RoomEnv): Option<PowerLevels> {
    if POWER_SLOT in env.stripped && env.stripped[POWER_SLOT].power.Some?
    then env.stripped[POWER_SLOT].power
    else env.session.stored(env.roomId).power
  }

  function FullPower(env: RoomEnv, m: StateMap): Option<PowerLevels> {
    if POWER_SLOT in m && m[POWER_SLOT].fullPower.Some? then m[POWER_SLOT].fullPower else FallbackPower(env)
  }

  /** Power levels as the incremental reader sees them. */
  function SyncPower(m: StateMap): Option<PowerLevels> {
    if POWER_SLOT in m && IsState(m[POWER_SLOT]) && m[POWER_SLOT].parsed.value.event.content.Power?
    then Some(m[POWER_SLOT].parsed.value.event.content.levels)
    else None
  }

  function GetPushRoomContext(env: RoomEnv, info: RoomInfo, m: StateMap): Option<PushContext> {
    match OwnName(env, m)
    case None => None
    case Some(name) =>
      Some(PushContext(env.session.ownUser, env.roomId, MemberCount(info), name, FullPower(env, m)))
  }

  function UpdatePushRoomContext(c: PushContext, own: UserId, info: RoomInfo, m: StateMap): PushContext {
    c.(memberCount := MemberCount(info),
       displayName := SyncedName(own, m).UnwrapOr(c.displayName),
       powerLevels := if SyncPower(m).Some? then SyncPower(m) else c.powerLevels)
  }

  // ---- One timeline ----

  datatype Item = Item(kind: Kind, raw: Raw, pushActions: seq<Action>)

  datatype Notification = Notification(actions: seq<Action>, event: AnyRaw)

  type Notifications = map<RoomId, seq<Notification>>

  datatype Acc = Acc(
    info: RoomInfo,
    state: StateMap,
    users: set<UserId>,
    context: Option<PushContext>,
    notifications: seq<Notification>,
    items: seq<Item>)

  predicate IsEncryptedOriginal(raw: Raw) {
    raw.parsed == Some(Message(Encrypted(true)))
  }

  predicate EventFails(s: Session, raw: Raw) {
    s.ioFails(raw) || (IsEncryptedOriginal(raw) && s.decrypt(raw).DecryptionFailed?)
  }

  /** The form an event is shown in: as received, decrypted, or undecryptable. */
  function Shown(s: Session, raw: Raw): (Kind, Raw) {
    if !IsEncryptedOriginal(raw) then (PlainText, raw)
    else
      match s.decrypt(raw)
      case Decrypted(d) => (DecryptedEvent, d)
      case UnableToDecrypt => (Undecryptable, raw)
      case _ => (PlainText, raw)
  }

  /** What an item shows: an event that did not arrive encrypted as it is, else its
      decryption, itself as undecryptable, or itself where there is no machine. */
  ghost predicate FormIs(s: Session, raw: Raw, kind: Kind, shown: Raw) {
    if raw.parsed != Some(Message(Encrypted(true))) then kind == PlainText && shown == raw
    else
      match s.decrypt(raw)
      case NoMachine => kind == PlainText && shown == raw
      case Decrypted(d) => kind == DecryptedEvent && shown == d
      case UnableToDecrypt => kind == Undecryptable && shown == raw
      case DecryptionFailed => false
  }

  /** The effect of a deserialized event on the room's state. */
  function Absorb(acc: Acc, raw: Raw): Acc {
    if !IsState(raw) then acc
    else
      var e := raw.parsed.value.event;
      acc.(info := HandleStateEvent(acc.info, e),
           state := acc.state[SlotOf(e) := raw],
           users := if !IsMember(e) then acc.users
                    else if IsActiveMember(e) then acc.users + {e.stateKey}
                    else acc.users - {e.stateKey})
  }

  function NextContext(env: RoomEnv, acc: Acc): Option<PushContext> {
    if acc.context.Some?
    then Some(UpdatePushRoomContext(acc.context.value, env.session.ownUser, acc.info, acc.state))
    else GetPushRoomContext(env, acc.info, acc.state)
  }

  function Judge(env: RoomEnv, raw: Raw, context: Option<PushContext>): seq<Action> {
    if context.Some? then env.session.rules(SyncEvent(Shown(env.session, raw).1), context.value) else []
  }

  function Announce(actions: seq<Action>, raw: AnyRaw): seq<Notification> {
    if Notify in actions then [Notification(actions, raw)] else []
  }

  function Step(env: RoomEnv, acc: Acc, raw: Raw): Result<Acc> {
    if raw.parsed.None? then Ok(acc.(items := acc.items + [Item(PlainText, raw, [])]))
    else if EventFails(env.session, raw) then Err
    else
      var absorbed := Absorb(acc, raw);
      var context := NextContext(env, absorbed);
      var actions := Judge(env, raw, context);
      var (kind, shown) := Shown(env.session, raw);
      Ok(absorbed.(context := context,
                   notifications := acc.notifications + Announce(actions, SyncEvent(shown)),
                   items := acc.items + [Item(kind, shown, actions)]))
  }

  function Run(env: RoomEnv, acc: Acc, raws: seq<Raw>): Result<Acc> {
    if raws == [] then Ok(acc)
    else
      match Run(env, acc, raws[..|raws| - 1])
      case Err => Err
      case Ok(prev) => Step(env, prev, raws[|raws| - 1])
  }

  /** The state a timeline is started in. */
  function Start(env: RoomEnv, info: RoomInfo, m: StateMap, users: set<UserId>, notes: seq<Notification>): Acc {
    Acc(info, m, users, GetPushRoomContext(env, info, m), notes, [])
  }

  // ---- What a run does to the room ----

  lemma FoldOneMore(acc: Acc, ws: seq<Write>, w: Write)
    ensures HandleStateEvents(acc.info, ws + [w]) == HandleStateEvent(HandleStateEvents(acc.info, ws), w.event)
    ensures Overlay(acc.state, ws + [w]) == Overlay(acc.state, ws)[SlotOf(w.event) := w.raw]
    ensures var users := UsersAfter(acc.users, ws);
            UsersAfter(acc.users, ws + [w]) ==
            if !IsMember(w.event) then users
            else if IsActiveMember(w.event) then users + {w.event.stateKey}
            else users - {w.event.stateKey}
  {
    assert (ws + [w])[..|ws|] == ws;
  }

  lemma StepFolds(env: RoomEnv, acc: Acc, raw: Raw)
    requires Step(env, acc, raw).Ok?
    ensures var after, absorbed := Step(env, acc, raw).value, Absorb(acc, raw);
            after.info == absorbed.info && after.state == absorbed.state && after.users == absorbed.users
  {
  }

  lemma {:induction false} RunFolds(env: RoomEnv, acc0: Acc, raws: seq<Raw>)
    requires Run(env, acc0, raws).Ok?
    ensures var acc := Run(env, acc0, raws).value;
            && acc.info == HandleStateEvents(acc0.info, Writes(raws))
            && acc.state == Overlay(acc0.state, Writes(raws))
            && acc.users == UsersAfter(acc0.users, Writes(raws))
  {
    if raws == [] {
    } else {
      var init, raw := raws[..|raws| - 1], raws[|raws| - 1];
      RunFolds(env, acc0, init);
      StepFolds(env, Run(env, acc0, init).value, raw);
      if IsState(raw) {
        assert Writes(raws) == Writes(init) + [Write(raw, raw.parsed.value.event)];
        FoldOneMore(acc0, Writes(init), Write(raw, raw.parsed.value.event));
      } else {
        assert Writes(raws) == Writes(init);
      }
    }
  }

  lemma RunPrefix(env: RoomEnv, acc0: Acc, raws: seq<Raw>, n: nat)
    requires n <= |raws| && Run(env, acc0, raws).Ok?
    ensures Run(env, acc0, raws[..n]).Ok?
    decreases |raws| - n
  {
    if n == |raws| {
      assert raws[..n] == raws;
    } else {
      RunPrefix(env, acc0, raws, n + 1);
      assert raws[..n + 1][..n] == raws[..n];
    }
  }

  /** A timeline fails exactly when an awaited call for one of its
      deserializable events does. */
  lemma {:induction false} RunFailsIffSomeEventFails(env: RoomEnv, acc0: Acc, raws: seq<Raw>)
    ensures Run(env, acc0, raws).Err? <==> exists raw <- raws :: raw.parsed.Some? && EventFails(env.session, raw)
  {
    if raws == [] {
    } else {
      var init, last := raws[..|raws| - 1], raws[|raws| - 1];
      RunFailsIffSomeEventFails(env, acc0, init);
      assert raws == init + [last];
      assert forall raw <- init :: raw in raws;
      assert last in raws;
    }
  }

  // ---- The incremental context against recomputation ----

  /** Both readers see the same power levels in the gathered state. */
  predicate ReadersAgree(env: RoomEnv, m: StateMap) {
    POWER_SLOT in m ==> FullPower(env, m) == SyncPower(m)
  }

  /** The context is computed from scratch at the last deserialized event: before
      it, our own name was not known yet. */
  predicate JustComputed(env: RoomEnv, m: StateMap, raws: seq<Raw>) {
    if raws == [] then true
    else
      var init := raws[..|raws| - 1];
      if raws[|raws| - 1].parsed.None? then JustComputed(env, m, init)
      else OwnName(env, Overlay(m, Writes(init))).None?
  }

  /** The power levels the incremental context holds. */
  ghost predicate TracksPower(env: RoomEnv, acc: Acc, recomputed: bool)
    requires acc.context.Some?
  {
    acc.context.value.powerLevels ==
      if recomputed || SyncPower(acc.state).None? then FullPower(env, acc.state) else SyncPower(acc.state)
  }

  ghost predicate Tracks(env: RoomEnv, acc: Acc, recomputed: bool) {
    && WellKeyed(acc.state)
    && (acc.context.Some? <==> OwnName(env, acc.state).Some?)
    && (acc.context.Some? ==>
      && acc.context.value.userId == env.session.ownUser
      && acc.context.value.roomId == env.roomId
      && acc.context.value.memberCount == MemberCount(acc.info)
      && Some(acc.context.value.displayName) == OwnName(env, acc.state)
      && TracksPower(env, acc, recomputed))
  }

  lemma WellKeyedPower(m: StateMap)
    requires WellKeyed(m)
    ensures POWER_SLOT in m <==> SyncPower(m).Some?
  {
  }

  lemma StepTracks(env: RoomEnv, acc: Acc, recomputed: bool, raw: Raw)
    requires Tracks(env, acc, recomputed) && Step(env, acc, raw).Ok?
    ensures Tracks(env, Step(env, acc, raw).value, if raw.parsed.None? then recomputed else acc.context.None?)
  {
    WellKeyedPower(acc.state);
    var next := Absorb(acc, raw);
    WellKeyedPower(next.state);
    assert WellKeyed(next.state);
  }

  lemma {:induction false} RunTracks(env: RoomEnv, acc0: Acc, raws: seq<Raw>)
    requires Tracks(env, acc0, true) && Run(env, acc0, raws).Ok?
    ensures Tracks(env, Run(env, acc0, raws).value, JustComputed(env, acc0.state, raws))
  {
    if raws == [] {
    } else {
      var init := raws[..|raws| - 1];
      RunTracks(env, acc0, init);
      RunFolds(env, acc0, init);
      StepTracks(env, Run(env, acc0, init).value, JustComputed(env, acc0.state, init), raws[|raws| - 1]);
    }
  }

  /** What decides, before the events are handled, whether the context kept through
      them equals a recomputed one: there is none, it has just been computed, or
      both readers see the same power levels in the resulting state. */
  predicate ContextsAgree(env: RoomEnv, m: StateMap, raws: seq<Raw>) {
    var gathered := Overlay(m, Writes(raws));
    OwnName(env, gathered).None? || JustComputed(env, m, raws) || ReadersAgree(env, gathered)
  }

  /** At every point of a timeline the incremental context is available exactly
      when our own name is known, and then equals a recomputed one if and only if
      it was just computed from scratch or the two power level readers agree. */
  lemma ContextEqualsRecomputation(
      env: RoomEnv, info: RoomInfo, m: StateMap, users: set<UserId>, notes: seq<Notification>, raws: seq<Raw>)
    requires WellKeyed(m)
    requires Run(env, Start(env, info, m, users, notes), raws).Ok?
    ensures var context := Run(env, Start(env, info, m, users, notes), raws).value.context;
            var gathered := Overlay(m, Writes(raws));
            && (context.Some? <==> OwnName(env, gathered).Some?)
            && (context == GetPushRoomContext(env, HandleStateEvents(info, Writes(raws)), gathered) <==>
                ContextsAgree(env, m, raws))
  {
    var acc0 := Start(env, info, m, users, notes);
    WellKeyedPower(m);
    RunTracks(env, acc0, raws);
    RunFolds(env, acc0, raws);
    WellKeyedPower(Run(env, acc0, raws).value.state);
  }

  /** Once available, the context stays available. */
  lemma ContextStaysAvailable(env: RoomEnv, acc0: Acc, raws: seq<Raw>, n: nat)
    requires n <= |raws| && Run(env, acc0, raws).Ok?
    ensures Run(env, acc0, raws[..n]).Ok?
    ensures Run(env, acc0, raws[..n]).value.context.Some? ==> Run(env, acc0, raws).value.context.Some?
    decreases |raws| - n
  {
    RunPrefix(env, acc0, raws, n);
    if n == |raws| {
      assert raws[..n] == raws;
    } else {
      ContextStaysAvailable(env, acc0, raws, n + 1);
      assert raws[..n + 1][..n] == raws[..n];
    }
  }

  /** A power levels event the full reader rejects (servers leave the room id it
      needs out of sync events) drives the kept context away from a recomputed one. */
  lemma ReadersCanDisagree(session: Session, info: RoomInfo, levels: PowerLevels, raw: Raw)
    requires session.stored(info.roomId).ownName.Some? && session.stored(info.roomId).power != Some(levels)
    requires raw.parsed == Some(State(StateEvent("", Power(levels)))) && raw.fullPower == None
    requires !EventFails(session, raw)
    ensures var env := RoomEnv(session, info.roomId, map[]);
            var r := Run(env, Start(env, info, map[], {}, []), [raw]);
            r.Ok? && r.value.context != GetPushRoomContext(env, r.value.info, r.value.state)
  {
  }

  // ---- What a run reports ----

  /** The actions for the last event of a prefix, judged in the context kept so far. */
  function KeptActions(env: RoomEnv, acc0: Acc, raws: seq<Raw>): seq<Action>
    requires raws != [] && Run(env, acc0, raws).Ok?
  {
    if raws[|raws| - 1].parsed.None? then []
    else Judge(env, raws[|raws| - 1], Run(env, acc0, raws).value.context)
  }

  /** The notifying items, in order. */
  function Notifying(items: seq<Item>): seq<Notification> {
    if items == [] then []
    else
      var last := items[|items| - 1];
      Notifying(items[..|items| - 1]) + Announce(last.pushActions, SyncEvent(last.raw))
  }

  /** Notifications made along a list of positions: strictly increasing, exactly
      those of the items that notify, each with the actions and the event. */
  ghost predicate NotifiedAlong(notes: seq<Notification>, items: seq<Item>, order: seq<nat>) {
    && (forall j, k :: 0 <= j < k < |order| ==> order[j] < order[k])
    && (forall i: nat :: i in order <==> i < |items| && Notify in items[i].pushActions)
    && |notes| == |order|
    && (forall k :: 0 <= k < |order| ==>
         order[k] < |items|
         && notes[k] == Notification(items[order[k]].pushActions, SyncEvent(items[order[k]].raw)))
  }

  lemma AlongOneMore(notes: seq<Notification>, items: seq<Item>, order: seq<nat>, item: Item)
    requires NotifiedAlong(notes, items, order)
    ensures Notify !in item.pushActions ==> NotifiedAlong(notes, items + [item], order)
    ensures Notify in item.pushActions ==>
              NotifiedAlong(notes + [Notification(item.pushActions, SyncEvent(item.raw))], items + [item], order + [|items|])
  {
    var longer := order + [|items|];
    assert forall i: nat :: i in longer <==> i in order || i == |items|;
    assert forall k :: 0 <= k < |order| ==> order[k] in order;
  }

  lemma {:induction false} NotifyingOrder(items: seq<Item>) returns (order: seq<nat>)
    ensures NotifiedAlong(Notifying(items), items, order)
  {
    if items == [] {
      order := [];
    } else {
      var init, last := items[..|items| - 1], items[|items| - 1];
      order := NotifyingOrder(init);
      AlongOneMore(Notifying(init), init, order, last);
      assert items == init + [last];
      if Notify in last.pushActions {
        order := order + [|init|];
      } else {
        assert Notifying(items) == Notifying(init);
      }
    }
  }

  lemma NotifyingOneMore(items: seq<Item>, n: nat, item: Item)
    requires n <= |items|
    ensures Notifying((items + [item])[n..]) == Notifying(items[n..]) + Announce(item.pushActions, SyncEvent(item.raw))
  {
    var longer := (items + [item])[n..];
    assert longer == items[n..] + [item];
    assert longer[..|longer| - 1] == items[n..];
  }

  lemma LastReport(env: RoomEnv, acc0: Acc, raws: seq<Raw>)
    requires raws != [] && Run(env, acc0, raws).Ok?
    ensures Run(env, acc0, raws[..|raws| - 1]).Ok?
    ensures var prev, acc := Run(env, acc0, raws[..|raws| - 1]).value, Run(env, acc0, raws).value;
            var (kind, shown) := Shown(env.session, raws[|raws| - 1]);
            var actions := KeptActions(env, acc0, raws);
            && acc.items == prev.items + [Item(kind, shown, actions)]
            && acc.notifications == prev.notifications + Announce(actions, SyncEvent(shown))
  {
  }

  lemma {:induction false} ItemsOfRun(env: RoomEnv, acc0: Acc, raws: seq<Raw>, i: nat)
    requires Run(env, acc0, raws).Ok? && i < |raws|
    ensures Run(env, acc0, raws[..i + 1]).Ok?
    ensures var items := Run(env, acc0, raws).value.items;
            && |items| == |acc0.items| + |raws|
            && acc0.items <= items
            && (items[|acc0.items| + i].kind, items[|acc0.items| + i].raw) == Shown(env.session, raws[i])
            && items[|acc0.items| + i].pushActions == KeptActions(env, acc0, raws[..i + 1])
  {
    var init := raws[..|raws| - 1];
    RunPrefix(env, acc0, raws, i + 1);
    LastReport(env, acc0, raws);
    if i < |init| {
      ItemsOfRun(env, acc0, init, i);
      assert init[..i + 1] == raws[..i + 1];
    } else {
      assert raws[..i + 1] == raws;
      if init != [] {
        ItemsOfRun(env, acc0, init, 0);
      }
    }
  }

  lemma {:induction false} NotesOfRun(env: RoomEnv, acc0: Acc, raws: seq<Raw>)
    requires Run(env, acc0, raws).Ok?
    ensures var acc := Run(env, acc0, raws).value;
            && acc0.items <= acc.items
            && acc.notifications == acc0.notifications + Notifying(acc.items[|acc0.items|..])
  {
    if raws == [] {
    } else {
      var init := raws[..|raws| - 1];
      NotesOfRun(env, acc0, init);
      LastReport(env, acc0, raws);
      var prev := Run(env, acc0, init).value;
      var (kind, shown) := Shown(env.session, raws[|raws| - 1]);
      NotifyingOneMore(prev.items, |acc0.items|, Item(kind, shown, KeptActions(env, acc0, raws)));
    }
  }

  /** One item per event, in order and in the right form, and the notifications of
      exactly the notifying items, in order. */
  ghost predicate ReportedInOrder(s: Session, raws: seq<Raw>, items: seq<Item>, notes: seq<Notification>) {
    && |items| == |raws|
    && (forall i :: 0 <= i < |raws| ==> FormIs(s, raws[i], items[i].kind, items[i].raw))
    && (exists order :: NotifiedAlong(notes, items, order))
  }

  /** A timeline that does not fail decrypts, or has no need to, each of its events. */
  lemma RunForms(env: RoomEnv, acc0: Acc, raws: seq<Raw>, i: nat)
    requires Run(env, acc0, raws).Ok? && i < |raws|
    ensures var (kind, shown) := Shown(env.session, raws[i]);
            FormIs(env.session, raws[i], kind, shown)
  {
    RunFailsIffSomeEventFails(env, acc0, raws);
    assert raws[i] in raws;
  }

  /** Every timeline yields exactly one item per event, in order: the event in the
      form it is shown in, with the actions the push rules give it in the context
      kept so far, and none without a context or if it does not deserialize. */
  lemma RunItems(env: RoomEnv, acc0: Acc, raws: seq<Raw>, i: nat)
    requires Run(env, acc0, raws).Ok? && i < |raws|
    ensures Run(env, acc0, raws[..i + 1]).Ok?
    ensures var items, context := Run(env, acc0, raws).value.items, Run(env, acc0, raws[..i + 1]).value.context;
            && |items| == |acc0.items| + |raws|
            && acc0.items <= items
            && var item := items[|acc0.items| + i];
               && FormIs(env.session, raws[i], item.kind, item.raw)
               && item.pushActions ==
                    if raws[i].parsed.None? || context.None? then []
                    else env.session.rules(SyncEvent(item.raw), context.value)
  {
    ItemsOfRun(env, acc0, raws, i);
    RunForms(env, acc0, raws, i);
    assert raws[..i + 1][i] == raws[i];
  }

  /** The new notifications of every timeline are exactly its notifying items, in order. */
  lemma RunNotifications(env: RoomEnv, acc0: Acc, raws: seq<Raw>)
    requires Run(env, acc0, raws).Ok?
    ensures var acc := Run(env, acc0, raws).value;
            && acc0.items <= acc.items && acc0.notifications <= acc.notifications
            && exists order ::
                 NotifiedAlong(acc.notifications[|acc0.notifications|..], acc.items[|acc0.items|..], order)
  {
    var acc := Run(env, acc0, raws).value;
    NotesOfRun(env, acc0, raws);
    var items := acc.items[|acc0.items|..];
    assert acc.notifications[|acc0.notifications|..] == Notifying(items);
    var order := NotifyingOrder(items);
  }

  lemma FreshForms(env: RoomEnv, acc0: Acc, raws: seq<Raw>)
    requires Run(env, acc0, raws).Ok? && acc0.items == []
    ensures var items := Run(env, acc0, raws).value.items;
            |items| == |raws| && forall i :: 0 <= i < |raws| ==> FormIs(env.session, raws[i], items[i].kind, items[i].raw)
  {
    var items := Run(env, acc0, raws).value.items;
    if raws == [] {
    } else {
      RunItems(env, acc0, raws, 0);
      forall i | 0 <= i < |raws|
        ensures FormIs(env.session, raws[i], items[i].kind, items[i].raw)
      {
        RunItems(env, acc0, raws, i);
      }
    }
  }

  /** What a timeline that starts without items and notifications reports. */
  lemma FreshRunReports(env: RoomEnv, acc0: Acc, raws: seq<Raw>)
    requires Run(env, acc0, raws).Ok? && acc0.items == [] && acc0.notifications == []
    ensures ReportedInOrder(env.session, raws, Run(env, acc0, raws).value.items, Run(env, acc0, raws).value.notifications)
  {
    var acc := Run(env, acc0, raws).value;
    FreshForms(env, acc0, raws);
    RunNotifications(env, acc0, raws);
    assert acc.items[0..] == acc.items && acc.notifications[0..] == acc.notifications;
  }

  // ---- Notifications against a from-scratch reference ----

  /** The actions for the last event of a prefix, judged in a recomputed context. */
  function ScratchActions(env: RoomEnv, info: RoomInfo, m: StateMap, raws: seq<Raw>): seq<Action>
    requires raws != []
  {
    var ws := Writes(raws);
    if raws[|raws| - 1].parsed.None? then []
    else Judge(env, raws[|raws| - 1], GetPushRoomContext(env, HandleStateEvents(info, ws), Overlay(m, ws)))
  }

  /** The notifying events in order, each judged in a recomputed context. */
  function ScratchNotifications(env: RoomEnv, info: RoomInfo, m: StateMap, raws: seq<Raw>): seq<Notification> {
    if raws == [] then []
    else
      ScratchNotifications(env, info, m, raws[..|raws| - 1]) +
      Announce(ScratchActions(env, info, m, raws), SyncEvent(Shown(env.session, raws[|raws| - 1]).1))
  }

  function ScratchItem(env: RoomEnv, info: RoomInfo, m: StateMap, raws: seq<Raw>): Item
    requires raws != []
  {
    var (kind, shown) := Shown(env.session, raws[|raws| - 1]);
    Item(kind, shown, ScratchActions(env, info, m, raws))
  }

  function ScratchItems(env: RoomEnv, info: RoomInfo, m: StateMap, raws: seq<Raw>): seq<Item> {
    if raws == [] then []
    else ScratchItems(env, info, m, raws[..|raws| - 1]) + [ScratchItem(env, info, m, raws)]
  }

  lemma {:induction false} ScratchItemsAt(env: RoomEnv, info: RoomInfo, m: StateMap, raws: seq<Raw>, i: nat)
    requires i < |raws|
    ensures |ScratchItems(env, info, m, raws)| == |raws|
    ensures ScratchItems(env, info, m, raws)[i] == ScratchItem(env, info, m, raws[..i + 1])
  {
    var init := raws[..|raws| - 1];
    if init == [] {
      assert raws[..i + 1] == raws;
    } else if i < |init| {
      ScratchItemsAt(env, info, m, init, i);
      assert init[..i + 1] == raws[..i + 1];
    } else {
      ScratchItemsAt(env, info, m, init, 0);
      assert raws[..i + 1] == raws;
    }
  }

  /** Power levels that read the same as a sync event and as a full event. */
  predicate FullyReadable(raw: Raw) {
    IsState(raw) && raw.parsed.value.event.content.Power? ==>
      raw.fullPower == Some(raw.parsed.value.event.content.levels)
  }

  lemma {:induction false} OverlayReadersAgree(env: RoomEnv, m: StateMap, ws: seq<Write>)
    requires WellKeyed(m) && forall s <- m :: FullyReadable(m[s])
    requires forall w <- ws :: IsState(w.raw) && w.raw.parsed.value.event == w.event && FullyReadable(w.raw)
    ensures WellKeyed(Overlay(m, ws)) && forall s <- Overlay(m, ws) :: FullyReadable(Overlay(m, ws)[s])
    ensures ReadersAgree(env, Overlay(m, ws))
  {
    if ws == [] {
    } else {
      OverlayReadersAgree(env, m, ws[..|ws| - 1]);
    }
  }

  lemma {:induction false} WritesFullyReadable(raws: seq<Raw>)
    requires forall raw <- raws :: FullyReadable(raw)
    ensures forall w <- Writes(raws) :: FullyReadable(w.raw)
  {
    if raws == [] {
    } else {
      var init := raws[..|raws| - 1];
      assert forall raw <- init :: raw in raws;
      WritesFullyReadable(init);
    }
  }

  /** Power levels that read alike make the kept contexts those recomputed. */
  lemma ReadableContextsAgree(env: RoomEnv, m: StateMap, raws: seq<Raw>)
    requires WellKeyed(m) && (forall s <- m :: FullyReadable(m[s])) && forall raw <- raws :: FullyReadable(raw)
    ensures ContextsAgree(env, m, raws)
  {
    WritesFullyReadable(raws);
    OverlayReadersAgree(env, m, Writes(raws));
  }

  /** A timeline whose contexts agree at every event reports what judging each
      event in a context recomputed from scratch gives. */
  lemma {:induction false} TimelineMatchesScratch(
      env: RoomEnv, info: RoomInfo, m: StateMap, users: set<UserId>, notes: seq<Notification>, raws: seq<Raw>)
    requires WellKeyed(m) && forall n :: 0 <= n <= |raws| ==> ContextsAgree(env, m, raws[..n])
    requires Run(env, Start(env, info, m, users, notes), raws).Ok?
    ensures var acc := Run(env, Start(env, info, m, users, notes), raws).value;
            && acc.items == ScratchItems(env, info, m, raws)
            && acc.notifications == notes + ScratchNotifications(env, info, m, raws)
  {
    if raws == [] {
    } else {
      var acc0 := Start(env, info, m, users, notes);
      var init := raws[..|raws| - 1];
      assert forall n :: 0 <= n <= |init| ==> init[..n] == raws[..n];
      TimelineMatchesScratch(env, info, m, users, notes, init);
      assert raws[..|raws|] == raws;
      ContextEqualsRecomputation(env, info, m, users, notes, raws);
      LastReport(env, acc0, raws);
      assert KeptActions(env, acc0, raws) == ScratchActions(env, info, m, raws);
    }
  }
}
