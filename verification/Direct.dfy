/** Global account data and the reconciliation of direct rooms with `m.direct`. */
module Direct {
  import opened Types

  /** The content of `m.direct`: the rooms each user is talked to in. */
  type DirectContent = map<UserId, seq<RoomId>>

  datatype AccountEvent = DirectEvent(content: DirectContent) | OtherAccountEvent(name: string)

  datatype AccountType = DirectType | OtherAccountType(name: string)

  datatype AccountRaw = AccountRaw(json: string, parsed: Option<AccountEvent>)

  function AccountTypeOf(e: AccountEvent): AccountType {
    match e
    case DirectEvent(_) => DirectType
    case OtherAccountEvent(name) => OtherAccountType(name)
  }

  // ---- What a batch of account data contains ----

  function ParsedEvents(raws: seq<AccountRaw>): seq<AccountEvent> {
    if raws == [] then []
    else
      var last := raws[|raws| - 1];
      ParsedEvents(raws[..|raws| - 1]) + if last.parsed.Some? then [last.parsed.value] else []
  }

  function RawByType(raws: seq<AccountRaw>): map<AccountType, AccountRaw> {
    if raws == [] then map[]
    else
      var rest, last := RawByType(raws[..|raws| - 1]), raws[|raws| - 1];
      if last.parsed.Some? then rest[AccountTypeOf(last.parsed.value) := last] else rest
  }

  /** The `m.direct` contents among some events, in order. */
  function DirectContents(events: seq<AccountEvent>): seq<DirectContent> {
    if events == [] then []
    else
      var last := events[|events| - 1];
      DirectContents(events[..|events| - 1]) + if last.DirectEvent? then [last.content] else []
  }

  predicate HasDirect(events: seq<AccountEvent>) {
    exists e <- events :: e.DirectEvent?
  }

  /** The content of the `m.direct` event in an account data map. */
  function StoredDirect(data: map<AccountType, AccountRaw>): Option<DirectContent> {
    if DirectType in data && data[DirectType].parsed.Some? && data[DirectType].parsed.value.DirectEvent?
    then Some(data[DirectType].parsed.value.content)
    else None
  }

  /** The stored `m.direct` event is the last one of the batch that deserializes. */
  lemma {:induction false} RawByTypeKeepsLastDirect(raws: seq<AccountRaw>)
    ensures var contents := DirectContents(ParsedEvents(raws));
            && (HasDirect(ParsedEvents(raws)) <==> contents != [])
            && (DirectType in RawByType(raws) <==> contents != [])
            && (contents != [] ==> StoredDirect(RawByType(raws)) == Some(contents[|contents| - 1]))
  {
    if raws == [] {
    } else {
      var init, last := raws[..|raws| - 1], raws[|raws| - 1];
      RawByTypeKeepsLastDirect(init);
      if last.parsed.Some? {
        var events := ParsedEvents(raws);
        assert events[..|events| - 1] == ParsedEvents(init);
        assert events == ParsedEvents(init) + [last.parsed.value];
        assert last.parsed.value in events;
        assert forall e <- ParsedEvents(init) :: e in events;
      } else {
        assert ParsedEvents(raws) == ParsedEvents(init);
      }
    }
  }

  // ---- Reconciliation ----

  /** The users that list a room: the inverse of `m.direct`. */
  function Targets(c: DirectContent, r: RoomId): set<UserId> {
    set u | u in c && r in c[u]
  }

  function KnownTargets(rooms: RoomInfos, r: RoomId): set<UserId> {
    if r in rooms then rooms[r].dmTargets else {}
  }

  predicate Differs(c: DirectContent, rooms: RoomInfos, r: RoomId) {
    Targets(c, r) != KnownTargets(rooms, r)
  }

  /** Patch exactly the rooms whose targets differ from those in memory. */
  function Reconcile(infos: RoomInfos, rooms: RoomInfos, c: DirectContent): RoomInfos {
    map r | r in infos.Keys + rooms.Keys && (r in infos || Differs(c, rooms, r)) ::
      if Differs(c, rooms, r)
      then GetOr(infos, r, GetOr(rooms, r, NewRoomInfo(r, Joined))).(dmTargets := Targets(c, r))
      else infos[r]
  }

  function ReconcileAll(infos: RoomInfos, rooms: RoomInfos, cs: seq<DirectContent>): RoomInfos {
    if cs == [] then infos
    else Reconcile(ReconcileAll(infos, rooms, cs[..|cs| - 1]), rooms, cs[|cs| - 1])
  }

  /** The targets of a room once the changes are applied. */
  function Outcome(infos: RoomInfos, rooms: RoomInfos, r: RoomId): set<UserId> {
    if r in infos then infos[r].dmTargets else KnownTargets(rooms, r)
  }

  /** Nothing but targets changes, and only rooms of the changes or in memory are touched. */
  ghost predicate SameButTargets(a: RoomInfo, b: RoomInfo) {
    a == b.(dmTargets := a.dmTargets)
  }

  lemma ReconcileFrame(infos: RoomInfos, rooms: RoomInfos, c: DirectContent, r: RoomId)
    ensures var out := Reconcile(infos, rooms, c);
            && infos.Keys <= out.Keys <= infos.Keys + rooms.Keys
            && (r in out ==> SameButTargets(out[r], if r in infos then infos[r] else rooms[r]))
  {
  }

  lemma {:induction false} ReconcileAllFrame(infos: RoomInfos, rooms: RoomInfos, cs: seq<DirectContent>)
    ensures var out := ReconcileAll(infos, rooms, cs);
            && infos.Keys <= out.Keys <= infos.Keys + rooms.Keys
            && (forall r <- out :: SameButTargets(out[r], if r in infos then infos[r] else rooms[r]))
  {
    if cs == [] {
    } else {
      var prev := ReconcileAll(infos, rooms, cs[..|cs| - 1]);
      ReconcileAllFrame(infos, rooms, cs[..|cs| - 1]);
      forall r | r in ReconcileAll(infos, rooms, cs)
        ensures SameButTargets(ReconcileAll(infos, rooms, cs)[r], if r in infos then infos[r] else rooms[r])
      {
        ReconcileFrame(prev, rooms, cs[|cs| - 1], r);
      }
    }
  }

  /** The events of a batch that disagree with the targets in memory. */
  function Disagreeing(cs: seq<DirectContent>, rooms: RoomInfos, r: RoomId): seq<DirectContent> {
    if cs == [] then []
    else
      Disagreeing(cs[..|cs| - 1], rooms, r) +
      if Differs(cs[|cs| - 1], rooms, r) then [cs[|cs| - 1]] else []
  }

  lemma ReconcileOutcome(infos: RoomInfos, rooms: RoomInfos, c: DirectContent, r: RoomId)
    requires r in infos || r in rooms
    ensures Outcome(Reconcile(infos, rooms, c), rooms, r) ==
            if Differs(c, rooms, r) then Targets(c, r) else Outcome(infos, rooms, r)
  {
  }

  /** The last event of a batch that disagrees with memory decides a room's targets. */
  lemma {:induction false} BatchOutcome(
      infos: RoomInfos, rooms: RoomInfos, cs: seq<DirectContent>, r: RoomId)
    requires r in infos || r in rooms
    ensures var ds := Disagreeing(cs, rooms, r);
            Outcome(ReconcileAll(infos, rooms, cs), rooms, r) ==
            if ds == [] then Outcome(infos, rooms, r) else Targets(ds[|ds| - 1], r)
  {
    if cs == [] {
    } else {
      var init := cs[..|cs| - 1];
      BatchOutcome(infos, rooms, init, r);
      ReconcileAllFrame(infos, rooms, init);
      var before, last := ReconcileAll(infos, rooms, init), cs[|cs| - 1];
      ReconcileOutcome(before, rooms, last, r);
      assert ReconcileAll(infos, rooms, cs) == Reconcile(before, rooms, last);
      if Differs(last, rooms, r) {
        assert Disagreeing(cs, rooms, r) == Disagreeing(init, rooms, r) + [last];
      } else {
        assert Disagreeing(cs, rooms, r) == Disagreeing(init, rooms, r);
      }
    }
  }

  lemma {:induction false} DisagreeingMembers(cs: seq<DirectContent>, rooms: RoomInfos, r: RoomId)
    ensures forall d <- Disagreeing(cs, rooms, r) :: Differs(d, rooms, r)
    ensures Disagreeing(cs, rooms, r) == [] <==> forall c <- cs :: !Differs(c, rooms, r)
  {
    if cs == [] {
    } else {
      DisagreeingMembers(cs[..|cs| - 1], rooms, r);
      assert cs == cs[..|cs| - 1] + [cs[|cs| - 1]];
      assert forall c <- cs[..|cs| - 1] :: c in cs;
      assert cs[|cs| - 1] in cs;
    }
  }

  /** A batch of `m.direct` events leaves a room with the targets of the last one
      if and only if that one changes the room, or none of them does. */
  lemma BatchFollowsLastEvent(infos: RoomInfos, rooms: RoomInfos, cs: seq<DirectContent>, r: RoomId)
    requires cs != []
    requires (r in infos || r in rooms) && Outcome(infos, rooms, r) == KnownTargets(rooms, r)
    ensures var last := cs[|cs| - 1];
            Outcome(ReconcileAll(infos, rooms, cs), rooms, r) == Targets(last, r)
            <==> Differs(last, rooms, r) || forall c <- cs :: !Differs(c, rooms, r)
  {
    BatchOutcome(infos, rooms, cs, r);
    DisagreeingMembers(cs, rooms, r);
  }

  /** A single event always settles every known room on the inverse relation. */
  lemma SingleEventSettles(infos: RoomInfos, rooms: RoomInfos, c: DirectContent, r: RoomId)
    requires (r in infos || r in rooms) && Outcome(infos, rooms, r) == KnownTargets(rooms, r)
    ensures Outcome(ReconcileAll(infos, rooms, [c]), rooms, r) == Targets(c, r)
  {
  }

  /** Two events in one batch need not: the second agrees with memory, so the
      patch made for the first one is kept. */
  lemma TwoEventsNeedNotSettle(u: UserId, r: RoomId)
    ensures var rooms := map[r := NewRoomInfo(r, Joined)];
            var first, second: DirectContent := map[u := [r]], map[];
            Outcome(ReconcileAll(map[], rooms, [first, second]), rooms, r) != Targets(second, r)
  {
    var rooms := map[r := NewRoomInfo(r, Joined)];
    var first, second: DirectContent := map[u := [r]], map[];
    assert u in Targets(first, r);
    assert Differs(first, rooms, r) && !Differs(second, rooms, r);
    BatchFollowsLastEvent(map[], rooms, [first, second], r);
    assert first in [first, second];
  }

  /** Reconciling settled rooms again changes nothing. */
  lemma SettledIsStable(rooms: RoomInfos, c: DirectContent)
    requires forall r <- rooms :: rooms[r].dmTargets == Targets(c, r)
    ensures Reconcile(map[], rooms, c) == map[]
  {
  }
}
