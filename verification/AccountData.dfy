/** Account data: direct rooms reconciled with `m.direct`, and per-room markers and tags. */
module AccountData {
  import opened Types
  import opened Direct
  import opened Sync
  import opened Accumulator

  /** Global account data: the last raw event per type, and everything that deserializes. */
  method ProcessAccountData(
      raws: seq<AccountRaw>) returns (rawByType: map<AccountType, AccountRaw>, parsed: seq<AccountEvent>)
    ensures rawByType == RawByType(raws) && parsed == ParsedEvents(raws)
  {
    rawByType, parsed := map[], [];
    for i := 0 to |raws|
      invariant rawByType == RawByType(raws[..i]) && parsed == ParsedEvents(raws[..i])
    {
      assert raws[..i + 1][..i] == raws[..i];
      if raws[i].parsed.Some? {
        rawByType := rawByType[AccountTypeOf(raws[i].parsed.value) := raws[i]];
        parsed := parsed + [raws[i].parsed.value];
      }
    }
    assert raws[..|raws|] == raws;
  }

  // ---- Direct rooms ----

  function ListedRooms(c: DirectContent): set<RoomId> {
    set u, r | u in c && r in c[u] :: r
  }

  function Inverse(c: DirectContent): map<RoomId, set<UserId>> {
    map r | r in ListedRooms(c) :: Targets(c, r)
  }

  lemma ListedExtends(c: DirectContent, u: UserId, r: RoomId)
    requires u in c
    ensures ListedRooms(c[u := c[u] + [r]]) == ListedRooms(c) + {r}
  {
    var d := c[u := c[u] + [r]];
    assert r in d[u];
    forall q | q in ListedRooms(c)
      ensures q in ListedRooms(d)
    {
      var v :| v in c && q in c[v];
      assert v in d && q in d[v];
    }
  }

  lemma TargetsExtend(c: DirectContent, u: UserId, r: RoomId, q: RoomId)
    requires u in c
    ensures Targets(c[u := c[u] + [r]], q) == if q == r then Targets(c, q) + {u} else Targets(c, q)
  {
  }

  lemma UnlistedTargets(c: DirectContent, r: RoomId)
    requires r !in ListedRooms(c)
    ensures Targets(c, r) == {}
  {
  }

  lemma InverseExtends(c: DirectContent, u: UserId, r: RoomId)
    requires u in c
    ensures Inverse(c[u := c[u] + [r]]) == Inverse(c)[r := GetOr(Inverse(c), r, {}) + {u}]
  {
    ListedExtends(c, u, r);
    if r !in ListedRooms(c) {
      UnlistedTargets(c, r);
    }
    forall q
      ensures Targets(c[u := c[u] + [r]], q) == if q == r then Targets(c, q) + {u} else Targets(c, q)
    {
      TargetsExtend(c, u, r, q);
    }
  }

  lemma InverseOfSilent(c: DirectContent, u: UserId)
    requires u !in c
    ensures Inverse(c[u := []]) == Inverse(c)
  {
    var d := c[u := []];
    assert forall v, r :: v in d && r in d[v] <==> v in c && r in c[v];
    assert forall r :: Targets(d, r) == Targets(c, r);
  }

  /** Invert `m.direct`, whatever the order its users are visited in. */
  method InvertDirect(c: DirectContent) returns (dms: map<RoomId, set<UserId>>)
    ensures dms == Inverse(c)
  {
    dms := map[];
    ghost var seen: DirectContent := map[];
    var users := c.Keys;
    while users != {}
      invariant users <= c.Keys && seen == c - users
      invariant dms == Inverse(seen)
    {
      var u :| u in users;
      users := users - {u};
      InverseOfSilent(seen, u);
      seen := seen[u := []];
      for i := 0 to |c[u]|
        invariant seen == (c - users)[u := c[u][..i]]
        invariant dms == Inverse(seen)
      {
        InverseExtends(seen, u, c[u][i]);
        assert c[u][..i + 1] == c[u][..i] + [c[u][i]];
        var r := c[u][i];
        dms := dms[r := GetOr(dms, r, {}) + {u}];
        seen := seen[u := c[u][..i + 1]];
      }
      assert c[u][..|c[u]|] == c[u];
    }
    assert seen == c;
  }

  /** Reconciliation restricted to the rooms already visited. */
  ghost function ReconcileVisited(infos: RoomInfos, rooms: RoomInfos, c: DirectContent, done: set<RoomId>): RoomInfos {
    map r | r in infos.Keys + rooms.Keys && (r in infos || (r in done && Differs(c, rooms, r))) ::
      if r in done && Differs(c, rooms, r)
      then GetOr(infos, r, GetOr(rooms, r, NewRoomInfo(r, Joined))).(dmTargets := Targets(c, r))
      else infos[r]
  }

  /** Set a room's targets in the accumulator, cloning the record from memory if needed. */
  method MapInfo(rooms: RoomInfos, r: RoomId, targets: set<UserId>, changes: StateChanges)
    requires RoomsKeyed(rooms) && RoomsKeyed(changes.infos)
    modifies changes`infos
    ensures RoomsKeyed(changes.infos)
    ensures changes.infos ==
            if r in old(changes.infos) then old(changes.infos)[r := old(changes.infos)[r].(dmTargets := targets)]
            else if r in rooms then old(changes.infos)[r := rooms[r].(dmTargets := targets)]
            else old(changes.infos)
  {
    if r in changes.infos {
      changes.infos := changes.infos[r := changes.infos[r].(dmTargets := targets)];
    } else if r in rooms {
      changes.AddRoom(rooms[r].(dmTargets := targets));
    }
  }

  lemma MinusOneMore<K, V>(m: map<K, V>, s: set<K>, k: K)
    ensures m - (s + {k}) == m - s - {k}
    ensures k !in m - s ==> m - s - {k} == m - s
  {
  }

  lemma ReconcileVisitsOneMore(infos: RoomInfos, rooms: RoomInfos, c: DirectContent, done: set<RoomId>, r: RoomId)
    requires r !in done
    ensures var before, after := ReconcileVisited(infos, rooms, c, done), ReconcileVisited(infos, rooms, c, done + {r});
            after ==
            if !Differs(c, rooms, r) then before
            else if r in before then before[r := before[r].(dmTargets := Targets(c, r))]
            else if r in rooms then before[r := rooms[r].(dmTargets := Targets(c, r))]
            else before
  {
  }

  lemma NonEmptyTargets(c: DirectContent, r: RoomId)
    requires r in ListedRooms(c)
    ensures Targets(c, r) != {}
  {
    var u :| u in c && r in c[u];
    assert u in Targets(c, r);
  }

  /** Give the listed rooms their targets; the known direct rooms that are not listed remain. */
  method MarkDirect(
      rooms: RoomInfos, c: DirectContent, newDms: map<RoomId, set<UserId>>, oldDms0: map<RoomId, set<UserId>>,
      changes: StateChanges)
    returns (oldDms: map<RoomId, set<UserId>>)
    requires RoomsKeyed(rooms) && RoomsKeyed(changes.infos)
    requires newDms == Inverse(c)
    requires oldDms0 == map r | r in rooms && rooms[r].dmTargets != {} :: rooms[r].dmTargets
    modifies changes`infos
    ensures RoomsKeyed(changes.infos)
    ensures oldDms == oldDms0 - newDms.Keys
    ensures changes.infos == ReconcileVisited(old(changes.infos), rooms, c, newDms.Keys)
  {
    oldDms := oldDms0;
    var todo := newDms.Keys;
    while todo != {}
      invariant todo <= newDms.Keys
      invariant oldDms == oldDms0 - (newDms.Keys - todo)
      invariant RoomsKeyed(changes.infos)
      invariant changes.infos == ReconcileVisited(old(changes.infos), rooms, c, newDms.Keys - todo)
    {
      var r :| r in todo;
      assert newDms.Keys - (todo - {r}) == (newDms.Keys - todo) + {r};
      MinusOneMore(oldDms0, newDms.Keys - todo, r);
      ReconcileVisitsOneMore(old(changes.infos), rooms, c, newDms.Keys - todo, r);
      NonEmptyTargets(c, r);
      todo := todo - {r};
      if r in oldDms {
        var known := oldDms[r];
        oldDms := oldDms - {r};
        if known == newDms[r] {
          continue;
        }
      }
      MapInfo(rooms, r, newDms[r], changes);
    }
    assert newDms.Keys - todo == newDms.Keys;
  }

  /** Clear the targets of rooms that are no longer listed. */
  method UnmarkDirect(
      rooms: RoomInfos, c: DirectContent, stale: set<RoomId>, ghost infos0: RoomInfos, ghost listed: set<RoomId>,
      changes: StateChanges)
    requires RoomsKeyed(rooms) && RoomsKeyed(changes.infos)
    requires listed == ListedRooms(c) && stale !! listed
    requires forall r <- stale :: r in rooms && rooms[r].dmTargets != {}
    requires changes.infos == ReconcileVisited(infos0, rooms, c, listed)
    modifies changes`infos
    ensures RoomsKeyed(changes.infos)
    ensures changes.infos == ReconcileVisited(infos0, rooms, c, listed + stale)
  {
    var todo := stale;
    assert listed + (stale - todo) == listed;
    while todo != {}
      invariant todo <= stale
      invariant RoomsKeyed(changes.infos)
      invariant changes.infos == ReconcileVisited(infos0, rooms, c, listed + (stale - todo))
    {
      var r :| r in todo;
      assert listed + (stale - (todo - {r})) == (listed + (stale - todo)) + {r};
      ReconcileVisitsOneMore(infos0, rooms, c, listed + (stale - todo), r);
      UnlistedTargets(c, r);
      todo := todo - {r};
      MapInfo(rooms, r, {}, changes);
    }
    assert stale - todo == stale;
  }

  lemma VisitedAll(infos: RoomInfos, rooms: RoomInfos, c: DirectContent, stale: set<RoomId>)
    requires forall r <- rooms :: rooms[r].dmTargets != {} ==> r in ListedRooms(c) || r in stale
    ensures ReconcileVisited(infos, rooms, c, ListedRooms(c) + stale) == Reconcile(infos, rooms, c)
  {
  }

  /** Reconcile with one `m.direct` event, whatever the order rooms are visited in. */
  method ProcessDirectEvent(rooms: RoomInfos, c: DirectContent, changes: StateChanges)
    requires RoomsKeyed(rooms) && RoomsKeyed(changes.infos)
    modifies changes`infos
    ensures RoomsKeyed(changes.infos)
    ensures changes.infos == Reconcile(old(changes.infos), rooms, c)
  {
    var newDms := InvertDirect(c);
    var oldDms := map r | r in rooms && rooms[r].dmTargets != {} :: rooms[r].dmTargets;
    oldDms := MarkDirect(rooms, c, newDms, oldDms, changes);
    UnmarkDirect(rooms, c, oldDms.Keys, old(changes.infos), newDms.Keys, changes);
    VisitedAll(old(changes.infos), rooms, c, oldDms.Keys);
  }

  method ProcessDirectRooms(rooms: RoomInfos, events: seq<AccountEvent>, changes: StateChanges)
    requires RoomsKeyed(rooms) && RoomsKeyed(changes.infos)
    modifies changes`infos
    ensures RoomsKeyed(changes.infos)
    ensures changes.infos == ReconcileAll(old(changes.infos), rooms, DirectContents(events))
  {
    for i := 0 to |events|
      invariant RoomsKeyed(changes.infos)
      invariant changes.infos == ReconcileAll(old(changes.infos), rooms, DirectContents(events[..i]))
    {
      assert events[..i + 1][..i] == events[..i];
      if events[i].DirectEvent? {
        ghost var cs := DirectContents(events[..i + 1]);
        assert cs[..|cs| - 1] == DirectContents(events[..i]);
        ProcessDirectEvent(rooms, events[i].content, changes);
      } else {
        assert DirectContents(events[..i + 1]) == DirectContents(events[..i]);
      }
    }
    assert events[..|events|] == events;
  }

  lemma SingleDirect(e: AccountEvent)
    ensures DirectContents([e]) == if e.DirectEvent? then [e.content] else []
  {
  }

  /** Store the account data and reconcile with its `m.direct`, else with the stored one. */
  method ApplyAccountData(
      rooms: RoomInfos, persisted: Persisted, resp: Response, directReadOk: bool, changes: StateChanges)
    requires RoomsKeyed(rooms) && RoomsKeyed(changes.infos)
    modifies changes`infos, changes`accountData
    ensures RoomsKeyed(changes.infos)
    ensures changes.accountData == RawByType(resp.accountData)
    ensures changes.infos == ReconcileAll(old(changes.infos), rooms, DirectsToApply(persisted, resp, directReadOk))
  {
    var rawByType, parsed := ProcessAccountData(resp.accountData);
    changes.accountData := rawByType;
    if exists e <- parsed :: e.DirectEvent? {
      ProcessDirectRooms(rooms, parsed, changes);
    } else if directReadOk && DirectType in persisted.accountData {
      var stored := persisted.accountData[DirectType].parsed;
      if stored.Some? {
        SingleDirect(stored.value);
        ProcessDirectRooms(rooms, [stored.value], changes);
      }
    }
  }

  function OnRoomInfos(infos: RoomInfos, rooms: RoomInfos, r: RoomId, raws: seq<RoomAccountRaw>): RoomInfos {
    if raws == [] then infos
    else
      var rest, last := OnRoomInfos(infos, rooms, r, raws[..|raws| - 1]), raws[|raws| - 1];
      if last.parsed.None? || last.parsed.value.OtherRoomData? then rest
      else if r in rest then rest[r := ApplyRoomEvent(rest[r], last.parsed.value)]
      else if r in rooms then rest[r := ApplyRoomEvent(rooms[r], last.parsed.value)]
      else rest
  }

  lemma {:induction false} OnRoomInfosInPlace(infos: RoomInfos, rooms: RoomInfos, r: RoomId, raws: seq<RoomAccountRaw>)
    requires r in infos
    ensures OnRoomInfos(infos, rooms, r, raws) == infos[r := ApplyRoomAccount(infos[r], raws)]
  {
    if raws == [] {
    } else {
      OnRoomInfosInPlace(infos, rooms, r, raws[..|raws| - 1]);
    }
  }

  /** Account data of a room, applied to its record in the accumulator, which is
      cloned from memory when it is not there yet. */
  method HandleRoomAccountData(rooms: RoomInfos, r: RoomId, raws: seq<RoomAccountRaw>, changes: StateChanges)
    requires RoomsKeyed(rooms) && RoomsKeyed(changes.infos)
    modifies changes`infos
    ensures RoomsKeyed(changes.infos)
    ensures changes.infos == OnRoomInfos(old(changes.infos), rooms, r, raws)
    ensures r in old(changes.infos) ==>
              changes.infos == old(changes.infos)[r := ApplyRoomAccount(old(changes.infos)[r], raws)]
  {
    for i := 0 to |raws|
      invariant RoomsKeyed(changes.infos)
      invariant changes.infos == OnRoomInfos(old(changes.infos), rooms, r, raws[..i])
    {
      assert raws[..i + 1][..i] == raws[..i];
      if raws[i].parsed.Some? && !raws[i].parsed.value.OtherRoomData? {
        var e := raws[i].parsed.value;
        if r in changes.infos {
          changes.infos := changes.infos[r := ApplyRoomEvent(changes.infos[r], e)];
        } else if r in rooms {
          changes.AddRoom(ApplyRoomEvent(rooms[r], e));
        }
      }
    }
    assert raws[..|raws|] == raws;
    if r in old(changes.infos) {
      OnRoomInfosInPlace(old(changes.infos), rooms, r, raws);
    }
  }
}
