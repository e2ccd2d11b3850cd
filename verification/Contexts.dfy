/** What a push context says: member count, own name and power levels, in terms of
    the record and the last events about them. */
module Contexts {
  import opened Types
  import opened StateFold
  import opened Sync
  import opened Timeline
  import opened RoomEvents

  /** The localpart of a user id is what stands between the sigil and the first colon. */
  lemma {:induction false} UntilColon(local: string, domain: string)
    requires ':' !in local
    ensures Until(local + ":" + domain, ':') == local
  {
    if local == "" {
      assert (local + ":" + domain)[0] == ':';
    } else {
      assert (local + ":" + domain)[1..] == local[1..] + ":" + domain;
      UntilColon(local[1..], domain);
    }
  }

  lemma LocalpartOf(local: string, domain: string)
    requires ':' !in local
    ensures Localpart("@" + local + ":" + domain) == local
  {
    assert ("@" + local + ":" + domain)[1..] == local + ":" + domain;
    UntilColon(local, domain);
  }

  // ---- Own name ----

  /** The name in the last member event about us: its display name, else our localpart. */
  function LastOwnName(ws: seq<Write>, own: UserId): Option<string> {
    if ws == [] then None
    else
      var e := ws[|ws| - 1].event;
      if IsMember(e) && e.stateKey == own then Some(e.content.displayName.UnwrapOr(Localpart(own)))
      else LastOwnName(ws[..|ws| - 1], own)
  }

  lemma {:induction false} NameByLastEvent(ws: seq<Write>, own: UserId)
    requires forall w <- ws :: IsState(w.raw) && w.raw.parsed.value.event == w.event
    ensures SyncedName(own, Overlay(map[], ws)) == LastOwnName(ws, own)
  {
    if ws == [] {
    } else {
      assert ws[|ws| - 1] in ws;
      NameByLastEvent(ws[..|ws| - 1], own);
    }
  }

  /** The same for stripped events. */
  function LastStrippedName(ps: seq<StrippedRaw>, own: UserId): Option<string>
    requires forall p <- ps :: p.parsed.Some?
  {
    if ps == [] then None
    else
      var e := ps[|ps| - 1].parsed.value;
      if IsMember(e) && e.stateKey == own then Some(e.content.displayName.UnwrapOr(Localpart(own)))
      else LastStrippedName(ps[..|ps| - 1], own)
  }

  lemma {:induction false} NameByLastStripped(ps: seq<StrippedRaw>, own: UserId)
    requires forall p <- ps :: p.parsed.Some?
    ensures StrippedName(own, StrippedOverlay(ps)) == LastStrippedName(ps, own)
  {
    if ps == [] {
    } else {
      NameByLastStripped(ps[..|ps| - 1], own);
    }
  }

  // ---- Power levels ----

  /** The last event about power levels, read as a sync event and as a full event. */
  function LastPower(ws: seq<Write>): Option<(PowerLevels, Option<PowerLevels>)> {
    if ws == [] then None
    else
      var w := ws[|ws| - 1];
      if w.event.content.Power? && w.event.stateKey == "" then Some((w.event.content.levels, w.raw.fullPower))
      else LastPower(ws[..|ws| - 1])
  }

  lemma {:induction false} PowerByLastEvent(ws: seq<Write>)
    requires forall w <- ws :: IsState(w.raw) && w.raw.parsed.value.event == w.event
    ensures var m := Overlay(map[], ws);
            match LastPower(ws)
            case None => POWER_SLOT !in m
            case Some((levels, full)) => SyncPower(m) == Some(levels) && POWER_SLOT in m && m[POWER_SLOT].fullPower == full
  {
    if ws == [] {
    } else {
      assert ws[|ws| - 1] in ws;
      PowerByLastEvent(ws[..|ws| - 1]);
    }
  }

  function LastStrippedPower(ps: seq<StrippedRaw>): Option<PowerLevels>
    requires forall p <- ps :: p.parsed.Some?
  {
    if ps == [] then None
    else
      var p := ps[|ps| - 1];
      if p.parsed.value.content.Power? && p.parsed.value.stateKey == "" then p.power
      else LastStrippedPower(ps[..|ps| - 1])
  }

  lemma {:induction false} PowerByLastStripped(ps: seq<StrippedRaw>)
    requires forall p <- ps :: p.parsed.Some?
    ensures var m := StrippedOverlay(ps);
            LastStrippedPower(ps) == if POWER_SLOT in m then m[POWER_SLOT].power else None
  {
    if ps == [] {
    } else {
      PowerByLastStripped(ps[..|ps| - 1]);
    }
  }

  function First<T>(a: Option<T>, b: Option<T>): Option<T> {
    if a.Some? then a else b
  }

  // ---- Contexts ----

  /** The members a context counts: joined and invited, as a Matrix integer. */
  ghost predicate CountIs(count: nat, info: RoomInfo) {
    count == if info.joinedCount + info.invitedCount <= 0x1F_FFFF_FFFF_FFFF
             then info.joinedCount + info.invitedCount else 0x1F_FFFF_FFFF_FFFF
  }

  lemma MemberCountIs(info: RoomInfo)
    ensures CountIs(MemberCount(info), info)
  {
  }

  /** The context kept through the timeline of a joined or left room: ours and the
      room's identity, the members the record counts, and our name according to the
      last event about us in state block and timeline, else according to the store;
      there is one exactly if there is such a name. */
  lemma KeptContextContents(session: Session, was: RoomInfo, r: RoomId, u: RoomUpdate)
    requires HasFullState(u) && TimelineOf(session, was, r, u).Ok?
    ensures var context := TimelineOf(session, was, r, u).value.context;
            var name := First(LastOwnName(Reported(u), session.ownUser), session.stored(r).ownName);
            && (context.Some? <==> name.Some?)
            && (context.Some? ==>
              && context.value.userId == session.ownUser && context.value.roomId == r
              && CountIs(context.value.memberCount, AfterState(was, u))
              && Some(context.value.displayName) == name)
  {
    var env, a, b := RoomEnv(session, r, map[]), Writes(u.state), Writes(u.timeline);
    var m := Overlay(map[], a);
    var acc0 := Start(env, AfterState(was, u), m, EverActive(a), []);
    OverlayWellKeyed(map[], a);
    WellKeyedPower(m);
    RunTracks(env, acc0, u.timeline);
    RunFolds(env, acc0, u.timeline);
    OverlayConcat(map[], a, b);
    NameByLastEvent(Reported(u), session.ownUser);
    HandleStateEventsEncryption(AfterState(was, u), b);
    MemberCountIs(AfterTimeline(was, u));
  }

  /** Its power levels: those of the last event about them in state block and
      timeline, read as a sync event, or as a full event (else the stored ones) where
      the context has just been computed; the stored ones without such an event. */
  lemma KeptContextPower(session: Session, was: RoomInfo, r: RoomId, u: RoomUpdate)
    requires HasFullState(u) && TimelineOf(session, was, r, u).Ok?
    ensures var context, last := TimelineOf(session, was, r, u).value.context, LastPower(Reported(u));
            context.Some? ==>
              context.value.powerLevels ==
              if last.None? then session.stored(r).power
              else if JustComputed(RoomEnv(session, r, map[]), Overlay(map[], Writes(u.state)), u.timeline)
              then First(last.value.1, session.stored(r).power)
              else Some(last.value.0)
  {
    var env, a, b := RoomEnv(session, r, map[]), Writes(u.state), Writes(u.timeline);
    var m := Overlay(map[], a);
    var acc0 := Start(env, AfterState(was, u), m, EverActive(a), []);
    OverlayWellKeyed(map[], a);
    WellKeyedPower(m);
    RunTracks(env, acc0, u.timeline);
    RunFolds(env, acc0, u.timeline);
    OverlayConcat(map[], a, b);
    PowerByLastEvent(Reported(u));
  }

  /** A context computed from scratch for a joined or left room has the power levels
      of the last event about them read as a full event, else the stored ones. */
  lemma ScratchContextPower(session: Session, r: RoomId, info: RoomInfo, ws: seq<Write>)
    requires forall w <- ws :: IsState(w.raw) && w.raw.parsed.value.event == w.event
    ensures var context := GetPushRoomContext(RoomEnv(session, r, map[]), info, Overlay(map[], ws));
            context.Some? ==>
              context.value.powerLevels ==
              First(if LastPower(ws).Some? then LastPower(ws).value.1 else None, session.stored(r).power)
  {
    PowerByLastEvent(ws);
  }

  /** The context of an invited or knocked room: members as recorded, and name and
      power levels of the last stripped events about them, else the stored ones. */
  lemma StrippedContextContents(session: Session, r: RoomId, info: RoomInfo, ps: seq<StrippedRaw>)
    requires forall p <- ps :: p.parsed.Some?
    ensures var context := GetPushRoomContext(RoomEnv(session, r, StrippedOverlay(ps)), info, map[]);
            var name := First(LastStrippedName(ps, session.ownUser), session.stored(r).ownName);
            && (context.Some? <==> name.Some?)
            && (context.Some? ==>
              && context.value.userId == session.ownUser && context.value.roomId == r
              && CountIs(context.value.memberCount, info)
              && Some(context.value.displayName) == name
              && context.value.powerLevels == First(LastStrippedPower(ps), session.stored(r).power))
  {
    NameByLastStripped(ps, session.ownUser);
    PowerByLastStripped(ps);
    MemberCountIs(info);
  }
}
