/** How the effects of the rooms of a response add up, whatever the order they are visited in. */
module Gathering {
  import opened Types
  import opened Sync

  lemma NothingGathered(st: ClientState, resp: Response)
    ensures Created(st.rooms, resp, {}) == st.rooms
    ensures st.tracked + SectionTracked(st.persisted, st.rooms, resp, {}) == st.tracked
    ensures SectionInfos(st.rooms, resp, {}) == map[]
    ensures SectionStates(resp, {}) == map[]
    ensures SectionStripped(resp, {}) == map[]
  {
  }

  /** The client and the accumulator after the rooms in `done` were processed. */
  ghost function GatheredClient(st: ClientState, resp: Response, done: set<RoomId>): ClientState {
    st.(rooms := Created(st.rooms, resp, done), tracked := st.tracked + SectionTracked(st.persisted, st.rooms, resp, done))
  }

  ghost function GatheredChanges(st: ClientState, resp: Response, done: set<RoomId>): Changes {
    Changes(Some(resp.nextBatch), SectionInfos(st.rooms, resp, done), SectionStates(resp, done), SectionStripped(resp, done), map[])
  }

  /** The effect of processing one room on the client and the accumulator. */
  ghost predicate RoomProcessed(resp: Response, r: RoomId, v0: ClientState, c0: Changes, v1: ClientState, c1: Changes)
    requires r in resp.rooms
  {
    var u, was := resp.rooms[r], OldInfo(v0.rooms, resp, r);
    && v1 == v0.(rooms := v0.rooms[r := was], tracked := v0.tracked + ToTrack(v0.persisted, was, r, u))
    && c1 == c0.(
         infos := c0.infos[r := UpdatedInfo(was, u)],
         state := if HasFullState(u) then c0.state[r := GatheredState(u)] else c0.state,
         stripped := if HasFullState(u) then c0.stripped else c0.stripped[r := StrippedOverlay(StrippedEvents(u.stripped))])
  }

  lemma GatheredLacks(st: ClientState, resp: Response, done: set<RoomId>, r: RoomId)
    requires r in resp.rooms && r !in done
    ensures OldInfo(GatheredClient(st, resp, done).rooms, resp, r) == OldInfo(st.rooms, resp, r)
    ensures r !in GatheredChanges(st, resp, done).stripped && r !in GatheredChanges(st, resp, done).state
  {
  }

  lemma CreatedOneMore(rooms: RoomInfos, resp: Response, done: set<RoomId>, r: RoomId)
    requires r in resp.rooms
    ensures Created(rooms, resp, done + {r}) == Created(rooms, resp, done)[r := OldInfo(rooms, resp, r)]
  {
  }

  lemma TrackedOneMore(st: ClientState, resp: Response, done: set<RoomId>, r: RoomId)
    requires r in resp.rooms
    ensures SectionTracked(st.persisted, st.rooms, resp, done + {r}) ==
            SectionTracked(st.persisted, st.rooms, resp, done)
            + ToTrack(st.persisted, OldInfo(st.rooms, resp, r), r, resp.rooms[r])
  {
  }

  lemma InfosOneMore(rooms: RoomInfos, resp: Response, done: set<RoomId>, r: RoomId)
    requires r in resp.rooms
    ensures SectionInfos(rooms, resp, done + {r}) ==
            SectionInfos(rooms, resp, done)[r := UpdatedInfo(OldInfo(rooms, resp, r), resp.rooms[r])]
  {
  }

  lemma StatesOneMore(resp: Response, done: set<RoomId>, r: RoomId)
    requires r in resp.rooms
    ensures SectionStates(resp, done + {r}) ==
            if HasFullState(resp.rooms[r]) then SectionStates(resp, done)[r := GatheredState(resp.rooms[r])]
            else SectionStates(resp, done)
  {
  }

  lemma StrippedOneMore(resp: Response, done: set<RoomId>, r: RoomId)
    requires r in resp.rooms
    ensures SectionStripped(resp, done + {r}) ==
            if HasFullState(resp.rooms[r]) then SectionStripped(resp, done)
            else SectionStripped(resp, done)[r := StrippedOverlay(StrippedEvents(resp.rooms[r].stripped))]
  {
  }

  lemma GatherOneMore(st: ClientState, resp: Response, done: set<RoomId>, r: RoomId, v: ClientState, c: Changes)
    requires r in resp.rooms && r !in done
    requires RoomProcessed(resp, r, GatheredClient(st, resp, done), GatheredChanges(st, resp, done), v, c)
    ensures v == GatheredClient(st, resp, done + {r}) && c == GatheredChanges(st, resp, done + {r})
  {
    GatheredLacks(st, resp, done, r);
    CreatedOneMore(st.rooms, resp, done, r);
    TrackedOneMore(st, resp, done, r);
    InfosOneMore(st.rooms, resp, done, r);
    StatesOneMore(resp, done, r);
    StrippedOneMore(resp, done, r);
  }
}
