/** The latest displayable event of a room, searched backwards among the events
    that were encrypted when they arrived. */
module LatestEvent {
  import opened Types
  import opened Timeline
  import opened Accumulator

  datatype PossibleLatestEvent =
    | YesRoomMessage
    | YesSticker
    | YesPoll
    | YesCallInvite
    | YesCallNotify
    | YesKnockedStateEvent
    | NoUnsupportedEventType
    | NoUnsupportedMessageLikeType
    | NoEncrypted

  predicate IsYes(p: PossibleLatestEvent) {
    !p.NoUnsupportedEventType? && !p.NoUnsupportedMessageLikeType? && !p.NoEncrypted?
  }

  function LevelOf(levels: PowerLevels, u: UserId): int {
    GetOr(levels.users, u, levels.usersDefault)
  }

  /** May the user accept or decline a knock? */
  predicate CanHandleKnocks(power: Option<(UserId, PowerLevels)>) {
    power.Some? &&
    var (own, levels) := power.value;
    LevelOf(levels, own) >= levels.invite || LevelOf(levels, own) >= levels.kick
  }

  function IsSuitableForLatestEvent(e: TimelineEvent, power: Option<(UserId, PowerLevels)>): PossibleLatestEvent {
    match e
    case Message(RoomMessage(original, replacement)) =>
      if original && replacement then NoUnsupportedMessageLikeType else YesRoomMessage
    case Message(PollStart) => YesPoll
    case Message(CallInvite) => YesCallInvite
    case Message(CallNotify) => YesCallNotify
    case Message(Sticker) => YesSticker
    case Message(Encrypted(_)) => NoEncrypted
    case Message(_) => NoUnsupportedMessageLikeType
    case State(s) =>
      if s.content.Member? && s.content.membership.Knock? && CanHandleKnocks(power) then YesKnockedStateEvent
      else NoUnsupportedEventType
  }

  /** What an attempt at decryption yields; a failed decryption yields the event
      in its undecryptable form, an error or a missing machine yields nothing. */
  function TryDecrypt(decrypt: Raw -> Decryption, raw: Raw): Option<Displayed> {
    match decrypt(raw)
    case Decrypted(d) => Some(Displayed(DecryptedEvent, d))
    case UnableToDecrypt => Some(Displayed(Undecryptable, raw))
    case _ => None
  }

  /** The displayable form of an event: decrypted, deserializable and suitable. */
  function Displayable(decrypt: Raw -> Decryption, power: Option<(UserId, PowerLevels)>, raw: Raw): Option<Displayed> {
    match TryDecrypt(decrypt, raw)
    case None => None
    case Some(item) =>
      if item.raw.parsed.Some? && IsYes(IsSuitableForLatestEvent(item.raw.parsed.value, power)) then Some(item) else None
  }

  predicate StillEncrypted(raw: Raw) {
    raw.parsed.Some? && raw.parsed.value.Message? && raw.parsed.value.message.Encrypted?
  }

  /** Only plain events are displayable, so for an event that arrived encrypted
      the displayable form is a genuine decryption. */
  lemma DisplayableIsDecrypted(decrypt: Raw -> Decryption, power: Option<(UserId, PowerLevels)>, raw: Raw)
    ensures Displayable(decrypt, power, raw).Some? ==> !StillEncrypted(Displayable(decrypt, power, raw).value.raw)
    ensures StillEncrypted(raw) && Displayable(decrypt, power, raw).Some? ==>
              decrypt(raw) == Decrypted(Displayable(decrypt, power, raw).value.raw)
  {
  }

  /** Contents a room's preview can show: messages that are not edits, polls, calls
      and call notifications, stickers, and knocks that our level lets us answer. */
  ghost predicate CanPreview(e: TimelineEvent, power: Option<(UserId, PowerLevels)>) {
    || (e.Message? && e.message.RoomMessage? && !(e.message.original && e.message.replacement))
    || (e.Message? && (e.message.PollStart? || e.message.CallInvite? || e.message.CallNotify? || e.message.Sticker?))
    || (e.State? && e.event.content.Member? && e.event.content.membership == Knock && power.Some?
        && var (own, levels) := power.value;
           var level := if own in levels.users then levels.users[own] else levels.usersDefault;
           level >= levels.invite || level >= levels.kick)
  }

  /** What decryption leaves of an event, if anything. */
  ghost predicate DecryptsTo(decrypt: Raw -> Decryption, raw: Raw, item: Displayed) {
    || (decrypt(raw).Decrypted? && item == Displayed(DecryptedEvent, decrypt(raw).raw))
    || (decrypt(raw).UnableToDecrypt? && item == Displayed(Undecryptable, raw))
  }

  /** An event is displayable exactly if what decryption leaves of it deserializes
      to something a preview can show. */
  lemma DisplayableIff(decrypt: Raw -> Decryption, power: Option<(UserId, PowerLevels)>, raw: Raw, item: Displayed)
    ensures Displayable(decrypt, power, raw) == Some(item) <==>
            DecryptsTo(decrypt, raw, item) && item.raw.parsed.Some? && CanPreview(item.raw.parsed.value, power)
  {
  }

  /** Some form of the event can be shown. */
  ghost predicate CanShow(decrypt: Raw -> Decryption, power: Option<(UserId, PowerLevels)>, raw: Raw) {
    exists item ::
      DecryptsTo(decrypt, raw, item) && item.raw.parsed.Some? && CanPreview(item.raw.parsed.value, power)
  }

  lemma CanShowIff(decrypt: Raw -> Decryption, power: Option<(UserId, PowerLevels)>, raw: Raw)
    ensures CanShow(decrypt, power, raw) <==> Displayable(decrypt, power, raw).Some?
  {
    if Displayable(decrypt, power, raw).Some? {
      DisplayableIff(decrypt, power, raw, Displayable(decrypt, power, raw).value);
    }
    if item :| DecryptsTo(decrypt, raw, item) && item.raw.parsed.Some? && CanPreview(item.raw.parsed.value, power) {
      DisplayableIff(decrypt, power, raw, item);
    }
  }

  /** The newest event that can be shown, if there is one. */
  method DecryptLatestSuitableEvent(
      events: seq<Raw>, decrypt: Raw -> Decryption, power: Option<(UserId, PowerLevels)>)
    returns (found: Option<(Displayed, nat)>)
    ensures found.Some? ==>
              var (item, i) := found.value;
              && i < |events|
              && DecryptsTo(decrypt, events[i], item)
              && item.raw.parsed.Some? && CanPreview(item.raw.parsed.value, power)
              && !StillEncrypted(item.raw)
              && (StillEncrypted(events[i]) ==> decrypt(events[i]) == Decrypted(item.raw))
              && forall j :: i < j < |events| ==> !CanShow(decrypt, power, events[j])
    ensures found.None? <==> forall raw <- events :: !CanShow(decrypt, power, raw)
  {
    for i := |events| downto 0
      invariant forall j :: i <= j < |events| ==> !CanShow(decrypt, power, events[j])
    {
      CanShowIff(decrypt, power, events[i]);
      var attempt := TryDecrypt(decrypt, events[i]);
      if attempt.Some? {
        var item := attempt.value;
        if item.raw.parsed.Some? {
          var verdict := IsSuitableForLatestEvent(item.raw.parsed.value, power);
          if IsYes(verdict) {
            DisplayableIff(decrypt, power, events[i], item);
            DisplayableIsDecrypted(decrypt, power, events[i]);
            assert events[i] in events;
            return Some((item, i));
          }
        }
      }
    }
    found := None;
  }

  /** The changes once a room's latest event is recorded, everything else kept. */
  function WithLatest(infos: RoomInfos, info: RoomInfo, latest: Displayed): RoomInfos {
    infos[info.roomId := GetOr(infos, info.roomId, info).(latestEvent := Some(latest))]
  }

  class Room {
    const info: RoomInfo
    var latestEncryptedEvents: seq<Raw>

    constructor (info: RoomInfo)
      ensures this.info == info && latestEncryptedEvents == []
    {
      this.info, latestEncryptedEvents := info, [];
    }

    /** Record the newest event that can be shown, if there is one, as the latest of
        the room in the changes, cloning its record if needed, and forget it and all
        older encrypted events; afterwards no kept event can be shown. */
    method DecryptLatestEvents(decrypt: Raw -> Decryption, power: Option<(UserId, PowerLevels)>, changes: StateChanges)
      modifies this`latestEncryptedEvents, changes`infos
      ensures forall raw <- latestEncryptedEvents :: !CanShow(decrypt, power, raw)
      ensures (forall raw <- old(latestEncryptedEvents) :: !CanShow(decrypt, power, raw)) ==>
                changes.infos == old(changes.infos) && latestEncryptedEvents == old(latestEncryptedEvents)
      ensures (exists raw <- old(latestEncryptedEvents) :: CanShow(decrypt, power, raw)) ==>
                exists i, item ::
                  && 0 <= i < |old(latestEncryptedEvents)|
                  && latestEncryptedEvents == old(latestEncryptedEvents)[i + 1..]
                  && DecryptsTo(decrypt, old(latestEncryptedEvents)[i], item)
                  && item.raw.parsed.Some? && CanPreview(item.raw.parsed.value, power)
                  && changes.infos == WithLatest(old(changes.infos), info, item)
    {
      var found := DecryptLatestSuitableEvent(latestEncryptedEvents, decrypt, power);
      if found.Some? {
        var (item, index) := found.value;
        assert latestEncryptedEvents[index] in latestEncryptedEvents;
        latestEncryptedEvents := latestEncryptedEvents[index + 1..];
        var record := if info.roomId in changes.infos then changes.infos[info.roomId] else info;
        changes.infos := changes.infos[info.roomId := record.(latestEvent := Some(item))];
      }
    }
  }
}
