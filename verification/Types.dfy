/** Identifiers, events and room records shared by every module.

    A raw event carries the results of the deserializations the SDK may attempt
    on it, so that deserialization is a partial function without modelling JSON. */
module Types {
  datatype Option<+T> = None | Some(value: T) {
    function UnwrapOr(default: T): T {
      if Some? then value else default
    }
  }

  datatype Result<+T> = Ok(value: T) | Err

  const U64_MAX: nat := 0xFFFF_FFFF_FFFF_FFFF

  function Min(a: nat, b: nat): nat {
    if a <= b then a else b
  }

  type UserId = string
  type RoomId = string
  type Token = string

  datatype Membership = Join | Invite | Leave | Ban | Knock | OtherMembership(name: string)

  predicate IsActive(m: Membership) {
    m.Join? || m.Invite?
  }

  datatype PowerLevels = PowerLevels(invite: int, kick: int, usersDefault: int, users: map<UserId, int>)

  datatype HistoryVisibility = VisibleToInvited | VisibleToJoined | Shared | WorldReadable

  /** State event contents; `None` stands for a field dropped by a redaction. */
  datatype StateContent =
    | Member(membership: Membership, displayName: Option<string>)
    | Encryption(algorithm: Option<string>)
    | Visibility(visibility: Option<HistoryVisibility>)
    | Power(levels: PowerLevels)
    | OtherState(name: string)

  datatype StateType = RoomMember | RoomEncryption | RoomHistoryVisibility | RoomPowerLevels | OtherType(name: string)

  datatype StateEvent = StateEvent(stateKey: string, content: StateContent)

  /** The (event type, state key) pair that addresses one piece of room state. */
  datatype Slot = Slot(kind: StateType, key: string)

  function TypeOf(c: StateContent): StateType {
    match c
    case Member(_, _) => RoomMember
    case Encryption(_) => RoomEncryption
    case Visibility(_) => RoomHistoryVisibility
    case Power(_) => RoomPowerLevels
    case OtherState(name) => OtherType(name)
  }

  function SlotOf(e: StateEvent): Slot {
    Slot(TypeOf(e.content), e.stateKey)
  }

  const POWER_SLOT := Slot(RoomPowerLevels, "")

  function MemberSlot(u: UserId): Slot {
    Slot(RoomMember, u)
  }

  datatype MessageLike =
    | Redaction
    | Encrypted(original: bool)
    | RoomMessage(original: bool, replacement: bool)
    | PollStart
    | CallInvite
    | CallNotify
    | Sticker
    | OtherMessage(name: string)

  datatype TimelineEvent = State(event: StateEvent) | Message(message: MessageLike)

  /** A raw sync event: its text, what `deserialize` yields, and what
      deserializing it as a full `RoomPowerLevelsEvent` yields. */
  datatype Raw = Raw(json: string, parsed: Option<TimelineEvent>, fullPower: Option<PowerLevels>)

  /** A raw stripped state event, with the same two deserializations. */
  datatype StrippedRaw = StrippedRaw(json: string, parsed: Option<StateEvent>, power: Option<PowerLevels>)

  datatype AnyRaw = SyncEvent(raw: Raw) | StrippedEvent(stripped: StrippedRaw)

  type StateMap = map<Slot, Raw>
  type StrippedMap = map<Slot, StrippedRaw>

  datatype RoomState = Joined | Left | Invited | Knocked

  datatype SyncInfo = NoState | PartiallySynced | FullySynced

  datatype Kind = PlainText | DecryptedEvent | Undecryptable

  /** An event in the form it is displayed in. */
  datatype Displayed = Displayed(kind: Kind, raw: Raw)

  datatype NotableTag = Favourite | LowPriority

  datatype Counts = Counts(highlight: nat, notification: nat)

  datatype RoomInfo = RoomInfo(
    roomId: RoomId,
    roomState: RoomState,
    prevRoomState: Option<RoomState>,
    notificationCounts: Counts,
    joinedCount: nat,
    invitedCount: nat,
    membersSynced: bool,
    lastPrevBatch: Option<string>,
    syncInfo: SyncInfo,
    encryption: Option<string>,
    encryptionStateSynced: bool,
    historyVisibility: Option<HistoryVisibility>,
    dmTargets: set<UserId>,
    isMarkedUnread: bool,
    notableTags: set<NotableTag>,
    latestEvent: Option<Displayed>)
  {
    predicate IsEncrypted() {
      encryption.Some?
    }

    function SetState(s: RoomState): RoomInfo {
      if s == roomState then this else this.(prevRoomState := Some(roomState), roomState := s)
    }
  }

  type RoomInfos = map<RoomId, RoomInfo>

  function NewRoomInfo(r: RoomId, s: RoomState): RoomInfo {
    RoomInfo(r, s, None, Counts(0, 0), 0, 0, false, None, NoState, None, false, None, {}, false, {}, None)
  }

  /** Records are filed under their own room. */
  predicate RoomsKeyed(rooms: RoomInfos) {
    forall r <- rooms :: rooms[r].roomId == r
  }

  function Lookup<K, V>(m: map<K, V>, k: K): Option<V> {
    if k in m then Some(m[k]) else None
  }

  function GetOr<K, V>(m: map<K, V>, k: K, default: V): V {
    if k in m then m[k] else default
  }

  lemma UpdateTwice<K, V>(m: map<K, V>, k: K, a: V, b: V)
    ensures m[k := a][k := b] == m[k := b]
  {
  }
}
