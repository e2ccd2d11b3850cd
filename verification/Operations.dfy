/** The calls of the base client as steps of a run: what is proved of every run
    holds of every sequence of calls on a client. */
module Operations {
  import opened Types
  import opened Timeline
  import opened Sync
  import opened Client
  import Runs

  /** A call, with the outcome of the awaited calls it makes. */
  datatype Call =
    | SyncCall(session: Session, resp: Response, saveOk: bool, directReadOk: bool)
    | MembershipCall(room: RoomId, target: RoomState, saveOk: bool)
    | MembersCall(room: RoomId, filtered: bool, chunk: seq<Raw>, trackOk: bool, saveOk: bool)

  /** The run a call adds: one step, or none when a member list is turned away. */
  ghost predicate IsStepOf(ops: seq<Runs.Op>, call: Call) {
    |ops| <= 1 &&
    match call
    case SyncCall(_, resp, _, directReadOk) =>
      |ops| == 1 && (ops[0] == Runs.SyncOp(resp, directReadOk) || (ops[0].FailedSyncOp? && ops[0].resp == resp))
    case MembershipCall(r, target, saveOk) => ops == [Runs.MembershipOp(r, target, saveOk)]
    case MembersCall(r, _, chunk, _, saveOk) => ops == [] || ops == [Runs.MembersOp(r, chunk, saveOk)]
  }

  lemma SingleStep(st: ClientState, op: Runs.Op)
    ensures Runs.Run(st, [op]) == Runs.Apply(st, op)
    ensures Runs.NoneFails(st, [op]) <==> !Runs.Fails(st, op)
  {
    assert [op][..0] == [];
    assert Runs.Run(st, []) == st;
    assert Runs.Fails(Runs.Run(st, [op][..0]), [op][0]) == Runs.Fails(st, op);
  }

  /** A sync is one step: processed or repeated, or failed after creating some rooms
      and tracking some users. */
  method PerformSync(client: BaseClient, session: Session, resp: Response, saveOk: bool, directReadOk: bool)
    returns (ok: bool, ghost op: Runs.Op)
    requires client.Valid()
    modifies client
    ensures client.Valid() && client.View() == Runs.Apply(old(client.View()), op)
    ensures ok ==> op == Runs.SyncOp(resp, directReadOk)
    ensures !ok ==> op.FailedSyncOp? && op.resp == resp
    ensures ok <==> !Runs.Fails(old(client.View()), op)
  {
    ghost var st := client.View();
    var outcome, notes, timelines := client.ReceiveSyncResponse(session, resp, saveOk, directReadOk);
    ok := !outcome.Failed?;
    op := Runs.SyncOp(resp, directReadOk);
    if !ok {
      ghost var created: set<RoomId>, users: set<UserId> :| client.View() == Abandoned(st, resp, created, users);
      op := Runs.FailedSyncOp(resp, created, users);
    }
  }

  /** Every call takes the client one step of a run further, one that fails exactly
      if the call does. */
  method Perform(client: BaseClient, call: Call) returns (ok: bool, ghost ops: seq<Runs.Op>)
    requires client.Valid()
    modifies client
    ensures client.Valid() && IsStepOf(ops, call)
    ensures client.View() == Runs.Run(old(client.View()), ops)
    ensures ok <==> Runs.NoneFails(old(client.View()), ops) && ops != []
  {
    ghost var st := client.View();
    ops := [];
    match call {
      case SyncCall(session, resp, saveOk, directReadOk) =>
        ghost var op;
        ok, op := PerformSync(client, session, resp, saveOk, directReadOk);
        SingleStep(st, op);
        ops := [op];
      case MembershipCall(r, target, saveOk) =>
        ok := client.ChangeMembership(r, target, saveOk);
        SingleStep(st, Runs.MembershipOp(r, target, saveOk));
        ops := [Runs.MembershipOp(r, target, saveOk)];
      case MembersCall(r, filtered, chunk, trackOk, saveOk) =>
        ok := client.ReceiveAllMembers(r, filtered, chunk, trackOk, saveOk);
        if !filtered && (r in st.rooms && st.rooms[r].IsEncrypted() ==> trackOk) {
          SingleStep(st, Runs.MembersOp(r, chunk, saveOk));
          ops := [Runs.MembersOp(r, chunk, saveOk)];
        }
    }
  }
}
