/**
  The turn ledger over runs: a binding's ledger is always the newest 64 rows of one growing log, so an
  answer once recorded is replayed unchanged until 64 later turns have landed on that binding.
*/
module RegistryReplay {
  import opened Wrappers
  import opened Ids
  import opened BindingStore
  import opened AttemptJournal
  import opened RegistryState
  import opened StoreFile
  import opened Registry
  import opened RegistryReopen
  import opened RegistrySteps
  import opened RegistryReleases
  import opened RegistryRuns
  import opened RegistryTheorems
  import TargetKey

  lemma LastTurnsCompose(a: seq<TurnRow>, b: seq<TurnRow>)
    ensures LastTurns(LastTurns(a) + b) == LastTurns(a + b)
  {
  }

  /** The rows one step lands on the ledger of `id`; a refused, idempotent or failed call lands none. */
  ghost function Appended(w: World, op: Op, w': World, id: Id): seq<TurnRow> {
    if w' == w.(now := w'.now) then []
    else
      match op
      case OpRecordTurn(b, turn, result) => if b == id then [TurnRow(turn, result, w'.now)] else []
      case OpReleaseOrphans(running, only) =>
        var due := RowsDue(AllDue(w.mem, w.boot, running, w'.now, only), id);
        ReleaseAppends(w.mem, id, RowsOf(w.mem.turns, id), due, MetaAt(w.mem, id), w'.now)
      case _ => []
  }

  ghost function LandedSince(ws: seq<World>, ops: seq<Op>, id: Id, i: nat, j: nat): seq<TurnRow>
    requires i <= j < |ws| && |ws| == |ops| + 1
  {
    if i == j then [] else LandedSince(ws, ops, id, i, j - 1) + Appended(ws[j - 1], ops[j - 1], ws[j], id)
  }

  lemma TransitionLeavesTurns(m: Mem, id: Id, step: Binding -> Outcome, t: int)
    ensures Transition(m, id, step, t).Write? ==> Transition(m, id, step, t).next.turns == m.turns
  {
    hide Committed, BlocksTarget, Unaltered;
  }

  lemma PinLeavesTurns(m: Mem, cfg: Config, boot: Boot, id: Id, job: Job, t: int, extras: PinExtras)
    ensures forall plan :: IsPinPlan(m, cfg, boot, id, job, t, extras, plan) && plan.Write? ==>
            plan.next.turns == m.turns
  {
    hide Committed, BlocksTarget, Unaltered, OpensAttempt, IsTurnId;
  }

  lemma UnpinLeavesTurns(m: Mem, id: Id, job: Job, t: int, settled: Option<(TurnId, Exit)>)
    ensures forall plan :: IsUnpinPlan(m, id, job, t, settled, plan) && plan.Write? ==> plan.next.turns == m.turns
  {
    hide Committed, BlocksTarget, Unaltered, SettlesAttempt, IsJobId;
  }

  /** What one proposed mutation does to the ledger of a binding that stays. */
  lemma ProposalLedger(cfg: Config, m: Mem, boot: Boot, op: Op, t: int, next: Mem, id: Id)
    requires MemOk(m) && Proposes(m, cfg, boot, op, t, next) && id in m.records && id in next.records
    requires !op.OpReleaseOrphans? && !op.OpRecordTurn? && !op.OpAttach?
    ensures RowsOf(next.turns, id) == RowsOf(m.turns, id)
  {
    hide MemOk, Bounded, IsTurnId, TargetKey.Legal, TargetKey.Make, CommitPlan, OpensAttempt,
      SettlesAttempt, Reaps, Unleaked,
      Activate, Detach, Renew, IsExpired, PinRefusal, IsJobId, IsChild, TargetsRebuilt;
    match op
    case OpActivate(b) => TransitionLeavesTurns(m, b, x => if IsExpired(x, t) then Refused(BindingExpired)
      else Activate(x), t);
    case OpBeginDetach(b) => TransitionLeavesTurns(m, b, x => Bound(BeginDetach(x)), t);
    case OpDetach(b) => TransitionLeavesTurns(m, b, x => Detach(x), t);
    case OpForceDetach(b) => TransitionLeavesTurns(m, b, x => Bound(ForceDetach(x)), t);
    case OpRenew(b, ttl) => TransitionLeavesTurns(m, b, x => Bound(Renew(x, ttl, t)), t);
    case OpPin(b, job, extras) => PinLeavesTurns(m, cfg, boot, b, job, t, extras);
    case OpUnpin(b, job, settled) => UnpinLeavesTurns(m, b, job, t, settled);
    case _ =>
  }

  lemma AttachLedger(cfg: Config, m: Mem, boot: Boot, op: Op, t: int, next: Mem)
    requires MemOk(m) && Holders(m, t) && op.OpAttach? && Proposes(m, cfg, boot, op, t, next)
    ensures next.turns == m.turns
  {
    hide MemOk, Holders, IsCreatePlan, PreCreateOk, RecordsEvolve;
    var plan :| IsCreatePlan(m, cfg, op.a, t, plan) && Writes(plan, next);
    AttachEvolves(m, cfg, op.a, t, plan);
  }

  lemma RecordLedger(m: Mem, id: Id, turn: TurnId, result: Answer, t: int, other: Id)
    requires MemOk(m) && RecordTurnPlan(m, id, turn, result, t).Write?
    ensures RowsOf(RecordTurnPlan(m, id, turn, result, t).next.turns, other)
         == LastTurns(RowsOf(m.turns, other) + (if id == other then [TurnRow(turn, result, t)] else []))
  {
    hide RecordsOk, FloorsOk, JournalOk, IsTurnId;
    RowsShort(m, other);
    ShortIsKept(RowsOf(m.turns, other));
  }

  lemma CommitLedger(cfg: Config, w: World, op: Op, w': World, next: Mem, id: Id)
    requires Inv(w) && w.now <= w'.now && Allowed(w.mem, w.boot, op, w'.now)
             && Proposes(w.mem, cfg, w.boot, op, w'.now, next)
    requires Persisted(w.mem, w.disk, next, true, w'.mem, w'.disk) && w' == Committing(w, op, w'.now, w'.mem, w'.disk)
    requires id in w.mem.records && id in w'.mem.records && w' != w.(now := w'.now)
    ensures RowsOf(w'.mem.turns, id) == LastTurns(RowsOf(w.mem.turns, id) + Appended(w, op, w', id))
  {
    hide Inv, MemOk, Holders, Allowed, Evolves, Persisted, Committing, ReleaseAppends, AllDue, LastTurns,
      RowsOf, MetaAt, RowsDue,
      RecordTurnPlan, IsReleased, IsPinPlan, IsUnpinPlan, NotePinChildPlan, IsReaped, Transition,
        Bounded, TargetKey.Legal;
    InvParts(w, w'.now);
    CommitKeeps(cfg, w, op, w', next);
    RowsShort(w.mem, id);
    ShortIsKept(RowsOf(w.mem.turns, id));
    match op
    case OpRecordTurn(b, turn, result) => RecordLedger(w.mem, b, turn, result, w'.now, id);
    case OpReleaseOrphans(running, only) => ReleaseLedger(w.mem,
      AllDue(w.mem, w.boot, running, w'.now, only), w'.now, next, id);
    case OpAttach(_) => AttachLedger(cfg, w.mem, w.boot, op, w'.now, next);
    case _ => ProposalLedger(cfg, w.mem, w.boot, op, w'.now, next, id);
  }

  lemma OpenLedger(cfg: Config, w: World, op: Op, w': World, id: Id)
    requires Inv(w) && op.OpOpen? && Step(cfg, w, op, w')
    ensures RowsOf(w'.mem.turns, id) == RowsOf(w.mem.turns, id)
  {
    hide Inv, OpenedAs, CutRecords;
    OpenInv(w, op, w', cfg);
  }

  lemma StepLedger(cfg: Config, w: World, op: Op, w': World, id: Id)
    requires Inv(w) && Step(cfg, w, op, w') && id in w.mem.records && id in w'.mem.records
    ensures RowsOf(w'.mem.turns, id) == LastTurns(RowsOf(w.mem.turns, id) + Appended(w, op, w', id))
  {
    hide Inv, Proposes, Persisted, OpenedAs, Committing, LastTurns, ReleaseAppends, AllDue, RowsOf, MemOk, Holders,
      Allowed, RowsDue, MetaAt;
    InvParts(w, w'.now);
    RowsShort(w.mem, id);
    ShortIsKept(RowsOf(w.mem.turns, id));
    if op.OpCrash? || w' == w.(now := w'.now) {
    } else if op.OpOpen? {
      OpenLedger(cfg, w, op, w', id);
    } else {
      var next :| Proposes(w.mem, cfg, w.boot, op, w'.now, next)
        && Persisted(w.mem, w.disk, next, true, w'.mem, w'.disk) && w' == Committing(w, op, w'.now, w'.mem, w'.disk);
      CommitLedger(cfg, w, op, w', next, id);
    }
  }

  /**
    Across every operation, crash and reopening that leaves the binding in place, its ledger is the
    newest 64 of what it held followed by what has landed since.
  */
  lemma {:induction false} LedgerIsALog(cfg: Config, ws: seq<World>, ops: seq<Op>, id: Id, i: nat, j: nat)
    requires IsRun(cfg, ws, ops) && i <= j < |ws|
    requires forall k :: i <= k <= j ==> id in ws[k].mem.records
    ensures RowsOf(ws[j].mem.turns, id) == LastTurns(RowsOf(ws[i].mem.turns, id) + LandedSince(ws, ops, id, i, j))
  {
    hide Inv, LastTurns, Appended, MemOk, Holders, RowsOf;
    if i == j {
      RunInv(cfg, ws, ops, i);
      InvParts(ws[i], ws[i].now);
      RowsShort(ws[i].mem, id);
      ShortIsKept(RowsOf(ws[i].mem.turns, id));
    } else {
      LedgerIsALog(cfg, ws, ops, id, i, j - 1);
      RunInv(cfg, ws, ops, j - 1);
      assert Step(cfg, ws[j - 1], ops[j - 1], ws[j]);
      hide Step;
      StepLedger(cfg, ws[j - 1], ops[j - 1], ws[j], id);
      var rows, before := RowsOf(ws[i].mem.turns, id), LandedSince(ws, ops, id, i, j - 1);
      var more := Appended(ws[j - 1], ops[j - 1], ws[j], id);
      LastTurnsCompose(rows + before, more);
      assert rows + (before + more) == rows + before + more;
    }
  }

  /**
    Turn replay: an answer the ledger holds at row `p` is what `findTurn` returns on that binding, unchanged,
    in every later state until the rows behind it and those landed since number 64, and any other binding
    on the same target then sees the turn as known. The newest row lasts while fewer than 64 turns land.
  */
  lemma TurnsReplay(cfg: Config, ws: seq<World>, ops: seq<Op>, id: Id, i: nat, j: nat, p: nat)
    requires IsRun(cfg, ws, ops) && i <= j < |ws|
    requires forall k :: i <= k <= j ==> id in ws[k].mem.records
    requires p < |RowsOf(ws[i].mem.turns, id)|
    requires |RowsOf(ws[i].mem.turns, id)| - 1 - p + |LandedSince(ws, ops, id, i, j)| < MAX_TURNS_PER_BINDING
    ensures var row := RowsOf(ws[i].mem.turns, id)[p];
            FirstTurn(RowsOf(ws[j].mem.turns, id), row.turnId) == Some(row)
            && (forall other :: SameTarget(ws[j].mem, id, other) ==> TurnKnown(ws[j].mem, other, row.turnId))
  {
    assert |ws| == |ops| + 1;
    hide IsRun, Inv, MemOk, Holders, RowsOf, IsTurnId, LandedSince, FirstTurn, HasTurn, LastTurns;
    LedgerIsALog(cfg, ws, ops, id, i, j);
    RunInv(cfg, ws, ops, i);
    InvParts(ws[i], ws[i].now);
    RunInv(cfg, ws, ops, j);
    InvParts(ws[j], ws[j].now);
    RowsShort(ws[j].mem, id);
    TurnIdsLegal(ws[i].mem, id, p);
    RowStays(RowsOf(ws[i].mem.turns, id), LandedSince(ws, ops, id, i, j), RowsOf(ws[j].mem.turns, id), p);
    forall other | SameTarget(ws[j].mem, id, other)
      ensures TurnKnown(ws[j].mem, other, RowsOf(ws[i].mem.turns, id)[p].turnId)
    {
      assert SameTarget(ws[j].mem, other, id);
    }
  }

  lemma RowStays(rows: seq<TurnRow>, landed: seq<TurnRow>, now: seq<TurnRow>, p: nat)
    requires p < |rows| && |rows| - 1 - p + |landed| < MAX_TURNS_PER_BINDING && now == LastTurns(rows + landed)
    requires forall a, b :: 0 <= a < b < |now| ==> now[a].turnId != now[b].turnId
    ensures HasTurn(now, rows[p].turnId) && FirstTurn(now, rows[p].turnId) == Some(rows[p])
  {
    var at := p + |now| - |rows| - |landed|;
    assert now[at] == (rows + landed)[p] == rows[p];
    OnlyRow(now, at);
  }

  lemma TurnIdsLegal(m: Mem, id: Id, p: nat)
    requires MemOk(m) && p < |RowsOf(m.turns, id)|
    ensures IsTurnId(RowsOf(m.turns, id)[p].turnId)
  {
    hide RecordsOk, FloorsOk, JournalOk, IsTurnId;
  }

  lemma {:induction false} OnlyRow(rows: seq<TurnRow>, at: nat)
    requires at < |rows|
    requires forall a, b :: 0 <= a < b < |rows| ==> rows[a].turnId != rows[b].turnId
    ensures FirstTurn(rows, rows[at].turnId) == Some(rows[at])
  {
    if at > 0 { OnlyRow(rows[1..], at - 1); }
  }
}
