/** Reconciliations whose steps interleave with one another and with both halves of every service call:
    read the record, look the transaction up, settle, write the record back. */
module RecordRuns {
  import opened Wrappers
  import opened Roles
  import opened VaultModel
  import opened Effects
  import opened AuditTrail
  import opened Ledger
  import opened VaultRuns
  import opened Reconciliation
  import Contributions

  /** A reconciliation in flight: it holds the record it read, or has its settlement's transaction open
      (the ticket under the same number), or has only the write of the record left. */
  datatype Pass =
    | Looking(id: Id, record: TxRecord)
    | Opened(id: Id, updated: TxRecord)
    | Due(id: Id, updated: TxRecord)

  datatype World = World(sys: Sys, records: map<Id, TxRecord>, passes: map<nat, Pass>)

  datatype Move =
    | Half(event: Event)
    | Sent(contributionId: Id, key: string, txHash: Option<string>)
    | Fetched(call: nat, contributionId: Id)
    | Resolved(call: nat, systemId: Id, status: TxStatus)
    | Closed(call: nat)
    | Written(call: nat)
    | Lost(call: nat)

  /** The numbers of reconciliations are not used by other calls. */
  predicate Clashes(passes: map<nat, Pass>, event: Event) {
    !event.ContributorAdded? && event.call in passes
  }

  ghost function ResolveNext(w: World, call: nat, systemId: Id, status: TxStatus): World
    requires call in w.passes && w.passes[call].Looking?
  {
    var id, record := w.passes[call].id, w.passes[call].record;
    var due := w.passes[call := Due(id, Updated(record, status))];
    match Settling(status)
    case None => w.(passes := due)
    case Some(transition) =>
      match Begin(w.sys.db, Settle(SystemActor(systemId), id, record.txHash, transition))
      case Ready(ticket) =>
        World(w.sys.(inflight := w.sys.inflight[call := ticket]), w.records,
          w.passes[call := Opened(id, Updated(record, status))])
      case Answered(_) => w.(passes := due)
      case Refused(_) => w.(passes := w.passes - {call})
  }

  ghost function CloseNext(w: World, call: nat): World
    requires call in w.passes && w.passes[call].Opened? && call in w.sys.inflight
  {
    var out := Commit(w.sys.db, w.sys.inflight[call]);
    World(Sys(out.db, w.sys.inflight - {call}), w.records,
      if out.reply.Ok? then w.passes[call := Due(w.passes[call].id, w.passes[call].updated)] else w.passes - {call})
  }

  ghost function Next(w: World, move: Move): World {
    match move
    case Half(event) => if Clashes(w.passes, event) then w else w.(sys := Step(w.sys, event))
    case Sent(id, key, txHash) => w.(records := SubmitStep(Chain(w.sys.db, w.records), id, key, txHash).records)
    case Fetched(call, id) =>
      if call in w.passes || call in w.sys.inflight || id !in w.records || w.records[id].txHash == None then w
      else w.(passes := w.passes[call := Looking(id, w.records[id])])
    case Resolved(call, systemId, status) =>
      if call in w.passes && w.passes[call].Looking? && call !in w.sys.inflight
      then ResolveNext(w, call, systemId, status) else w
    case Closed(call) =>
      if call in w.passes && w.passes[call].Opened? && call in w.sys.inflight then CloseNext(w, call) else w
    case Written(call) =>
      if call in w.passes && w.passes[call].Due?
      then w.(records := w.records[w.passes[call].id := w.passes[call].updated], passes := w.passes - {call})
      else w
    case Lost(call) =>
      if call in w.passes
      then w.(sys := w.sys.(inflight := w.sys.inflight - {call}), passes := w.passes - {call})
      else w
  }

  ghost function Follow(w: World, moves: seq<Move>): World {
    if moves == [] then w else Next(Follow(w, moves[..|moves| - 1]), moves[|moves| - 1])
  }

  // ---------------------------------------------------------------- seen from the vault tables

  /** The half of a service call that a move is, if any. */
  ghost function Underlying(w: World, move: Move): Option<Event> {
    match move
    case Half(event) => if Clashes(w.passes, event) then None else Some(event)
    case Resolved(call, systemId, status) =>
      if call in w.passes && w.passes[call].Looking? && Settling(status).Some?
      then Some(Started(call, Settle(SystemActor(systemId), w.passes[call].id, w.passes[call].record.txHash,
                                     Settling(status).value)))
      else None
    case Closed(call) => if call in w.passes && w.passes[call].Opened? then Some(Committed(call)) else None
    case Lost(call) => if call in w.passes then Some(Abandoned(call)) else None
    case _ => None
  }

  lemma SeenFromVaults(w: World, move: Move)
    ensures Next(w, move).sys == if Underlying(w, move).None? then w.sys else Step(w.sys, Underlying(w, move).value)
  {
  }

  // ---------------------------------------------------------------- agreement

  /** What a settlement's ticket has to bring about for the record that waits for it. */
  predicate Brings(ticket: Ticket, id: Id, updated: TxRecord) {
    && ticket.SettleRow? && ticket.id == id
    && (updated.status == Confirmed ==> ticket.target == Contributions.Confirmed)
    && (updated.status == Failed ==> ticket.target == Contributions.Failed)
  }

  predicate PassAgrees(s: Sys, call: nat, pass: Pass) {
    match pass
    case Looking(_, _) => true
    case Opened(id, updated) => call in s.inflight && Brings(s.inflight[call], id, updated)
    case Due(id, updated) => RecordAgrees(s.db, id, updated)
  }

  ghost predicate PassesAgree(s: Sys, passes: map<nat, Pass>) {
    forall call | call in passes :: PassAgrees(s, call, passes[call])
  }

  /** All that the records need to know of the vault tables. */
  ghost predicate Sound(s: Sys) {
    Checked(s.db) && forall call | call in s.inflight :: Current(s.db, s.inflight[call])
  }

  lemma SysInvIsSound(base: map<Id, Vault>, s: Sys)
    requires SysInv(base, s)
    ensures Sound(s)
  {
  }

  ghost predicate WorldInv(base: map<Id, Vault>, w: World) {
    SysInv(base, w.sys) && RecordsAgree(w.sys.db, w.records) && PassesAgree(w.sys, w.passes)
  }

  lemma CommitKeepsOutcomes(db: Db, ticket: Ticket, id: Id, record: TxRecord)
    requires Checked(db) && Current(db, ticket) && RecordAgrees(db, id, record)
    ensures RecordAgrees(Commit(db, ticket).db, id, record)
  {
    var out := Commit(db, ticket).db;
    CommitIsAtomic(db, ticket);
    if out != db { EffectKeepsOutcomes(db, out, ticket, id, record); }
  }

  lemma StepKeepsOutcomes(s: Sys, event: Event, id: Id, record: TxRecord)
    requires Sound(s) && RecordAgrees(s.db, id, record)
    ensures RecordAgrees(Step(s, event).db, id, record)
  {
    if event.Committed? && event.call in s.inflight { CommitKeepsOutcomes(s.db, s.inflight[event.call], id, record); }
  }

  /** No step of a call parts the records from the contributions. */
  lemma StepKeepsRecords(s: Sys, event: Event, records: map<Id, TxRecord>)
    requires Sound(s) && RecordsAgree(s.db, records)
    ensures RecordsAgree(Step(s, event).db, records)
  {
    forall id | id in records
      ensures RecordAgrees(Step(s, event).db, id, records[id])
    {
      StepKeepsOutcomes(s, event, id, records[id]);
    }
  }

  /** Nor a reconciliation in flight, unless the step is its own. */
  lemma StepKeepsPass(s: Sys, event: Event, call: nat, pass: Pass)
    requires Sound(s) && PassAgrees(s, call, pass) && (event.ContributorAdded? || event.call != call)
    ensures PassAgrees(Step(s, event), call, pass)
  {
    if pass.Due? { StepKeepsOutcomes(s, event, pass.id, pass.updated); }
  }

  lemma StepKeepsPasses(s: Sys, event: Event, passes: map<nat, Pass>)
    requires Sound(s) && PassesAgree(s, passes) && !Clashes(passes, event)
    ensures PassesAgree(Step(s, event), passes)
  {
    forall call | call in passes
      ensures PassAgrees(Step(s, event), call, passes[call])
    {
      StepKeepsPass(s, event, call, passes[call]);
    }
  }

  /** A settlement begun for a looked-up status brings about what the updated record says, or finds
      it done. */
  lemma BegunBrings(db: Db, systemId: Id, id: Id, record: TxRecord, status: TxStatus)
    requires Settling(status).Some?
    ensures var begun := Begin(db, Settle(SystemActor(systemId), id, record.txHash, Settling(status).value));
      && (begun.Ready? ==> Brings(begun.ticket, id, Updated(record, status)))
      && (begun.Answered? ==> RecordAgrees(db, id, Updated(record, status)))
  {
  }

  lemma BroughtAgrees(db: Db, ticket: Ticket, id: Id, updated: TxRecord)
    requires Checked(db) && Brings(ticket, id, updated) && Commit(db, ticket).reply.Ok?
    ensures RecordAgrees(Commit(db, ticket).db, id, updated)
  {
    SettleIsExact(db, id, ticket.target, ticket.actor, ticket.reference, ticket.audit);
  }

  lemma ResolvedKeepsPasses(w: World, call: nat, systemId: Id, status: TxStatus)
    requires PassesAgree(w.sys, w.passes) && call in w.passes && w.passes[call].Looking? && call !in w.sys.inflight
    ensures var out := ResolveNext(w, call, systemId, status);
      out.sys.db == w.sys.db && out.records == w.records && PassesAgree(out.sys, out.passes)
  {
    var out := ResolveNext(w, call, systemId, status);
    if Settling(status).Some? { BegunBrings(w.sys.db, systemId, w.passes[call].id, w.passes[call].record, status); }
    forall other | other in out.passes
      ensures PassAgrees(out.sys, other, out.passes[other])
    {
      if other != call { assert PassAgrees(w.sys, other, w.passes[other]); }
    }
  }

  lemma ClosedKeepsPasses(w: World, call: nat)
    requires Sound(w.sys) && PassesAgree(w.sys, w.passes)
    requires call in w.passes && w.passes[call].Opened? && call in w.sys.inflight
    ensures PassesAgree(CloseNext(w, call).sys, CloseNext(w, call).passes)
  {
    RestKeepsAgreeing(w.sys, Committed(call), w.passes, call);
    assert PassAgrees(w.sys, call, w.passes[call]);
    var id, updated := w.passes[call].id, w.passes[call].updated;
    if Commit(w.sys.db, w.sys.inflight[call]).reply.Ok? {
      BroughtAgrees(w.sys.db, w.sys.inflight[call], id, updated);
      OneMoreAgrees(CloseNext(w, call).sys, w.passes, call, Due(id, updated));
    }
  }

  lemma OneMoreAgrees(s: Sys, passes: map<nat, Pass>, call: nat, pass: Pass)
    requires PassesAgree(s, passes - {call}) && PassAgrees(s, call, pass)
    ensures PassesAgree(s, passes[call := pass])
  {
    var rest := passes - {call};
    forall other | other in passes && other != call
      ensures PassAgrees(s, other, passes[other])
    {
      assert PassAgrees(s, other, rest[other]);
    }
  }

  /** The reconciliations besides the one that steps. */
  lemma RestKeepsAgreeing(s: Sys, event: Event, passes: map<nat, Pass>, call: nat)
    requires Sound(s) && PassesAgree(s, passes) && !event.ContributorAdded? && event.call == call
    ensures PassesAgree(Step(s, event), passes - {call})
  {
    var rest := passes - {call};
    forall other | other in rest
      ensures PassAgrees(s, other, rest[other])
    {
      assert PassAgrees(s, other, passes[other]);
    }
    StepKeepsPasses(s, event, rest);
  }

  lemma NextKeepsPasses(w: World, move: Move)
    requires Sound(w.sys) && PassesAgree(w.sys, w.passes)
    ensures PassesAgree(Next(w, move).sys, Next(w, move).passes)
  {
    match move
    case Half(event) => if !Clashes(w.passes, event) { StepKeepsPasses(w.sys, event, w.passes); }
    case Resolved(call, systemId, status) =>
      if call in w.passes && w.passes[call].Looking? && call !in w.sys.inflight {
        ResolvedKeepsPasses(w, call, systemId, status);
      }
    case Closed(call) =>
      if call in w.passes && w.passes[call].Opened? && call in w.sys.inflight { ClosedKeepsPasses(w, call); }
    case Lost(call) => RestKeepsAgreeing(w.sys, Abandoned(call), w.passes, call);
    case _ =>
  }

  lemma NextKeepsRecords(w: World, move: Move)
    requires Sound(w.sys) && RecordsAgree(w.sys.db, w.records) && PassesAgree(w.sys, w.passes)
    ensures RecordsAgree(Next(w, move).sys.db, Next(w, move).records)
  {
    SeenFromVaults(w, move);
    if Underlying(w, move).Some? { StepKeepsRecords(w.sys, Underlying(w, move).value, w.records); }
    if move.Written? && move.call in w.passes { assert PassAgrees(w.sys, move.call, w.passes[move.call]); }
  }

  lemma NextKeepsInv(base: map<Id, Vault>, w: World, move: Move)
    requires WorldInv(base, w) && Exclusive(w.sys)
    ensures WorldInv(base, Next(w, move))
  {
    SysInvIsSound(base, w.sys);
    NextKeepsRecords(w, move);
    NextKeepsPasses(w, move);
    SeenFromVaults(w, move);
    if Underlying(w, move).Some? { StepKeepsInv(base, w.sys, Underlying(w, move).value); }
  }

  // ---------------------------------------------------------------- whole runs

  function Start(db: Db): World {
    World(Sys(db, map[]), map[], map[])
  }

  /** At no point do two calls in flight, settlements of reconciliations included, update one row. */
  ghost predicate ExclusiveMoves(w: World, moves: seq<Move>) {
    forall n | 0 <= n <= |moves| :: Exclusive(Follow(w, moves[..n]).sys)
  }

  lemma PrefixIsExclusive(w: World, moves: seq<Move>, n: nat)
    requires ExclusiveMoves(w, moves) && n <= |moves|
    ensures ExclusiveMoves(w, moves[..n])
  {
    forall k | 0 <= k <= n
      ensures Exclusive(Follow(w, moves[..n][..k]).sys)
    {
      assert moves[..n][..k] == moves[..k];
    }
  }

  lemma {:induction false} FollowKeepsInv(db: Db, moves: seq<Move>)
    requires Initial(db) && ExclusiveMoves(Start(db), moves)
    ensures WorldInv(db.vaults, Follow(Start(db), moves))
  {
    if moves == [] {
      InitialBooks(db);
    } else {
      var earlier := moves[..|moves| - 1];
      PrefixIsExclusive(Start(db), moves, |moves| - 1);
      FollowKeepsInv(db, earlier);
      assert earlier[..|earlier|] == earlier;
      NextKeepsInv(db.vaults, Follow(Start(db), earlier), moves[|moves| - 1]);
    }
  }

  /** However late a record is written back, and whatever is served, submitted or reconciled in
      between: a Confirmed record means a Confirmed or Reversed contribution, a Failed record a Failed
      one, all books agree, and no contribution is credited twice. */
  lemma LateWritesAgree(db: Db, moves: seq<Move>)
    requires Initial(db) && ExclusiveMoves(Start(db), moves)
    ensures var end := Follow(Start(db), moves);
      Books(db.vaults, end.sys.db) && RecordsAgree(end.sys.db, end.records)
    ensures forall id :: Entries(Follow(Start(db), moves).sys.db.ledger, id, ContributionConfirmed) <= 1
  {
    FollowKeepsInv(db, moves);
  }

  lemma NextKeepsOutcomes(w: World, move: Move, id: Id, record: TxRecord)
    requires Sound(w.sys) && RecordAgrees(w.sys.db, id, record)
    ensures RecordAgrees(Next(w, move).sys.db, id, record)
  {
    SeenFromVaults(w, move);
    if Underlying(w, move).Some? { StepKeepsOutcomes(w.sys, Underlying(w, move).value, id, record); }
  }

  lemma {:induction false} OutcomesPersist(db: Db, moves: seq<Move>, n: nat, id: Id, record: TxRecord)
    requires Initial(db) && ExclusiveMoves(Start(db), moves) && n <= |moves|
    requires RecordAgrees(Follow(Start(db), moves[..n]).sys.db, id, record)
    ensures RecordAgrees(Follow(Start(db), moves).sys.db, id, record)
    decreases |moves|
  {
    if n == |moves| {
      assert moves[..n] == moves;
    } else {
      var earlier := moves[..|moves| - 1];
      PrefixIsExclusive(Start(db), moves, |moves| - 1);
      assert earlier[..n] == moves[..n];
      OutcomesPersist(db, earlier, n, id, record);
      FollowIsSound(db, earlier);
      NextKeepsOutcomes(Follow(Start(db), earlier), moves[|moves| - 1], id, record);
    }
  }

  lemma FollowIsSound(db: Db, moves: seq<Move>)
    requires Initial(db) && ExclusiveMoves(Start(db), moves)
    ensures var end := Follow(Start(db), moves); Sound(end.sys) && RecordsAgree(end.sys.db, end.records)
  {
    FollowKeepsInv(db, moves);
    SysInvIsSound(db.vaults, Follow(Start(db), moves).sys);
  }

  lemma {:induction false} RecordsStay(w: World, moves: seq<Move>, n: nat, id: Id)
    requires n <= |moves| && id in Follow(w, moves[..n]).records
    ensures id in Follow(w, moves).records
    decreases |moves|
  {
    if n == |moves| {
      assert moves[..n] == moves;
    } else {
      assert moves[..|moves| - 1][..n] == moves[..n];
      RecordsStay(w, moves[..|moves| - 1], n, id);
    }
  }

  /** A record can be overwritten by a slower reconciliation, but its outcome never flips: once
      Confirmed it is never Failed, and once Failed never Confirmed. */
  lemma OutcomesNeverFlip(db: Db, moves: seq<Move>, n: nat, id: Id)
    requires Initial(db) && ExclusiveMoves(Start(db), moves) && n <= |moves|
    requires id in Follow(Start(db), moves[..n]).records
    ensures var before := Follow(Start(db), moves[..n]).records[id].status;
      && id in Follow(Start(db), moves).records
      && var after := Follow(Start(db), moves).records[id].status;
      && !(before == Confirmed && after == Failed)
      && !(before == Failed && after == Confirmed)
  {
    var record := Follow(Start(db), moves[..n]).records[id];
    PrefixIsExclusive(Start(db), moves, n);
    FollowIsSound(db, moves[..n]);
    RecordsStay(Start(db), moves, n, id);
    OutcomesPersist(db, moves, n, id, record);
    FollowIsSound(db, moves);
    var end := Follow(Start(db), moves);
    assert RecordAgrees(end.sys.db, id, end.records[id]);
  }

  // ---------------------------------------------------------------- which races break the agreement

  /** The record says how the contribution ended, and the settlement ends it the other way. */
  predicate Contradicts(records: map<Id, TxRecord>, ticket: Ticket) {
    && ticket.SettleRow? && ticket.id in records
    && match records[ticket.id].status
       case Confirmed => ticket.target == Contributions.Failed
       case Failed => ticket.target != Contributions.Failed
       case _ => false
  }

  /** With no assumption on overlap: a commit that changes anything keeps records and contributions in
      agreement if and only if it does not contradict the record of its row. */
  lemma CommitKeepsRecordsIff(db: Db, records: map<Id, TxRecord>, ticket: Ticket)
    requires Checked(db) && RecordsAgree(db, records) && Issued(ticket) && Commit(db, ticket).db != db
    ensures RecordsAgree(Commit(db, ticket).db, records) <==> !Contradicts(records, ticket)
  {
    var out := Commit(db, ticket).db;
    CommitIsAtomic(db, ticket);
    if Contradicts(records, ticket) {
      assert !RecordAgrees(out, ticket.id, records[ticket.id]);
    } else {
      forall id | id in records
        ensures RecordAgrees(out, id, records[id])
      {
        EffectKeepsRecord(db, out, ticket, id, records);
      }
    }
  }

  lemma EffectKeepsRecord(db: Db, out: Db, ticket: Ticket, id: Id, records: map<Id, TxRecord>)
    requires id in records && RecordAgrees(db, id, records[id]) && !Contradicts(records, ticket)
    requires TicketEffect(db, out, ticket) && Issued(ticket)
    ensures RecordAgrees(out, id, records[id])
  {
  }

  // ---------------------------------------------------------------- one after the other

  lemma AddedAndRemoved<T>(m: map<nat, T>, call: nat, one: T, two: T)
    requires call !in m
    ensures m[call := one] - {call} == m && m[call := one][call := two] == m[call := two]
  {
  }

  ghost function SettledPass(w: World, call: nat, systemId: Id, id: Id, status: TxStatus): World {
    Next(Next(Next(w, Fetched(call, id)), Resolved(call, systemId, status)), Closed(call))
  }

  /** A reconciliation with nothing in between. */
  ghost function WholePass(w: World, call: nat, systemId: Id, id: Id, status: TxStatus): World {
    Next(SettledPass(w, call, systemId, id, status), Written(call))
  }

  /** The four steps with nothing in between, whatever else is in flight, are the reconciliation of the
      sequential model; losing the last one is its crash. */
  lemma StepsAreReconcile(w: World, call: nat, systemId: Id, id: Id, status: TxStatus, crashed: bool)
    requires id in w.records && w.records[id].txHash != None && call !in w.passes && call !in w.sys.inflight
    ensures var chain := ReconcileStep(Chain(w.sys.db, w.records), systemId, id, Some(status), crashed);
      Next(SettledPass(w, call, systemId, id, status), if crashed then Lost(call) else Written(call))
        == World(Sys(chain.db, w.sys.inflight), chain.records, w.passes)
  {
    var record := w.records[id];
    var due := Due(id, Updated(record, status));
    var resolved := Next(Next(w, Fetched(call, id)), Resolved(call, systemId, status));
    AddedAndRemoved(w.passes, call, Looking(id, record), due);
    AddedAndRemoved(w.passes, call, due, due);
    if Settling(status).Some? {
      var request := Settle(SystemActor(systemId), id, record.txHash, Settling(status).value);
      match Begin(w.sys.db, request)
      case Ready(ticket) =>
        var begun := Opened(id, Updated(record, status));
        AddedAndRemoved(w.passes, call, Looking(id, record), begun);
        AddedAndRemoved(w.passes, call, begun, due);
        AddedAndRemoved(w.sys.inflight, call, ticket, ticket);
        assert resolved == World(Sys(w.sys.db, w.sys.inflight[call := ticket]), w.records, w.passes[call := begun]);
      case Answered(_) => assert resolved == w.(passes := w.passes[call := due]);
      case Refused(_) => assert resolved == w;
    } else {
      assert resolved == w.(passes := w.passes[call := due]);
    }
  }

  /** So a final failure, whatever else is in flight, ends with the record and the contribution Failed if
      the contribution was Pending or Failed, and changes neither otherwise. */
  lemma FailureIsWrittenIff(w: World, call: nat, systemId: Id, id: Id, status: TxStatus)
    requires Checked(w.sys.db) && id in w.records && w.records[id].txHash != None
    requires call !in w.passes && call !in w.sys.inflight && status.state == TxFailed && !status.retryable
    ensures var end := WholePass(w, call, systemId, id, status);
      var open := HasStatus(w.sys.db, id, Contributions.Pending) || HasStatus(w.sys.db, id, Contributions.Failed);
      && end.passes == w.passes && end.sys.inflight == w.sys.inflight
      && (open ==>
            && id in end.records && HasStatus(end.sys.db, id, Contributions.Failed)
            && end.records[id] == TxRecord(w.records[id].key, Failed, w.records[id].txHash, status.errorCode, false))
      && (!open ==> end == w)
  {
    StepsAreReconcile(w, call, systemId, id, status, false);
    FailureIsRecordedIff(Chain(w.sys.db, w.records), systemId, id, status);
  }

  /** A reconciliation that has been told the transaction is still pending and has its write left. */
  function Waiting(db: Db, records: map<Id, TxRecord>, id: Id, waiting: TxStatus): World
    requires id in records
  {
    World(Sys(db, map[]), records, map[1 := Due(id, Updated(records[id], waiting))])
  }

  lemma PendingIsWaiting(db: Db, records: map<Id, TxRecord>, systemId: Id, id: Id, waiting: TxStatus)
    requires id in records && records[id].txHash != None && waiting.state == TxPending
    ensures Next(Next(World(Sys(db, map[]), records, map[]), Fetched(1, id)), Resolved(1, systemId, waiting))
         == Waiting(db, records, id, waiting)
  {
  }

  /** When it writes after another one has settled and written, it puts a Confirmed record back to
      Submitted; the contribution stays Confirmed, so the next answer of success restores the record. */
  lemma LateWriteReopens(db: Db, records: map<Id, TxRecord>, systemId: Id, id: Id, waiting: TxStatus, success: TxStatus)
    requires Checked(db) && id in records && records[id].txHash != None
    requires waiting.state == TxPending && success.state == Succeeded
    requires HasStatus(db, id, Contributions.Pending)
    requires HasRoom(db.vaults[db.contributions[id].vaultId], db.contributions[id].amount)
    ensures var settled := WholePass(Waiting(db, records, id, waiting), 0, systemId, id, success);
      var end := Next(settled, Written(1));
      && HasStatus(end.sys.db, id, Contributions.Confirmed)
      && id in settled.records && settled.records[id].status == Confirmed
      && id in end.records && end.records[id].status == Submitted
      && ReconcileStep(Chain(end.sys.db, end.records), systemId, id, Some(success), false)
           == Chain(settled.sys.db, settled.records)
  {
    var chain := Chain(db, records);
    var done := ReconcileStep(chain, systemId, id, Some(success), false);
    StepsAreReconcile(Waiting(db, records, id, waiting), 0, systemId, id, success, false);
    SuccessIsRecordedIff(chain, systemId, id, success);
    RestoredBySuccess(chain, done, systemId, id, waiting, success);
    LastWriteWins(done, 1, id, Updated(records[id], waiting));
  }

  lemma LastWriteWins(done: Chain, call: nat, id: Id, updated: TxRecord)
    ensures Next(World(Sys(done.db, map[]), done.records, map[call := Due(id, updated)]), Written(call))
         == World(Sys(done.db, map[]), done.records[id := updated], map[])
  {
  }

  /** A success on a record that was put back to waiting makes it what the first success had made it. */
  lemma RestoredBySuccess(chain: Chain, done: Chain, systemId: Id, id: Id, waiting: TxStatus, success: TxStatus)
    requires id in chain.records && chain.records[id].txHash != None && success.state == Succeeded
    requires waiting.state == TxPending && HasStatus(done.db, id, Contributions.Confirmed)
    requires done.records == chain.records[id := Updated(chain.records[id], success)]
    ensures ReconcileStep(done.(records := done.records[id := Updated(chain.records[id], waiting)]), systemId, id,
              Some(success), false) == done
  {
  }

  /** A manual Fail begun before a reconciliation and committed after it ends against its record: the
      record says Confirmed, the contribution is Failed. */
  lemma OverlappingFailContradicts(db: Db, records: map<Id, TxRecord>, actor: Actor, systemId: Id, id: Id,
    success: TxStatus)
    requires Checked(db) && id in records && records[id].txHash != None && success.state == Succeeded
    requires HasStatus(db, id, Contributions.Pending) && Contributions.CanSettle(actor.role)
    requires HasRoom(db.vaults[db.contributions[id].vaultId], db.contributions[id].amount)
    ensures var w := World(Sys(db, map[]), records, map[]);
      var begun := Next(w, Half(Started(1, Settle(actor, id, None, Contributions.Fail))));
      var end := Next(WholePass(begun, 0, systemId, id, success), Half(Committed(1)));
      && id in end.records && end.records[id].status == Confirmed
      && HasStatus(end.sys.db, id, Contributions.Failed) && !RecordsAgree(end.sys.db, end.records)
  {
    var request := Settle(actor, id, None, Contributions.Fail);
    var ticket := Begin(db, request).ticket;
    var chain := Chain(db, records);
    var begun := Next(World(Sys(db, map[]), records, map[]), Half(Started(1, request)));
    assert begun == World(Sys(db, map[1 := ticket]), records, map[]);
    StepsAreReconcile(begun, 0, systemId, id, success, false);
    SuccessIsRecordedIff(chain, systemId, id, success);
    var done := ReconcileStep(chain, systemId, id, Some(success), false);
    CallsKeepChecks(db, Settle(SystemActor(systemId), id, records[id].txHash, Contributions.Confirm));
    FailCommits(done.db, id, ticket.actor, ticket.audit);
    assert !RecordAgrees(Commit(done.db, ticket).db, id, done.records[id]);
  }

  lemma FailCommits(db: Db, id: Id, actor: Id, audit: AuditRow)
    requires HasStatus(db, id, Contributions.Confirmed) && Checked(db)
    ensures HasStatus(SettleTx(db, id, Contributions.Failed, actor, None, audit).db, id, Contributions.Failed)
  {
  }

  lemma CallsKeepChecks(db: Db, request: Request)
    requires Checked(db)
    ensures Checked(Call(db, request).db)
  {
    if Begin(db, request).Ready? { CommitIsAtomic(db, Begin(db, request).ticket); }
  }
}
