/** On-chain transaction records next to the contributions they settle, with crashes between the
    settlement and the update of the record. */
module Reconciliation {
  import opened Wrappers
  import opened Int64
  import opened Roles
  import opened VaultModel
  import opened Effects
  import opened AuditTrail
  import opened Ledger
  import opened VaultRuns
  import opened Solvency
  import opened VaultDecisions
  import opened VaultStore
  import Contributions

  datatype RecordStatus = Waiting | Submitted | Confirmed | Failed | RetryScheduled

  /** One row per contribution, as UNIQUE (entity_type, entity_id, operation_kind) demands. */
  datatype TxRecord = TxRecord(key: string, status: RecordStatus, txHash: Option<string>, lastError: Option<string>,
    retryDue: bool)

  datatype Chain = Chain(db: Db, records: map<Id, TxRecord>)

  datatype TxState = Succeeded | TxFailed | TxPending | TxUnknown

  /** What the status lookup answers; `None` below stands for a failed lookup. */
  datatype TxStatus = TxStatus(state: TxState, retryable: bool, errorCode: Option<string>)

  datatype ChainAction =
    | Serve(action: Action)
    | Submit(contributionId: Id, key: string, txHash: Option<string>)
    | Reconcile(systemId: Id, contributionId: Id, status: Option<TxStatus>, crashed: bool)

  function SystemActor(systemId: Id): Actor {
    Actor(systemId, PlatformAdmin)
  }

  /** The settlement a looked-up status asks for, if any. */
  function Settling(status: TxStatus): Option<Contributions.Transition> {
    match status.state
    case Succeeded => Some(Contributions.Confirm)
    case TxFailed => if status.retryable then None else Some(Contributions.Fail)
    case _ => None
  }

  /** The record as it will be written back. */
  function Updated(record: TxRecord, status: TxStatus): TxRecord {
    match status.state
    case Succeeded => record.(status := Confirmed, lastError := None, retryDue := false)
    case TxFailed =>
      record.(status := if status.retryable then RetryScheduled else Failed, lastError := status.errorCode,
        retryDue := status.retryable)
    case _ => record.(status := Submitted)
  }

  /** The submitter is asked only when the key is new; `None` is its refusal. */
  ghost function SubmitStep(chain: Chain, id: Id, key: string, txHash: Option<string>): Chain {
    if id !in chain.db.contributions || (exists other | other in chain.records :: chain.records[other].key == key)
      || txHash == None || id in chain.records
    then chain
    else chain.(records := chain.records[id := TxRecord(key, Submitted, txHash, None, false)])
  }

  /** Settle first, then write the record; a settlement that fails, or a crash after it, leaves the
      record as it was. */
  ghost function ReconcileStep(chain: Chain, systemId: Id, id: Id, status: Option<TxStatus>, crashed: bool): Chain {
    if id !in chain.records || chain.records[id].txHash == None || status == None then chain
    else
      var record := chain.records[id];
      var settling := Settling(status.value);
      var settled := if settling == None then Outcome(chain.db, Ok(id))
                     else Call(chain.db, Settle(SystemActor(systemId), id, record.txHash, settling.value));
      if settled.reply.Err? || crashed then chain.(db := settled.db)
      else Chain(settled.db, chain.records[id := Updated(record, status.value)])
  }

  ghost function ChainStep(chain: Chain, action: ChainAction): Chain {
    match action
    case Serve(action) => chain.(db := Act(chain.db, action))
    case Submit(id, key, txHash) => SubmitStep(chain, id, key, txHash)
    case Reconcile(systemId, id, status, crashed) => ReconcileStep(chain, systemId, id, status, crashed)
  }

  ghost function ChainRun(chain: Chain, actions: seq<ChainAction>): Chain {
    if actions == [] then chain else ChainStep(ChainRun(chain, actions[..|actions| - 1]), actions[|actions| - 1])
  }

  // ---------------------------------------------------------------- agreement

  predicate RecordAgrees(db: Db, id: Id, record: TxRecord) {
    && (record.status == Confirmed ==>
          HasStatus(db, id, Contributions.Confirmed) || HasStatus(db, id, Contributions.Reversed))
    && (record.status == Failed ==> HasStatus(db, id, Contributions.Failed))
  }

  ghost predicate RecordsAgree(db: Db, records: map<Id, TxRecord>) {
    forall id | id in records :: RecordAgrees(db, id, records[id])
  }

  ghost predicate ChainAgrees(base: map<Id, Vault>, chain: Chain) {
    Books(base, chain.db) && RecordsAgree(chain.db, chain.records)
  }

  lemma EffectKeepsOutcomes(db: Db, out: Db, ticket: Ticket, id: Id, record: TxRecord)
    requires RecordAgrees(db, id, record) && Current(db, ticket) && TicketEffect(db, out, ticket)
    ensures RecordAgrees(out, id, record)
  {
  }

  /** Settled outcomes are final, except that a Confirmed contribution can be Reversed. */
  lemma CallKeepsOutcomes(db: Db, request: Request, id: Id, record: TxRecord)
    requires Checked(db) && RecordAgrees(db, id, record)
    ensures RecordAgrees(Call(db, request).db, id, record)
  {
    if Begin(db, request).Ready? && Call(db, request).db != db {
      var ticket := Begin(db, request).ticket;
      BegunIsCurrent(db, request);
      CommitIsAtomic(db, ticket);
      EffectKeepsOutcomes(db, Commit(db, ticket).db, ticket, id, record);
    }
  }

  lemma CallKeepsRecords(db: Db, records: map<Id, TxRecord>, request: Request)
    requires Checked(db) && RecordsAgree(db, records)
    ensures RecordsAgree(Call(db, request).db, records)
  {
    forall id | id in records
      ensures RecordAgrees(Call(db, request).db, id, records[id])
    {
      CallKeepsOutcomes(db, request, id, records[id]);
    }
  }

  /** A settlement call that answers Ok names its row and leaves it at the target. */
  lemma SettledAtTarget(db: Db, actor: Actor, id: Id, reference: Option<string>, transition: Contributions.Transition)
    requires Checked(db) && Call(db, Settle(actor, id, reference, transition)).reply.Ok?
    ensures Call(db, Settle(actor, id, reference, transition)).reply == Ok(id) && Contributions.CanSettle(actor.role)
    ensures HasStatus(Call(db, Settle(actor, id, reference, transition)).db, id, transition.Target())
  {
    if BeginSettle(db, actor, id, reference, transition).Ready? {
      var ticket := BeginSettle(db, actor, id, reference, transition).ticket;
      SettleIsExact(db, id, ticket.target, ticket.actor, ticket.reference, ticket.audit);
    }
  }

  /** The record written back agrees with a contribution that is where the settlement put it. */
  lemma UpdatedAgrees(db: Db, id: Id, record: TxRecord, status: TxStatus)
    requires Settling(status).Some? ==> HasStatus(db, id, Settling(status).value.Target())
    ensures RecordAgrees(db, id, Updated(record, status))
  {
  }

  lemma ReconcileKeepsRecords(chain: Chain, systemId: Id, id: Id, status: Option<TxStatus>, crashed: bool)
    requires Checked(chain.db) && RecordsAgree(chain.db, chain.records)
    ensures var out := ReconcileStep(chain, systemId, id, status, crashed); RecordsAgree(out.db, out.records)
  {
    if id in chain.records && chain.records[id].txHash != None && status != None {
      var record := chain.records[id];
      if Settling(status.value).None? {
        UpdatedAgrees(chain.db, id, record, status.value);
      } else {
        var request := Settle(SystemActor(systemId), id, record.txHash, Settling(status.value).value);
        CallKeepsRecords(chain.db, chain.records, request);
        if Call(chain.db, request).reply.Ok? {
          SettledAtTarget(chain.db, SystemActor(systemId), id, record.txHash, Settling(status.value).value);
          UpdatedAgrees(Call(chain.db, request).db, id, record, status.value);
        }
      }
    }
  }

  /** Seen from the vault tables, a reconciliation is at most one settlement call. */
  lemma ReconcileKeepsBooks(base: map<Id, Vault>, chain: Chain, systemId: Id, id: Id, status: Option<TxStatus>,
    crashed: bool)
    requires Books(base, chain.db)
    ensures Books(base, ReconcileStep(chain, systemId, id, status, crashed).db)
  {
    if id in chain.records && chain.records[id].txHash != None && status != None && Settling(status.value).Some? {
      CallKeepsBooks(base, chain.db,
        Settle(SystemActor(systemId), id, chain.records[id].txHash, Settling(status.value).value));
    }
  }

  lemma ChainStepKeepsAgreement(base: map<Id, Vault>, chain: Chain, action: ChainAction)
    requires ChainAgrees(base, chain)
    ensures ChainAgrees(base, ChainStep(chain, action))
  {
    match action
    case Serve(Called(request)) =>
      CallKeepsBooks(base, chain.db, request);
      CallKeepsRecords(chain.db, chain.records, request);
    case Serve(Joined(v, user)) => ContributorsAreNotBooks(base, chain.db, chain.db.contributors + {(v, user)});
    case Submit(_, _, _) =>
    case Reconcile(systemId, id, status, crashed) =>
      ReconcileKeepsBooks(base, chain, systemId, id, status, crashed);
      ReconcileKeepsRecords(chain, systemId, id, status, crashed);
  }

  /** In every sequential run of service calls, submissions and reconciliations with crashes: a
      Confirmed record means a Confirmed or Reversed contribution, a Failed record a Failed one,
      and no contribution is credited twice. */
  lemma {:induction false} RunsAgree(db: Db, actions: seq<ChainAction>)
    requires Initial(db)
    ensures ChainAgrees(db.vaults, ChainRun(Chain(db, map[]), actions))
    ensures forall id :: Entries(ChainRun(Chain(db, map[]), actions).db.ledger, id, ContributionConfirmed) <= 1
  {
    if actions == [] {
      InitialBooks(db);
    } else {
      RunsAgree(db, actions[..|actions| - 1]);
      ChainStepKeepsAgreement(db.vaults, ChainRun(Chain(db, map[]), actions[..|actions| - 1]), actions[|actions| - 1]);
    }
  }

  /** Repeating a settlement changes nothing more and answers the same. */
  lemma SettleTwice(db: Db, actor: Actor, id: Id, reference: Option<string>, transition: Contributions.Transition)
    requires Checked(db)
    ensures var once := Call(db, Settle(actor, id, reference, transition));
      Call(once.db, Settle(actor, id, reference, transition)) == once
  {
    var request := Settle(actor, id, reference, transition);
    var once := Call(db, request);
    if once.reply.Ok? {
      SettledAtTarget(db, actor, id, reference, transition);
    } else if Begin(db, request).Ready? {
      FailedCommitChangesNothing(db, Begin(db, request).ticket);
    }
  }

  /** A crash is repaired by the retry: crashing after the settlement and reconciling again with the
      same answer ends where one undisturbed reconciliation ends. */
  lemma RetryAfterCrash(chain: Chain, systemId: Id, id: Id, status: TxStatus)
    requires Checked(chain.db)
    ensures ReconcileStep(ReconcileStep(chain, systemId, id, Some(status), true), systemId, id, Some(status), false)
         == ReconcileStep(chain, systemId, id, Some(status), false)
  {
    if id in chain.records && chain.records[id].txHash != None && Settling(status).Some? {
      SettleTwice(chain.db, SystemActor(systemId), id, chain.records[id].txHash, Settling(status).value);
    }
  }

  predicate HasRoom(vault: Vault, amount: i64) {
    vault.contributed + amount <= MAX && vault.version < MAX
  }

  /** A looked-up success moves the record to Confirmed exactly when the contribution can still be
      confirmed or already is, by an administrator's confirmation with the transaction's hash; for a
      Failed or Reversed one it changes nothing at all. A Pending one needs room in its vault for its
      amount. */
  lemma SuccessIsRecordedIff(chain: Chain, systemId: Id, id: Id, status: TxStatus)
    requires Checked(chain.db) && id in chain.records && chain.records[id].txHash != None && status.state == Succeeded
    requires id in chain.db.contributions
    requires var row := chain.db.contributions[id];
      row.status == Contributions.Pending ==> HasRoom(chain.db.vaults[row.vaultId], row.amount)
    ensures var out := ReconcileStep(chain, systemId, id, Some(status), false);
      var open := HasStatus(chain.db, id, Contributions.Pending) || HasStatus(chain.db, id, Contributions.Confirmed);
      var record := chain.records[id];
      && (open ==>
            && id in out.records && out.records[id].status == Confirmed
            && HasStatus(out.db, id, Contributions.Confirmed)
            && out.records == chain.records[id := TxRecord(record.key, Confirmed, record.txHash, None, false)]
            && out.db == Call(chain.db,
                 Settle(Actor(systemId, PlatformAdmin), id, record.txHash, Contributions.Confirm)).db)
      && (!open ==> out == chain)
  {
    var request := Settle(SystemActor(systemId), id, chain.records[id].txHash, Contributions.Confirm);
    if HasStatus(chain.db, id, Contributions.Pending) {
      var ticket := Begin(chain.db, request).ticket;
      SettleIsExact(chain.db, id, ticket.target, ticket.actor, ticket.reference, ticket.audit);
    }
  }

  /** A looked-up final failure fails the record and the contribution exactly when the contribution is
      Pending or has failed already: the record keeps the error code and waits for no retry. For a
      Confirmed, a Reversed or a missing one it changes nothing at all. */
  lemma FailureIsRecordedIff(chain: Chain, systemId: Id, id: Id, status: TxStatus)
    requires Checked(chain.db) && id in chain.records && chain.records[id].txHash != None
    requires status.state == TxFailed && !status.retryable
    ensures var out := ReconcileStep(chain, systemId, id, Some(status), false);
      var open := HasStatus(chain.db, id, Contributions.Pending) || HasStatus(chain.db, id, Contributions.Failed);
      var record := chain.records[id];
      && (open ==>
            && out.records == chain.records[id := TxRecord(record.key, Failed, record.txHash, status.errorCode, false)]
            && HasStatus(out.db, id, Contributions.Failed)
            && out.db.vaults == chain.db.vaults && out.db.ledger == chain.db.ledger
            && out.db == Call(chain.db,
                 Settle(Actor(systemId, PlatformAdmin), id, record.txHash, Contributions.Fail)).db)
      && (!open ==> out == chain)
  {
    var request := Settle(SystemActor(systemId), id, chain.records[id].txHash, Contributions.Fail);
    if HasStatus(chain.db, id, Contributions.Pending) {
      FailStores(chain.db, SystemActor(systemId), id, chain.records[id].txHash);
    } else {
      SettlementsBeginIff(chain.db, SystemActor(systemId), id, chain.records[id].txHash, Contributions.Fail);
    }
  }

  /** Only a final answer settles: a retryable failure, a pending or an unknown transaction moves no
      money. A retryable failure leaves its error code and a retry due, the others put the record back
      to Submitted and leave the rest of it. */
  lemma OpenAnswersSettleNothing(chain: Chain, systemId: Id, id: Id, status: TxStatus, crashed: bool)
    requires status.state != Succeeded && (status.state == TxFailed ==> status.retryable)
    ensures var out := ReconcileStep(chain, systemId, id, Some(status), crashed);
      && out.db == chain.db && out.records.Keys == chain.records.Keys
      && (forall other | other in chain.records && other != id :: out.records[other] == chain.records[other])
      && (id in chain.records && chain.records[id].txHash != None && !crashed ==>
            var record := chain.records[id];
            out.records[id]
              == if status.state == TxFailed
                 then TxRecord(record.key, RetryScheduled, record.txHash, status.errorCode, true)
                 else TxRecord(record.key, Submitted, record.txHash, record.lastError, record.retryDue))
      && (id !in chain.records || chain.records[id].txHash == None || crashed ==> out == chain)
  {
  }

  /** Without a record, without a hash or without an answer nothing happens. */
  lemma NothingToReconcile(chain: Chain, systemId: Id, id: Id, status: Option<TxStatus>, crashed: bool)
    requires id !in chain.records || chain.records[id].txHash == None || status == None
    ensures ReconcileStep(chain, systemId, id, status, crashed) == chain
  {
  }

  /** A submission adds one Submitted record, for a contribution on record that has none, under a new
      key, with the hash that the submitter answered; otherwise it changes nothing. */
  lemma SubmissionStores(chain: Chain, id: Id, key: string, txHash: Option<string>)
    ensures SubmitStep(chain, id, key, txHash)
      == if id in chain.db.contributions && id !in chain.records && txHash.Some?
            && (forall other | other in chain.records :: chain.records[other].key != key)
         then Chain(chain.db, chain.records[id := TxRecord(key, Submitted, txHash, None, false)])
         else chain
  {
  }

  // ---------------------------------------------------------------- the record table as state

  class RecordTable {
    var rows: map<Id, TxRecord>

    constructor ()
      ensures rows == map[]
    {
      rows := map[];
    }
  }

  /** The settlement inside a reconciliation; when it fails the tables are as they were. */
  method SettleReconciled(store: Store, systemId: Id, id: Id, reference: Option<string>,
    transition: Contributions.Transition)
    returns (settled: Result<Id, Error>)
    requires store.Valid()
    modifies store
    ensures store.Valid()
    ensures Outcome(store.State(), settled)
      == Call(old(store.State()), Settle(SystemActor(systemId), id, reference, transition))
    ensures settled.Err? ==> store.State() == old(store.State())
  {
    store.ValidKeepsKeys();
    CallsLeaveOneTrace(store.State(), Settle(SystemActor(systemId), id, reference, transition));
    settled := SettleContribution(store, SystemActor(systemId), id, reference, transition);
  }

  /** What a reconciliation answers: the contribution it settled, none, or why it could not. */
  ghost function ReconcileReply(chain: Chain, systemId: Id, id: Id, status: Option<TxStatus>)
    : Result<Option<Id>, Error>
  {
    if id !in chain.records then Ok(None)
    else if chain.records[id].txHash == None then Err(Conflict("blockchain transaction record missing tx hash"))
    else if status == None then Err(Repository)
    else if status.value.state == TxPending || status.value.state == TxUnknown
      || (status.value.state == TxFailed && status.value.retryable) then Ok(None)
    else
      var transition := if status.value.state == Succeeded then Contributions.Confirm else Contributions.Fail;
      var request := Settle(Actor(systemId, PlatformAdmin), id, chain.records[id].txHash, transition);
      match Call(chain.db, request).reply
      case Ok(settled) => Ok(Some(settled))
      case Err(error) => Err(error)
  }

  /** Reconciliation as it runs: the record is changed field by field in memory, the contribution
      is settled, and only then is the record written back. */
  method ReconcileContributionTransaction(store: Store, records: RecordTable, systemId: Id, id: Id,
    status: Option<TxStatus>, crashed: bool)
    returns (reply: Result<Option<Id>, Error>)
    requires store.Valid()
    modifies store, records
    ensures store.Valid()
    ensures Chain(store.State(), records.rows)
      == ReconcileStep(old(Chain(store.State(), records.rows)), systemId, id, status, crashed)
    ensures reply.Err? ==> store.State() == old(store.State()) && records.rows == old(records.rows)
    ensures reply == ReconcileReply(old(Chain(store.State(), records.rows)), systemId, id, status)
  {
    if id !in records.rows { return Ok(None); }
    var record := records.rows[id];
    if record.txHash == None { return Err(Conflict("blockchain transaction record missing tx hash")); }
    if status == None { return Err(Repository); }
    var contribution: Option<Id> := None;
    match status.value.state {
      case Succeeded =>
        record := record.(status := Confirmed);
        record := record.(lastError := None);
        record := record.(retryDue := false);
        var settled := SettleReconciled(store, systemId, id, record.txHash, Contributions.Confirm);
        if settled.Err? { return Err(settled.error); }
        contribution := Some(settled.value);
      case TxFailed =>
        record := record.(status := if status.value.retryable then RetryScheduled else Failed);
        record := record.(lastError := status.value.errorCode);
        record := record.(retryDue := status.value.retryable);
        if !status.value.retryable {
          var settled := SettleReconciled(store, systemId, id, record.txHash, Contributions.Fail);
          if settled.Err? { return Err(settled.error); }
          contribution := Some(settled.value);
        }
      case TxPending => record := record.(status := Submitted);
      case TxUnknown => record := record.(status := Submitted);
    }
    if crashed { return Ok(contribution); }
    records.rows := records.rows[id := record];
    return Ok(contribution);
  }
}
