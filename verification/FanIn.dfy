/** The dispatcher/batch protocol of one (pipelineRunId, step) as a state machine.

    One action is one statement that another process can see: a read or a write of a run row, one publish,
    one commit, one ack. Any number of dispatchers, batch workers and outbox publishers run at once, any of
    them may crash between two actions, the broker may redeliver a message whose handler is still alive, and
    an operator may replay dead letters at any time. A message is represented by its batchSeq. */
module FanIn {
  import opened Options
  import opened PipelineRows
  import opened OutboxRows
  import opened Emission

  /** `planned` is the length of the dispatcher's deterministic batch list; `checkpoint` and `viaOutbox` are
      the two publish settings. */
  datatype Config = Config(tenantId: string, planned: nat, checkpoint: int, viaOutbox: bool)

  datatype OutboxMessage = BatchMessage(batchSeq: int) | SuccessorMessage

  datatype WorkerPhase =
    | Starting(seen: StartRead)                // start() has read its row and not written yet
    | Handling(startedAt: int)                 // start() answered 'started'; the tenant tx is open
    | Duplicate                                // start() answered 'in-progress'
    | Faulted(since: Option<int>)              // in the catch block, nothing republished yet
    | DeadLettered(since: Option<int>)         // republished to the DLX, runs.fail not executed yet
    | Settled                                  // process() has returned; the ack is outstanding

  /** `held`: the delivery is still unacked at the broker on behalf of this worker. */
  datatype Worker = Worker(batchSeq: int, held: bool, phase: WorkerPhase)

  datatype Dispatcher =
    | DispatchStarting(seen: DispatchRead)
    | DispatchHandling
    | DispatchRecorded(completed: Option<set<int>>, from: Option<int>)
    | DispatchEmitting(base: int, pending: seq<int>, next: nat, due: Option<int>)
    | DispatchEmitted
    | DispatchFaulted                          // in the catch block, nothing republished yet
    | DispatchDeadLettered                     // republished to the DLX, runs.fail not executed yet

  /** The copies of the step's own dispatch message: queued, dead-lettered, replayed and not yet acked on the DLQ,
      and delivered to a dispatcher that has not acked. */
  datatype DispatchMail = DispatchMail(queued: nat, dead: nat, replaying: nat, held: set<nat>)

  /** What happened so far; no action reads it. */
  datatype History = History(
    emitted: set<int>,          // seqs published or staged by some dispatcher
    commits: multiset<int>,     // committed tenant transactions, by seq: the handle() effects
    transitions: multiset<int>, // running -> completed transitions of batch rows
    undone: multiset<int>,      // completed batch rows set back to another status
    fires: nat,                 // commits that took the last-batch branch
    dispatched: bool,           // some dispatcher completed the dispatch row
    accepted: set<nat>)         // outbox ids the broker accepted, or whose batch was seen completed

  datatype State = State(
    now: int,
    rows: Rows,
    dispatchers: map<nat, Dispatcher>,
    workers: map<nat, Worker>,
    main: multiset<int>,
    dlq: multiset<int>,
    replaying: multiset<int>,   // replayed to the main exchange, not yet acked on the DLQ
    mail: DispatchMail,
    outbox: seq<OutboxRow<OutboxMessage>>,
    claimed: multiset<nat>,     // claims in the hands of a live publisher
    settled: multiset<nat>,     // claims accepted or skipped, not yet marked
    hist: History)

  datatype Action =
    | Tick(ms: nat)
    | DispatcherAct(d: nat, move: DispatcherAction)
    | WorkerAct(w: nat, step: WorkerAction)
    | PublisherAct(pub: PublisherAction)
    | OperatorAct(batchSeq: int, op: OperatorAction)
    | MailAct(change: MailAction)

  datatype DispatcherAction =
    | BeginDispatch(found: bool)
    | WriteDispatchRow(attempt: int)
    | FinishEmpty(successors: nat)
    | RecordPlanned
    | ReadCompleted
    | ReadCheckpoint
    | PlanEmission
    | PublishNext
    | StageChunk
    | WriteCheckpoint
    | FinishEmission
    | CompleteDispatch
    | DispatchThrows
    | DeadLetterDispatch
    | FailDispatch(error: string)
    | NackDispatch
    | LoseDispatch
    | CrashDispatcher

  datatype WorkerAction =
    | Deliver(batchSeq: int)
    | WriteStartRow(attempt: int)
    | CommitBatch(successors: nat)
    | HandlerThrows
    | DeadLetter
    | FailBatch(error: string)
    | Ack
    | NackToDlq
    | LoseDelivery
    | CrashWorker

  datatype PublisherAction =
    | Claim(ids: set<nat>)
    | Publish(id: nat)
    | SkipCompleted(id: nat)
    | Mark(id: nat)
    | Abandon(id: nat)
    | AbandonSettled(id: nat)

  datatype OperatorAction = ReplayPublish | ReplayAck | ReplayCrash

  /** What happens to the dispatch message outside the dispatchers: another copy is sent (a second firing of a join,
      or a delivery whose ack was lost), and the operator's replay. */
  datatype MailAction = SendCopy | ReplayCopy | AckReplay | CrashReplay

  /** The step's dispatch message has been sent, and nothing else happened. */
  function Init(now: int): State {
    State(now, map[], map[], map[], multiset{}, multiset{}, multiset{}, DispatchMail(1, 0, 0, {}), [],
          multiset{}, multiset{}, History({}, multiset{}, multiset{}, multiset{}, 0, false, {}))
  }

  function Step(c: Config, s: State, a: Action): Option<State> {
    match a
    case Tick(ms) => Some(s.(now := s.now + ms))
    case DispatcherAct(d, act) =>
      if act.BeginDispatch? then BeginDispatcher(s, d, act.found)
      else if d in s.dispatchers then DispatcherStep(c, s, d, s.dispatchers[d], act)
      else None
    case WorkerAct(w, act) =>
      if act.Deliver? then DeliverTo(s, w, act.batchSeq)
      else if w in s.workers then WorkerStep(c, s, w, s.workers[w], act)
      else None
    case PublisherAct(pub) => PublisherStep(s, pub)
    case OperatorAct(batchSeq, op) => OperatorStep(s, batchSeq, op)
    case MailAct(change) => MailStep(s, change)
  }

  function Exec(c: Config, s: State, acts: seq<Action>): Option<State>
    decreases |acts|
  {
    if acts == [] then Some(s)
    else match Step(c, s, acts[0])
      case None => None
      case Some(next) => Exec(c, next, acts[1..])
  }

  // ----- dispatchers -----

  /** A delivery of the dispatch message and its call's first read of the dispatch row, which may also throw. A
      delivery that finds the row completed is acked. */
  function BeginDispatcher(s: State, d: nat, found: bool): Option<State> {
    if d in s.dispatchers || s.mail.queued == 0 then None
    else if found && ReadDispatch(s.rows).DispatchDone?
    then Some(s.(mail := s.mail.(queued := s.mail.queued - 1)))
    else Some(s.(mail := s.mail.(queued := s.mail.queued - 1, held := s.mail.held + {d}),
                 dispatchers := s.dispatchers[d := if found then DispatchStarting(ReadDispatch(s.rows))
                                                      else DispatchFaulted]))
  }

  function SetDispatcher(s: State, d: nat, next: Dispatcher): State {
    s.(dispatchers := s.dispatchers[d := next])
  }

  /** The call returns and its delivery, if it still has it, is acked. */
  function EndDispatcher(s: State, d: nat): State {
    s.(dispatchers := s.dispatchers - {d}, mail := s.mail.(held := s.mail.held - {d}))
  }

  function RequeueDispatch(s: State, d: nat): State {
    s.(mail := if d in s.mail.held then s.mail.(queued := s.mail.queued + 1, held := s.mail.held - {d}) else s.mail)
  }

  function Successors(count: nat): seq<OutboxMessage> {
    seq(count, _ => SuccessorMessage)
  }

  function BatchMessages(seqs: seq<int>): seq<OutboxMessage> {
    seq(|seqs|, i requires 0 <= i < |seqs| => BatchMessage(seqs[i]))
  }

  function DispatcherStep(c: Config, s: State, d: nat, p: Dispatcher, act: DispatcherAction): Option<State> {
    match act
    case WriteDispatchRow(attempt) =>
      if !p.DispatchStarting? then None
      else (match WriteDispatch(s.rows, p.seen, c.tenantId, attempt, s.now)
            case None => Some(SetDispatcher(s, d, DispatchFaulted))
            case Some(rows) => Some(SetDispatcher(s.(rows := rows), d, DispatchHandling)))
    case FinishEmpty(successors) =>
      if p.DispatchHandling? && c.planned == 0
      then Some(EndDispatcher(s.(rows := CompleteRow(RecordPlannedCount(s.rows, 0), DISPATCH_BATCH_SEQ, s.now),
                                 outbox := s.outbox + Staged(Successors(successors)),
                                 hist := s.hist.(dispatched := true)), d))
      else None
    case RecordPlanned =>
      if p.DispatchHandling? && c.planned > 0
      then Some(SetDispatcher(s.(rows := RecordPlannedCount(s.rows, c.planned)), d, DispatchRecorded(None, None)))
      else None
    case ReadCompleted =>
      if p.DispatchRecorded? && p.completed.None?
      then Some(SetDispatcher(s, d, p.(completed := Some(CompletedSeqs(s.rows)))))
      else None
    case ReadCheckpoint =>
      if p.DispatchRecorded? && p.from.None?
      then Some(SetDispatcher(s, d, p.(from := Some(CheckpointOf(s.rows)))))
      else None
    case PlanEmission =>
      if p.DispatchRecorded? && p.completed.Some? && p.from.Some?
      then Some(SetDispatcher(s, d, DispatchEmitting(p.from.value,
                  PendingOf(Numbered(c.planned), p.from.value, p.completed.value), 0, None)))
      else None
    case PublishNext =>
      if !c.viaOutbox && p.DispatchEmitting? && p.due.None? && p.next < |p.pending|
      then
        var q := p.pending[p.next];
        var due := if c.checkpoint > 0 && q % c.checkpoint == 0 then Some(q) else None;
        Some(SetDispatcher(s.(main := s.main + multiset{q}, hist := s.hist.(emitted := s.hist.emitted + {q})),
                           d, p.(next := p.next + 1, due := due)))
      else None
    case StageChunk =>
      if c.viaOutbox && p.DispatchEmitting? && p.due.None? && p.next < |p.pending|
      then
        var next := NextChunk(p.next, |p.pending|);
        var slice := p.pending[p.next..next];
        Some(SetDispatcher(s.(outbox := s.outbox + Staged(BatchMessages(slice)),
                              hist := s.hist.(emitted := s.hist.emitted + set q | q in slice)),
                           d, p.(next := next, due := Some(MaxOf(slice)))))
      else None
    case WriteCheckpoint =>
      if p.DispatchEmitting? && p.due.Some?
      then Some(SetDispatcher(s.(rows := SetCheckpoint(s.rows, p.due.value)), d, p.(due := None)))
      else None
    case FinishEmission =>
      if p.DispatchEmitting? && p.due.None? && p.next >= |p.pending|
      then
        var rows := if !c.viaOutbox && |p.pending| > 0 && p.pending[|p.pending| - 1] > p.base
                    then SetCheckpoint(s.rows, p.pending[|p.pending| - 1])
                    else s.rows;
        Some(SetDispatcher(s.(rows := rows), d, DispatchEmitted))
      else None
    case CompleteDispatch =>
      if p.DispatchEmitted?
      then Some(EndDispatcher(s.(rows := CompleteRow(s.rows, DISPATCH_BATCH_SEQ, s.now),
                                 hist := s.hist.(dispatched := true)), d))
      else None
    case DispatchThrows => if p.DispatchDeadLettered? then None else Some(SetDispatcher(s, d, DispatchFaulted))
    case DeadLetterDispatch =>
      if p.DispatchFaulted?
      then Some(SetDispatcher(s.(mail := s.mail.(dead := s.mail.dead + 1)), d, DispatchDeadLettered))
      else None
    case FailDispatch(error) =>
      if p.DispatchDeadLettered?
      then Some(EndDispatcher(s.(rows := FailRow(s.rows, DISPATCH_BATCH_SEQ, error, s.now)), d))
      else None
    case NackDispatch =>
      if p.DispatchFaulted? || p.DispatchDeadLettered?
      then Some(EndDispatcher(if d in s.mail.held then s.(mail := s.mail.(dead := s.mail.dead + 1)) else s, d))
      else None
    case LoseDispatch => if d in s.mail.held then Some(RequeueDispatch(s, d)) else None
    case CrashDispatcher => Some(EndDispatcher(RequeueDispatch(s, d), d))
    case BeginDispatch(_) => None
  }

  // ----- batch workers -----

  function DeliverTo(s: State, w: nat, q: int): Option<State> {
    if w in s.workers || q !in s.main then None
    else Some(s.(main := s.main - multiset{q},
                 workers := s.workers[w := Worker(q, true, Starting(ReadStart(s.rows, q, s.now)))]))
  }

  function SetPhase(s: State, w: nat, p: Worker, phase: WorkerPhase): State {
    s.(workers := s.workers[w := p.(phase := phase)])
  }

  function DropWorker(s: State, w: nat): State {
    s.(workers := s.workers - {w})
  }

  /** Completed batch rows that a write set back to another status. */
  function Undone(before: Rows, after: Rows, q: int): multiset<int> {
    if IsCompleted(before, q) && !IsCompleted(after, q) then multiset{q} else multiset{}
  }

  function CommitTx(s: State, w: nat, p: Worker, successors: nat): State
    requires DISPATCH_BATCH_SEQ in s.rows && p.batchSeq != DISPATCH_BATCH_SEQ
  {
    var rows := CompleteAndIncrement(s.rows, p.batchSeq, s.now);
    var last := Increment(rows).isLast;
    var h := s.hist;
    SetPhase(s.(rows := rows,
                outbox := s.outbox + (if last then Staged(Successors(successors)) else []),
                hist := h.(commits := h.commits + multiset{p.batchSeq},
                           transitions := if Transitions(s.rows, p.batchSeq) then h.transitions + multiset{p.batchSeq}
                                          else h.transitions,
                           fires := if last then h.fires + 1 else h.fires)),
             w, p, Settled)
  }

  function WriteStartTx(c: Config, s: State, w: nat, p: Worker, attempt: int): State
    requires p.phase.Starting?
  {
    match p.phase.seen
    case SeenCompleted => SetPhase(s, w, p, Settled)
    case SeenActive => SetPhase(s, w, p, Duplicate)
    case _ =>
      match WriteStart(s.rows, p.phase.seen, p.batchSeq, c.tenantId, attempt, s.now)
      case None => SetPhase(s, w, p, Faulted(None))
      case Some(rows) => SetPhase(WriteBatchRow(s, rows, p.batchSeq), w, p, Handling(s.now))
  }

  function WriteBatchRow(s: State, rows: Rows, q: int): State {
    s.(rows := rows, hist := s.hist.(undone := s.hist.undone + Undone(s.rows, rows, q)))
  }

  function WorkerStep(c: Config, s: State, w: nat, p: Worker, act: WorkerAction): Option<State> {
    match act
    case WriteStartRow(attempt) =>
      if p.phase.Starting? then Some(WriteStartTx(c, s, w, p, attempt)) else None
    case CommitBatch(successors) =>
      if !p.phase.Handling? || p.batchSeq == DISPATCH_BATCH_SEQ then None
      else if DISPATCH_BATCH_SEQ !in s.rows then Some(SetPhase(s, w, p, Faulted(Some(p.phase.startedAt))))
      else Some(CommitTx(s, w, p, successors))
    case HandlerThrows =>
      if p.phase.Handling? then Some(SetPhase(s, w, p, Faulted(Some(p.phase.startedAt))))
      else if p.phase.Starting? then Some(SetPhase(s, w, p, Faulted(None)))
      else None
    case DeadLetter =>
      if p.phase.Faulted?
      then Some(SetPhase(s.(dlq := s.dlq + multiset{p.batchSeq}), w, p, DeadLettered(p.phase.since)))
      else if p.phase.Duplicate?
      then Some(SetPhase(s.(dlq := s.dlq + multiset{p.batchSeq}), w, p, Settled))
      else None
    case FailBatch(error) =>
      if p.phase.DeadLettered?
      then Some(SetPhase(WriteBatchRow(s, FailRow(s.rows, p.batchSeq, error, s.now), p.batchSeq), w, p, Settled))
      else None
    case Ack => if p.phase.Settled? then Some(DropWorker(s, w)) else None
    case NackToDlq =>
      if p.phase.Faulted? || p.phase.Duplicate? || p.phase.DeadLettered?
      then Some(DropWorker(s.(dlq := if p.held then s.dlq + multiset{p.batchSeq} else s.dlq), w))
      else None
    case LoseDelivery =>
      if p.held
      then Some(s.(main := s.main + multiset{p.batchSeq}, workers := s.workers[w := p.(held := false)]))
      else None
    case CrashWorker =>
      Some(DropWorker(s.(main := if p.held then s.main + multiset{p.batchSeq} else s.main), w))
    case Deliver(_) => None
  }

  // ----- outbox publishers -----

  function PublisherStep(s: State, act: PublisherAction): Option<State> {
    match act
    case Claim(ids) =>
      if forall id <- ids :: id < |s.outbox| && Claimable(s.outbox[id], s.now)
      then Some(s.(outbox := ClaimRows(s.outbox, ids, s.now), claimed := s.claimed + multiset(ids)))
      else None
    case Publish(id) =>
      if id in s.claimed && id < |s.outbox|
      then Some(s.(main := match s.outbox[id].message
                           case BatchMessage(q) => s.main + multiset{q}
                           case SuccessorMessage => s.main,
                   claimed := s.claimed - multiset{id}, settled := s.settled + multiset{id},
                   hist := s.hist.(accepted := s.hist.accepted + {id})))
      else None
    case SkipCompleted(id) =>
      if id in s.claimed && id < |s.outbox| && s.outbox[id].message.BatchMessage?
         && s.outbox[id].message.batchSeq > 0 && IsCompleted(s.rows, s.outbox[id].message.batchSeq)
      then Some(s.(claimed := s.claimed - multiset{id}, settled := s.settled + multiset{id},
                   hist := s.hist.(accepted := s.hist.accepted + {id})))
      else None
    case Mark(id) =>
      if id in s.settled
      then Some(s.(outbox := MarkRow(s.outbox, id, s.now), settled := s.settled - multiset{id}))
      else None
    case Abandon(id) => if id in s.claimed then Some(s.(claimed := s.claimed - multiset{id})) else None
    case AbandonSettled(id) => if id in s.settled then Some(s.(settled := s.settled - multiset{id})) else None
  }

  // ----- the operator's dead-letter replay -----

  function OperatorStep(s: State, q: int, op: OperatorAction): Option<State> {
    match op
    case ReplayPublish =>
      if q in s.dlq
      then Some(s.(dlq := s.dlq - multiset{q}, replaying := s.replaying + multiset{q}, main := s.main + multiset{q}))
      else None
    case ReplayAck => if q in s.replaying then Some(s.(replaying := s.replaying - multiset{q})) else None
    case ReplayCrash =>
      if q in s.replaying
      then Some(s.(replaying := s.replaying - multiset{q}, dlq := s.dlq + multiset{q}))
      else None
  }

  function MailStep(s: State, change: MailAction): Option<State> {
    match change
    case SendCopy => Some(s.(mail := s.mail.(queued := s.mail.queued + 1)))
    case ReplayCopy =>
      if s.mail.dead > 0
      then Some(s.(mail := s.mail.(dead := s.mail.dead - 1, replaying := s.mail.replaying + 1,
                                   queued := s.mail.queued + 1)))
      else None
    case AckReplay =>
      if s.mail.replaying > 0 then Some(s.(mail := s.mail.(replaying := s.mail.replaying - 1))) else None
    case CrashReplay =>
      if s.mail.replaying > 0
      then Some(s.(mail := s.mail.(replaying := s.mail.replaying - 1, dead := s.mail.dead + 1)))
      else None
  }
}
