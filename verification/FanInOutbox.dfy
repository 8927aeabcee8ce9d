/** The outbox lease over whole runs, with any number of publishers and no assumption on how long a publish
    takes. An outbox row's history is read off the run itself: the moments at which it was claimed. */
module FanInOutbox {
  import opened Options
  import opened PipelineRows
  import opened OutboxRows
  import opened FanIn
  import opened FanInSafety

  predicate ClaimsRow(a: Action, id: nat) {
    a.PublisherAct? && a.pub.Claim? && id in a.pub.ids
  }

  /** The clock at every claim of row `id`, in the order of the run. */
  function ClaimTimes(c: Config, s: State, acts: seq<Action>, id: nat): seq<int>
    decreases |acts|
  {
    if acts == [] then []
    else match Step(c, s, acts[0])
      case None => []
      case Some(next) => (if ClaimsRow(acts[0], id) then [s.now] else []) + ClaimTimes(c, next, acts[1..], id)
  }

  predicate Exists(s: State, id: nat) {
    id < |s.outbox|
  }

  function Attempts(s: State, id: nat): nat {
    if Exists(s, id) then s.outbox[id].attempts else 0
  }

  function LastClaim(s: State, id: nat): Option<int> {
    if Exists(s, id) then s.outbox[id].claimedAt else None
  }

  /** Each claim is more than the grace window after the one before it. */
  ghost predicate Spaced(from: Option<int>, times: seq<int>) {
    && (from.Some? && times != [] ==> times[0] - from.value > CLAIM_GRACE_MS)
    && (forall i, j :: 0 <= i < j < |times| ==> times[j] - times[i] > CLAIM_GRACE_MS)
  }

  /** Nothing but a claim touches `attempts` and `claimedAt`. */
  ghost predicate RowStep(s: State, a: Action, next: State, id: nat) {
    if ClaimsRow(a, id) then
      && Exists(s, id) && Claimable(s.outbox[id], s.now)
      && Attempts(next, id) == Attempts(s, id) + 1
      && LastClaim(next, id) == Some(s.now)
    else
      Attempts(next, id) == Attempts(s, id) && LastClaim(next, id) == LastClaim(s, id)
  }

  lemma StepOnRow(c: Config, s: State, a: Action, next: State, id: nat)
    requires Step(c, s, a) == Some(next)
    ensures RowStep(s, a, next, id)
  {
    match a
    case Tick(_) =>
    case DispatcherAct(d, move) =>
      if !move.BeginDispatch? {
        DispatcherAppends(c, s, d, move, next);
        AppendedUnclaimed(s, next, id);
      }
    case WorkerAct(w, step) =>
      if !step.Deliver? {
        WorkerAppends(c, s, w, step, next);
        AppendedUnclaimed(s, next, id);
      }
    case PublisherAct(pub) => PublisherOnRow(s, pub, next, id);
    case OperatorAct(_, _) =>
    case MailAct(_) =>
  }

  lemma PublisherOnRow(s: State, pub: PublisherAction, next: State, id: nat)
    requires PublisherStep(s, pub) == Some(next)
    ensures RowStep(s, PublisherAct(pub), next, id)
  {
    assert |next.outbox| == |s.outbox|;
  }

  ghost predicate Appends(s: State, next: State) {
    && s.outbox <= next.outbox
    && forall i :: |s.outbox| <= i < |next.outbox| ==>
       next.outbox[i] == OutboxRow(next.outbox[i].message, 0, None, None)
  }

  lemma DispatcherAppends(c: Config, s: State, d: nat, act: DispatcherAction, next: State)
    requires d in s.dispatchers && DispatcherStep(c, s, d, s.dispatchers[d], act) == Some(next)
    ensures Appends(s, next)
  {
  }

  lemma WorkerAppends(c: Config, s: State, w: nat, act: WorkerAction, next: State)
    requires w in s.workers && WorkerStep(c, s, w, s.workers[w], act) == Some(next)
    ensures Appends(s, next)
  {
    if act.WriteStartRow? {
      StartFrame(c, s, w, s.workers[w], act.attempt);
      assert next.outbox == s.outbox;
    }
  }

  lemma AppendedUnclaimed(s: State, next: State, id: nat)
    requires Appends(s, next)
    ensures Attempts(next, id) == Attempts(s, id) && LastClaim(next, id) == LastClaim(s, id)
  {
  }

  lemma {:induction false} ClaimsBetween(c: Config, s: State, acts: seq<Action>, last: State, id: nat)
    requires Exec(c, s, acts) == Some(last)
    requires LastClaim(s, id).Some? ==> LastClaim(s, id).value <= s.now
    ensures
      var times := ClaimTimes(c, s, acts, id);
      && Attempts(last, id) == Attempts(s, id) + |times|
      && LastClaim(last, id) == (if times == [] then LastClaim(s, id) else Some(times[|times| - 1]))
      && Spaced(LastClaim(s, id), times)
    decreases |acts|
  {
    if acts != [] {
      var next := Step(c, s, acts[0]).value;
      StepOnRow(c, s, acts[0], next, id);
      ClockRuns(c, s, acts[0], next);
      ClaimsBetween(c, next, acts[1..], last, id);
      var rest := ClaimTimes(c, next, acts[1..], id);
      if ClaimsRow(acts[0], id) {
        SpacedCons(LastClaim(s, id), s.now, rest);
      }
    }
  }

  lemma SpacedCons(from: Option<int>, t: int, rest: seq<int>)
    requires from.Some? ==> t - from.value > CLAIM_GRACE_MS
    requires Spaced(Some(t), rest)
    ensures Spaced(from, [t] + rest)
  {
    var times := [t] + rest;
    forall i, j | 0 <= i < j < |times| ensures times[j] - times[i] > CLAIM_GRACE_MS {
      assert times[j] == rest[j - 1];
      assert j > 1 ==> rest[j - 1] - rest[0] > CLAIM_GRACE_MS;
    }
  }

  lemma ClockRuns(c: Config, s: State, a: Action, next: State)
    requires Step(c, s, a) == Some(next)
    ensures s.now <= next.now
  {
    match a
    case Tick(_) =>
    case DispatcherAct(d, move) =>
      if !move.BeginDispatch? {
        DispatcherFrames(c, s, d, move, next);
      }
    case WorkerAct(w, step) =>
      if !step.Deliver? {
        WorkerFrames(c, s, w, step, next);
      }
    case PublisherAct(pub) => PublisherFrames(s, pub, next);
    case OperatorAct(_, _) =>
    case MailAct(_) =>
  }

  /** Leases of one row never overlap: `attempts` counts its claims, claimed_at is the last of them, and any
      two are more than the grace window apart, whatever the publishers do and however slow they are. */
  lemma ClaimsAreSpacedAndCounted(c: Config, now: int, acts: seq<Action>, s: State, id: nat)
    requires Exec(c, Init(now), acts) == Some(s) && id < |s.outbox|
    ensures
      var times := ClaimTimes(c, Init(now), acts, id);
      && s.outbox[id].attempts == |times|
      && s.outbox[id].claimedAt == (if times == [] then None else Some(times[|times| - 1]))
      && forall i, j :: 0 <= i < j < |times| ==> times[j] - times[i] > CLAIM_GRACE_MS
  {
    ClaimsBetween(c, Init(now), acts, s, id);
  }

  /** An unpublished row is claimable exactly when it was never claimed or its last claim is older than the
      grace window; so time alone makes it claimable again, whoever crashed. */
  lemma UnpublishedIsClaimableAgain(c: Config, now: int, acts: seq<Action>, s: State, id: nat, ms: nat)
    requires Exec(c, Init(now), acts) == Some(s) && id < |s.outbox| && s.outbox[id].publishedAt.None?
    ensures
      var times := ClaimTimes(c, Init(now), acts, id);
      Step(c, Step(c, s, Tick(ms)).value, PublisherAct(Claim({id}))).Some?
      <==> (times == [] || s.now + ms - times[|times| - 1] > CLAIM_GRACE_MS)
  {
    ClaimsAreSpacedAndCounted(c, now, acts, s, id);
    var later := Step(c, s, Tick(ms)).value;
    assert later.outbox == s.outbox;
  }

  predicate Delivers(a: Action, id: nat) {
    a.PublisherAct? && (a.pub == Publish(id) || a.pub == SkipCompleted(id))
  }

  lemma {:induction false} AcceptedWasDelivered(c: Config, s: State, acts: seq<Action>, last: State, id: nat)
    requires Exec(c, s, acts) == Some(last) && id in last.hist.accepted && id !in s.hist.accepted
    ensures exists i :: 0 <= i < |acts| && Delivers(acts[i], id)
    decreases |acts|
  {
    assert acts != [];
    var next := Step(c, s, acts[0]).value;
    if id in next.hist.accepted {
      AcceptedByStep(c, s, acts[0], next, id);
      assert Delivers(acts[0], id);
    } else {
      AcceptedWasDelivered(c, next, acts[1..], last, id);
      var i :| 0 <= i < |acts[1..]| && Delivers(acts[1..][i], id);
      assert Delivers(acts[i + 1], id);
    }
  }

  lemma AcceptedByStep(c: Config, s: State, a: Action, next: State, id: nat)
    requires Step(c, s, a) == Some(next) && id in next.hist.accepted && id !in s.hist.accepted
    ensures Delivers(a, id)
  {
    match a
    case Tick(_) =>
    case DispatcherAct(d, move) =>
      if !move.BeginDispatch? {
        DispatcherFrames(c, s, d, move, next);
      }
    case WorkerAct(w, step) =>
      if !step.Deliver? {
        WorkerFrames(c, s, w, step, next);
      }
    case PublisherAct(pub) => AcceptedByPublisher(s, pub, next, id);
    case OperatorAct(_, _) =>
    case MailAct(_) =>
  }

  lemma AcceptedByPublisher(s: State, pub: PublisherAction, next: State, id: nat)
    requires PublisherStep(s, pub) == Some(next) && id in next.hist.accepted && id !in s.hist.accepted
    ensures Delivers(PublisherAct(pub), id)
  {
  }

  /** At least once: a row is marked published only in a run in which the broker accepted its message or its
      batch was seen completed. */
  lemma PublishedMeansDelivered(c: Config, now: int, acts: seq<Action>, s: State, id: nat)
    requires Exec(c, Init(now), acts) == Some(s) && id < |s.outbox| && s.outbox[id].publishedAt.Some?
    ensures exists i :: 0 <= i < |acts| && Delivers(acts[i], id)
  {
    InitSafe(c, now);
    ExecSafe(c, Init(now), acts, s);
    AcceptedWasDelivered(c, Init(now), acts, s, id);
  }
}
