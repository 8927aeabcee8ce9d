/** The two-branch join: each branch inserts its own row, in its own commit, and then counts the rows. */
module Join {
  datatype Branch = StockA | StockB
  datatype Outcome = Wait | Fire

  /** The completed `branch.*` rows of one run; the unique index allows one per branch. */
  type Rows = set<Branch>

  function CountOutcome(rows: Rows): Outcome {
    if |rows| >= 2 then Fire else Wait
  }

  lemma CountsBothBranches(rows: Rows)
    ensures CountOutcome(rows) == Fire <==> rows == {StockA, StockB}
    ensures CountOutcome(rows) == Fire <==> StockA in rows && StockB in rows
  {
    forall b <- rows ensures b in {StockA, StockB} {
      match b case StockA => case StockB =>
    }
    if rows == {StockA, StockB} {
      assert |rows| == 2;
    } else if StockA !in rows {
      assert rows == {} || rows == {StockB};
    } else {
      assert StockB !in rows && rows == {StockA};
    }
  }

  datatype Successor = CalcDispatch(runId: string)

  /** The branch rows of every run. */
  class PipelineJoinService {
    var rows: map<string, Rows>

    constructor ()
      ensures rows == map[]
    {
      rows := map[];
    }

    function RowsOf(runId: string): Rows
      reads this
    {
      if runId in rows then rows[runId] else {}
    }

    /** Without interference, the second distinct branch fires and so does every later call. */
    method MarkBranchComplete(runId: string, branch: Branch) returns (outcome: Outcome)
      modifies this
      ensures RowsOf(runId) == old(RowsOf(runId)) + {branch}
      ensures forall other :: other != runId ==> RowsOf(other) == old(RowsOf(other))
      ensures outcome == Fire <==> RowsOf(runId) == {StockA, StockB}
    {
      rows := rows[runId := RowsOf(runId) + {branch}];
      outcome := CountOutcome(RowsOf(runId));
      CountsBothBranches(RowsOf(runId));
    }

    /** The competitor branch's successors: the CALC dispatch exactly when the stock branch is done too. */
    method CompetitorSuccessors(runId: string) returns (messages: seq<Successor>)
      modifies this
      ensures RowsOf(runId) == old(RowsOf(runId)) + {StockB}
      ensures forall other :: other != runId ==> RowsOf(other) == old(RowsOf(other))
      ensures messages == if StockA in old(RowsOf(runId)) then [CalcDispatch(runId)] else []
    {
      ghost var before := RowsOf(runId);
      var outcome := MarkBranchComplete(runId, StockB);
      CountsBothBranches(before + {StockB});
      if outcome == Wait {
        return [];
      }
      messages := [CalcDispatch(runId)];
    }
  }

  // ----- any number of interleaved calls for one run -----

  /** A call belongs to the last-batch transaction of its branch. The row it inserts and the answer it counts are in
      their own commits; the dispatch it answers for is staged only if that transaction commits. */
  datatype Phase = Called | Inserted | Answered(outcome: Outcome)

  datatype Call = Call(branch: Branch, phase: Phase)

  datatype Event = RowInserted(branch: Branch) | AnswerGiven(branch: Branch, outcome: Outcome)

  /** `committed`: the branches whose last-batch transaction has committed; `staged`: the CALC dispatches that these
      transactions staged. */
  datatype State = State(rows: Rows, calls: map<nat, Call>, log: seq<Event>, committed: set<Branch>, staged: nat)

  /** A transaction may be rolled back, and its worker may crash, at any time; a replay is a new call. */
  datatype Action =
    | Begin(id: nat, branch: Branch)
    | Insert(id: nat)
    | Count(id: nat)
    | Commit(id: nat)
    | Rollback(id: nat)

  function Step(s: State, a: Action): State {
    match a
    case Begin(id, branch) => if id in s.calls then s else s.(calls := s.calls[id := Call(branch, Called)])
    case Insert(id) =>
      if id in s.calls && s.calls[id].phase.Called?
      then s.(rows := s.rows + {s.calls[id].branch}, calls := s.calls[id := s.calls[id].(phase := Inserted)],
              log := s.log + [RowInserted(s.calls[id].branch)])
      else s
    case Count(id) =>
      if id in s.calls && s.calls[id].phase.Inserted?
      then s.(calls := s.calls[id := s.calls[id].(phase := Answered(CountOutcome(s.rows)))],
              log := s.log + [AnswerGiven(s.calls[id].branch, CountOutcome(s.rows))])
      else s
    case Commit(id) =>
      if id in s.calls && s.calls[id].phase.Answered?
      then s.(calls := s.calls - {id}, committed := s.committed + {s.calls[id].branch},
              staged := if s.calls[id].phase.outcome == Fire then s.staged + 1 else s.staged)
      else s
    case Rollback(id) => s.(calls := s.calls - {id})
  }

  function Exec(s: State, acts: seq<Action>): State
    decreases |acts|
  {
    if acts == [] then s else Exec(Step(s, acts[0]), acts[1..])
  }

  const INIT := State({}, map[], [], {}, 0)

  predicate Waited(s: State, b: Branch) {
    AnswerGiven(b, Wait) in s.log
  }

  /** Both branch rows were inserted before the k-th event. */
  predicate BothBefore(log: seq<Event>, k: nat)
    requires k <= |log|
  {
    RowInserted(StockA) in log[..k] && RowInserted(StockB) in log[..k]
  }

  ghost predicate LogOk(s: State) {
    && (forall b :: b in s.rows <==> RowInserted(b) in s.log)
    && (forall k :: 0 <= k < |s.log| && s.log[k].AnswerGiven? ==> (s.log[k].outcome == Fire <==> BothBefore(s.log, k)))
  }

  /** Whoever was told to wait counted before the other branch's row was there, so only one branch can be; and what
      was committed without staging was told to wait. */
  ghost predicate WaitsOk(s: State) {
    && (forall id <- s.calls :: !s.calls[id].phase.Called? ==> s.calls[id].branch in s.rows)
    && (forall id <- s.calls :: s.calls[id].phase == Answered(Wait) ==> Waited(s, s.calls[id].branch))
    && (forall id <- s.calls :: s.calls[id].phase == Answered(Fire) ==> StockA in s.rows && StockB in s.rows)
    && (forall b :: Waited(s, b) ==> b in s.rows)
    && !(Waited(s, StockA) && Waited(s, StockB))
    && (s.staged == 0 ==> forall b <- s.committed :: Waited(s, b))
    && (s.staged > 0 ==> StockA in s.rows && StockB in s.rows)
  }

  ghost predicate Valid(s: State) {
    LogOk(s) && WaitsOk(s)
  }

  lemma LogGrows(s: State, e: Event, rows: Rows)
    requires LogOk(s)
    requires rows == if e.RowInserted? then s.rows + {e.branch} else s.rows
    requires e.AnswerGiven? ==> (e.outcome == Fire <==> StockA in s.rows && StockB in s.rows)
    ensures LogOk(s.(log := s.log + [e], rows := rows))
  {
    var log := s.log + [e];
    forall k | 0 <= k < |log| && log[k].AnswerGiven? ensures log[k].outcome == Fire <==> BothBefore(log, k) {
      assert log[..k] == s.log[..k];
      assert s.log[..|s.log|] == s.log;
    }
  }

  lemma InsertKeepsWaits(s: State, id: nat)
    requires Valid(s) && id in s.calls && s.calls[id].phase.Called?
    ensures WaitsOk(Step(s, Insert(id)))
  {
    var next := Step(s, Insert(id));
    assert forall b :: Waited(next, b) <==> Waited(s, b);
  }

  /** A call told to wait sees no row of the other branch, so nobody of that branch was told to wait before. */
  lemma CountKeepsWaits(s: State, id: nat)
    requires Valid(s) && id in s.calls && s.calls[id].phase.Inserted?
    ensures WaitsOk(Step(s, Count(id)))
  {
    CountsBothBranches(s.rows);
    var next, branch := Step(s, Count(id)), s.calls[id].branch;
    assert next.log == s.log + [AnswerGiven(branch, CountOutcome(s.rows))];
    assert forall b :: Waited(next, b) <==> Waited(s, b) || (b == branch && CountOutcome(s.rows) == Wait);
  }

  lemma CommitKeepsWaits(s: State, id: nat)
    requires Valid(s) && id in s.calls && s.calls[id].phase.Answered?
    ensures WaitsOk(Step(s, Commit(id)))
  {
    var next := Step(s, Commit(id));
    assert forall b :: Waited(next, b) <==> Waited(s, b);
  }

  lemma StepValid(s: State, a: Action)
    requires Valid(s)
    ensures Valid(Step(s, a))
  {
    if a.Insert? && a.id in s.calls && s.calls[a.id].phase.Called? {
      LogGrows(s, RowInserted(s.calls[a.id].branch), Step(s, a).rows);
      InsertKeepsWaits(s, a.id);
    } else if a.Count? && a.id in s.calls && s.calls[a.id].phase.Inserted? {
      CountsBothBranches(s.rows);
      LogGrows(s, AnswerGiven(s.calls[a.id].branch, CountOutcome(s.rows)), s.rows);
      CountKeepsWaits(s, a.id);
    } else if a.Commit? && a.id in s.calls && s.calls[a.id].phase.Answered? {
      CommitKeepsWaits(s, a.id);
    } else {
      assert Step(s, a).log == s.log && Step(s, a).rows == s.rows;
    }
  }

  lemma {:induction false} ExecValid(s: State, acts: seq<Action>)
    requires Valid(s)
    ensures Valid(Exec(s, acts))
    decreases |acts|
  {
    if acts != [] {
      StepValid(s, acts[0]);
      ExecValid(Step(s, acts[0]), acts[1..]);
    }
  }

  /** No lost wake-up, over every interleaving with crashes, rollbacks and replays: at most one of the two branches is
      ever told to wait, so once both branches' last-batch transactions committed a CALC dispatch is staged; and
      one is staged only when both rows exist. */
  lemma NoLostWakeUp(acts: seq<Action>)
    ensures
      var s := Exec(INIT, acts);
      && !(Waited(s, StockA) && Waited(s, StockB))
      && (StockA in s.committed && StockB in s.committed ==> s.staged > 0)
      && (s.staged > 0 ==> StockA in s.rows && StockB in s.rows)
  {
    ExecValid(INIT, acts);
  }

  /** A call fires exactly when both branches' inserts came before its count; so two calls both fire exactly when both
      inserts came before the first of their counts. */
  lemma FiresExactly(acts: seq<Action>, j: nat, k: nat)
    requires j <= k < |Exec(INIT, acts).log|
    requires Exec(INIT, acts).log[j].AnswerGiven? && Exec(INIT, acts).log[k].AnswerGiven?
    ensures
      var log := Exec(INIT, acts).log;
      && (log[j].outcome == Fire <==> BothBefore(log, j))
      && (log[j].outcome == Fire && log[k].outcome == Fire <==> BothBefore(log, j))
  {
    ExecValid(INIT, acts);
    var log := Exec(INIT, acts).log;
    assert LogOk(Exec(INIT, acts));
    assert log[..j] == log[..k][..j];
    if BothBefore(log, j) {
      assert forall e :: e in log[..j] ==> e in log[..k];
    }
  }

  lemma {:induction false} Then(s: State, acts: seq<Action>, a: Action)
    ensures Exec(s, acts + [a]) == Step(Exec(s, acts), a)
    decreases |acts|
  {
    if acts == [] {
      assert acts + [a] == [a];
    } else {
      Then(Step(s, acts[0]), acts[1..], a);
      assert (acts + [a])[1..] == acts[1..] + [a];
    }
  }

  lemma BothInserted() returns (acts: seq<Action>)
    ensures Exec(INIT, acts) == State({StockA, StockB}, map[0 := Call(StockA, Inserted), 1 := Call(StockB, Inserted)],
                                      [RowInserted(StockA), RowInserted(StockB)], {}, 0)
  {
    Then(INIT, [], Begin(0, StockA));
    Then(INIT, [Begin(0, StockA)], Begin(1, StockB));
    Then(INIT, [Begin(0, StockA), Begin(1, StockB)], Insert(0));
    Then(INIT, [Begin(0, StockA), Begin(1, StockB), Insert(0)], Insert(1));
    acts := [Begin(0, StockA), Begin(1, StockB), Insert(0), Insert(1)];
    assert [Begin(0, StockA)] + [Begin(1, StockB)] == [Begin(0, StockA), Begin(1, StockB)];
  }

  /** The join may fire for both branches: the CALC step has to tolerate a second dispatch. */
  lemma BothMayFire()
    ensures exists acts :: Exec(INIT, acts).staged == 2 && Exec(INIT, acts).committed == {StockA, StockB}
  {
    var acts := BothInserted();
    CountsBothBranches({StockA, StockB});
    Then(INIT, acts, Count(0));
    Then(INIT, acts + [Count(0)], Count(1));
    var counted := acts + [Count(0)] + [Count(1)];
    assert Exec(INIT, counted).calls == map[0 := Call(StockA, Answered(Fire)), 1 := Call(StockB, Answered(Fire))];
    Then(INIT, counted, Commit(0));
    Then(INIT, counted + [Commit(0)], Commit(1));
    var s := Exec(INIT, counted + [Commit(0)] + [Commit(1)]);
    assert s.staged == 2 && s.committed == {StockA, StockB};
  }
}
