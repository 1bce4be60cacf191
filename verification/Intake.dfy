/**
 * Concurrent intake with one idempotency key (IntakeService._intake in
 * backend/src/api/requests/service.py): any number of callers, every interleaving of their
 * transactions, every crash.
 */
module Intake {
  import opened Results

  /**
   * How far a caller is: it has yet to look, found nothing, holds its uncommitted row, ran into the
   * unique index, has committed, has its answer, or is gone.  `Lost` is one that died between its
   * commit and its answer, `Reraised` the error after a re-read in vain.
   */
  datatype Caller =
    | Starting
    | Missed
    | Inserted(row: nat)
    | Collided
    | Committed(row: nat)
    | Returned(row: nat, created: bool)
    | Reraised
    | Crashed
    | Lost(row: nat)

  /**
   * The committed rows with the key, the CREATED history rows and the automation messages (each named
   * by its row), the caller whose insert holds the index entry, and the number sequence.
   */
  datatype Store = Store(
    rows: seq<nat>,
    history: seq<nat>,
    messages: seq<nat>,
    holder: Option<nat>,
    nextNumber: nat,
    callers: seq<Caller>)

  datatype Step =
    | Look(i: nat)
    | Insert(i: nat)
    | LookAgain(i: nat)
    | Commit(i: nat)
    | Answer(i: nat)
    | Crash(i: nat)

  ghost predicate Enabled(s: Store, step: Step) {
    && step.i < |s.callers|
    && match step
       case Look(i) => s.callers[i] == Starting
       case Insert(i) => s.callers[i] == Missed && s.holder.None?
       case LookAgain(i) => s.callers[i] == Collided
       case Commit(i) => s.callers[i].Inserted?
       case Answer(i) => s.callers[i].Committed?
       case Crash(i) =>
         s.callers[i] in {Starting, Missed, Collided} || s.callers[i].Inserted? || s.callers[i].Committed?
  }

  /** One step of one caller.  An insert waits for the holder of the index entry; it then collides if
      the holder has committed, and holds the entry itself if not. */
  ghost function After(s: Store, automation: bool, step: Step): Store
    requires Enabled(s, step)
  {
    var i := step.i;
    match step
    case Look(_) =>
      s.(callers := s.callers[i := if s.rows == [] then Missed else Returned(s.rows[0], false)])
    case Insert(_) =>
      if s.rows == [] then
        s.(callers := s.callers[i := Inserted(s.nextNumber)], holder := Some(i), nextNumber := s.nextNumber + 1)
      else
        s.(callers := s.callers[i := Collided], nextNumber := s.nextNumber + 1)
    case LookAgain(_) =>
      s.(callers := s.callers[i := if s.rows == [] then Reraised else Returned(s.rows[0], false)])
    case Commit(_) =>
      var row := s.callers[i].row;
      s.(rows := s.rows + [row],
         history := s.history + [row],
         messages := if automation then s.messages + [row] else s.messages,
         holder := None,
         callers := s.callers[i := Committed(row)])
    case Answer(_) =>
      s.(callers := s.callers[i := Returned(s.callers[i].row, true)])
    case Crash(_) =>
      s.(callers := s.callers[i := if s.callers[i].Committed? then Lost(s.callers[i].row) else Crashed],
         holder := if s.callers[i].Inserted? then None else s.holder)
  }

  ghost function Initial(n: nat): Store {
    Store([], [], [], None, 0, seq(n, _ => Starting))
  }

  ghost predicate IsRun(s: Store, automation: bool, steps: seq<Step>)
    decreases |steps|
  {
    steps != [] ==> Enabled(s, steps[0]) && IsRun(After(s, automation, steps[0]), automation, steps[1..])
  }

  ghost function Run(s: Store, automation: bool, steps: seq<Step>): Store
    requires IsRun(s, automation, steps)
    decreases |steps|
  {
    if steps == [] then s else Run(After(s, automation, steps[0]), automation, steps[1..])
  }

  /** The caller that saw `created`. */
  ghost predicate IsCreator(s: Store, i: nat) {
    i < |s.callers| && s.callers[i].Returned? && s.callers[i].created
  }

  /** The caller that has committed the row. */
  ghost predicate IsCommitter(s: Store, i: nat) {
    i < |s.callers| && (s.callers[i].Committed? || s.callers[i].Lost? || IsCreator(s, i))
  }

  ghost predicate Inv(s: Store, automation: bool) {
    && |s.rows| <= 1
    && s.history == s.rows && s.messages == (if automation then s.rows else [])
    && (s.holder.Some? ==> s.rows == [])
    && (forall i: nat :: i < |s.callers| ==>
          && (s.callers[i].Inserted? <==> s.holder == Some(i))
          && (s.callers[i].Returned? || s.callers[i].Committed? || s.callers[i].Lost? ==> s.rows == [s.callers[i].row])
          && (s.callers[i] == Collided ==> s.rows != [])
          && s.callers[i] != Reraised)
    && (s.rows != [] ==> exists i :: IsCommitter(s, i))
    && (forall i, j :: IsCommitter(s, i) && IsCommitter(s, j) ==> i == j)
  }

  lemma StepKeeps(s: Store, automation: bool, step: Step)
    requires Inv(s, automation) && Enabled(s, step)
    ensures Inv(After(s, automation, step), automation)
  {
    var after := After(s, automation, step);
    if step.Commit? {
      assert s.holder == Some(step.i) && s.rows == [];
      forall j: nat ensures !IsCommitter(s, j) && (IsCommitter(after, j) <==> j == step.i) {
        assert IsCommitter(s, j) ==> |s.rows| == 1;
      }
      assert IsCommitter(after, step.i);
    } else {
      forall j: nat ensures IsCommitter(after, j) <==> IsCommitter(s, j) {
      }
      if s.rows != [] {
        var committer :| IsCommitter(s, committer);
        assert IsCommitter(after, committer);
      }
    }
  }

  lemma {:induction false} RunKeeps(s: Store, automation: bool, steps: seq<Step>)
    requires Inv(s, automation) && IsRun(s, automation, steps)
    ensures Inv(Run(s, automation, steps), automation)
    decreases |steps|
  {
    if steps != [] {
      StepKeeps(s, automation, steps[0]);
      RunKeeps(After(s, automation, steps[0]), automation, steps[1..]);
    }
  }

  /**
   * Intake is idempotent.  However many callers use one key, however their steps interleave and
   * wherever they crash, there is at most one row, with one CREATED history row and at most one
   * automation message; every caller that returns gets that row; at most one sees `created`; and no
   * caller fails after its re-read.
   */
  lemma IntakeIsIdempotent(n: nat, automation: bool, steps: seq<Step>)
    requires IsRun(Initial(n), automation, steps)
    ensures var s := Run(Initial(n), automation, steps);
            && |s.rows| <= 1 && s.history == s.rows && s.messages == (if automation then s.rows else [])
            && (forall i :: 0 <= i < |s.callers| && s.callers[i].Returned? ==> s.rows == [s.callers[i].row])
            && (forall i :: 0 <= i < |s.callers| ==> s.callers[i] != Reraised)
            && (forall i, j :: IsCreator(s, i) && IsCreator(s, j) ==> i == j)
  {
    RunKeeps(Initial(n), automation, steps);
    var s := Run(Initial(n), automation, steps);
    forall i: nat, j: nat | IsCreator(s, i) && IsCreator(s, j) ensures i == j {
      assert IsCommitter(s, i) && IsCommitter(s, j);
    }
  }

  /** Once there is a row, exactly one caller has committed it, and somebody has seen `created` exactly
      if that caller has neither died before its answer nor still has it to give. */
  lemma CreatedIsSeen(n: nat, automation: bool, steps: seq<Step>)
    requires IsRun(Initial(n), automation, steps) && Run(Initial(n), automation, steps).rows != []
    ensures var s := Run(Initial(n), automation, steps);
            && (exists i :: IsCommitter(s, i))
            && (forall i, j :: IsCommitter(s, i) && IsCommitter(s, j) ==> i == j)
            && ((exists i :: IsCreator(s, i))
                <==> forall i: nat :: i < |s.callers| ==> !s.callers[i].Lost? && !s.callers[i].Committed?)
  {
    RunKeeps(Initial(n), automation, steps);
    var s := Run(Initial(n), automation, steps);
    var committer: nat :| IsCommitter(s, committer);
    forall i: nat | IsCreator(s, i) ensures IsCreator(s, committer) {
      assert IsCommitter(s, i);
    }
    forall i: nat | i < |s.callers| && (s.callers[i].Lost? || s.callers[i].Committed?)
      ensures !IsCreator(s, committer)
    {
      assert IsCommitter(s, i);
    }
    assert IsCreator(s, committer) || s.callers[committer].Lost? || s.callers[committer].Committed?;
  }

  lemma StepFirst(s: Store, automation: bool, step: Step, rest: seq<Step>)
    requires Enabled(s, step) && IsRun(After(s, automation, step), automation, rest)
    ensures IsRun(s, automation, [step] + rest)
    ensures Run(s, automation, [step] + rest) == Run(After(s, automation, step), automation, rest)
  {
    assert ([step] + rest)[1..] == rest;
  }

  /** It can happen that nobody sees `created`: one caller dies between its commit and its answer, and
      the next one gets the row as an old one. */
  lemma NobodySeesCreated(automation: bool) returns (steps: seq<Step>)
    ensures IsRun(Initial(2), automation, steps)
    ensures Run(Initial(2), automation, steps).callers == [Lost(0), Returned(0, false)]
  {
    var s0 := Initial(2);
    var s1 := After(s0, automation, Look(0));
    var s2 := After(s1, automation, Insert(0));
    var s3 := After(s2, automation, Commit(0));
    var s4 := After(s3, automation, Crash(0));
    StepFirst(s4, automation, Look(1), []);
    StepFirst(s3, automation, Crash(0), [Look(1)]);
    StepFirst(s2, automation, Commit(0), [Crash(0)] + [Look(1)]);
    StepFirst(s1, automation, Insert(0), [Commit(0)] + ([Crash(0)] + [Look(1)]));
    StepFirst(s0, automation, Look(0), [Insert(0)] + ([Commit(0)] + ([Crash(0)] + [Look(1)])));
    steps := [Look(0)] + ([Insert(0)] + ([Commit(0)] + ([Crash(0)] + [Look(1)])));
  }
}
