/** Crash safety of the blob protocol over every run. */
module BlobRuns {
  import opened Blobs

  // ----- Each step keeps the invariant -------------------------------------

  /** The facts about one task beside another, as steps use them. */
  lemma TwoTasks(s: State, t: int, u: int)
    requires TasksHold(s) && t in s.tasks && u in s.tasks
    ensures TaskHolds(s, t, s.tasks[t]) && TaskHolds(s, u, s.tasks[u])
    ensures t != u ==> Disjoint(s.tasks[t], s.tasks[u]) && Disjoint(s.tasks[u], s.tasks[t])
  {
  }

  lemma StartSaveKeeps(s: State, step: Step)
    requires Consistent(s) && Admissible(s, step) && step.StartSave?
    ensures Consistent(Apply(s, step))
  {
    var n := Apply(s, step);
    forall u | u in n.tasks ensures TaskHolds(n, u, n.tasks[u]) {
      if u != step.task { assert TaskHolds(s, u, s.tasks[u]); }
    }
    forall u | u in n.tasks && u != step.task
      ensures Disjoint(n.tasks[u], n.tasks[step.task]) && Disjoint(n.tasks[step.task], n.tasks[u])
    {
      assert TaskHolds(s, u, s.tasks[u]);
    }
  }

  lemma FinishWriteKeeps(s: State, step: Step)
    requires Consistent(s) && Admissible(s, step) && step.FinishWrite?
    ensures Consistent(Apply(s, step))
  {
    var n := Apply(s, step);
    forall u | u in n.tasks ensures TaskHolds(n, u, n.tasks[u]) { TwoTasks(s, step.task, u); }
    forall u, v | u in n.tasks && v in n.tasks && u != v ensures Disjoint(n.tasks[u], n.tasks[v]) { TwoTasks(s, u, v); }
  }

  lemma FailWriteKeeps(s: State, step: Step)
    requires Consistent(s) && Admissible(s, step) && step.FailWrite?
    ensures Consistent(Apply(s, step))
  {
    var n := Apply(s, step);
    forall u | u in n.tasks ensures TaskHolds(n, u, n.tasks[u]) { TwoTasks(s, step.task, u); }
    forall u, v | u in n.tasks && v in n.tasks && u != v ensures Disjoint(n.tasks[u], n.tasks[v]) { TwoTasks(s, u, v); }
  }

  lemma LockKeeps(s: State, step: Step)
    requires Consistent(s) && Admissible(s, step) && (step.LockSave? || step.LockDelete? || step.LockRead?)
    ensures Consistent(Apply(s, step))
  {
    var n := Apply(s, step);
    forall u | u in n.tasks ensures TaskHolds(n, u, n.tasks[u]) {
      if u in s.tasks { assert TaskHolds(s, u, s.tasks[u]); }
    }
    forall u, v | u in n.tasks && v in n.tasks && u != v ensures Disjoint(n.tasks[u], n.tasks[v]) {
      if u in s.tasks && v in s.tasks { TwoTasks(s, u, v); }
    }
  }

  lemma CommitSaveKeeps(s: State, t: int, now: int)
    requires Consistent(s) && t in s.tasks && s.tasks[t].Saving?
    ensures Consistent(CommitSave(s, t, now))
  {
    var n := CommitSave(s, t, now);
    assert TaskHolds(s, t, s.tasks[t]);
    forall u | u in n.tasks ensures TaskHolds(n, u, n.tasks[u]) { TwoTasks(s, t, u); }
    forall u, v | u in n.tasks && v in n.tasks && u != v ensures Disjoint(n.tasks[u], n.tasks[v]) { TwoTasks(s, u, v); }
  }

  lemma CommitDeleteKeeps(s: State, t: int)
    requires Consistent(s) && t in s.tasks && s.tasks[t].Deleting?
    ensures Consistent(CommitDelete(s, t))
  {
    var n := CommitDelete(s, t);
    assert TaskHolds(s, t, s.tasks[t]);
    forall u | u in n.tasks ensures TaskHolds(n, u, n.tasks[u]) { TwoTasks(s, t, u); }
    forall u, v | u in n.tasks && v in n.tasks && u != v ensures Disjoint(n.tasks[u], n.tasks[v]) { TwoTasks(s, u, v); }
  }

  lemma FailCommitKeeps(s: State, step: Step)
    requires Consistent(s) && Admissible(s, step) && step.FailCommit?
    ensures Consistent(Apply(s, step))
  {
    var n := Apply(s, step);
    assert TaskHolds(s, step.task, s.tasks[step.task]);
    forall u | u in n.tasks ensures TaskHolds(n, u, n.tasks[u]) { TwoTasks(s, step.task, u); }
    forall u, v | u in n.tasks && v in n.tasks && u != v ensures Disjoint(n.tasks[u], n.tasks[v]) { TwoTasks(s, u, v); }
  }

  lemma UnlinkKeeps(s: State, step: Step)
    requires Consistent(s) && Admissible(s, step) && step.Unlink?
    ensures Consistent(Apply(s, step))
  {
    var n := Apply(s, step);
    assert TaskHolds(s, step.task, s.tasks[step.task]);
    forall u | u in n.tasks ensures TaskHolds(n, u, n.tasks[u]) { TwoTasks(s, step.task, u); }
    forall u, v | u in n.tasks && v in n.tasks && u != v ensures Disjoint(n.tasks[u], n.tasks[v]) { TwoTasks(s, u, v); }
  }

  lemma ReadKeeps(s: State, step: Step)
    requires Consistent(s) && Admissible(s, step) && (step.Select? || step.Load?)
    ensures Consistent(Apply(s, step))
  {
    var n := Apply(s, step);
    forall u | u in n.tasks ensures TaskHolds(n, u, n.tasks[u]) { TwoTasks(s, step.task, u); }
    forall u, v | u in n.tasks && v in n.tasks && u != v ensures Disjoint(n.tasks[u], n.tasks[v]) { TwoTasks(s, u, v); }
  }

  lemma DetachKeeps(s: State, t: int, rest: Task)
    requires Consistent(s) && t in s.tasks
    requires rest == (match s.tasks[t]
                      case Writing(key, blob, content, _) => Writing(key, blob, content, true)
                      case Saving(key, blob, content, _) => Saving(key, blob, content, true)
                      case Deleting(key, _) => Deleting(key, true)
                      case Cleaning(stale, _) => Cleaning(stale, true)
                      case other => rest)
    requires s.tasks[t].Writing? || s.tasks[t].Saving? || s.tasks[t].Deleting? || s.tasks[t].Cleaning?
    ensures Consistent(Detach(s, t, rest))
  {
    var n := Detach(s, t, rest);
    forall u | u in n.tasks ensures TaskHolds(n, u, n.tasks[u]) { TwoTasks(s, t, u); }
    forall u, v | u in n.tasks && v in n.tasks && u != v ensures Disjoint(n.tasks[u], n.tasks[v]) { TwoTasks(s, u, v); }
  }

  lemma EndKeeps(s: State, t: int)
    requires Consistent(s) && t in s.tasks
    ensures Consistent(End(s, t))
  {
    var n := End(s, t);
    forall u | u in n.tasks ensures TaskHolds(n, u, n.tasks[u]) { TwoTasks(s, t, u); }
    forall u, v | u in n.tasks && v in n.tasks && u != v ensures Disjoint(n.tasks[u], n.tasks[v]) { TwoTasks(s, u, v); }
  }

  lemma CancelKeeps(s: State, t: int)
    requires Consistent(s) && t in s.tasks
    ensures Consistent(Apply(s, Cancel(t)))
  {
    hide Consistent, Detach, End;
    match s.tasks[t]
    case Writing(key, blob, content, _) => DetachKeeps(s, t, Writing(key, blob, content, true));
    case Saving(key, blob, content, _) => DetachKeeps(s, t, Saving(key, blob, content, true));
    case Deleting(key, _) => DetachKeeps(s, t, Deleting(key, true));
    case Cleaning(stale, _) => DetachKeeps(s, t, Cleaning(stale, true));
    case _ => EndKeeps(s, t);
  }

  lemma RecoverKeeps(s: State, step: Step)
    requires Consistent(s) && Admissible(s, step) && (step.Sweep? || step.Recover? || step.Crash?)
    ensures Consistent(Apply(s, step))
  {
  }

  /** Every step of the protocol, its failures and crashes keep the invariant. */
  lemma StepKeeps(s: State, step: Step)
    requires Consistent(s) && Admissible(s, step)
    ensures Consistent(Apply(s, step))
  {
    hide Consistent, CommitSave, CommitDelete;
    match step
    case StartSave(_, _, _, _) => StartSaveKeeps(s, step);
    case FinishWrite(_) => FinishWriteKeeps(s, step);
    case FailWrite(_, _) => FailWriteKeeps(s, step);
    case LockSave(_) => LockKeeps(s, step);
    case LockDelete(_, _) => LockKeeps(s, step);
    case LockRead(_, _) => LockKeeps(s, step);
    case Commit(t, now) => if s.tasks[t].Saving? { CommitSaveKeeps(s, t, now); } else { CommitDeleteKeeps(s, t); }
    case FailCommit(_) => FailCommitKeeps(s, step);
    case Unlink(_, _) => UnlinkKeeps(s, step);
    case Select(_) => ReadKeeps(s, step);
    case Load(_) => ReadKeeps(s, step);
    case Cancel(t) => CancelKeeps(s, t);
    case Crash => RecoverKeeps(s, step);
    case Sweep(_) => RecoverKeeps(s, step);
    case Recover => RecoverKeeps(s, step);
  }

  // ----- Runs --------------------------------------------------------------

  predicate Runs(s: State, steps: seq<Step>)
    decreases |steps|
  {
    steps == [] || (Admissible(s, steps[0]) && Runs(Apply(s, steps[0]), steps[1..]))
  }

  function After(s: State, steps: seq<Step>): State
    requires Runs(s, steps)
    decreases |steps|
  {
    if steps == [] then s else After(Apply(s, steps[0]), steps[1..])
  }

  lemma {:induction false} RunKeeps(s: State, steps: seq<Step>)
    requires Consistent(s) && Runs(s, steps)
    ensures Consistent(After(s, steps))
    decreases |steps|
  {
    hide Consistent, Apply, Admissible;
    if steps != [] {
      StepKeeps(s, steps[0]);
      RunKeeps(Apply(s, steps[0]), steps[1..]);
    }
  }

  /** In every reachable state each committed row names an existing blob of the
      right size and checksum, no two rows share one, and a media read that has
      chosen its row finds exactly the bytes the row describes. */
  lemma ReachableSafe(steps: seq<Step>)
    requires Runs(EMPTY, steps)
    ensures var s := After(EMPTY, steps);
            && (forall k :: k in s.rows ==> Found(s, s.rows[k]))
            && (forall k, l :: k in s.rows && l in s.rows && k != l ==> s.rows[k].blob != s.rows[l].blob)
            && (forall t :: t in s.tasks && s.tasks[t].Loading? ==> Found(s, s.tasks[t].row))
  {
    RunKeeps(EMPTY, steps);
    var s := After(EMPTY, steps);
    hide Runs, After;
    forall t | t in s.tasks && s.tasks[t].Loading? ensures Found(s, s.tasks[t].row) {
      assert TaskHolds(s, t, s.tasks[t]);
    }
  }

  /** After a crash anywhere, or a recovery cut off while removing files, recovery
      is accepted, keeps every row and leaves exactly the referenced blobs. */
  lemma RecoveryAccepts(steps: seq<Step>)
    requires Runs(EMPTY, steps)
    ensures var crashed := Apply(After(EMPTY, steps), Crash);
            && NothingMissing(crashed)
            && var s := Apply(crashed, Recover);
               s.rows == crashed.rows && s.files.Keys == Referenced(crashed) && s.temporary == {}
               && forall k :: k in s.rows ==> Found(s, s.rows[k])
  {
    RunKeeps(EMPTY, steps);
    StepKeeps(After(EMPTY, steps), Crash);
    var crashed := Apply(After(EMPTY, steps), Crash);
    hide Runs, After;
    forall k | k in crashed.rows
      ensures crashed.rows[k].blob in crashed.files
    {
      assert Found(crashed, crashed.rows[k]);
    }
    var s := Apply(crashed, Recover);
    forall k | k in s.rows ensures Found(s, s.rows[k]) { assert Found(crashed, crashed.rows[k]); }
    assert s.files.Keys == Referenced(crashed);
  }

  // ----- Generations -------------------------------------------------------

  /** Over any step an object that stays keeps its creation time, and any new
      version of it, or of any object, has a higher generation than all before. */
  predicate Advances(before: State, after: State) {
    && before.counter <= after.counter
    && forall k :: k in after.rows ==>
         (k in before.rows && after.rows[k] == before.rows[k])
         || (before.counter < after.rows[k].generation <= after.counter
             && (k in before.rows ==> after.rows[k].created == before.rows[k].created))
  }

  lemma StepAdvances(s: State, step: Step)
    requires Admissible(s, step)
    ensures Advances(s, Apply(s, step))
  {
  }

  /** An object present at every state of a run. */
  predicate Stays(s: State, steps: seq<Step>, k: Key)
    requires Runs(s, steps)
    decreases |steps|
  {
    k in s.rows && (steps != [] ==> Stays(Apply(s, steps[0]), steps[1..], k))
  }

  /** Over a run in which an object stays, its creation time survives and its
      generation grows with every version. */
  lemma {:induction false} GenerationsGrow(s: State, steps: seq<Step>, k: Key)
    requires Consistent(s) && Runs(s, steps) && Stays(s, steps, k)
    ensures var after := After(s, steps);
            && k in after.rows && after.rows[k].created == s.rows[k].created
            && (after.rows[k] == s.rows[k] || after.rows[k].generation > s.counter >= s.rows[k].generation)
            && s.counter <= after.counter
    decreases |steps|
  {
    if steps != [] {
      StepAdvances(s, steps[0]);
      StepKeeps(s, steps[0]);
      hide Apply, TasksHold, Admissible;
      GenerationsGrow(Apply(s, steps[0]), steps[1..], k);
    }
  }
}
