/** What an anchor holds after any run of merges, told from the deltas alone: nls/agentic/compactor.py. */
module MergeRuns {
  import opened Anchor

  /** The deltas of a run, each with the iteration it was merged at. */
  type Run = seq<(Delta, nat)>

  // ----- Goal, next steps and iteration -----

  /** Delta `n` is the first that names a goal. */
  predicate NamesFirstGoal(run: Run, n: int) {
    0 <= n < |run| && run[n].0.goal != "" && forall k :: 0 <= k < n ==> run[k].0.goal == ""
  }

  /** A goal, once set, stays; it is the first that any delta names. */
  lemma {:induction false} GoalOfRun(a: Summary, run: Run)
    ensures a.goal != "" ==> MergedAll(a, run).goal == a.goal
    ensures a.goal == "" ==> forall n :: NamesFirstGoal(run, n) ==> MergedAll(a, run).goal == run[n].0.goal
    ensures a.goal == "" && (forall n :: 0 <= n < |run| ==> run[n].0.goal == "") ==> MergedAll(a, run).goal == ""
    decreases |run|
  {
    if run != [] {
      hide AppendNew, Without;
      var b := Merged(a, run[0].0, run[0].1);
      GoalOfRun(b, run[1..]);
      forall n | a.goal == "" && NamesFirstGoal(run, n) ensures MergedAll(a, run).goal == run[n].0.goal {
        if n > 0 {
          assert run[0].0.goal == "";
          assert forall k :: 0 <= k < n - 1 ==> run[1..][k] == run[k + 1];
          assert NamesFirstGoal(run[1..], n - 1);
        }
      }
    }
  }

  /** Delta `n` is the last with next steps. */
  predicate NamesLastSteps(run: Run, n: int) {
    0 <= n < |run| && run[n].0.nextSteps != [] && forall k :: n < k < |run| ==> 0 <= k && run[k].0.nextSteps == []
  }

  /** Next steps are those of the last delta that has any; the tools are never touched. */
  lemma {:induction false} StepsOfRun(a: Summary, run: Run)
    ensures forall n :: NamesLastSteps(run, n) ==> MergedAll(a, run).nextSteps == run[n].0.nextSteps
    ensures (forall n :: 0 <= n < |run| ==> run[n].0.nextSteps == []) ==> MergedAll(a, run).nextSteps == a.nextSteps
    ensures MergedAll(a, run).availableTools == a.availableTools
    decreases |run|
  {
    if run != [] {
      hide AppendNew, Without;
      var b, rest := Merged(a, run[0].0, run[0].1), run[1..];
      StepsOfRun(b, rest);
      forall n | NamesLastSteps(run, n) ensures MergedAll(a, run).nextSteps == run[n].0.nextSteps {
        if n > 0 {
          assert rest[n - 1] == run[n];
          assert NamesLastSteps(rest, n - 1);
        }
      }
    }
  }

  lemma {:induction false} IterationOfRun(a: Summary, run: Run)
    ensures MergedAll(a, run).iterationAt == if run == [] then a.iterationAt else run[|run| - 1].1
    decreases |run|
  {
    if run != [] {
      hide AppendNew, Without;
      IterationOfRun(Merged(a, run[0].0, run[0].1), run[1..]);
    }
  }

  // ----- Lists that only grow -----

  datatype ListName = Done | Decisions | FilesRead | FilesModified | CommunicationsSent | SupersededAttempts
    | OpenBlockers

  function ListOf(a: Summary, name: ListName): seq<string> {
    match name
    case Done => a.progressDone
    case Decisions => a.decisions
    case FilesRead => a.filesRead
    case FilesModified => a.filesModified
    case CommunicationsSent => a.communicationsSent
    case SupersededAttempts => a.supersededAttempts
    case OpenBlockers => a.openBlockers
  }

  function NewIn(d: Delta, name: ListName): seq<string> {
    match name
    case Done => d.progressDone
    case Decisions => d.decisions
    case FilesRead => d.filesRead
    case FilesModified => d.filesModified
    case CommunicationsSent => d.communicationsSent
    case SupersededAttempts => d.supersededAttempts
    case OpenBlockers => d.openBlockers
  }

  /** Some delta of the run adds the item to the list. */
  predicate AddedIn(run: Run, name: ListName, x: string) {
    exists n :: 0 <= n < |run| && x in NewIn(run[n].0, name)
  }

  lemma AddedFirst(run: Run, name: ListName, x: string)
    requires run != []
    ensures AddedIn(run, name, x) <==> x in NewIn(run[0].0, name) || AddedIn(run[1..], name, x)
  {
    hide NewIn;
    var rest := run[1..];
    assert forall n :: 0 <= n < |rest| ==> rest[n] == run[n + 1];
    if n :| 0 <= n < |run| && x in NewIn(run[n].0, name) {
      assert n > 0 ==> rest[n - 1] == run[n];
    }
  }

  lemma MergedList(a: Summary, d: Delta, i: nat, name: ListName, x: string)
    ensures x in ListOf(Merged(a, d, i), name) <==> x in ListOf(a, name) || x in NewIn(d, name)
  {
    AppendNewMember(ListOf(a, name), NewIn(d, name), [], x);
    hide AppendNew, Without;
  }

  /** After any run a list holds exactly what it held before and what some delta adds to it. */
  lemma {:induction false} ListOfRun(a: Summary, run: Run, name: ListName, x: string)
    ensures x in ListOf(MergedAll(a, run), name) <==> x in ListOf(a, name) || AddedIn(run, name, x)
    decreases |run|
  {
    if run != [] {
      hide Merged, ListOf, NewIn, AddedIn;
      MergedList(a, run[0].0, run[0].1, name, x);
      ListOfRun(Merged(a, run[0].0, run[0].1), run[1..], name, x);
      AddedFirst(run, name, x);
    } else {
      hide ListOf;
    }
  }

  /** In a grown list the new items stand in the order of their first mention. */
  lemma {:induction false} NewInOrder(list: seq<string>, items: seq<string>, banned: seq<string>, i: nat, j: nat)
    returns (p: nat, q: nat)
    requires |list| <= i < j < |AppendNew(list, items, banned)|
    ensures p < q < |items| && items[p] == AppendNew(list, items, banned)[i]
              && items[q] == AppendNew(list, items, banned)[j]
    decreases |items|
  {
    var x, rest := items[0], items[1..];
    if x in list || x in banned || i > |list| {
      var next := if x in list || x in banned then list else list + [x];
      var m, n := NewInOrder(next, rest, banned, i, j);
      p, q := m + 1, n + 1;
    } else {
      var r := AppendNew(list + [x], rest, banned);
      AppendNewExtends(list + [x], rest, banned);
      assert r[i] == (list + [x])[i] == x;
      var n := NewComesFrom(list + [x], rest, banned, j);
      p, q := 0, n + 1;
    }
  }

  lemma {:induction false} NewComesFrom(list: seq<string>, items: seq<string>, banned: seq<string>, j: nat)
    returns (q: nat)
    requires |list| <= j < |AppendNew(list, items, banned)|
    ensures q < |items| && items[q] == AppendNew(list, items, banned)[j]
    decreases |items|
  {
    var x, rest := items[0], items[1..];
    var next := if x in list || x in banned then list else list + [x];
    if j < |next| {
      AppendNewExtends(next, rest, banned);
      assert AppendNew(next, rest, banned)[j] == next[j];
      q := 0;
    } else {
      var n := NewComesFrom(next, rest, banned, j);
      q := n + 1;
    }
  }

  // ----- Pending work -----

  predicate PendingIn(run: Run, x: string) {
    exists n :: 0 <= n < |run| && x in run[n].0.progressPending
  }

  /** Still pending by the anchor the run starts from, or by a delta of it, and never done. */
  predicate StillPending(a: Summary, run: Run, x: string) {
    !AddedIn(run, Done, x) && (x in a.progressPending || (PendingIn(run, x) && x !in a.progressDone))
  }

  lemma PendingFirst(run: Run, x: string)
    requires run != []
    ensures PendingIn(run, x) <==> x in run[0].0.progressPending || PendingIn(run[1..], x)
  {
    var rest := run[1..];
    assert forall n :: 0 <= n < |rest| ==> rest[n] == run[n + 1];
    if n :| 0 <= n < |run| && x in run[n].0.progressPending {
      assert n > 0 ==> rest[n - 1] == run[n];
    }
  }

  lemma MergedPending(a: Summary, d: Delta, i: nat, x: string)
    ensures x in Merged(a, d, i).progressPending <==>
              x !in d.progressDone && (x in a.progressPending || (x in d.progressPending && x !in a.progressDone))
  {
    var done := AppendNew(a.progressDone, d.progressDone, []);
    AppendNewMember(a.progressDone, d.progressDone, [], x);
    WithoutMember(a.progressPending, d.progressDone, x);
    AppendNewMember(Without(a.progressPending, d.progressDone), d.progressPending, done, x);
    hide AppendNew, Without;
  }

  /** After any run an item is pending exactly if it was mentioned as such and is not done. */
  lemma {:induction false} PendingOfRun(a: Summary, run: Run, x: string)
    ensures x in MergedAll(a, run).progressPending <==> StillPending(a, run, x)
    decreases |run|
  {
    if run != [] {
      var d, i := run[0].0, run[0].1;
      MergedPending(a, d, i, x);
      MergedList(a, d, i, Done, x);
      hide Merged, AddedIn, PendingIn;
      PendingOfRun(Merged(a, d, i), run[1..], x);
      AddedFirst(run, Done, x);
      PendingFirst(run, x);
    }
  }
}
