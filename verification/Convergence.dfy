/** The work in flight always drains, and from every state of a serving process the service gets everything back in
    step, as soon as calls do not fail. */
module Convergence {
  import opened Peers
  import opened World
  import opened Machine
  import opened Progress
  import Invariant
  import SystemProof
  import Guarantees
  import Manager
  import Alone
  import Passes

  // ---- the steps that all threads have left ----

  /** What the threads have left together; one more for each, which it needs to end. */
  ghost function Load(w: World, threads: map<Tid, Thread>): nat {
    if threads == map[] then 0
    else
      var tid := Someone(threads);
      Left(w, threads[tid]) + 1 + Load(w, threads - {tid})
  }

  ghost function Someone(threads: map<Tid, Thread>): (tid: Tid)
    requires threads != map[]
    ensures tid in threads
  {
    var tid :| tid in threads;
    tid
  }

  lemma {:induction false} LoadTake(w: World, threads: map<Tid, Thread>, tid: Tid)
    requires tid in threads
    ensures Load(w, threads) == Left(w, threads[tid]) + 1 + Load(w, threads - {tid})
    decreases |threads|
  {
    var first := Someone(threads);
    if first != tid {
      assert (threads - {first}).Keys == threads.Keys - {first} && (threads - {tid}).Keys == threads.Keys - {tid};
      LoadTake(w, threads - {first}, tid);
      LoadTake(w, threads - {tid}, first);
      assert threads - {first} - {tid} == threads - {tid} - {first};
    }
  }

  /** Threads may end or come nearer to their end. */
  lemma {:induction false} LoadFalls(w: World, threads: map<Tid, Thread>, w': World, threads': map<Tid, Thread>)
    requires threads'.Keys <= threads.Keys
    requires forall tid :: tid in threads' ==> Left(w', threads'[tid]) <= Left(w, threads[tid])
    ensures Load(w', threads') <= Load(w, threads)
    decreases |threads|
  {
    if threads != map[] {
      var tid :| tid in threads;
      assert (threads - {tid}).Keys == threads.Keys - {tid};
      LoadTake(w, threads, tid);
      if tid in threads' {
        LoadTake(w', threads', tid);
        LoadFalls(w, threads - {tid}, w', threads' - {tid});
      } else {
        LoadFalls(w, threads - {tid}, w', threads');
      }
    }
  }

  lemma OwnLowers(s: State, tid: Tid, out: Outcome, s': State)
    requires Enabled(s, Run(tid, out)) && Ordinary(s.threads[tid]) && s' == Exec(s, Run(tid, out))
    ensures s'.phase == s.phase && s'.threads - {tid} == s.threads - {tid}
    ensures tid in s'.threads ==> Left(s'.w, s'.threads[tid]) < Left(s.w, s.threads[tid])
  {
    OwnStep(s.w, s.threads[tid], out);
  }

  /** A step of a thread lowers the load. */
  lemma OthersLower(s: State, tid: Tid, out: Outcome, s': State, u: Tid)
    requires Invariant.Mutex(s) && Recovery !in s.threads && Enabled(s, Run(tid, out)) && s' == Exec(s, Run(tid, out))
    requires u in s.threads && u in s'.threads && u != tid
    ensures Left(s'.w, s.threads[u]) <= Left(s.w, s.threads[u])
  {
    OthersKeep(s, Run(tid, out), u);
  }

  lemma RunLowers(s: State, tid: Tid, out: Outcome, s': State)
    requires Invariant.Mutex(s) && Recovery !in s.threads && AllOrdinary(s) && Enabled(s, Run(tid, out))
    requires s' == Exec(s, Run(tid, out))
    ensures Load(s'.w, s'.threads) < Load(s.w, s.threads) && s'.phase == s.phase
  {
    OwnLowers(s, tid, out, s');
    var others := s.threads - {tid};
    forall u | u in others ensures Left(s'.w, others[u]) <= Left(s.w, others[u]) {
      assert u in s'.threads - {tid};
      OthersLower(s, tid, out, s', u);
    }
    LoadTake(s.w, s.threads, tid);
    LoadFalls(s.w, others, s'.w, others);
    if tid in s'.threads {
      LoadTake(s'.w, s'.threads, tid);
    } else {
      assert s'.threads == others;
    }
  }

  // ---- draining ----

  /** As long as nothing new starts, the threads in flight take no more steps than they have left, whatever fails and
      in whatever order they act. With NoDeadlock, all of them end. */
  lemma Drains(states: seq<State>, steps: seq<Step>, i: nat, j: nat)
    requires IsRun(states, steps) && Leftover(states[0]) && i <= j < |states| && states[i].phase == Serving
    requires forall k :: i <= k < j ==> steps[k].Run?
    ensures states[j].phase == Serving
    ensures j - i + Load(states[j].w, states[j].threads) <= Load(states[i].w, states[i].threads)
  {
    forall k | i <= k < j && states[k].phase == Serving ensures Lowers(states, k) {
      StepLowers(states, steps, k);
    }
    LoadsFall(states, i, j);
  }

  ghost predicate Lowers(states: seq<State>, k: nat)
    requires k + 1 < |states|
  {
    && states[k + 1].phase == Serving
    && Load(states[k + 1].w, states[k + 1].threads) < Load(states[k].w, states[k].threads)
  }

  lemma {:induction false} LoadsFall(states: seq<State>, i: nat, j: nat)
    requires i <= j < |states| && states[i].phase == Serving
    requires forall k :: i <= k < j && states[k].phase == Serving ==> Lowers(states, k)
    ensures states[j].phase == Serving
    ensures j - i + Load(states[j].w, states[j].threads) <= Load(states[i].w, states[i].threads)
    decreases j
  {
    if i < j {
      LoadsFall(states, i, j - 1);
      assert Lowers(states, j - 1);
    }
  }

  lemma StepLowers(states: seq<State>, steps: seq<Step>, k: nat)
    requires IsRun(states, steps) && Leftover(states[0]) && k < |steps| && states[k].phase == Serving && steps[k].Run?
    ensures Lowers(states, k)
  {
    RunOrdinary(states, steps, k);
    Linked(states, steps, k);
    RunLowers(states[k], steps[k].tid, steps[k].out, states[k + 1]);
  }

  /** A run in which no call fails and nothing starts but passes of the reconciler. */
  ghost predicate CleanRun(states: seq<State>, steps: seq<Step>, s: State, s': State) {
    && IsRun(states, steps) && states[0] == s && states[|steps|] == s'
    && forall i :: 0 <= i < |steps| ==> Clean(steps[i])
  }

  predicate Clean(step: Step) {
    (step.Run? && step.out == Succeed) || step.StartReconcile?
  }

  predicate ThreadsOnly(steps: seq<Step>) {
    forall i :: 0 <= i < |steps| ==> steps[i].Run?
  }

  lemma CleanStep(s: State, step: Step)
    requires Enabled(s, step) && Clean(step)
    ensures CleanRun([s, Exec(s, step)], [step], s, Exec(s, step))
  {
  }

  lemma CleanJoin(states: seq<State>, steps: seq<Step>, more: seq<State>, moreSteps: seq<Step>,
                  a: State, b: State, c: State)
    requires CleanRun(states, steps, a, b) && CleanRun(more, moreSteps, b, c)
    ensures CleanRun(states + more[1..], steps + moreSteps, a, c)
  {
    var all, allSteps := states + more[1..], steps + moreSteps;
    forall i | 0 <= i < |allSteps|
      ensures Enabled(all[i], allSteps[i]) && all[i + 1] == Exec(all[i], allSteps[i]) && Clean(allSteps[i])
    {
      if i < |steps| {
        assert all[i] == states[i] && allSteps[i] == steps[i] && all[i + 1] == states[i + 1];
      } else {
        var k := i - |steps|;
        assert all[i] == more[k] && allSteps[i] == moreSteps[k] && all[i + 1] == more[k + 1];
      }
    }
  }

  ghost predicate Sound(s: State) {
    Invariant.Inv(s) && AllOrdinary(s) && s.phase == Serving
  }

  lemma SoundStep(s: State, step: Step)
    requires Sound(s) && Enabled(s, step)
    ensures Invariant.Inv(Exec(s, step)) && AllOrdinary(Exec(s, step))
  {
    SystemProof.StepKept(s, step);
    StaysOrdinary(s, step);
  }

  /** Some thread acts. */
  lemma SomeStep(s: State) returns (step: Step, s': State)
    requires Sound(s) && s.threads != map[]
    ensures step.Run? && Clean(step) && Enabled(s, step) && s' == Exec(s, step)
    ensures Sound(s') && Load(s'.w, s'.threads) < Load(s.w, s.threads)
  {
    var first :| first in s.threads;
    var tid := Guarantees.NoDeadlock(s, first);
    step := Run(tid, Succeed);
    assert Invariant.ThreadInv(s, tid, s.threads[tid]);
    s' := Exec(s, step);
    SoundStep(s, step);
    RunLowers(s, tid, Succeed, s');
  }

  /** Without new work and failed calls, everything in flight ends. */
  lemma {:induction false} DrainRun(s: State) returns (states: seq<State>, steps: seq<Step>, end: State)
    requires Sound(s)
    ensures CleanRun(states, steps, s, end) && ThreadsOnly(steps) && Sound(end) && end.threads == map[]
    decreases Load(s.w, s.threads)
  {
    if s.threads == map[] {
      states, steps, end := [s], [], s;
    } else {
      var step, s' := SomeStep(s);
      var rest, restSteps;
      rest, restSteps, end := DrainRun(s');
      CleanStep(s, step);
      CleanJoin([s, s'], [step], rest, restSteps, s, s', end);
      states, steps := [s, s'] + rest[1..], [step] + restSteps;
    }
  }

  // ---- convergence ----

  lemma {:induction false} NoFaults(steps: seq<Step>, i: nat)
    requires i <= |steps| && forall k :: 0 <= k < |steps| ==> Clean(steps[k])
    ensures Alone.Faults(steps, i) == 0
  {
    if i > 0 { NoFaults(steps, i - 1); }
  }

  /** One pass of the reconciler, alone. */
  lemma PassRuns(s: State) returns (states: seq<State>, steps: seq<Step>, end: State)
    requires Sound(s) && s.threads == map[]
    ensures CleanRun(states, steps, s, end) && Sound(end) && end.threads == map[]
    ensures BirdSettled(end.w) && (forall n :: Settled(end.w, n)) && Manager.AllQuiet(end.w)
    ensures Manager.AllQuiet(s.w) ==> end.w.outbox == map[]
  {
    var begun := Exec(s, StartReconcile);
    SoundStep(s, StartReconcile);
    CleanStep(s, StartReconcile);
    var rest, restSteps;
    rest, restSteps, end := DrainRun(begun);
    NoFaults(restSteps, |restSteps|);
    Passes.PassAlone(rest, restSteps, |restSteps|);
    CleanJoin([s, begun], [StartReconcile], rest, restSteps, s, begun, end);
    states, steps := [s, begun] + rest[1..], [StartReconcile] + restSteps;
  }

  /** From every state of a serving process, whatever went wrong before, the work in flight and two passes of the
      reconciler without failed calls empty the outbox and leave the outside as the table asks for. */
  lemma Converges(states: seq<State>, steps: seq<Step>, i: nat)
    returns (more: seq<State>, moreSteps: seq<Step>, end: State)
    requires IsRun(states, steps) && Leftover(states[0]) && i < |states| && states[i].phase == Serving
    ensures CleanRun(more, moreSteps, states[i], end) && end.phase == Serving && end.threads == map[]
    ensures end.w.outbox == map[] && Guarantees.Converged(end.w) && Guarantees.PlainlyConverged(end.w)
  {
    RunOrdinary(states, steps, i);
    var s := states[i];
    var run1, steps1, drained := DrainRun(s);
    var run2, steps2, quiet := PassRuns(drained);
    var run3, steps3;
    run3, steps3, end := PassRuns(quiet);
    CleanJoin(run1, steps1, run2, steps2, s, drained, quiet);
    CleanJoin(run1 + run2[1..], steps1 + steps2, run3, steps3, s, quiet, end);
    more, moreSteps := run1 + run2[1..] + run3[1..], steps1 + steps2 + steps3;
    Guarantees.AllSettled(end.w);
    Guarantees.ConvergedPlainly(end.w);
  }
}
