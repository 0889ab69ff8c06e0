/** The machine of interrupts and the machine of kernel objects side by side: what happens to the kernel objects while
    interrupts come at any time is a scheduled run of the kernel objects. */
module JointMachine {
  import opened Ids
  import opened Sched
  import P = Preemption
  import K = Kernel
  import KS = KernelSafety
  import KT = KernelTheorems
  import Schedule = KernelSchedule
  import Phact = PhactCeiling
  import Inherit = SchedPrioInherit

  /** A step of the first machine, and with it a step of the second or none. */
  datatype Step =
    | Silent(a: P.Action)
    | Carried(a: P.Action, call: K.Action)

  /** The action ends a kernel section: the task gives the processor up or enables preemption again. */
  predicate EndsSection(p: P.State, a: P.Action) {
    p.pc.Kernel? && (a.BlockOn? || a.Yield? || a.PreemptEnable?)
  }

  /** A signal delivered by the event handler or the timer loop is an event for the kernel objects, the tick is counted
      in the scheduling loop, and a whole kernel section of the current task carries out one call of that task, or one
      resuming of its wait, or none. */
  ghost predicate JointStep(p: P.State, k: K.State, step: Step, p': P.State, k': K.State) {
    && P.Steps(p, step.a, p')
    && match step
       case Silent(a) => k' == k && !a.Deliver? && (EndsSection(p, a) ==> p'.sched == k.sched)
       case Carried(a, call) =>
         && K.Steps(k, call, k')
         && if a.Deliver? then call.Event? && call.to == a.task
            else if EndsSection(p, a) then KT.Actor(call) == p.current && k'.sched == p'.sched
            else a.Go? && call.Tick?
  }

  ghost predicate IsJointRun(ps: seq<P.State>, ks: seq<K.State>, steps: seq<Step>) {
    && |ps| == |ks| == |steps| + 1
    && P.Init(ps[0]) && K.Init(ks[0]) && ps[0].sched == ks[0].sched
    && forall i: nat {:trigger steps[i]} | i < |steps| :: JointStep(ps[i], ks[i], steps[i], ps[i + 1], ks[i + 1])
  }

  // ----- The kernel objects see a scheduled run ------------------------------------------------------------------

  /** Outside kernel sections both machines have the same scheduler state; inside one, the scheduler state at its start
      picks the current task. */
  ghost predicate Coupled(p: P.State, k: K.State) {
    && P.Inv(p) && K.Ok(k) && |k.pc| == |p.saved|
    && if p.pc.Kernel? then k.sched.Next() == Inherit.Chosen(p.current) else k.sched == p.sched
  }

  lemma StartsCoupled(p: P.State, k: K.State)
    requires P.Init(p) && K.Init(k) && p.sched == k.sched
    ensures Coupled(p, k)
  {
    p.sched.StartPicksTaskZero();
  }

  /** Within a kernel section only the task's own actions and interrupts happen, and the current task stays. */
  lemma InsideSection(p: P.State, a: P.Action)
    requires P.Inv(p) && P.Enabled(p, a) && p.pc.Kernel?
    ensures var p' := P.Do(p, a);
            && p'.current == p.current && |p'.saved| == |p.saved| && !a.Go? && !a.Deliver?
            && (p'.pc.Kernel? <==> !EndsSection(p, a))
  {
    hide Sched.Ok, Sched.Next;
  }

  /** Between kernel sections only delivered signals change the scheduler state. */
  lemma OutsideSection(p: P.State, a: P.Action)
    requires P.Inv(p) && P.Enabled(p, a) && !p.pc.Kernel?
    ensures var p' := P.Do(p, a);
            |p'.saved| == |p.saved|
            && p'.sched == if a.Deliver? then p.sched.SetRunnable(a.task) else p.sched
    ensures P.Do(p, a).pc.Kernel? ==> p.sched.Next() == Inherit.Chosen(P.Do(p, a).current) && !a.Deliver?
  {
    hide Sched.Ok, Sched.Next, Sched.SetRunnable;
    if P.Do(p, a).pc.Kernel? { P.EntersScheduled(p, a); }
  }

  /** A step keeps the machines coupled, and what it carries out is a step of the scheduled task or of no task. */
  lemma JointStepIsScheduled(p: P.State, k: K.State, step: Step, p': P.State, k': K.State)
    requires Coupled(p, k) && JointStep(p, k, step, p', k')
    ensures Coupled(p', k')
    ensures step.Carried? ==> Schedule.ByScheduled(k, step.call)
  {
    P.StepKeepsInv(p, step.a);
    if step.Carried? { KT.StepFrame(k, step.call); }
    hide P.Inv, P.Enabled, P.Do, K.Enabled, K.Do, K.Ok, Sched.Ok, Sched.Next;
    CoupledParts(p, k, step, k');
    if p.pc.Kernel? { InsideSection(p, step.a); } else { OutsideSection(p, step.a); }
  }

  /** The steps of the kernel objects that no kernel section makes. */
  lemma CoupledParts(p: P.State, k: K.State, step: Step, k': K.State)
    requires Coupled(p, k) && (step.Carried? ==> K.Steps(k, step.call, k')) && (step.Silent? ==> k' == k)
    ensures K.Ok(k') && |k'.pc| == |k.pc|
    ensures step.Carried? && step.call.Event? ==> k'.sched == k.sched.SetRunnable(step.call.to)
    ensures step.Carried? && step.call.Tick? ==> k'.sched == k.sched
  {
    if step.Carried? {
      hide Sched.Ok, Sched.Next, Sched.SetRunnable;
      KT.StepFrame(k, step.call);
    }
  }

  /** The steps of the kernel objects among those of a joint run. */
  function Calls(steps: seq<Step>): seq<K.Action> {
    if steps == [] then []
    else Calls(steps[..|steps| - 1])
         + if steps[|steps| - 1].Carried? then [steps[|steps| - 1].call] else []
  }

  lemma RunStep(ps: seq<P.State>, ks: seq<K.State>, steps: seq<Step>, i: nat)
    requires IsJointRun(ps, ks, steps) && i < |steps|
    ensures JointStep(ps[i], ks[i], steps[i], ps[i + 1], ks[i + 1])
  {
  }

  lemma RunStart(ps: seq<P.State>, ks: seq<K.State>, steps: seq<Step>)
    requires IsJointRun(ps, ks, steps)
    ensures |ps| == |ks| == |steps| + 1 && K.Init(ks[0]) && Coupled(ps[0], ks[0])
  {
    StartsCoupled(ps[0], ks[0]);
  }

  lemma ReachedAlong(k: K.State, actions: seq<K.Action>, call: K.Action, k': K.State)
    requires Schedule.ReachedBy(k, actions) && K.Ok(k) && K.Steps(k, call, k') && Schedule.ByScheduled(k, call)
    ensures Schedule.ReachedBy(k', actions + [call])
  {
    var r := Schedule.ReachedNext(k, actions, call);
  }

  /** Whatever interrupts come and whenever, what happens to the kernel objects is a run whose every step is made by the
      scheduled task or by no task. */
  lemma {:induction false} JointRunIsScheduled(ps: seq<P.State>, ks: seq<K.State>, steps: seq<Step>, n: nat)
    requires IsJointRun(ps, ks, steps) && n <= |steps|
    ensures |ps| == |ks| == |steps| + 1
    ensures Coupled(ps[n], ks[n]) && Schedule.ReachedBy(ks[n], Calls(steps[..n]))
  {
    hide IsJointRun, Coupled, K.Init, Schedule.ReachedBy, Schedule.ByScheduled, K.Steps, P.Steps;
    RunStart(ps, ks, steps);
    if n == 0 {
      Schedule.ReachedFirst(ks[0]);
      assert Calls(steps[..0]) == [];
    } else {
      JointRunIsScheduled(ps, ks, steps, n - 1);
      RunStep(ps, ks, steps, n - 1);
      JointStepIsScheduled(ps[n - 1], ks[n - 1], steps[n - 1], ps[n], ks[n]);
      assert steps[..n][..n - 1] == steps[..n - 1];
      assert Calls(steps[..n]) == Calls(steps[..n - 1]) + if steps[n - 1].Carried? then [steps[n - 1].call] else [];
      if steps[n - 1].Carried? {
        CoupledOk(ps[n - 1], ks[n - 1]);
        ReachedAlong(ks[n - 1], Calls(steps[..n - 1]), steps[n - 1].call, ks[n]);
      } else {
        assert Calls(steps[..n]) == Calls(steps[..n - 1]);
      }
    }
  }

  lemma CoupledOk(p: P.State, k: K.State)
    requires Coupled(p, k)
    ensures K.Ok(k)
  {
  }

  // ----- What follows under interrupts ---------------------------------------------------------------------------

  /** Kochab under interrupts: whenever interrupts and preemption are both enabled, the current task is reached from
      some task along tasks each of which waits for a mutex that the next one holds right now, and every task of higher
      priority is stuck behind a task that waits for no mutex. */
  lemma RunningTaskInherits(ps: seq<P.State>, ks: seq<K.State>, steps: seq<Step>, n: nat)
    requires IsJointRun(ps, ks, steps) && n <= |steps| && n < |ps| && n < |ks|
    requires ps[n].irqEnabled && !ps[n].preemptDisabled && ks[n].sched.Kochab?
    ensures K.Ok(ks[n])
    ensures var k, c := ks[n], ps[n].current;
            && c < |k.pc| && k.sched.Runnable(c)
            && exists top: nat, m: nat :: top < |k.pc| && Schedule.HolderChain(k, top, c, m)
                 && forall t: nat | t < top :: Inherit.Ends(k.sched.blockedOn, t, TASK_ID_NONE)
  {
    JointRunIsScheduled(ps, ks, steps, n);
    assert ks[n].sched == ps[n].sched && ks[n].sched.Next() == Inherit.Chosen(ps[n].current);
    var actions := Calls(steps[..n]);
    var states :| Schedule.IsScheduledRun(states, actions) && states[|actions|] == ks[n];
    hide K.IsRun, Schedule.HolderChain;
    Schedule.ScheduledInherits(states, actions, |actions|, ps[n].current);
  }

  /** What a step carries out keeps the ceiling discipline. */
  ghost predicate KeepsDiscipline(k: K.State, step: Step) {
    step.Carried? ==> K.Ok(k) && k.sched.Phact? && Phact.Disciplined(k, step.call)
  }

  lemma {:induction false} JointRunKeepsCeilings(ps: seq<P.State>, ks: seq<K.State>, steps: seq<Step>, n: nat)
    requires IsJointRun(ps, ks, steps) && n <= |steps| && |ks| == |steps| + 1 && ks[0].sched.Phact?
    requires forall i: nat | i < n :: KeepsDiscipline(ks[i], steps[i])
    ensures Phact.CeilingInv(ks[n])
  {
    hide IsJointRun, Coupled, K.Init, KeepsDiscipline, Schedule.ReachedBy, Phact.CeilingInv;
    RunStart(ps, ks, steps);
    if n == 0 {
      Phact.StartsAbove(ks[0]);
    } else {
      JointRunKeepsCeilings(ps, ks, steps, n - 1);
      JointRunIsScheduled(ps, ks, steps, n - 1);
      RunStep(ps, ks, steps, n - 1);
      JointStepIsScheduled(ps[n - 1], ks[n - 1], steps[n - 1], ps[n], ks[n]);
      CarriedKeepsCeilings(ks[n - 1], steps[n - 1], ps[n - 1], ps[n], ks[n]);
    }
  }

  lemma CarriedKeepsCeilings(k: K.State, step: Step, p: P.State, p': P.State, k': K.State)
    requires JointStep(p, k, step, p', k') && Phact.CeilingInv(k) && KeepsDiscipline(k, step)
    requires step.Carried? ==> K.Ok(k) && Schedule.ByScheduled(k, step.call)
    ensures Phact.CeilingInv(k')
  {
    hide Phact.CeilingInv, P.Steps, Schedule.ByScheduled, Phact.Disciplined, K.Enabled, K.Do;
    if step.Carried? { Phact.StepKeepsCeiling(k, step.call); }
  }

  /** Phact under interrupts: if tasks keep the ceiling discipline, no task ever waits for a mutex. */
  lemma NoContentionUnderInterrupts(ps: seq<P.State>, ks: seq<K.State>, steps: seq<Step>, n: nat, t: nat, m: nat)
    requires IsJointRun(ps, ks, steps) && n <= |steps| && |ks| == |steps| + 1 && ks[0].sched.Phact?
    requires forall i: nat | i < n :: KeepsDiscipline(ks[i], steps[i])
    ensures !KT.WaitsForMutex(ks[n], t, m)
  {
    JointRunKeepsCeilings(ps, ks, steps, n);
  }
}
