/** The single-flight compatibility probe of the dense retrieval adapter. */
module Probe {
  import opened Options

  type TaskId = nat
  type CallerId = nat

  // ---------------------------------------------------------------- the adapter's own fields

  datatype Adapter = Adapter(closed: bool, compatible: bool, probeTask: Option<TaskId>)

  datatype Entry = Refused | AlreadyCompatible | Await(task: TaskId, isNew: bool)

  datatype Outcome = Success | ProviderFailure | TaskCancelled

  /** First lock section of `_ensure_compatible`; `newTask` names the task that would be created. */
  function Enter(a: Adapter, newTask: TaskId): (Adapter, Entry) {
    if a.closed then (a, Refused)
    else if a.compatible then (a, AlreadyCompatible)
    else if a.probeTask.Some? then (a, Await(a.probeTask.value, false))
    else (a.(probeTask := Some(newTask)), Await(newTask, true))
  }

  /** Second lock section, after the awaited task has ended: it acts only on its own task. */
  function Settle(a: Adapter, task: TaskId, outcome: Outcome): Adapter {
    if a.probeTask != Some(task) then a
    else a.(probeTask := None, compatible := a.compatible || outcome == Success)
  }

  function Close(a: Adapter): Adapter {
    if a.closed then a else Adapter(true, false, None)
  }

  class ChromaAdapter {
    var closed: bool
    var compatible: bool
    var probeTask: Option<TaskId>

    ghost function State(): Adapter
      reads this
    {
      Adapter(closed, compatible, probeTask)
    }

    constructor ()
      ensures State() == Adapter(false, false, None)
    {
      closed, compatible, probeTask := false, false, None;
    }

    method EnterSection(newTask: TaskId) returns (entry: Entry)
      modifies this
      ensures (State(), entry) == Enter(old(State()), newTask)
      ensures closed == old(closed) && compatible == old(compatible)
      ensures
        if closed then entry == Refused && probeTask == old(probeTask)
        else if compatible then entry == AlreadyCompatible && probeTask == old(probeTask)
        else if old(probeTask).Some? then entry == Await(old(probeTask).value, false) && probeTask == old(probeTask)
        else entry == Await(newTask, true) && probeTask == Some(newTask)
    {
      if closed {
        return Refused;
      }
      if compatible {
        return AlreadyCompatible;
      }
      var task := probeTask;
      if task.None? {
        task := Some(newTask);
        probeTask := task;
        return Await(newTask, true);
      }
      entry := Await(task.value, false);
    }

    method SettleSection(task: TaskId, outcome: Outcome)
      modifies this
      ensures State() == Settle(old(State()), task, outcome)
      ensures closed == old(closed)
      ensures probeTask == if old(probeTask) == Some(task) then None else old(probeTask)
      ensures compatible <==> old(compatible) || (old(probeTask) == Some(task) && outcome == Success)
    {
      if probeTask == Some(task) {
        probeTask := None;
        if outcome == Success {
          compatible := true;
        }
      }
    }

    /** Returns the task to cancel. */
    method CloseSection() returns (task: Option<TaskId>)
      modifies this
      ensures State() == Close(old(State()))
      ensures closed && (!old(closed) ==> !compatible && probeTask.None?)
      ensures task == if old(closed) then None else old(probeTask)
    {
      if closed {
        return None;
      }
      closed := true;
      compatible := false;
      task := probeTask;
      probeTask := None;
    }
  }

  // ---------------------------------------------------------------- callers and probes, interleaved

  datatype TaskState = Running | CancelRequested | Ended(outcome: Outcome)

  datatype CallerState = Waiting(task: TaskId) | Observed(task: TaskId, outcome: Outcome) | ReturnedCompatible | Raised

  datatype System = System(adapter: Adapter, tasks: map<TaskId, TaskState>, callers: map<CallerId, CallerState>)

  /** A caller enters; a task ends; a waiter wakes; it settles; a waiter is cancelled; the adapter is closed. */
  datatype Event =
    | CallerEnters(caller: CallerId, newTask: TaskId)
    | TaskEnds(task: TaskId, outcome: Outcome)
    | WaiterWakes(caller: CallerId)
    | WaiterSettles(caller: CallerId)
    | CallerCancelled(caller: CallerId)
    | AdapterCloses

  const START := System(Adapter(false, false, None), map[], map[])

  predicate Alive(s: System, t: TaskId) {
    t in s.tasks && !s.tasks[t].Ended?
  }

  predicate Succeeded(s: System, t: TaskId) {
    t in s.tasks && s.tasks[t] == Ended(Success)
  }

  predicate Enabled(s: System, e: Event) {
    match e
    case CallerEnters(caller, newTask) => caller !in s.callers && newTask !in s.tasks
    case TaskEnds(task, outcome) => Alive(s, task)
    case WaiterWakes(caller) =>
      caller in s.callers && s.callers[caller].Waiting? && s.callers[caller].task in s.tasks
        && s.tasks[s.callers[caller].task].Ended?
    case WaiterSettles(caller) => caller in s.callers && s.callers[caller].Observed?
    case CallerCancelled(caller) => caller in s.callers && (s.callers[caller].Waiting? || s.callers[caller].Observed?)
    case AdapterCloses => true
  }

  function Apply(s: System, e: Event): System
    requires Enabled(s, e)
  {
    match e
    case CallerEnters(caller, newTask) =>
      var (adapter, entry) := Enter(s.adapter, newTask);
      (match entry
       case Refused => System(adapter, s.tasks, s.callers[caller := Raised])
       case AlreadyCompatible => System(adapter, s.tasks, s.callers[caller := ReturnedCompatible])
       case Await(task, isNew) =>
         System(adapter, if isNew then s.tasks[task := Running] else s.tasks, s.callers[caller := Waiting(task)]))
    case TaskEnds(task, outcome) => s.(tasks := s.tasks[task := Ended(outcome)])
    case WaiterWakes(caller) =>
      var task := s.callers[caller].task;
      s.(callers := s.callers[caller := Observed(task, s.tasks[task].outcome)])
    case WaiterSettles(caller) =>
      var Observed(task, outcome) := s.callers[caller];
      System(Settle(s.adapter, task, outcome), s.tasks,
             s.callers[caller := if outcome == Success then ReturnedCompatible else Raised])
    case CallerCancelled(caller) => s.(callers := s.callers[caller := Raised])
    case AdapterCloses =>
      var task := s.adapter.probeTask;
      System(Close(s.adapter),
             if !s.adapter.closed && task.Some? && Alive(s, task.value) then
               s.tasks[task.value := CancelRequested] else s.tasks,
             s.callers)
  }

  /** Exactly when each step may happen: only a caller that waits or has woken can be cancelled, anybody may close. */
  lemma {:induction false} WhatAStepNeeds(s: System, e: Event)
    ensures Enabled(s, e) <==>
      match e
      case CallerEnters(c, t) => c !in s.callers && t !in s.tasks
      case TaskEnds(t, outcome) => t in s.tasks && (s.tasks[t] == Running || s.tasks[t] == CancelRequested)
      case WaiterWakes(c) =>
        c in s.callers && s.callers[c].Waiting? && s.callers[c].task in s.tasks && s.tasks[s.callers[c].task].Ended?
      case WaiterSettles(c) => c in s.callers && s.callers[c].Observed?
      case CallerCancelled(c) => c in s.callers && s.callers[c] != ReturnedCompatible && s.callers[c] != Raised
      case AdapterCloses => true
  {
  }

  predicate Legal(s: System, events: seq<Event>)
    decreases |events|, 0
  {
    events == [] || (Legal(s, events[..|events| - 1])
      && Enabled(After(s, events[..|events| - 1]), events[|events| - 1]))
  }

  function After(s: System, events: seq<Event>): System
    requires Legal(s, events)
    decreases |events|, 1
  {
    if events == [] then s else Apply(After(s, events[..|events| - 1]), events[|events| - 1])
  }

  // ---------------------------------------------------------------- the invariant

  ghost predicate Inv(s: System) {
    && (s.adapter.closed ==> !s.adapter.compatible && s.adapter.probeTask.None?)
    && (s.adapter.probeTask.Some? ==> s.adapter.probeTask.value in s.tasks && !s.adapter.compatible)
    && (s.adapter.compatible ==> exists t :: Succeeded(s, t))
    && (forall t :: t in s.tasks && s.tasks[t].Running? ==> s.adapter.probeTask == Some(t))
    && (forall t :: t in s.tasks && s.tasks[t].CancelRequested? ==> s.adapter.closed)
    && (forall t, u :: Alive(s, t) && Alive(s, u) ==> t == u)
    && (forall t: TaskId :: Succeeded(s, t) ==>
      s.adapter.closed || s.adapter.compatible || s.adapter.probeTask == Some(t))
    && (forall c :: c in s.callers ==> CallerOk(s, s.callers[c]))
  }

  ghost predicate CallerOk(s: System, c: CallerState) {
    match c
    case Waiting(t) => t in s.tasks
    case Observed(t, outcome) => t in s.tasks && s.tasks[t] == Ended(outcome)
    case ReturnedCompatible => exists t :: Succeeded(s, t)
    case Raised => true
  }

  /** Tasks never disappear and an ended task keeps its outcome. */
  ghost predicate TasksPersist(s: System, s': System) {
    forall t :: t in s.tasks ==> t in s'.tasks && (s.tasks[t].Ended? ==> s'.tasks[t] == s.tasks[t])
  }

  lemma {:induction false} CallersStayOk(s: System, s': System, c: CallerState)
    requires TasksPersist(s, s') && CallerOk(s, c)
    ensures CallerOk(s', c)
  {
    if c.ReturnedCompatible? {
      var t :| Succeeded(s, t);
      assert Succeeded(s', t);
    }
  }

  lemma {:induction false} NothingAlive(s: System)
    requires Inv(s) && !s.adapter.closed && s.adapter.probeTask.None?
    ensures forall t: TaskId :: !Alive(s, t)
  {
    forall t: TaskId
      ensures !Alive(s, t)
    {
      assert t in s.tasks ==> !s.tasks[t].Running? && !s.tasks[t].CancelRequested?;
    }
  }

  lemma {:induction false} StepKeepsInv(s: System, e: Event)
    requires Inv(s) && Enabled(s, e)
    ensures Inv(Apply(s, e)) && TasksPersist(s, Apply(s, e))
  {
    var s' := Apply(s, e);
    assert TasksPersist(s, s');
    assert forall t: TaskId :: Alive(s', t) ==> Alive(s, t) || (e.CallerEnters? && t == e.newTask);
    forall c | c in s.callers
      ensures CallerOk(s', s.callers[c])
    {
      CallersStayOk(s, s', s.callers[c]);
    }
    if s.adapter.compatible {
      var t :| Succeeded(s, t);
      assert Succeeded(s', t);
    }
    match e
    case CallerEnters(caller, newTask) =>
      if s.adapter.compatible {
        assert CallerOk(s', s'.callers[caller]);
      }
      if !s.adapter.closed && !s.adapter.compatible && s.adapter.probeTask.None? {
        NothingAlive(s);
      }
    case WaiterSettles(caller) =>
      assert CallerOk(s, s.callers[caller]);
      if s.callers[caller].outcome == Success {
        assert Succeeded(s', s.callers[caller].task);
      }
    case _ =>
  }

  lemma {:induction false} RunKeepsInv(s: System, events: seq<Event>)
    requires Inv(s) && Legal(s, events)
    ensures Inv(After(s, events)) && TasksPersist(s, After(s, events))
  {
    if events != [] {
      var before := After(s, events[..|events| - 1]);
      RunKeepsInv(s, events[..|events| - 1]);
      StepKeepsInv(before, events[|events| - 1]);
    }
  }

  // ---------------------------------------------------------------- what the design promises

  /** At most one probe is alive, in every state of every run. */
  lemma {:induction false} AtMostOneProbe(events: seq<Event>, t: TaskId, u: TaskId)
    requires Legal(START, events) && Alive(After(START, events), t) && Alive(After(START, events), u)
    ensures t == u
  {
    RunKeepsInv(START, events);
  }

  /** After a probe has succeeded no further probe is ever created, whoever was cancelled. */
  lemma {:induction false} SuccessIsNeverReprobed(s: System, t: TaskId, events: seq<Event>)
    requires Inv(s) && Succeeded(s, t) && Legal(s, events)
    ensures After(s, events).tasks.Keys == s.tasks.Keys
  {
    if events != [] {
      var start := events[..|events| - 1];
      SuccessIsNeverReprobed(s, t, start);
      RunKeepsInv(s, start);
      assert Succeeded(After(s, start), t);
    }
  }

  /** The probe in flight leaves the adapter only by closing it: a late waiter of another probe cannot clear it. */
  lemma {:induction false} RunningProbeIsNotCleared(s: System, e: Event, t: TaskId)
    requires Inv(s) && Enabled(s, e) && s.adapter.probeTask == Some(t) && s.tasks[t] == Running
    ensures Apply(s, e).adapter.probeTask == Some(t) || e == AdapterCloses
  {
    if e.WaiterSettles? {
      assert CallerOk(s, s.callers[e.caller]);
    }
  }

  /** Once closed, the adapter stays closed and is never marked compatible again. */
  lemma {:induction false} ClosedIsFinal(s: System, events: seq<Event>)
    requires Inv(s) && s.adapter.closed && Legal(s, events)
    ensures After(s, events).adapter == s.adapter && !s.adapter.compatible
    ensures After(s, events).tasks.Keys == s.tasks.Keys
  {
    if events != [] {
      ClosedIsFinal(s, events[..|events| - 1]);
    }
  }

  /** Nobody is told the provider is compatible unless some probe succeeded. */
  lemma {:induction false} CompatibleMeansProbed(events: seq<Event>, c: CallerId)
    requires Legal(START, events) && c in After(START, events).callers
    requires After(START, events).callers[c] == ReturnedCompatible
    ensures exists t :: Succeeded(After(START, events), t)
  {
    RunKeepsInv(START, events);
    assert CallerOk(After(START, events), ReturnedCompatible);
  }

  /** When a probe has not succeeded, the waiter that settles it clears it, is refused, and the next caller starts a
      new one. */
  lemma {:induction false} FailedProbeIsRepeated(s: System, caller: CallerId, next: CallerId, newTask: TaskId)
    requires Inv(s) && Enabled(s, WaiterSettles(caller)) && !s.adapter.closed
    requires s.callers[caller].outcome != Success && s.adapter.probeTask == Some(s.callers[caller].task)
    requires Enabled(Apply(s, WaiterSettles(caller)), CallerEnters(next, newTask))
    ensures
      var settled := Apply(s, WaiterSettles(caller));
      var entered := Apply(settled, CallerEnters(next, newTask));
      && settled.callers[caller] == Raised && settled.adapter == Adapter(false, false, None)
      && entered.tasks == settled.tasks[newTask := Running] && entered.adapter.probeTask == Some(newTask)
      && entered.callers[next] == Waiting(newTask)
  {
  }

  /** When it has succeeded, its waiter is told so, and every later caller at once. */
  lemma {:induction false} SuccessIsRemembered(s: System, caller: CallerId, next: CallerId, newTask: TaskId)
    requires Inv(s) && Enabled(s, WaiterSettles(caller)) && !s.adapter.closed
    requires s.callers[caller].outcome == Success
    requires Enabled(Apply(s, WaiterSettles(caller)), CallerEnters(next, newTask))
    ensures
      var settled := Apply(s, WaiterSettles(caller));
      var entered := Apply(settled, CallerEnters(next, newTask));
      && settled.callers[caller] == ReturnedCompatible && settled.adapter == Adapter(false, true, None)
      && entered == settled.(callers := settled.callers[next := ReturnedCompatible])
  {
    assert CallerOk(s, s.callers[caller]);
  }
}
