/**
 A benchmark run while it executes (app/benchmark_run.go, app/benchmark.go): the
 goroutine that walks through the phases, the workers that allocate ids from two shared
 atomic counters, and stop requests that may arrive at any moment, as one state machine.
 Every step below is one atomic action: a locked section, an atomic add, or a cancel.
 */
module BenchRun {
  datatype Phase = Preparing | Loading | Warmup | Running | Done | Error | Stopped

  /** Whether the executing goroutine is still at work, on its way out, or gone. */
  datatype Executor = Working | Returning | Gone

  /** A worker between units, or holding an order that still needs some items. */
  datatype Worker = Idle | Inserting(order: int, asked: nat, left: nat)

  /** An item id together with the order it was allocated for. */
  datatype ItemId = ItemId(id: int, order: int)

  datatype Run = Run(
    phase: Phase,
    ended: bool,
    cancelled: bool,
    executor: Executor,
    failed: bool,
    counting: bool,       // the counters have been initialised
    foundOrder: int,      // the largest order id in the table when they were
    startOrder: int,
    startItem: int,
    nextOrder: int,
    nextItem: int,
    workers: map<int, Worker>,
    orders: seq<int>,     // order ids handed out, in time order
    items: seq<ItemId>)   // item ids handed out, in time order

  datatype Step =
    | SetPhase(phase: Phase)
    | Fail
    | InitCounters(maxOrder: int, maxItem: int, nOrd: int)
    | AllocOrder(worker: int, nItems: nat)
    | AllocItem(worker: int)
    | GiveUp(worker: int)
    | Return
    | Finish
    | StopMarks
    | StopCancels

  function NewRun(): Run {
    Run(Preparing, false, false, Working, false, false, 0, 0, 0, 0, 0, map[], [], [])
  }

  function WorkerOf(s: Run, w: int): Worker {
    if w in s.workers then s.workers[w] else Idle
  }

  predicate Active(p: Phase) {
    p == Running || p == Warmup || p == Preparing || p == Loading
  }

  /** When a step can be taken. Stop requests can come at any time, even after the end. */
  predicate Enabled(s: Run, a: Step) {
    match a
    case SetPhase(p) => s.executor.Working? && Active(p)
    case Fail => s.executor.Working?
    case InitCounters(_, _, _) => s.executor.Working? && !s.counting
    case AllocOrder(w, nItems) => s.executor.Working? && s.counting && WorkerOf(s, w).Idle? && 1 <= nItems <= 4
    case AllocItem(w) => s.executor.Working? && WorkerOf(s, w).Inserting? && WorkerOf(s, w).left > 0
    case GiveUp(w) => WorkerOf(s, w).Inserting?
    case Return => s.executor.Working?
    case Finish => s.executor.Returning?
    case StopMarks => true
    case StopCancels => true
  }

  function Take(s: Run, a: Step): Run
    requires Enabled(s, a)
  {
    match a
    case SetPhase(p) => s.(phase := p)
    case Fail => s.(phase := Error, failed := true, executor := Returning)
    case InitCounters(maxOrder, maxItem, nOrd) =>
      var start := if nOrd > maxOrder then nOrd else maxOrder;
      s.(counting := true, foundOrder := maxOrder,
      startOrder := start, startItem := maxItem, nextOrder := start, nextItem := maxItem)
    case AllocOrder(w, nItems) =>
      var oid := s.nextOrder + 1;
      s.(nextOrder := oid, orders := s.orders + [oid], workers := s.workers[w := Inserting(oid, nItems, nItems)])
    case AllocItem(w) =>
      var iid := s.nextItem + 1;
      s.(nextItem := iid, items := s.items + [ItemId(iid, s.workers[w].order)],
      workers := s.workers[w := s.workers[w].(left := s.workers[w].left - 1)])
    case GiveUp(w) => s.(workers := s.workers[w := Idle])
    case Return => s.(executor := Returning)
    case Finish =>
      s.(ended := true, executor := Gone,
      phase := if s.phase == Error then Error else if s.cancelled then Stopped else Done)
    case StopMarks => if Active(s.phase) then s.(phase := Stopped) else s
    case StopCancels => s.(cancelled := true)
  }

  /** The state after a schedule; a step that is not possible when its turn comes does nothing. */
  function After(s: Run, schedule: seq<Step>): Run {
    if schedule == [] then s
    else
      var before, last := After(s, schedule[..|schedule| - 1]), schedule[|schedule| - 1];
      if Enabled(before, last) then Take(before, last) else before
  }

  // ------------------------------------------------------------ ids

  /** Every id handed out is the next one after the start, whoever asked for it. */
  ghost predicate IdsInOrder(s: Run) {
    && s.foundOrder <= s.startOrder
    && s.nextOrder == s.startOrder + |s.orders| && s.nextItem == s.startItem + |s.items|
    && (forall i | 0 <= i < |s.orders| :: s.orders[i] == s.startOrder + 1 + i)
    && (forall i | 0 <= i < |s.items| :: s.items[i].id == s.startItem + 1 + i)
    && (forall i | 0 <= i < |s.items| :: s.items[i].order in s.orders)
    && (forall w | w in s.workers && s.workers[w].Inserting? :: s.workers[w].order in s.orders)
    && (!s.counting ==> s.orders == [] && s.items == [] && s.workers == map[])
  }

  /** Once the end is set the phase is final; an error once reported stays one. */
  ghost predicate PhaseSound(s: Run) {
    && (s.ended <==> s.executor.Gone?)
    && (s.ended ==> s.phase == Done || s.phase == Error || s.phase == Stopped)
    && (!s.ended ==> s.phase != Done)
    && (s.executor.Working? ==> !s.failed && s.phase != Error && s.phase != Done)
    && (s.failed ==> s.phase == Error)
    && (!s.failed ==> s.phase != Error)
  }

  lemma StepKeeps(s: Run, a: Step)
    requires IdsInOrder(s) && PhaseSound(s) && Enabled(s, a)
    ensures IdsInOrder(Take(s, a)) && PhaseSound(Take(s, a))
  {
    IdsKept(s, a);
  }

  lemma IdsKept(s: Run, a: Step)
    requires IdsInOrder(s) && Enabled(s, a)
    ensures IdsInOrder(Take(s, a))
  {
    var t := Take(s, a);
    match a
    case AllocOrder(w, _) =>
      assert t.orders[|s.orders|] == s.nextOrder + 1;
      assert forall x | x in s.orders :: x in t.orders;
    case AllocItem(w) =>
      assert w in s.workers;
      assert s.workers[w].order in s.orders;
    case _ =>
  }

  lemma {:induction false} AlwaysSound(schedule: seq<Step>)
    ensures IdsInOrder(After(NewRun(), schedule)) && PhaseSound(After(NewRun(), schedule))
  {
    if schedule != [] {
      var early, last := schedule[..|schedule| - 1], schedule[|schedule| - 1];
      AlwaysSound(early);
      if Enabled(After(NewRun(), early), last) {
        StepKeeps(After(NewRun(), early), last);
      }
    }
  }

  /**
   Under every interleaving of workers and stop requests: order ids and item ids only
   ever increase, so they are pairwise distinct and larger than every id found when
   the counters were initialised (item ids start at the largest one found), and every
   item id was allocated for an order id that was itself handed out.
   */
  lemma IdsDistinct(schedule: seq<Step>, i: nat, j: nat)
    requires i < j
    ensures
      var s := After(NewRun(), schedule);
      && (j < |s.orders| ==> s.foundOrder <= s.startOrder < s.orders[i] < s.orders[j])
      && (j < |s.items| ==> s.startItem < s.items[i].id < s.items[j].id && s.items[j].order in s.orders)
  {
    AlwaysSound(schedule);
  }

  /** The counters start at the largest ids found, for orders at the number that were loaded if that is larger. */
  lemma CountersStart(s: Run, maxOrder: int, maxItem: int, nOrd: int)
    requires Enabled(s, InitCounters(maxOrder, maxItem, nOrd))
    ensures
      var t := Take(s, InitCounters(maxOrder, maxItem, nOrd));
      && t.counting && t.foundOrder == maxOrder && t.nextItem == t.startItem == maxItem
      && t.nextOrder == t.startOrder && t.startOrder in {maxOrder, nOrd}
      && t.startOrder >= maxOrder && t.startOrder >= nOrd
  {
  }

  // ------------------------------------------------------------ items of an order

  const MAX_ITEMS := 4

  function ItemsOf(items: seq<ItemId>, order: int): nat {
    if items == [] then 0
    else ItemsOf(items[..|items| - 1], order) + if items[|items| - 1].order == order then 1 else 0
  }

  ghost predicate OrdersApart(workers: map<int, Worker>) {
    forall v, w | v in workers && w in workers && v != w && workers[v].Inserting? && workers[w].Inserting? ::
      workers[v].order != workers[w].order
  }

  /** The order a worker holds has the items asked for that are not still to come. */
  ghost predicate OnCourse(items: seq<ItemId>, worker: Worker) {
    worker.Inserting? ==> ItemsOf(items, worker.order) + worker.left == worker.asked <= MAX_ITEMS
  }

  ghost predicate ItemsBounded(s: Run) {
    && OrdersApart(s.workers)
    && (forall w | w in s.workers :: OnCourse(s.items, s.workers[w]))
    && (forall o :: ItemsOf(s.items, o) <= MAX_ITEMS)
  }

  lemma ItemsOneMore(items: seq<ItemId>, x: ItemId, order: int)
    ensures ItemsOf(items + [x], order) == ItemsOf(items, order) + if x.order == order then 1 else 0
  {
    assert (items + [x])[..|items|] == items;
  }

  lemma {:induction false} ItemsNone(items: seq<ItemId>, order: int)
    requires forall i | 0 <= i < |items| :: items[i].order != order
    ensures ItemsOf(items, order) == 0
  {
    if items != [] {
      ItemsNone(items[..|items| - 1], order);
    }
  }

  lemma NewOrderKept(s: Run, w: int, nItems: nat)
    requires IdsInOrder(s) && ItemsBounded(s) && Enabled(s, AllocOrder(w, nItems))
    ensures ItemsBounded(Take(s, AllocOrder(w, nItems)))
  {
    assert s.nextOrder + 1 !in s.orders;
    ItemsNone(s.items, s.nextOrder + 1);
  }

  lemma NewItemKept(s: Run, w: int)
    requires ItemsBounded(s) && Enabled(s, AllocItem(w))
    ensures ItemsBounded(Take(s, AllocItem(w)))
  {
    var t := Take(s, AllocItem(w));
    var x := ItemId(s.nextItem + 1, s.workers[w].order);
    assert OnCourse(s.items, s.workers[w]);
    forall o
      ensures ItemsOf(t.items, o) <= MAX_ITEMS
    {
      ItemsOneMore(s.items, x, o);
    }
    forall v | v in t.workers
      ensures OnCourse(t.items, t.workers[v])
    {
      assert OnCourse(s.items, s.workers[v]);
      if s.workers[v].Inserting? {
        ItemsOneMore(s.items, x, s.workers[v].order);
      }
    }
  }

  lemma ItemsKept(s: Run, a: Step)
    requires IdsInOrder(s) && ItemsBounded(s) && Enabled(s, a)
    ensures ItemsBounded(Take(s, a))
  {
    match a
    case AllocOrder(w, nItems) => NewOrderKept(s, w, nItems);
    case AllocItem(w) => NewItemKept(s, w);
    case _ =>
  }

  /**
   Under every interleaving an order gets the items asked for one by one, whoever else is at
   work, and no order ever gets more than four.
   */
  lemma {:induction false} FourItemsAtMost(schedule: seq<Step>, order: int)
    ensures ItemsBounded(After(NewRun(), schedule))
    ensures ItemsOf(After(NewRun(), schedule).items, order) <= MAX_ITEMS
  {
    if schedule != [] {
      var early, last := schedule[..|schedule| - 1], schedule[|schedule| - 1];
      FourItemsAtMost(early, order);
      AlwaysSound(early);
      if Enabled(After(NewRun(), early), last) {
        ItemsKept(After(NewRun(), early), last);
      }
    }
  }

  /** A worker that is through with an order can take the next. */
  lemma ReadyAgain(s: Run, w: int, nItems: nat)
    requires Enabled(s, GiveUp(w)) && s.executor.Working? && s.counting && 1 <= nItems <= MAX_ITEMS
    ensures Enabled(Take(s, GiveUp(w)), AllocOrder(w, nItems))
  {
  }

  // ------------------------------------------------------------ the state, read off the schedule

  /** The steps by which the executing goroutine stops working. */
  predicate Leaves(a: Step) {
    a.Fail? || a.Return?
  }

  ghost predicate AtWork(schedule: seq<Step>) {
    forall a | a in schedule :: !Leaves(a)
  }

  /** The run fails before it returns. */
  ghost predicate FailsFirst(schedule: seq<Step>) {
    exists i :: 0 <= i < |schedule| && schedule[i].Fail? && AtWork(schedule[..i])
  }

  lemma FailsFirstStep(early: seq<Step>, last: Step)
    ensures AtWork(early + [last]) <==> AtWork(early) && !Leaves(last)
    ensures FailsFirst(early + [last]) <==> FailsFirst(early) || (last.Fail? && AtWork(early))
  {
    var schedule := early + [last];
    assert forall a :: a in schedule <==> a in early || a == last;
    forall i | 0 <= i <= |early|
      ensures schedule[..i] == early[..i]
    {
    }
    if i :| 0 <= i < |early| && early[i].Fail? && AtWork(early[..i]) {
      assert schedule[i].Fail? && schedule[..i] == early[..i];
    }
    assert early[..|early|] == early && schedule[|early|] == last && schedule[..|early|] == early;
    if i :| 0 <= i < |schedule| && schedule[i].Fail? && AtWork(schedule[..i]) {
      assert schedule[..i] == early[..i];
      assert i < |early| ==> early[i] == schedule[i];
    }
  }

  /** The phase last asked for, by the run itself while at work or by a stop request. */
  ghost function LastPhase(schedule: seq<Step>): Phase {
    if schedule == [] then Preparing
    else
      var early := schedule[..|schedule| - 1];
      var before := LastPhase(early);
      match schedule[|schedule| - 1]
      case SetPhase(p) => if AtWork(early) && Active(p) then p else before
      case StopMarks => Stopped
      case _ => before
  }

  /** What one step, possible or not, does to what can be read off the schedule. */
  lemma StateStep(s: Run, a: Step)
    requires PhaseSound(s)
    ensures
      var t := if Enabled(s, a) then Take(s, a) else s;
      && (t.cancelled <==> s.cancelled || a.StopCancels?)
      && (t.executor.Working? <==> s.executor.Working? && !Leaves(a))
      && (t.failed <==> s.failed || (a.Fail? && s.executor.Working?))
      && (!t.failed && !t.ended ==>
            && !s.failed && !s.ended
            && t.phase ==
                 if a.SetPhase? && s.executor.Working? && Active(a.phase) then a.phase
                 else if a.StopMarks? then Stopped
                 else s.phase)
  {
  }

  /**
   Whether a run was cancelled, is still at work or has failed can be read off its schedule:
   a cancel always counts, and the first failure or return decides the rest. Until it fails
   or ends its phase is the one last asked for.
   */
  lemma {:induction false} StateOfSchedule(schedule: seq<Step>)
    ensures
      var s := After(NewRun(), schedule);
      && (s.cancelled <==> StopCancels in schedule)
      && (s.executor.Working? <==> AtWork(schedule))
      && (s.failed <==> FailsFirst(schedule))
      && (!s.failed && !s.ended ==> s.phase == LastPhase(schedule))
  {
    if schedule != [] {
      var early, last := schedule[..|schedule| - 1], schedule[|schedule| - 1];
      assert schedule == early + [last];
      StateOfSchedule(early);
      AlwaysSound(early);
      FailsFirstStep(early, last);
      StateStep(After(NewRun(), early), last);
    }
  }

  // ------------------------------------------------------------ the end

  /** Once a run has ended, no later step, stop requests included, changes its phase, its end or its ids. */
  lemma {:induction false} EndIsFinal(past: seq<Step>, future: seq<Step>)
    requires After(NewRun(), past).ended
    ensures
      var s := After(NewRun(), past);
      var t := After(s, future);
      && t.ended && t.executor.Gone? && t.phase == s.phase
      && (t.phase == Done || t.phase == Error || t.phase == Stopped)
      && t.orders == s.orders && t.items == s.items
  {
    AlwaysSound(past);
    if future != [] {
      EndIsFinal(past, future[..|future| - 1]);
      var mid, last := After(After(NewRun(), past), future[..|future| - 1]), future[|future| - 1];
      if Enabled(mid, last) {
        GoneStaysGone(mid, last);
      }
    }
  }

  lemma GoneStaysGone(s: Run, a: Step)
    requires s.executor.Gone? && Enabled(s, a) && !Active(s.phase)
    ensures
      var t := Take(s, a);
      t.executor.Gone? && t.ended == s.ended && t.phase == s.phase && t.orders == s.orders && t.items == s.items
  {
  }

  /** What a run ends as: an error if it failed, else stopped exactly if a cancel came before the end, else done. */
  lemma EndVerdict(schedule: seq<Step>)
    requires Enabled(After(NewRun(), schedule), Finish)
    ensures
      After(NewRun(), schedule + [Finish]).phase ==
        if FailsFirst(schedule) then Error else if StopCancels in schedule then Stopped else Done
    ensures After(NewRun(), schedule + [Finish]).ended
  {
    AlwaysSound(schedule);
    StateOfSchedule(schedule);
    assert (schedule + [Finish])[..|schedule|] == schedule;
  }

  /** A stop request marks the phase before it cancels; a run that finishes in between ends as done. */
  lemma StopCanComeTooLate()
    ensures After(NewRun(), [Return, StopMarks, Finish, StopCancels]).phase == Done
    ensures After(NewRun(), [Return, StopMarks]).phase == Stopped
  {
    var a, b := [Return], [Return, StopMarks];
    var c, d := [Return, StopMarks, Finish], [Return, StopMarks, Finish, StopCancels];
    assert d[..3] == c && c[..2] == b && b[..1] == a && a[..0] == [];
    var s := After(NewRun(), a);
    assert s == NewRun().(executor := Returning);
    assert After(NewRun(), b) == s.(phase := Stopped);
    assert After(NewRun(), c).phase == Done;
  }
}
