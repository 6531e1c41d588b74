/**
 How much the pipeline does: every announced file, and every crash, leads to a bounded number of deliveries and actions,
 and while a message is queued or unacked some worker can go on. The measure is what the messages may still cost.
 */
module PipelineProgress {
  import opened Wrappers

  import opened Pipeline
  import RetryPolicy

  /** No plan is longer. */
  const PLAN_MAX := 7

  // ---- What a message may cost ------------------------------------------------------------------------

  /** The deliveries a message has left in its queue. */
  function Attempts(c: Config, mail: Mail): nat
  {
    RetryPolicy.Attempts(RetryPolicy.Message(RetryPolicy.Object(mail.payload), mail.headers), c.maxRetries)
  }

  function StagesLeft(stage: Stage): nat
  {
    match stage
    case AvScan => 2
    case Transcode => 1
    case FileReady => 0
  }

  /** The price of one delivery: 1, its actions at `a` each, and the message to the next stage it may send. */
  function Rate(c: Config, stage: Stage, a: nat): nat
    decreases StagesLeft(stage)
  {
    1 + PLAN_MAX * a +
    match stage
    case AvScan => (c.maxRetries + 1) * Rate(c, Transcode, a)
    case Transcode => (c.maxRetries + 1) * Rate(c, FileReady, a)
    case FileReady => 0
  }

  function Weight(c: Config, mail: Mail, a: nat): nat
  {
    Attempts(c, mail) * Rate(c, mail.stage, a)
  }

  /** The price of a file, from its announcement on. */
  function FullPrice(c: Config, a: nat): nat
  {
    (c.maxRetries + 1) * Rate(c, AvScan, a)
  }

  /** What the actions left of a plan may cost: `a` each, and the messages they send. */
  function TodoWeight(c: Config, todo: seq<Action>, a: nat): nat
  {
    if todo == [] then 0
    else a + (if todo[0].Send? then Weight(c, todo[0].mail, a) else 0) + TodoWeight(c, todo[1..], a)
  }

  lemma {:induction false} TodoWeightConcat(c: Config, x: seq<Action>, y: seq<Action>, a: nat)
    ensures TodoWeight(c, x + y, a) == TodoWeight(c, x, a) + TodoWeight(c, y, a)
  {
    hide Weight;
    if x == [] {
      assert x + y == y;
    } else {
      assert (x + y)[1..] == x[1..] + y;
      TodoWeightConcat(c, x[1..], y, a);
    }
  }

  /** At most one message to the next stage, as new; all other actions cost `a`. */
  predicate SendsOn(acts: seq<Action>, stage: Stage)
  {
    && |acts| <= 4
    && (forall i :: 0 <= i < |acts| && acts[i].Send? ==>
          i == |acts| - 1 && acts[i].mail.headers.None? && stage != FileReady &&
          acts[i].mail.stage == if stage.AvScan? then Transcode else FileReady)
  }

  lemma HandlerSendsOn(mail: Mail, env: Env, rowFound: bool, clean: bool)
    ensures SendsOn(Handler(mail, env, rowFound, clean).actions, mail.stage)
  {
  }

  lemma {:induction false} SendsOnWeight(c: Config, acts: seq<Action>, stage: Stage, a: nat)
    requires SendsOn(acts, stage)
    ensures TodoWeight(c, acts, a) + 1 + PLAN_MAX * a <= Rate(c, stage, a) + |acts| * a
  {
    if acts != [] {
      var rest := acts[1..];
      assert forall i :: 0 <= i < |rest| ==> rest[i] == acts[i + 1];
      SendsOnWeight(c, rest, stage, a);
      assert (|rest| + 1) * a == |rest| * a + a;
    }
  }

  /** The retry costs what is left of the budget; an ack or a drop costs itself. */
  lemma PolicyWeight(c: Config, mail: Mail, ok: bool, a: nat)
    ensures TodoWeight(c, Policy(mail, ok, c.maxRetries), a) <= 2 * a + Weight(c, mail, a) - Rate(c, mail.stage, a)
  {
    hide Rate;
    var acts, rate := Policy(mail, ok, c.maxRetries), Rate(c, mail.stage, a);
    OneAttemptLess(Attempts(c, mail), rate);
    assert 1 <= |acts| <= 2 && (|acts| == 1 ==> acts[1..] == []);
    if |acts| == 2 {
      assert acts[1..] == [Ack] && [Ack][1..] == [];
      assert Attempts(c, acts[0].mail) == Attempts(c, mail) - 1;
      assert TodoWeight(c, acts[1..], a) == a;
    }
  }

  lemma OneAttemptLess(n: nat, rate: nat)
    requires n >= 1
    ensures (n - 1) * rate == n * rate - rate >= 0
  {
    assert n * rate == (n - 1) * rate + rate;
  }

  /** Delivering a message costs less than the message was counted for. */
  lemma PlanWeight(c: Config, mail: Mail, env: Env, rowFound: bool, a: nat)
    ensures TodoWeight(c, Plan(c, mail, env, rowFound), a) + 1 <= Weight(c, mail, a)
  {
    hide Weight, Policy, Rate, SendsOn, Handler, TodoWeight;
    var h := Handler(mail, env, rowFound, c.clean(mail.payload.file));
    var mid: seq<Action> := if h.ok then [] else [HandlerFailed];
    HandlerSendsOn(mail, env, rowFound, c.clean(mail.payload.file));
    SendsOnWeight(c, h.actions, mail.stage, a);
    PolicyWeight(c, mail, h.ok, a);
    TodoWeightConcat(c, mid, Policy(mail, h.ok, c.maxRetries), a);
    TodoWeightConcat(c, h.actions, mid + Policy(mail, h.ok, c.maxRetries), a);
    MarkWeight(c, h.ok, a);
    FourActions(h.actions, mail.stage, a);
  }

  lemma MarkWeight(c: Config, ok: bool, a: nat)
    ensures TodoWeight(c, if ok then [] else [HandlerFailed], a) <= a
  {
    assert [HandlerFailed][1..] == [];
  }

  lemma FourActions(acts: seq<Action>, stage: Stage, a: nat)
    requires SendsOn(acts, stage)
    ensures |acts| * a <= 4 * a
  {
    assert (4 - |acts|) * a >= 0;
  }

  // ---- The measure ------------------------------------------------------------------------------------

  /** What the queued messages may cost. */
  ghost function PoolWeight(c: Config, pool: multiset<Mail>, a: nat): nat
    decreases |pool|
  {
    if m :| m in pool then Weight(c, m, a) + PoolWeight(c, pool - multiset{m}, a) else 0
  }

  lemma {:induction false} PoolWeightTake(c: Config, pool: multiset<Mail>, m: Mail, a: nat)
    requires m in pool
    ensures PoolWeight(c, pool, a) == Weight(c, m, a) + PoolWeight(c, pool - multiset{m}, a)
    decreases |pool|
  {
    hide Weight;
    var x :| x in pool && PoolWeight(c, pool, a) == Weight(c, x, a) + PoolWeight(c, pool - multiset{x}, a);
    if x != m {
      PoolWeightTake(c, pool - multiset{x}, m, a);
      PoolWeightTake(c, pool - multiset{m}, x, a);
      assert pool - multiset{x} - multiset{m} == pool - multiset{m} - multiset{x};
    }
  }

  lemma PoolWeightPut(c: Config, pool: multiset<Mail>, m: Mail, a: nat)
    ensures PoolWeight(c, pool + multiset{m}, a) == PoolWeight(c, pool, a) + Weight(c, m, a)
  {
    hide Weight, PoolWeight;
    PoolWeightTake(c, pool + multiset{m}, m, a);
    assert pool + multiset{m} - multiset{m} == pool;
  }

  /** What the unacked deliveries may cost. */
  ghost function TasksWeight(c: Config, tasks: map<int, Task>, a: nat): nat
    decreases |tasks|
  {
    if k :| k in tasks then TodoWeight(c, tasks[k].todo, a) + TasksWeight(c, tasks - {k}, a) else 0
  }

  lemma {:induction false} TasksWeightTake(c: Config, tasks: map<int, Task>, k: int, a: nat)
    requires k in tasks
    ensures TasksWeight(c, tasks, a) == TodoWeight(c, tasks[k].todo, a) + TasksWeight(c, tasks - {k}, a)
    decreases |tasks|
  {
    hide TodoWeight;
    var x :| x in tasks && TasksWeight(c, tasks, a) == TodoWeight(c, tasks[x].todo, a) + TasksWeight(c, tasks - {x}, a);
    if x != k {
      TasksWeightTake(c, tasks - {x}, k, a);
      TasksWeightTake(c, tasks - {k}, x, a);
      assert tasks - {x} - {k} == tasks - {k} - {x};
    }
  }

  lemma TasksWeightPut(c: Config, tasks: map<int, Task>, k: int, t: Task, a: nat)
    ensures TasksWeight(c, tasks[k := t], a) == TasksWeight(c, tasks - {k}, a) + TodoWeight(c, t.todo, a)
  {
    hide TodoWeight, TasksWeight;
    TasksWeightTake(c, tasks[k := t], k, a);
    assert tasks[k := t] - {k} == tasks - {k};
  }

  ghost function Measure(c: Config, w: World, a: nat): nat
  {
    PoolWeight(c, w.pool, a) + TasksWeight(c, w.tasks, a)
  }

  // ---- Runs -------------------------------------------------------------------------------------------

  /** What a step adds to the bill: a delivery costs 1 and an action `a`. */
  function Bill(s: Step, a: nat): nat
  {
    match s
    case Receive(_, _, _) => 1
    case Act(_) => a
    case _ => 0
  }

  function Billed(run: seq<Step>, a: nat): nat
  {
    if run == [] then 0 else Billed(run[..|run| - 1], a) + Bill(run[|run| - 1], a)
  }

  /** The announcements and crashes of a run. */
  function Causes(run: seq<Step>): nat
  {
    if run == [] then 0
    else Causes(run[..|run| - 1]) + if run[|run| - 1].Announce? || run[|run| - 1].Crash? then 1 else 0
  }

  /** No header counts below zero. */
  predicate Counted(mail: Mail)
  {
    RetryPolicy.RetryCount(mail.headers) >= 0
  }

  predicate AllCounted(todo: seq<Action>)
  {
    forall i :: 0 <= i < |todo| && todo[i].Send? ==> Counted(todo[i].mail)
  }

  predicate WorldCounted(w: World)
  {
    PoolCounted(w.pool) && forall k :: k in w.tasks ==> TaskCounted(w.tasks[k])
  }

  lemma PlanCounted(c: Config, mail: Mail, env: Env, rowFound: bool)
    requires Counted(mail)
    ensures AllCounted(Plan(c, mail, env, rowFound))
  {
    HandlerSendsOn(mail, env, rowFound, c.clean(mail.payload.file));
  }

  predicate PoolCounted(pool: multiset<Mail>)
  {
    forall m :: m in pool ==> Counted(m)
  }

  predicate TaskCounted(t: Task)
  {
    Counted(t.mail) && AllCounted(t.todo)
  }

  lemma StepKeepsPool(c: Config, w: World, s: Step)
    requires WorldCounted(w) && Enabled(w, s)
    ensures PoolCounted(Next(c, w, s).pool)
  {
    hide Plan;
    if s.Act? {
      assert AllCounted(w.tasks[s.worker].todo);
    }
  }

  lemma StepKeepsTask(c: Config, w: World, s: Step, k: int)
    requires WorldCounted(w) && Enabled(w, s) && k in Next(c, w, s).tasks
    ensures TaskCounted(Next(c, w, s).tasks[k])
  {
    hide Plan, Counted, AllCounted, ActOn;
    if s.Receive? {
      PlanCounted(c, s.mail, s.env, s.mail.payload.file in w.status);
    } else if s.Act? {
      RestCounted(w.tasks[s.worker].todo);
    }
  }

  lemma RestCounted(todo: seq<Action>)
    requires todo != [] && AllCounted(todo)
    ensures AllCounted(todo[1..])
  {
    assert forall i :: 0 <= i < |todo[1..]| ==> todo[1..][i] == todo[i + 1];
  }

  lemma StepCounted(c: Config, w: World, s: Step)
    requires WorldCounted(w) && Enabled(w, s)
    ensures WorldCounted(Next(c, w, s))
  {
    hide Next, Enabled, Counted, AllCounted;
    StepKeepsPool(c, w, s);
    forall k | k in Next(c, w, s).tasks
      ensures TaskCounted(Next(c, w, s).tasks[k])
    {
      StepKeepsTask(c, w, s, k);
    }
  }

  /** A redelivered message costs no more than a new file. */
  lemma WeightIsBounded(c: Config, mail: Mail, a: nat)
    requires Counted(mail)
    ensures Weight(c, mail, a) <= FullPrice(c, a)
  {
    var n, full := Attempts(c, mail), c.maxRetries + 1;
    assert n <= full;
    RatesDescend(c, mail.stage, a);
    MulBoth(n, full, Rate(c, mail.stage, a), Rate(c, AvScan, a));
  }

  lemma MulBoth(x: nat, x': nat, y: nat, y': nat)
    requires x <= x' && y <= y'
    ensures x * y <= x' * y'
  {
    assert x * y <= x' * y && x' * y <= x' * y' by {
      assert (x' - x) * y >= 0 && x' * (y' - y) >= 0;
    }
  }

  lemma RatesDescend(c: Config, stage: Stage, a: nat)
    ensures Rate(c, stage, a) <= Rate(c, AvScan, a)
  {
    var r3, r2, full := Rate(c, FileReady, a), Rate(c, Transcode, a), c.maxRetries + 1;
    assert full * r3 >= r3 && full * r2 >= r2 by {
      assert (full - 1) * r3 >= 0 && (full - 1) * r2 >= 0;
    }
  }

  lemma ActMeasure(c: Config, w: World, worker: int, a: nat)
    requires Enabled(w, Act(worker))
    ensures Measure(c, Next(c, w, Act(worker)), a) + a == Measure(c, w, a)
  {
    hide Weight, PoolWeight, TasksWeight;
    var t := w.tasks[worker];
    var todo := t.todo;
    TasksWeightTake(c, w.tasks, worker, a);
    assert TodoWeight(c, todo, a) == a + (if todo[0].Send? then Weight(c, todo[0].mail, a) else 0)
      + TodoWeight(c, todo[1..], a);
    if todo[0].Send? {
      PoolWeightPut(c, w.pool, todo[0].mail, a);
    }
    if |todo| > 1 {
      TasksWeightPut(c, w.tasks, worker, t.(todo := todo[1..]), a);
    }
  }

  lemma ReceiveMeasure(c: Config, w: World, s: Step, a: nat)
    requires s.Receive? && Enabled(w, s)
    ensures Measure(c, Next(c, w, s), a) + 1 <= Measure(c, w, a)
  {
    hide Weight, PoolWeight, TasksWeight, TodoWeight, Plan;
    var plan := Plan(c, s.mail, s.env, s.mail.payload.file in w.status);
    PoolWeightTake(c, w.pool, s.mail, a);
    TasksWeightPut(c, w.tasks, s.worker, Task(s.mail, plan), a);
    assert w.tasks - {s.worker} == w.tasks;
    PlanWeight(c, s.mail, s.env, s.mail.payload.file in w.status, a);
  }

  lemma CauseMeasure(c: Config, w: World, s: Step, a: nat)
    requires WorldCounted(w) && (s.Announce? || s.Crash?) && Enabled(w, s)
    ensures Measure(c, Next(c, w, s), a) <= Measure(c, w, a) + FullPrice(c, a)
  {
    hide Weight, PoolWeight, TasksWeight, TodoWeight, FullPrice;
    if s.Crash? {
      PoolWeightPut(c, w.pool, w.tasks[s.worker].mail, a);
      TasksWeightTake(c, w.tasks, s.worker, a);
      WeightIsBounded(c, w.tasks[s.worker].mail, a);
    } else {
      var m := Mail(AvScan, Payload(s.file, s.storedName, false, None), None);
      PoolWeightPut(c, w.pool, m, a);
      WeightIsBounded(c, m, a);
    }
  }

  /**
   Over every run, with any number of workers: the deliveries so far, the actions at `a` each, and what the messages
   left may still cost are at most one full price for each announcement and each crash.
   */
  lemma {:induction false} WorkIsBounded(c: Config, run: seq<Step>, a: nat)
    requires IsRun(c, run)
    ensures WorldCounted(Exec(c, run))
    ensures Billed(run, a) + Measure(c, Exec(c, run), a) <= Causes(run) * FullPrice(c, a)
  {
    hide Next, Measure, FullPrice, WorldCounted, Enabled;
    if run == [] {
      NothingToDo(c, a);
    } else {
      var before, s := run[..|run| - 1], run[|run| - 1];
      var w := Exec(c, before);
      WorkIsBounded(c, before, a);
      StepCounted(c, w, s);
      OneMore(Causes(before), FullPrice(c, a));
      match s
      case Register(file) => RegisterMeasure(c, w, file, a);
      case Announce(_, _) => CauseMeasure(c, w, s, a);
      case Receive(_, _, _) => ReceiveMeasure(c, w, s, a);
      case Act(worker) => ActMeasure(c, w, worker, a);
      case Crash(_) => CauseMeasure(c, w, s, a);
    }
  }

  lemma OneMore(n: nat, price: nat)
    ensures (n + 1) * price == n * price + price
  {
  }

  lemma NothingToDo(c: Config, a: nat)
    ensures Measure(c, Init, a) == 0 && WorldCounted(Init)
  {
  }

  lemma RegisterMeasure(c: Config, w: World, file: FileId, a: nat)
    ensures Measure(c, Next(c, w, Register(file)), a) == Measure(c, w, a)
  {
  }

  function Deliveries(run: seq<Step>): nat
  {
    Billed(run, 0)
  }

  /**
   With a budget of n retries an announced file or a crash leads to at most (n + 1) + (n + 1)^2 + (n + 1)^3 deliveries:
   each of the n + 1 deliveries of a stage may send the file on and fail afterwards.
   */
  lemma DeliveriesAreBounded(c: Config, run: seq<Step>)
    requires IsRun(c, run)
    ensures var n := c.maxRetries + 1; Deliveries(run) <= Causes(run) * (n + n * n + n * n * n)
  {
    hide IsRun, Exec, Measure, Rate;
    WorkIsBounded(c, run, 0);
    Rates(c);
    Cubes(c.maxRetries + 1);
  }

  lemma Rates(c: Config)
    ensures var n := c.maxRetries + 1; FullPrice(c, 0) == n * (1 + n * (1 + n))
  {
    var n := c.maxRetries + 1;
    assert Rate(c, FileReady, 0) == 1;
    assert Rate(c, Transcode, 0) == 1 + n * 1;
    assert Rate(c, AvScan, 0) == 1 + n * (1 + n);
  }

  lemma Cubes(n: nat)
    ensures n * (1 + n * (1 + n)) == n + n * n + n * n * n
  {
  }

  lemma {:induction false} FreeWorker(tasks: map<int, Task>) returns (k: int)
    ensures forall other :: other in tasks ==> other < k
    decreases |tasks|
  {
    if x :| x in tasks {
      var rest := FreeWorker(tasks - {x});
      k := if x < rest then rest else x + 1;
      assert forall other :: other in tasks ==> other == x || other in tasks - {x};
    } else {
      k := 0;
    }
  }

  /** A delivery or an action. */
  predicate Advances(w: World, s: Step)
  {
    Enabled(w, s) && (s.Receive? || s.Act?)
  }

  /** As long as a message is queued or unacked some worker can go on, so what cannot go on has settled every file. */
  lemma BusyCanAdvance(c: Config, run: seq<Step>, file: FileId)
    requires IsRun(c, run) && !Quiet(Exec(c, run), file)
    ensures exists s :: Advances(Exec(c, run), s)
  {
    RunKeepsInv(c, run);
    var w := Exec(c, run);
    if m :| m in w.pool && m.payload.file == file {
      var k := FreeWorker(w.tasks);
      assert Advances(w, Receive(k, m, Env(false, true, false, None)));
    } else {
      var k :| k in w.tasks && w.tasks[k].mail.payload.file == file;
      assert TaskOk(c, w, w.tasks[k]);
      assert Advances(w, Act(k));
    }
  }
}
