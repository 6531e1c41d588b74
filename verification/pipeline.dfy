/**
 The three external stages a file goes through: antivirus (`clamav-scanner`), transcoding
 (`audio-normalizer`) and the hand-over to the internal zone (`dmz-to-internal-bridge`), each a
 consumer under the retry policy of `RetryPolicy`.

 A delivery is a list of actions: database commits, an object stored, messages published, the final
 ack. `StageWorker` runs the handlers and is proved to perform exactly the actions of `Plan`; the
 `World` machine interleaves the plans of any number of workers one action at a time, and may crash a
 worker between any two of them.
 */
module Pipeline {
  import opened Wrappers
  import RetryPolicy

  type FileId = int

  datatype Status =
    | Pending | Scanning | ScanClean | Transcoding | Transcoded | TranscodeFailed
    | ReadyForTransfer | Transferring | Quarantined | Error

  /** The statuses at which this part of the system has nothing left to do. */
  predicate Terminal(s: Status)
  {
    s.Quarantined? || s.TranscodeFailed? || s.Transferring?
  }

  datatype Stage = AvScan | Transcode | FileReady

  datatype Payload = Payload(file: FileId, storedName: string, avClean: bool, transcodedName: Option<string>)

  /** A message in the queue of a stage. */
  datatype Mail = Mail(stage: Stage, payload: Payload, headers: Option<RetryPolicy.Headers>)

  datatype Action =
    | Commit(status: Status)      // on the row of the delivered file
    | Store(name: string)         // in the processed-staging bucket
    | Send(mail: Mail)            // publish to a queue of this pipeline
    | SendPull(payload: Payload)  // publish to internal_pull
    | HandlerFailed               // the callback returned False or raised
    | Ack
    | Drop                        // the ack of a message out of retries

  /** The verdict on each file, and QUEUE_MAX_RETRIES. */
  datatype Config = Config(clean: FileId -> bool, maxRetries: nat)

  /**
   What the environment does to one delivery; `cut` interrupts the handler with an exception after that many actions.
   */
  datatype Env = Env(scanRaises: bool, transcodes: bool, pullRaises: bool, cut: Option<nat>)

  // ---- Names ------------------------------------------------------------------------------------

  function LastIndexOf(s: string, c: char): (i: int)
    ensures -1 <= i < |s|
  {
    if s == "" then -1
    else if s[|s| - 1] == c then |s| - 1
    else LastIndexOf(s[..|s| - 1], c)
  }

  /** Path(name).stem + ".mp4" */
  function OutputName(storedName: string): string
  {
    var base := storedName[LastIndexOf(storedName, '/') + 1..];
    var dot := LastIndexOf(base, '.');
    (if 0 < dot < |base| - 1 then base[..dot] else base) + ".mp4"
  }

  // ---- Handlers as action lists -------------------------------------------------------------------

  datatype Outcome = Outcome(actions: seq<Action>, ok: bool)

  function Uninterrupted(mail: Mail, env: Env, clean: bool): Outcome
  {
    var p := mail.payload;
    match mail.stage
    case AvScan =>
      if env.scanRaises then Outcome([Commit(Scanning), Commit(Error)], false)
      else if clean then Outcome([Commit(Scanning), Commit(ScanClean),
        Send(Mail(Transcode, p.(avClean := true), None))], true)
      else Outcome([Commit(Scanning), Commit(Quarantined)], true)
    case Transcode =>
      if env.transcodes then
        var name := OutputName(p.storedName);
        Outcome([Commit(Transcoding), Store(name), Commit(Transcoded),
          Send(Mail(FileReady, p.(transcodedName := Some(name)), None))], true)
      else Outcome([Commit(Transcoding), Commit(TranscodeFailed)], true)
    case FileReady =>
      if env.pullRaises then Outcome([Commit(ReadyForTransfer)], false)
      else Outcome([Commit(ReadyForTransfer), SendPull(p), Commit(Transferring)], true)
  }

  function Handler(mail: Mail, env: Env, rowFound: bool, clean: bool): Outcome
  {
    if !rowFound then Outcome([], true) else Interrupted(Uninterrupted(mail, env, clean), env)
  }

  /** The exception, if there is one, hides everything after it and makes the callback fail. */
  function Interrupted(full: Outcome, env: Env): Outcome
  {
    if env.cut.Some? && env.cut.value <= |full.actions| then Outcome(full.actions[..env.cut.value], false) else full
  }

  /** The broker effects of the policy, as actions. */
  function Policy(mail: Mail, ok: bool, maxRetries: nat): seq<Action>
  {
    var es := RetryPolicy.Effects(RetryPolicy.Message(RetryPolicy.Object(mail.payload), mail.headers), maxRetries, ok);
    if es[0].Publish? then [Send(mail.(headers := es[0].message.headers)), Ack]
    else if |es| == 1 then [Ack] else [Drop]
  }

  function Plan(c: Config, mail: Mail, env: Env, rowFound: bool): seq<Action>
  {
    var h := Handler(mail, env, rowFound, c.clean(mail.payload.file));
    h.actions + ((if h.ok then [] else [HandlerFailed]) + Policy(mail, h.ok, c.maxRetries))
  }

  /** One consumer process, writing down what it does. */
  class StageWorker {
    var log: seq<Action>
    var done: nat

    constructor ()
      ensures log == []
    {
      log, done := [], 0;
    }

    /** Does the next thing of `full` to the outside world, unless the exception comes first. */
    method Try(a: Action, env: Env, ghost start: seq<Action>, ghost full: Outcome) returns (raised: bool)
      requires done < |full.actions| && full.actions[done] == a && log == start + full.actions[..done]
      requires env.cut.None? || done <= env.cut.value
      modifies this
      ensures raised <==> env.cut == Some(old(done))
      ensures raised ==> log == start + Interrupted(full, env).actions && !Interrupted(full, env).ok
      ensures !raised ==> done == old(done) + 1 && log == start + full.actions[..done]
      ensures !raised ==> env.cut.None? || done <= env.cut.value
    {
      raised := env.cut == Some(done);
      if !raised {
        assert full.actions[..done + 1] == full.actions[..done] + [a];
        log, done := log + [a], done + 1;
      }
    }

    /** The handler is through, unless an exception comes after its last action. */
    method Finish(env: Env, ghost start: seq<Action>, ghost full: Outcome) returns (ok: bool)
      requires done == |full.actions| && log == start + full.actions[..done] && full.ok
      requires env.cut.None? || done <= env.cut.value
      ensures log == start + Interrupted(full, env).actions && ok == Interrupted(full, env).ok
    {
      assert full.actions[..done] == full.actions;
      ok := env.cut != Some(done);
    }

    method ProcessAvScan(mail: Mail, env: Env, rowFound: bool, clean: bool) returns (ok: bool)
      requires mail.stage.AvScan?
      modifies this
      ensures rowFound && env.cut.None? && env.scanRaises ==> !ok && log == old(log) + [Commit(Scanning), Commit(Error)]
      ensures var h := Handler(mail, env, rowFound, clean); log == old(log) + h.actions && ok == h.ok
    {
      done := 0;
      if !rowFound {
        return true;
      }
      ghost var start, full := log, Uninterrupted(mail, env, clean);
      var raised := Try(Commit(Scanning), env, start, full);
      if raised { return false; }
      if env.scanRaises {
        raised := Try(Commit(Error), env, start, full);
        return false;
      }
      if clean {
        raised := Try(Commit(ScanClean), env, start, full);
        if raised { return false; }
        raised := Try(Send(Mail(Transcode, mail.payload.(avClean := true), None)), env, start, full);
        if raised { return false; }
      } else {
        raised := Try(Commit(Quarantined), env, start, full);
        if raised { return false; }
      }
      ok := Finish(env, start, full);
    }

    method ProcessTranscode(mail: Mail, env: Env, rowFound: bool, clean: bool) returns (ok: bool)
      requires mail.stage.Transcode?
      modifies this
      ensures var h := Handler(mail, env, rowFound, clean); log == old(log) + h.actions && ok == h.ok
    {
      done := 0;
      if !rowFound {
        return true;
      }
      ghost var start, full := log, Uninterrupted(mail, env, clean);
      var raised := Try(Commit(Transcoding), env, start, full);
      if raised { return false; }
      if !env.transcodes {
        raised := Try(Commit(TranscodeFailed), env, start, full);
        if raised { return false; }
        ok := Finish(env, start, full);
        return;
      }
      ok := StoreAndPublish(mail, OutputName(mail.payload.storedName), env, start, full);
    }

    /** The rest of process_transcode, once ffmpeg has succeeded: store, commit, then publish. */
    method StoreAndPublish(mail: Mail, name: string, env: Env, ghost start: seq<Action>, ghost full: Outcome)
        returns (ok: bool)
      requires full == Outcome([Commit(Transcoding), Store(name), Commit(Transcoded),
                                Send(Mail(FileReady, mail.payload.(transcodedName := Some(name)), None))], true)
      requires done == 1 && log == start + full.actions[..done] && (env.cut.None? || done <= env.cut.value)
      modifies this
      ensures log == start + Interrupted(full, env).actions && ok == Interrupted(full, env).ok
    {
      var raised := Try(Store(name), env, start, full);
      if raised { return false; }
      raised := Try(Commit(Transcoded), env, start, full);
      if raised { return false; }
      raised := Try(Send(Mail(FileReady, mail.payload.(transcodedName := Some(name)), None)), env, start, full);
      if raised { return false; }
      ok := Finish(env, start, full);
    }

    method ProcessFileReady(mail: Mail, env: Env, rowFound: bool, clean: bool) returns (ok: bool)
      requires mail.stage.FileReady?
      modifies this
      ensures var h := Handler(mail, env, rowFound, clean); log == old(log) + h.actions && ok == h.ok
    {
      done := 0;
      if !rowFound {
        return true;
      }
      ghost var start, full := log, Uninterrupted(mail, env, clean);
      var raised := Try(Commit(ReadyForTransfer), env, start, full);
      if raised { return false; }
      if env.pullRaises {
        return false;
      }
      raised := Try(SendPull(mail.payload), env, start, full);
      if raised { return false; }
      raised := Try(Commit(Transferring), env, start, full);
      if raised { return false; }
      ok := Finish(env, start, full);
    }

    /** One delivery: the stage's callback, then what the consumer does with its answer. */
    method Deliver(c: Config, mail: Mail, env: Env, rowFound: bool)
      modifies this
      ensures log == old(log) + Plan(c, mail, env, rowFound)
    {
      var ok;
      var clean := c.clean(mail.payload.file);
      match mail.stage {
        case AvScan => ok := ProcessAvScan(mail, env, rowFound, clean);
        case Transcode => ok := ProcessTranscode(mail, env, rowFound, clean);
        case FileReady => ok := ProcessFileReady(mail, env, rowFound, clean);
      }
      Settle(c, mail, ok);
    }

    /** What the consumer does with the callback's answer. */
    method Settle(c: Config, mail: Mail, ok: bool)
      modifies this
      ensures log == old(log) + ((if ok then [] else [HandlerFailed]) + Policy(mail, ok, c.maxRetries))
    {
      if ok {
        log := log + [Ack];
        return;
      }
      var d := RetryPolicy.NextRetryDecision(mail.headers, c.maxRetries);
      if d.retry {
        log := log + [HandlerFailed, Send(mail.(headers := Some(d.headers))), Ack];
      } else {
        log := log + [HandlerFailed, Drop];
      }
    }
  }

  // ---- The machine --------------------------------------------------------------------------------

  datatype Task = Task(mail: Mail, todo: seq<Action>)

  datatype World = World(
    pool: multiset<Mail>,                // queued messages of the three queues
    tasks: map<int, Task>,               // unacked deliveries, by worker
    pulled: set<Payload>,                // everything ever published to internal_pull
    status: map<FileId, Status>,         // the uploaded_files rows
    stored: set<string>,                 // transcoded objects
    announced: set<FileId>,              // files whose av_scan message reached the broker
    failed: multiset<(Stage, FileId)>,   // handler failures so far
    spent: set<(Stage, FileId)>)         // files a stage dropped a message of

  datatype Step =
    | Register(file: FileId)                            // the upload commits its row
    | Announce(file: FileId, storedName: string)        // ... and publishes to av_scan
    | Receive(worker: int, mail: Mail, env: Env)
    | Act(worker: int)
    | Crash(worker: int)

  const Init := World(multiset{}, map[], {}, map[], {}, {}, multiset{}, {})

  predicate Enabled(w: World, s: Step)
  {
    match s
    case Register(file) => file !in w.status
    case Announce(file, _) => file in w.status
    case Receive(worker, mail, _) => worker !in w.tasks && mail in w.pool
    case Act(worker) => worker in w.tasks && w.tasks[worker].todo != []
    case Crash(worker) => worker in w.tasks
  }

  function ActOn(w: World, mail: Mail, a: Action): World
  {
    var file := mail.payload.file;
    match a
    case Commit(s) => if file in w.status then w.(status := w.status[file := s]) else w
    case Store(name) => w.(stored := w.stored + {name})
    case Send(m) => w.(pool := w.pool + multiset{m})
    case SendPull(p) => w.(pulled := w.pulled + {p})
    case HandlerFailed => w.(failed := w.failed + multiset{(mail.stage, file)})
    case Ack => w
    case Drop => w.(spent := w.spent + {(mail.stage, file)})
  }

  function Next(c: Config, w: World, s: Step): World
  {
    if !Enabled(w, s) then w else
    match s
    case Register(file) => w.(status := w.status[file := Pending])
    case Announce(file, name) =>
      w.(announced := w.announced + {file},
        pool := w.pool + multiset{Mail(AvScan, Payload(file, name, false, None), None)})
    case Receive(worker, mail, env) =>
      w.(pool := w.pool - multiset{mail},
         tasks := w.tasks[worker := Task(mail, Plan(c, mail, env, mail.payload.file in w.status))])
    case Act(worker) =>
      var t := w.tasks[worker];
      var w' := ActOn(w, t.mail, t.todo[0]);
      if |t.todo| == 1 then w'.(tasks := w.tasks - {worker})
        else w'.(tasks := w.tasks[worker := t.(todo := t.todo[1..])])
    case Crash(worker) =>
      w.(pool := w.pool + multiset{w.tasks[worker].mail}, tasks := w.tasks - {worker})
  }

  predicate IsRun(c: Config, run: seq<Step>)
  {
    run == [] || (IsRun(c, run[..|run| - 1]) && Enabled(Exec(c, run[..|run| - 1]), run[|run| - 1]))
  }

  function Exec(c: Config, run: seq<Step>): World
  {
    if run == [] then Init else Next(c, Exec(c, run[..|run| - 1]), run[|run| - 1])
  }

  // ---- Invariant ----------------------------------------------------------------------------------

  /** Actions that leave something behind for the file: a queued message, a terminal status or a spent budget. */
  predicate Owes(a: Action)
  {
    a.Send? || a.Drop? || (a.Commit? && Terminal(a.status))
  }

  predicate Owing(todo: seq<Action>)
  {
    exists i :: 0 <= i < |todo| && Owes(todo[i])
  }

  predicate StageOk(c: Config, mail: Mail, stored: set<string>)
  {
    var p := mail.payload;
    && (!mail.stage.AvScan? ==> c.clean(p.file) && p.avClean)
    && (mail.stage.FileReady? ==>
          p.transcodedName == Some(OutputName(p.storedName)) && OutputName(p.storedName) in stored)
  }

  predicate PullOk(c: Config, p: Payload, stored: set<string>)
  {
    StageOk(c, Mail(FileReady, p, None), stored)
  }

  /** A mail and its history: `failures` is how often its stage has failed on its file. */
  predicate MailOk(c: Config, mail: Mail, stored: set<string>, failures: nat)
  {
    StageOk(c, mail, stored) && RetryPolicy.RetryCount(mail.headers) <= failures
      && RetryPolicy.RetryCount(mail.headers) <= c.maxRetries
  }

  predicate StatusOk(c: Config, file: FileId, s: Status, isPulled: bool)
  {
    && (s.Quarantined? ==> !c.clean(file))
    && (s.TranscodeFailed? ==> c.clean(file))
    && (s.Transferring? ==> isPulled)
  }

  function StoredAfter(stored: set<string>, a: Action): set<string>
  {
    if a.Store? then stored + {a.name} else stored
  }

  function FailuresAfter(failures: nat, a: Action): nat
  {
    if a.HandlerFailed? then failures + 1 else failures
  }

  /** The next action is right in a world with these objects, pulls and failures, `rest` being the plan after it. */
  predicate HeadOk(c: Config, mail: Mail, a: Action, rest: seq<Action>, stored: set<string>, isPulled: bool,
      failures: nat)
  {
    var file := mail.payload.file;
    match a
    case Commit(s) => StatusOk(c, file, s, isPulled) && (Terminal(s) || Owing(rest))
    case Send(m) => m.payload.file == file && MailOk(c, m, stored, if m.stage == mail.stage then failures else 0)
    case SendPull(p) => p.file == file && PullOk(c, p, stored)
    case Ack => rest == []
    case Drop => rest == [] && c.maxRetries < failures
    case _ => true
  }

  /** What is left of a plan can be run safely in any world that has at least these objects, pulls and failures. */
  predicate TodoOk(c: Config, mail: Mail, todo: seq<Action>, stored: set<string>, isPulled: bool, failures: nat)
    decreases |todo|
  {
    todo == [] ||
    (var a, rest := todo[0], todo[1..];
     && HeadOk(c, mail, a, rest, stored, isPulled, failures)
     && TodoOk(c, mail, rest, StoredAfter(stored, a), isPulled || a.SendPull?, FailuresAfter(failures, a)))
  }

  predicate Pulled(w: World, file: FileId)
  {
    exists p :: p in w.pulled && p.file == file
  }

  predicate Queued(w: World, file: FileId)
  {
    exists m :: m in w.pool && m.payload.file == file
  }

  predicate Working(w: World, file: FileId)
  {
    exists k :: k in w.tasks && w.tasks[k].mail.payload.file == file && Owing(w.tasks[k].todo)
  }

  predicate Spent(w: World, file: FileId)
  {
    exists st :: st in {AvScan, Transcode, FileReady} && (st, file) in w.spent
  }

  function Failures(w: World, mail: Mail): nat
  {
    w.failed[(mail.stage, mail.payload.file)]
  }

  predicate MailsOk(c: Config, w: World)
  {
    forall m :: m in w.pool ==> MailOk(c, m, w.stored, Failures(w, m)) && m.payload.file in w.announced
  }

  predicate TaskOk(c: Config, w: World, t: Task)
  {
    && MailOk(c, t.mail, w.stored, Failures(w, t.mail)) && t.mail.payload.file in w.announced
    && t.todo != []
    && TodoOk(c, t.mail, t.todo, w.stored, Pulled(w, t.mail.payload.file), Failures(w, t.mail))
  }

  predicate TasksOk(c: Config, w: World)
  {
    forall k :: k in w.tasks ==> TaskOk(c, w, w.tasks[k])
  }

  predicate PullsOk(c: Config, w: World)
  {
    forall p :: p in w.pulled ==> PullOk(c, p, w.stored)
  }

  predicate StatusesOk(c: Config, w: World)
  {
    forall f :: f in w.status ==> StatusOk(c, f, w.status[f], Pulled(w, f))
  }

  predicate SpentOk(c: Config, w: World)
  {
    forall x :: x in w.spent ==> c.maxRetries < w.failed[x]
  }

  /** No lost file: something still works on it, or its row is terminal, or a stage spent its whole budget on it. */
  predicate CarriedOk(w: World)
  {
    forall f :: f in w.announced ==>
      f in w.status && (Terminal(w.status[f]) || Queued(w, f) || Working(w, f) || Spent(w, f))
  }

  predicate Inv(c: Config, w: World)
  {
    MailsOk(c, w) && TasksOk(c, w) && PullsOk(c, w) && StatusesOk(c, w) && SpentOk(c, w) && CarriedOk(w)
  }

  // ---- Plans are safe -----------------------------------------------------------------------------

  /** The end of a delivery: the policy after the handler's answer. */
  lemma PolicyOk(c: Config, mail: Mail, ok: bool, stored: set<string>, isPulled: bool, failures: nat)
    requires MailOk(c, mail, stored, failures)
    ensures
      var tail := (if ok then [] else [HandlerFailed]) + Policy(mail, ok, c.maxRetries);
      TodoOk(c, mail, tail, stored, isPulled, failures) && (!ok ==> Owing(tail))
  {
    var tail := (if ok then [] else [HandlerFailed]) + Policy(mail, ok, c.maxRetries);
    if ok {
      assert tail == [Ack];
    } else if RetryPolicy.RetryCount(mail.headers) < c.maxRetries {
      var again := mail.(headers := Some(RetryPolicy.NextRetryDecision(mail.headers, c.maxRetries).headers));
      assert tail == [HandlerFailed, Send(again), Ack] && tail[1..] == [Send(again), Ack] && tail[1..][1..] == [Ack];
      assert TodoOk(c, mail, [Ack], stored, isPulled, failures + 1);
      assert TodoOk(c, mail, tail[1..], stored, isPulled, failures + 1);
      assert Owes(tail[1]);
    } else {
      assert tail == [HandlerFailed, Drop] && tail[1..] == [Drop];
      assert Owes(tail[1]);
    }
  }

  predicate ActOk(c: Config, mail: Mail, a: Action, stored: set<string>, isPulled: bool)
  {
    var file := mail.payload.file;
    && !a.HandlerFailed? && !a.Ack? && !a.Drop?
    && (a.Commit? ==> StatusOk(c, file, a.status, isPulled))
    && (a.Send? ==> a.mail.payload.file == file && MailOk(c, a.mail, stored, 0))
    && (a.SendPull? ==> a.payload.file == file && PullOk(c, a.payload, stored))
  }

  /** Handler actions that may run in this order, whatever follows them. */
  predicate ActsOk(c: Config, mail: Mail, acts: seq<Action>, stored: set<string>, isPulled: bool)
    decreases |acts|
  {
    acts == [] ||
    (ActOk(c, mail, acts[0], stored, isPulled)
     && ActsOk(c, mail, acts[1..], StoredAfter(stored, acts[0]), isPulled || acts[0].SendPull?))
  }

  lemma ActsOkCons(c: Config, mail: Mail, a: Action, rest: seq<Action>, stored: set<string>, isPulled: bool)
    requires ActOk(c, mail, a, stored, isPulled)
    requires ActsOk(c, mail, rest, StoredAfter(stored, a), isPulled || a.SendPull?)
    ensures ActsOk(c, mail, [a] + rest, stored, isPulled)
  {
    assert ([a] + rest)[1..] == rest;
  }

  lemma ActsOkTwo(c: Config, mail: Mail, a: Action, b: Action, rest: seq<Action>, stored: set<string>, isPulled: bool)
    requires ActOk(c, mail, a, stored, isPulled) && ActOk(c, mail, b, StoredAfter(stored, a), isPulled || a.SendPull?)
    requires ActsOk(c, mail, rest, StoredAfter(StoredAfter(stored, a), b), isPulled || a.SendPull? || b.SendPull?)
    ensures ActsOk(c, mail, [a, b] + rest, stored, isPulled)
  {
    ActsOkCons(c, mail, b, rest, StoredAfter(stored, a), isPulled || a.SendPull?);
    ActsOkCons(c, mail, a, [b] + rest, stored, isPulled);
    assert [a, b] + rest == [a] + ([b] + rest);
  }

  lemma {:induction false} ActsOkPrefix(c: Config, mail: Mail, acts: seq<Action>, stored: set<string>, isPulled: bool,
      k: nat)
    requires ActsOk(c, mail, acts, stored, isPulled) && k <= |acts|
    ensures ActsOk(c, mail, acts[..k], stored, isPulled)
    decreases k
  {
    if k > 0 {
      assert acts[..k][1..] == acts[1..][..k - 1];
      ActsOkPrefix(c, mail, acts[1..], StoredAfter(stored, acts[0]), isPulled || acts[0].SendPull?, k - 1);
    }
  }

  lemma OwingCons(a: Action, rest: seq<Action>)
    ensures Owing([a] + rest) <==> Owes(a) || Owing(rest)
  {
    assert ([a] + rest)[0] == a;
    if i :| 0 <= i < |rest| && Owes(rest[i]) {
      assert Owes(([a] + rest)[i + 1]);
    }
  }

  /**
   Handler actions followed by the policy: every status they commit is followed by something that carries the file on.
   */
  lemma {:induction false} WithPolicyOk(c: Config, mail: Mail, acts: seq<Action>, ok: bool, stored: set<string>,
      isPulled: bool, failures: nat)
    requires MailOk(c, mail, stored, failures) && ActsOk(c, mail, acts, stored, isPulled)
    requires ok && acts != [] ==> Owes(acts[|acts| - 1])
    ensures
      var todo := acts + ((if ok then [] else [HandlerFailed]) + Policy(mail, ok, c.maxRetries));
      TodoOk(c, mail, todo, stored, isPulled, failures) && (!ok || acts != [] ==> Owing(todo))
    decreases |acts|
  {
    var tail := (if ok then [] else [HandlerFailed]) + Policy(mail, ok, c.maxRetries);
    if acts == [] {
      assert acts + tail == tail;
      PolicyOk(c, mail, ok, stored, isPulled, failures);
    } else {
      var a, rest := acts[0], acts[1..];
      WithPolicyOk(c, mail, rest, ok, StoredAfter(stored, a), isPulled || a.SendPull?, failures);
      var todo := acts + tail;
      assert todo == [a] + (rest + tail);
      assert todo[1..] == rest + tail && todo[0] == a;
      OwingCons(a, rest + tail);
      assert HeadOk(c, mail, a, rest + tail, stored, isPulled, failures);
    }
  }

  /** A handler's full action list is safe, and if the handler succeeds it ends by carrying the file on. */
  predicate OutcomeOk(c: Config, mail: Mail, h: Outcome, stored: set<string>, isPulled: bool)
  {
    ActsOk(c, mail, h.actions, stored, isPulled) && h.actions != [] && (h.ok ==> Owes(h.actions[|h.actions| - 1]))
  }

  lemma AvScanOk(c: Config, mail: Mail, env: Env, stored: set<string>, isPulled: bool)
    requires mail.stage.AvScan?
    ensures OutcomeOk(c, mail, Uninterrupted(mail, env, c.clean(mail.payload.file)), stored, isPulled)
  {
    var acts := Uninterrupted(mail, env, c.clean(mail.payload.file)).actions;
    if |acts| == 2 {
      ActsOkTwo(c, mail, Commit(Scanning), acts[1], [], stored, isPulled);
      assert acts == [Commit(Scanning), acts[1]] + [];
    } else {
      ActsOkCons(c, mail, acts[2], [], stored, isPulled);
      ActsOkTwo(c, mail, Commit(Scanning), Commit(ScanClean), [acts[2]] + [], stored, isPulled);
      assert acts == [Commit(Scanning), Commit(ScanClean)] + ([acts[2]] + []);
    }
  }

  lemma TranscodeOk(c: Config, mail: Mail, env: Env, stored: set<string>, isPulled: bool)
    requires mail.stage.Transcode? && StageOk(c, mail, stored)
    ensures OutcomeOk(c, mail, Uninterrupted(mail, env, c.clean(mail.payload.file)), stored, isPulled)
  {
    var acts := Uninterrupted(mail, env, c.clean(mail.payload.file)).actions;
    if |acts| == 2 {
      ActsOkTwo(c, mail, Commit(Transcoding), Commit(TranscodeFailed), [], stored, isPulled);
      assert acts == [Commit(Transcoding), Commit(TranscodeFailed)] + [];
    } else {
      ActsOkTwo(c, mail, Commit(Transcoded), acts[3], [], StoredAfter(stored, acts[1]), isPulled);
      ActsOkTwo(c, mail, Commit(Transcoding), acts[1], [Commit(Transcoded), acts[3]] + [], stored, isPulled);
      assert acts == [Commit(Transcoding), acts[1]] + ([Commit(Transcoded), acts[3]] + []);
    }
  }

  lemma FileReadyOk(c: Config, mail: Mail, env: Env, stored: set<string>, isPulled: bool)
    requires mail.stage.FileReady? && StageOk(c, mail, stored)
    ensures OutcomeOk(c, mail, Uninterrupted(mail, env, c.clean(mail.payload.file)), stored, isPulled)
  {
    var acts := Uninterrupted(mail, env, c.clean(mail.payload.file)).actions;
    if |acts| == 1 {
      ActsOkCons(c, mail, Commit(ReadyForTransfer), [], stored, isPulled);
      assert acts == [Commit(ReadyForTransfer)] + [];
    } else {
      ActsOkTwo(c, mail, SendPull(mail.payload), Commit(Transferring), [], stored, isPulled);
      ActsOkCons(c, mail, Commit(ReadyForTransfer), [SendPull(mail.payload), Commit(Transferring)] + [], stored,
        isPulled);
      assert acts == [Commit(ReadyForTransfer)] + ([SendPull(mail.payload), Commit(Transferring)] + []);
    }
  }

  /** Every delivery of an existing file runs a safe plan that ends by carrying the file on. */
  lemma PlanOk(c: Config, mail: Mail, env: Env, stored: set<string>, isPulled: bool, failures: nat)
    requires MailOk(c, mail, stored, failures)
    ensures var plan := Plan(c, mail, env, true);
            plan != [] && Owing(plan) && TodoOk(c, mail, plan, stored, isPulled, failures)
  {
    var clean := c.clean(mail.payload.file);
    var full, h := Uninterrupted(mail, env, clean), Handler(mail, env, true, clean);
    assert OutcomeOk(c, mail, full, stored, isPulled) by {
      match mail.stage {
        case AvScan => AvScanOk(c, mail, env, stored, isPulled);
        case Transcode => TranscodeOk(c, mail, env, stored, isPulled);
        case FileReady => FileReadyOk(c, mail, env, stored, isPulled);
      }
    }
    ActsOkPrefix(c, mail, full.actions, stored, isPulled, |h.actions|);
    assert full.actions[..|full.actions|] == full.actions;
    WithPolicyOk(c, mail, h.actions, h.ok, stored, isPulled, failures);
    assert Plan(c, mail, env, true)
      == h.actions + ((if h.ok then [] else [HandlerFailed]) + Policy(mail, h.ok, c.maxRetries));
  }

  // ---- The invariant is inductive -----------------------------------------------------------------

  /** More objects, more pulls and more failures never make the rest of a plan unsafe. */
  lemma {:induction false} TodoOkGrows(c: Config, mail: Mail, todo: seq<Action>,
                                       stored: set<string>, isPulled: bool, failures: nat,
                                       stored': set<string>, isPulled': bool, failures': nat)
    requires TodoOk(c, mail, todo, stored, isPulled, failures)
    requires stored <= stored' && (isPulled ==> isPulled') && failures <= failures'
    ensures TodoOk(c, mail, todo, stored', isPulled', failures')
    decreases |todo|
  {
    if todo != [] {
      var a := todo[0];
      TodoOkGrows(c, mail, todo[1..], StoredAfter(stored, a), isPulled || a.SendPull?, FailuresAfter(failures, a),
                  StoredAfter(stored', a), isPulled' || a.SendPull?, FailuresAfter(failures', a));
    }
  }

  /** What every step does to the history parts of the world. */
  ghost predicate Grows(w: World, w': World)
  {
    && w.stored <= w'.stored && w.pulled <= w'.pulled && w.announced <= w'.announced && w.spent <= w'.spent
    && (forall x :: w.failed[x] <= w'.failed[x])
  }

  lemma TaskOkGrows(c: Config, w: World, w': World, t: Task)
    requires TaskOk(c, w, t) && Grows(w, w')
    ensures TaskOk(c, w', t)
  {
    TodoOkGrows(c, t.mail, t.todo, w.stored, Pulled(w, t.mail.payload.file), Failures(w, t.mail),
                w'.stored, Pulled(w', t.mail.payload.file), Failures(w', t.mail));
  }

  lemma OtherTasksOk(c: Config, w: World, w': World, worker: int)
    requires TasksOk(c, w) && Grows(w, w')
    requires forall k :: k in w'.tasks && k != worker ==> k in w.tasks && w'.tasks[k] == w.tasks[k]
    requires worker in w'.tasks ==> TaskOk(c, w', w'.tasks[worker])
    ensures TasksOk(c, w')
  {
    forall k | k in w'.tasks
      ensures TaskOk(c, w', w'.tasks[k])
    {
      if k != worker {
        TaskOkGrows(c, w, w', w.tasks[k]);
      }
    }
  }

  /** A carrier of `f` that the step leaves alone still carries it. */
  lemma CarrierStays(w: World, w': World, f: FileId)
    requires CarriedOk(w) && f in w.announced && Grows(w, w') && f in w'.status && w'.status[f] == w.status[f]
    requires forall m :: m in w.pool && m.payload.file == f ==> m in w'.pool
    requires forall k :: k in w.tasks && w.tasks[k].mail.payload.file == f && Owing(w.tasks[k].todo) ==>
                           (k in w'.tasks && w'.tasks[k] == w.tasks[k]) || Queued(w', f)
    ensures Terminal(w'.status[f]) || Queued(w', f) || Working(w', f) || Spent(w', f)
  {
    if m :| m in w.pool && m.payload.file == f {
      assert m in w'.pool;
    } else if k :| k in w.tasks && w.tasks[k].mail.payload.file == f && Owing(w.tasks[k].todo) {
      assert Queued(w', f) || w'.tasks[k] == w.tasks[k];
    } else if st :| st in {AvScan, Transcode, FileReady} && (st, f) in w.spent {
      assert (st, f) in w'.spent;
    }
  }

  lemma ReceiveKeepsInv(c: Config, w: World, worker: int, mail: Mail, env: Env)
    requires Inv(c, w) && Enabled(w, Receive(worker, mail, env))
    ensures Inv(c, Next(c, w, Receive(worker, mail, env)))
  {
    var w' := Next(c, w, Receive(worker, mail, env));
    var file := mail.payload.file;
    PlanOk(c, mail, env, w.stored, Pulled(w, file), Failures(w, mail));
    OtherTasksOk(c, w, w', worker);
    assert w'.tasks[worker].mail.payload.file == file && Owing(w'.tasks[worker].todo);
    forall f | f in w'.announced
      ensures f in w'.status && (Terminal(w'.status[f]) || Queued(w', f) || Working(w', f) || Spent(w', f))
    {
      if f == file {
        assert Working(w', f);
      } else {
        CarrierStays(w, w', f);
      }
    }
  }

  lemma CrashKeepsInv(c: Config, w: World, worker: int)
    requires Inv(c, w) && Enabled(w, Crash(worker))
    ensures Inv(c, Next(c, w, Crash(worker)))
  {
    var w' := Next(c, w, Crash(worker));
    OtherTasksOk(c, w, w', worker);
    assert TaskOk(c, w, w.tasks[worker]) && w.tasks[worker].mail in w'.pool;
    forall f | f in w'.announced
      ensures f in w'.status && (Terminal(w'.status[f]) || Queued(w', f) || Working(w', f) || Spent(w', f))
    {
      CarrierStays(w, w', f);
    }
  }

  lemma RegisterKeepsInv(c: Config, w: World, file: FileId)
    requires Inv(c, w) && Enabled(w, Register(file))
    ensures Inv(c, Next(c, w, Register(file)))
  {
    var w' := Next(c, w, Register(file));
    forall k | k in w'.tasks
      ensures TaskOk(c, w', w'.tasks[k])
    {
      TaskOkGrows(c, w, w', w.tasks[k]);
    }
    forall f | f in w'.announced
      ensures f in w'.status && (Terminal(w'.status[f]) || Queued(w', f) || Working(w', f) || Spent(w', f))
    {
      CarrierStays(w, w', f);
    }
  }

  lemma AnnounceKeepsInv(c: Config, w: World, file: FileId, storedName: string)
    requires Inv(c, w) && Enabled(w, Announce(file, storedName))
    ensures Inv(c, Next(c, w, Announce(file, storedName)))
  {
    var w' := Next(c, w, Announce(file, storedName));
    forall k | k in w'.tasks
      ensures TaskOk(c, w', w'.tasks[k])
    {
      TaskOkGrows(c, w, w', w.tasks[k]);
    }
    assert Mail(AvScan, Payload(file, storedName, false, None), None) in w'.pool;
    forall f | f in w'.announced
      ensures f in w'.status && (Terminal(w'.status[f]) || Queued(w', f) || Working(w', f) || Spent(w', f))
    {
      if f != file {
        CarrierStays(w, w', f);
      }
    }
  }

  lemma ActGrows(c: Config, w: World, worker: int)
    requires Enabled(w, Act(worker))
    ensures Grows(w, Next(c, w, Act(worker)))
  {
  }

  /** The acting worker's own plan stays safe, and so do those of the others. */
  lemma ActKeepsTasks(c: Config, w: World, worker: int)
    requires TasksOk(c, w) && Enabled(w, Act(worker))
    ensures TasksOk(c, Next(c, w, Act(worker)))
  {
    var w' := Next(c, w, Act(worker));
    var t := w.tasks[worker];
    var file, a := t.mail.payload.file, t.todo[0];
    assert TaskOk(c, w, t);
    ActGrows(c, w, worker);
    assert a.SendPull? ==> a.payload in w'.pulled && Pulled(w', file);
    if |t.todo| > 1 {
      TodoOkGrows(c, t.mail, t.todo[1..],
                  StoredAfter(w.stored, a), Pulled(w, file) || a.SendPull?, FailuresAfter(Failures(w, t.mail), a),
                  w'.stored, Pulled(w', file), Failures(w', t.mail));
      assert TaskOk(c, w', w'.tasks[worker]);
    }
    OtherTasksOk(c, w, w', worker);
  }

  lemma MailOkGrows(c: Config, w: World, w': World, m: Mail, failures: nat)
    requires MailOk(c, m, w.stored, failures) && Grows(w, w') && failures <= Failures(w, m)
    ensures MailOk(c, m, w'.stored, Failures(w', m))
  {
  }

  lemma ActKeepsMails(c: Config, w: World, worker: int)
    requires MailsOk(c, w) && Enabled(w, Act(worker)) && TaskOk(c, w, w.tasks[worker])
    ensures MailsOk(c, Next(c, w, Act(worker)))
  {
    var w' := Next(c, w, Act(worker));
    var t := w.tasks[worker];
    ActGrows(c, w, worker);
    assert HeadOk(c, t.mail, t.todo[0], t.todo[1..], w.stored, Pulled(w, t.mail.payload.file), Failures(w, t.mail));
    forall m | m in w'.pool
      ensures MailOk(c, m, w'.stored, Failures(w', m)) && m.payload.file in w'.announced
    {
      if m in w.pool {
        MailOkGrows(c, w, w', m, Failures(w, m));
      } else {
        assert t.todo[0] == Send(m);
        MailOkGrows(c, w, w', m, if m.stage == t.mail.stage then Failures(w, t.mail) else 0);
      }
    }
  }

  lemma ActKeepsPulls(c: Config, w: World, worker: int)
    requires PullsOk(c, w) && Enabled(w, Act(worker)) && TaskOk(c, w, w.tasks[worker])
    ensures PullsOk(c, Next(c, w, Act(worker)))
  {
    var w' := Next(c, w, Act(worker));
    var t := w.tasks[worker];
    assert HeadOk(c, t.mail, t.todo[0], t.todo[1..], w.stored, Pulled(w, t.mail.payload.file), Failures(w, t.mail));
    forall p | p in w'.pulled
      ensures PullOk(c, p, w'.stored)
    {
      assert p in w.pulled || t.todo[0] == SendPull(p);
    }
  }

  lemma ActKeepsSpent(c: Config, w: World, worker: int)
    requires SpentOk(c, w) && Enabled(w, Act(worker)) && TaskOk(c, w, w.tasks[worker])
    ensures SpentOk(c, Next(c, w, Act(worker)))
  {
    var w' := Next(c, w, Act(worker));
    var t := w.tasks[worker];
    assert HeadOk(c, t.mail, t.todo[0], t.todo[1..], w.stored, Pulled(w, t.mail.payload.file), Failures(w, t.mail));
    forall x | x in w'.spent
      ensures c.maxRetries < w'.failed[x]
    {
      assert x in w.spent || (t.todo[0].Drop? && x == (t.mail.stage, t.mail.payload.file));
    }
  }

  lemma ActKeepsStatuses(c: Config, w: World, worker: int)
    requires StatusesOk(c, w) && Enabled(w, Act(worker)) && TaskOk(c, w, w.tasks[worker])
    ensures StatusesOk(c, Next(c, w, Act(worker)))
  {
    var w' := Next(c, w, Act(worker));
    var t := w.tasks[worker];
    assert HeadOk(c, t.mail, t.todo[0], t.todo[1..], w.stored, Pulled(w, t.mail.payload.file), Failures(w, t.mail));
    forall f | f in w'.status
      ensures StatusOk(c, f, w'.status[f], Pulled(w', f))
    {
      if p :| p in w.pulled && p.file == f {
        assert p in w'.pulled;
      }
    }
  }

  /** An action on one file leaves every other file's carrier alone. */
  lemma ActKeepsOtherCarried(c: Config, w: World, worker: int, f: FileId)
    requires CarriedOk(w) && Enabled(w, Act(worker)) && f in w.announced && f != w.tasks[worker].mail.payload.file
    ensures var w' := Next(c, w, Act(worker)); Terminal(w'.status[f]) || Queued(w', f) || Working(w', f) || Spent(w', f)
  {
    CarrierStays(w, Next(c, w, Act(worker)), f);
  }

  lemma ActKeepsOwnCarried(c: Config, w: World, worker: int)
    requires CarriedOk(w) && Enabled(w, Act(worker)) && TaskOk(c, w, w.tasks[worker])
    ensures var w', f := Next(c, w, Act(worker)), w.tasks[worker].mail.payload.file;
            Terminal(w'.status[f]) || Queued(w', f) || Working(w', f) || Spent(w', f)
  {
    var w' := Next(c, w, Act(worker));
    var t := w.tasks[worker];
    var f, a, rest := t.mail.payload.file, t.todo[0], t.todo[1..];
    assert HeadOk(c, t.mail, a, rest, w.stored, Pulled(w, f), Failures(w, t.mail));
    assert t.todo == [a] + rest;
    OwingCons(a, rest);
    if Owing(rest) {
      assert w'.tasks[worker] == Task(t.mail, rest);
    } else if Owes(a) {
      assert a.Send? ==> a.mail in w'.pool && a.mail.payload.file == f;
      assert a.Drop? ==> (t.mail.stage, f) in w'.spent;
    } else {
      assert !a.Commit? && !Owing(t.todo);
      CarrierStays(w, w', f);
    }
  }

  lemma ActKeepsInv(c: Config, w: World, worker: int)
    requires Inv(c, w) && Enabled(w, Act(worker))
    ensures Inv(c, Next(c, w, Act(worker)))
  {
    ActKeepsTasks(c, w, worker);
    assert TaskOk(c, w, w.tasks[worker]);
    ActKeepsMails(c, w, worker);
    ActKeepsPulls(c, w, worker);
    ActKeepsSpent(c, w, worker);
    ActKeepsStatuses(c, w, worker);
    ActKeepsOwnCarried(c, w, worker);
    var w' := Next(c, w, Act(worker));
    forall f | f in w'.announced
      ensures f in w'.status && (Terminal(w'.status[f]) || Queued(w', f) || Working(w', f) || Spent(w', f))
    {
      if f != w.tasks[worker].mail.payload.file {
        ActKeepsOtherCarried(c, w, worker, f);
      }
    }
  }

  lemma StepKeepsInv(c: Config, w: World, s: Step)
    requires Inv(c, w) && Enabled(w, s)
    ensures Inv(c, Next(c, w, s))
  {
    match s {
      case Receive(worker, mail, env) => ReceiveKeepsInv(c, w, worker, mail, env);
      case Act(worker) => ActKeepsInv(c, w, worker);
      case Crash(worker) => CrashKeepsInv(c, w, worker);
      case Register(file) => RegisterKeepsInv(c, w, file);
      case Announce(file, name) => AnnounceKeepsInv(c, w, file, name);
    }
  }

  lemma {:induction false} RunKeepsInv(c: Config, run: seq<Step>)
    requires IsRun(c, run)
    ensures Inv(c, Exec(c, run))
    decreases |run|
  {
    if run != [] {
      RunKeepsInv(c, run[..|run| - 1]);
      StepKeepsInv(c, Exec(c, run[..|run| - 1]), run[|run| - 1]);
    }
  }

  // ---- Theorems -----------------------------------------------------------------------------------

  /** No message of the file is queued, and none is being processed. */
  predicate Quiet(w: World, file: FileId)
  {
    !Queued(w, file) && forall k :: k in w.tasks ==> w.tasks[k].mail.payload.file != file
  }

  /**
   No file is lost. In every run, wherever the workers crash, a file whose av_scan message reached the
   broker and which has no message left is quarantined (and infected), or failed to transcode, or was
   published to internal_pull with its transcoded object stored and its row says so; or some stage
   failed on it more than QUEUE_MAX_RETRIES times.
   */
  lemma NoLostFile(c: Config, run: seq<Step>, file: FileId)
    requires IsRun(c, run) && file in Exec(c, run).announced && Quiet(Exec(c, run), file)
    ensures
      var w := Exec(c, run);
      && file in w.status
      && (|| (w.status[file] == Quarantined && !c.clean(file))
          || (w.status[file] == TranscodeFailed && c.clean(file))
          || (w.status[file] == Transferring && c.clean(file)
              && exists p :: p in w.pulled && p.file == file && p.transcodedName == Some(OutputName(p.storedName))
                             && OutputName(p.storedName) in w.stored)
          || exists st ::
               st in {AvScan, Transcode, FileReady} && (st, file) in w.spent && c.maxRetries < w.failed[(st, file)])
  {
    RunKeepsInv(c, run);
    var w := Exec(c, run);
    if Spent(w, file) {
      var st :| st in {AvScan, Transcode, FileReady} && (st, file) in w.spent;
      assert c.maxRetries < w.failed[(st, file)];
    } else if w.status[file].Transferring? {
      assert StatusOk(c, file, w.status[file], Pulled(w, file));
      var p :| p in w.pulled && p.file == file;
      assert PullOk(c, p, w.stored);
    } else {
      assert StatusOk(c, file, w.status[file], Pulled(w, file));
    }
  }

  /** The scan is a gate: despite redeliveries and duplicates, nothing infected is ever past it. */
  lemma ScanGate(c: Config, run: seq<Step>)
    requires IsRun(c, run)
    ensures
      var w := Exec(c, run);
      && (forall m :: m in w.pool && !m.stage.AvScan? ==> c.clean(m.payload.file) && m.payload.avClean)
      && (forall k :: k in w.tasks && !w.tasks[k].mail.stage.AvScan? ==> c.clean(w.tasks[k].mail.payload.file))
      && (forall p :: p in w.pulled ==> c.clean(p.file) && p.avClean)
  {
    RunKeepsInv(c, run);
    var w := Exec(c, run);
    forall k | k in w.tasks && !w.tasks[k].mail.stage.AvScan?
      ensures c.clean(w.tasks[k].mail.payload.file)
    {
      assert TaskOk(c, w, w.tasks[k]);
    }
  }

  /** The object a file_ready or internal_pull message names is already stored. */
  lemma NamedObjectsAreStored(c: Config, run: seq<Step>)
    requires IsRun(c, run)
    ensures
      var w := Exec(c, run);
      && (forall m :: m in w.pool && m.stage.FileReady? ==>
            m.payload.transcodedName.Some? && m.payload.transcodedName.value in w.stored)
      && (forall p :: p in w.pulled ==> p.transcodedName.Some? && p.transcodedName.value in w.stored)
  {
    RunKeepsInv(c, run);
  }

  /** A stage drops a file only after failing on it more than QUEUE_MAX_RETRIES times; no header exceeds the budget. */
  lemma BudgetBeforeDrop(c: Config, run: seq<Step>, st: Stage, file: FileId)
    requires IsRun(c, run)
    ensures (st, file) in Exec(c, run).spent ==> c.maxRetries < Exec(c, run).failed[(st, file)]
    ensures forall m :: m in Exec(c, run).pool ==> RetryPolicy.RetryCount(m.headers) <= c.maxRetries
  {
    RunKeepsInv(c, run);
  }
}
