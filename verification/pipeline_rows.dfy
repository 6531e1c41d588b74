/**
 What the pipeline writes: what one delivery leaves behind, stage by stage, and over every run why each row has the
 status it has and where each message has its name from.
 */
module PipelineRows {
  import opened Wrappers

  import opened Pipeline
  import RetryPolicy

  // ---- One delivery -----------------------------------------------------------------------------------

  /** The world after these actions of a delivery, undisturbed. */
  function Performed(w: World, mail: Mail, acts: seq<Action>): World
    decreases |acts|
  {
    if acts == [] then w else Performed(ActOn(w, mail, acts[0]), mail, acts[1..])
  }

  /** The status a delivery that is not interrupted leaves in the row. */
  function LastStatus(stage: Stage, env: Env, clean: bool): Status
  {
    match stage
    case AvScan => if env.scanRaises then Error else if clean then ScanClean else Quarantined
    case Transcode => if env.transcodes then Transcoded else TranscodeFailed
    case FileReady => if env.pullRaises then ReadyForTransfer else Transferring
  }

  /** The stage's callback returns False. */
  predicate Fails(stage: Stage, env: Env)
  {
    (stage.AvScan? && env.scanRaises) || (stage.FileReady? && env.pullRaises)
  }

  /** The delivery has a message for the next stage. */
  function SentOn(mail: Mail, env: Env, clean: bool): multiset<Mail>
  {
    var p := mail.payload;
    if mail.stage.AvScan? && !env.scanRaises && clean
      then multiset{Mail(Transcode, Payload(p.file, p.storedName, true, p.transcodedName), None)}
    else if mail.stage.Transcode? && env.transcodes
      then multiset{Mail(FileReady, Payload(p.file, p.storedName, p.avClean, Some(OutputName(p.storedName))), None)}
    else multiset{}
  }

  lemma {:induction false} PerformedConcat(w: World, mail: Mail, x: seq<Action>, y: seq<Action>)
    ensures Performed(w, mail, x + y) == Performed(Performed(w, mail, x), mail, y)
    decreases |x|
  {
    hide ActOn;
    if x == [] {
      assert x + y == y;
    } else {
      assert (x + y)[1..] == x[1..] + y;
      PerformedConcat(ActOn(w, mail, x[0]), mail, x[1..], y);
    }
  }

  lemma PerformedOne(w: World, mail: Mail, a: Action)
    ensures Performed(w, mail, [a]) == ActOn(w, mail, a)
  {
    hide ActOn;
    assert [a][1..] == [] && Performed(ActOn(w, mail, a), mail, []) == ActOn(w, mail, a);
  }

  lemma PerformedTwo(w: World, mail: Mail, a: Action, b: Action)
    ensures Performed(w, mail, [a, b]) == ActOn(ActOn(w, mail, a), mail, b)
  {
    hide ActOn, Performed;
    assert [a, b] == [a] + [b];
    PerformedConcat(w, mail, [a], [b]);
    PerformedOne(w, mail, a);
    PerformedOne(ActOn(w, mail, a), mail, b);
  }

  /** One more action after two. */
  lemma PerformedMore(w: World, mail: Mail, a: Action, b: Action, rest: seq<Action>)
    ensures Performed(w, mail, [a, b] + rest) == Performed(ActOn(ActOn(w, mail, a), mail, b), mail, rest)
  {
    hide ActOn, Performed;
    PerformedConcat(w, mail, [a, b], rest);
    PerformedTwo(w, mail, a, b);
  }

  /** What the callback leaves: the status, the object, the message sent on, and the pull. */
  ghost function AfterHandler(c: Config, w: World, mail: Mail, env: Env): World
  {
    var p := mail.payload;
    w.(status := w.status[p.file := LastStatus(mail.stage, env, c.clean(p.file))],
       stored := if mail.stage.Transcode? && env.transcodes then w.stored + {OutputName(p.storedName)} else w.stored,
       pulled := if mail.stage.FileReady? && !env.pullRaises then w.pulled + {p} else w.pulled,
       pool := w.pool + SentOn(mail, env, c.clean(p.file)))
  }

  lemma AvScanLeaves(c: Config, w: World, mail: Mail, env: Env)
    requires mail.stage.AvScan? && mail.payload.file in w.status
    ensures Performed(w, mail, Uninterrupted(mail, env, c.clean(mail.payload.file)).actions)
         == AfterHandler(c, w, mail, env)
  {
    hide Performed;
    var clean := c.clean(mail.payload.file);
    var acts := Uninterrupted(mail, env, clean).actions;
    assert w.pool + multiset{} == w.pool;
    if |acts| == 2 {
      PerformedTwo(w, mail, acts[0], acts[1]);
      assert acts == [acts[0], acts[1]];
    } else {
      PerformedMore(w, mail, acts[0], acts[1], [acts[2]]);
      PerformedOne(ActOn(ActOn(w, mail, acts[0]), mail, acts[1]), mail, acts[2]);
      assert acts == [acts[0], acts[1]] + [acts[2]];
    }
  }

  lemma TranscodeLeaves(c: Config, w: World, mail: Mail, env: Env)
    requires mail.stage.Transcode? && mail.payload.file in w.status
    ensures Performed(w, mail, Uninterrupted(mail, env, c.clean(mail.payload.file)).actions)
         == AfterHandler(c, w, mail, env)
  {
    hide Performed, OutputName;
    var acts := Uninterrupted(mail, env, c.clean(mail.payload.file)).actions;
    if env.transcodes {
      var done := ActOn(ActOn(w, mail, acts[0]), mail, acts[1]);
      PerformedMore(w, mail, acts[0], acts[1], [acts[2], acts[3]]);
      PerformedTwo(done, mail, acts[2], acts[3]);
      assert acts == [acts[0], acts[1]] + [acts[2], acts[3]];
    } else {
      assert w.pool + multiset{} == w.pool;
      PerformedTwo(w, mail, acts[0], acts[1]);
      assert acts == [acts[0], acts[1]];
    }
  }

  lemma FileReadyLeaves(c: Config, w: World, mail: Mail, env: Env)
    requires mail.stage.FileReady? && mail.payload.file in w.status
    ensures Performed(w, mail, Uninterrupted(mail, env, c.clean(mail.payload.file)).actions)
         == AfterHandler(c, w, mail, env)
  {
    hide Performed;
    var acts := Uninterrupted(mail, env, c.clean(mail.payload.file)).actions;
    assert w.pool + multiset{} == w.pool;
    if |acts| == 1 {
      PerformedOne(w, mail, acts[0]);
      assert acts == [acts[0]];
    } else {
      PerformedMore(w, mail, acts[0], acts[1], [acts[2]]);
      PerformedOne(ActOn(ActOn(w, mail, acts[0]), mail, acts[1]), mail, acts[2]);
      assert acts == [acts[0], acts[1]] + [acts[2]];
    }
  }

  lemma HandlerLeaves(c: Config, w: World, mail: Mail, env: Env)
    requires env.cut.None? && mail.payload.file in w.status
    ensures
      var h := Handler(mail, env, true, c.clean(mail.payload.file));
      h.ok == !Fails(mail.stage, env) && Performed(w, mail, h.actions) == AfterHandler(c, w, mail, env)
  {
    hide Performed, OutputName, AfterHandler;
    match mail.stage
    case AvScan => AvScanLeaves(c, w, mail, env);
    case Transcode => TranscodeLeaves(c, w, mail, env);
    case FileReady => FileReadyLeaves(c, w, mail, env);
  }

  /** The message is the one delivered, queued again with one more retry counted. */
  predicate Again(mail: Mail, again: Mail)
  {
    again.stage == mail.stage && again.payload == mail.payload
      && RetryPolicy.RetryCount(again.headers) == RetryPolicy.RetryCount(mail.headers) + 1
  }

  lemma PolicyIs(mail: Mail, ok: bool, maxRetries: nat)
    ensures
      var acts := Policy(mail, ok, maxRetries);
      if ok then acts == [Ack]
      else if RetryPolicy.RetryCount(mail.headers) < maxRetries
      then |acts| == 2 && acts == [acts[0], Ack] && acts[0].Send? && Again(mail, acts[0].mail)
      else acts == [Drop]
  {
  }

  /** What the policy leaves: nothing after a success; a copy with its count, or a spent budget, after a failure. */
  lemma PolicyLeaves(w: World, mail: Mail, ok: bool, maxRetries: nat)
    ensures
      var key := (mail.stage, mail.payload.file);
      var w' := Performed(w, mail, (if ok then [] else [HandlerFailed]) + Policy(mail, ok, maxRetries));
      if ok then w' == w
      else if RetryPolicy.RetryCount(mail.headers) < maxRetries then
        exists again: Mail ::
          Again(mail, again) && w' == w.(failed := w.failed + multiset{key}, pool := w.pool + multiset{again})
      else w' == w.(failed := w.failed + multiset{key}, spent := w.spent + {key})
  {
    hide Performed, Policy, Again;
    PolicyIs(mail, ok, maxRetries);
    var acts := Policy(mail, ok, maxRetries);
    if ok {
      assert [] + acts == [Ack];
      PerformedOne(w, mail, Ack);
    } else if RetryPolicy.RetryCount(mail.headers) < maxRetries {
      assert [HandlerFailed] + acts == [HandlerFailed, acts[0]] + [Ack];
      PerformedMore(w, mail, HandlerFailed, acts[0], [Ack]);
      PerformedOne(ActOn(ActOn(w, mail, HandlerFailed), mail, acts[0]), mail, Ack);
    } else {
      assert [HandlerFailed] + acts == [HandlerFailed, Drop];
      PerformedTwo(w, mail, HandlerFailed, Drop);
    }
  }

  /**
   A whole delivery that is not interrupted: the row ends as the scanner, ffmpeg or the pull decides; the next stage
   gets its message exactly after a success; and a failure is queued again with one more retry counted, or given up.
   */
  lemma DeliveryLeaves(c: Config, w: World, mail: Mail, env: Env)
    requires env.cut.None? && mail.payload.file in w.status
    ensures
      var p, n, key := mail.payload, RetryPolicy.RetryCount(mail.headers), (mail.stage, mail.payload.file);
      var clean := c.clean(p.file);
      var w' := Performed(w, mail, Plan(c, mail, env, true));
      && w'.status == w.status[p.file := LastStatus(mail.stage, env, clean)]
      && w'.stored == w.stored + (if mail.stage.Transcode? && env.transcodes then {OutputName(p.storedName)} else {})
      && w'.pulled == w.pulled + (if mail.stage.FileReady? && !env.pullRaises then {p} else {})
      && w'.announced == w.announced && w'.tasks == w.tasks
      && if !Fails(mail.stage, env)
         then w'.pool == w.pool + SentOn(mail, env, clean) && w'.failed == w.failed && w'.spent == w.spent
         else
           && w'.failed == w.failed + multiset{key}
           && if n < c.maxRetries then
                w'.spent == w.spent &&
                exists again: Mail :: Again(mail, again) && w'.pool == w.pool + multiset{again}
              else w'.spent == w.spent + {key} && w'.pool == w.pool
  {
    hide Performed, OutputName, ActOn, Policy, Again;
    var h := Handler(mail, env, true, c.clean(mail.payload.file));
    var tail := (if h.ok then [] else [HandlerFailed]) + Policy(mail, h.ok, c.maxRetries);
    assert Plan(c, mail, env, true) == h.actions + tail;
    HandlerLeaves(c, w, mail, env);
    PerformedConcat(w, mail, h.actions, tail);
    PolicyLeaves(Performed(w, mail, h.actions), mail, h.ok, c.maxRetries);
    if !h.ok {
      assert SentOn(mail, env, c.clean(mail.payload.file)) == multiset{};
      assert w.pool + multiset{} == w.pool;
    }
  }

  // ---- Every run --------------------------------------------------------------------------------------

  /** A delivery of this stage, under this environment, may write the status. */
  predicate Writes(stage: Stage, env: Env, clean: bool, s: Status)
  {
    match s
    case Pending => false
    case Scanning => stage.AvScan?
    case ScanClean => stage.AvScan? && !env.scanRaises && clean
    case Quarantined => stage.AvScan? && !env.scanRaises && !clean
    case Error => stage.AvScan? && env.scanRaises
    case Transcoding => stage.Transcode?
    case Transcoded => stage.Transcode? && env.transcodes
    case TranscodeFailed => stage.Transcode? && !env.transcodes
    case ReadyForTransfer => stage.FileReady?
    case Transferring => stage.FileReady? && !env.pullRaises
  }

  /** Step k delivers a message of the file to a stage that may then write the status. */
  predicate Explains(c: Config, s: Step, file: FileId, status: Status)
  {
    s.Receive? && s.mail.payload.file == file && Writes(s.mail.stage, s.env, c.clean(file), status)
  }

  ghost predicate Explained(c: Config, run: seq<Step>, file: FileId, status: Status)
  {
    exists k :: 0 <= k < |run| && Explains(c, run[k], file, status)
  }

  /** The name in the payload is one the file was announced under. */
  ghost predicate Named(run: seq<Step>, p: Payload)
  {
    Announce(p.file, p.storedName) in run
  }

  predicate SameFile(p: Payload, q: Payload)
  {
    p.file == q.file && p.storedName == q.storedName
  }

  /** An action of a delivery of this message: it writes what is explained, and sends on the file and name it got. */
  ghost predicate Fits(c: Config, run: seq<Step>, mail: Mail, a: Action)
  {
    && (a.Commit? ==> Explained(c, run, mail.payload.file, a.status))
    && (a.Send? ==> SameFile(a.mail.payload, mail.payload))
    && (a.SendPull? ==> SameFile(a.payload, mail.payload))
  }

  ghost predicate AllFit(c: Config, run: seq<Step>, t: Task)
  {
    Named(run, t.mail.payload) && forall i :: 0 <= i < |t.todo| ==> Fits(c, run, t.mail, t.todo[i])
  }

  ghost predicate Accounted(c: Config, run: seq<Step>, w: World)
  {
    && (forall m :: m in w.pool ==> Named(run, m.payload))
    && (forall k :: k in w.tasks ==> AllFit(c, run, w.tasks[k]))
    && (forall p :: p in w.pulled ==> Named(run, p))
    && (forall f :: f in w.status ==> w.status[f].Pending? || Explained(c, run, f, w.status[f]))
  }

  lemma ExplainedGrows(c: Config, run: seq<Step>, s: Step, file: FileId, status: Status)
    ensures Explained(c, run + [s], file, status) <==> Explained(c, run, file, status) || Explains(c, s, file, status)
  {
    var longer := run + [s];
    assert longer[|run|] == s;
    if k :| 0 <= k < |run| && Explains(c, run[k], file, status) {
      assert Explains(c, longer[k], file, status);
    }
  }

  lemma AllFitGrows(c: Config, run: seq<Step>, s: Step, t: Task)
    requires AllFit(c, run, t)
    ensures AllFit(c, run + [s], t)
  {
    hide Explained, Explains;
    forall i | 0 <= i < |t.todo|
      ensures Fits(c, run + [s], t.mail, t.todo[i])
    {
      assert Fits(c, run, t.mail, t.todo[i]);
      if t.todo[i].Commit? {
        ExplainedGrows(c, run, s, t.mail.payload.file, t.todo[i].status);
      }
    }
  }

  predicate PlanActionOk(c: Config, mail: Mail, env: Env, a: Action)
  {
    && (a.Commit? ==> Writes(mail.stage, env, c.clean(mail.payload.file), a.status))
    && (a.Send? ==> SameFile(a.mail.payload, mail.payload))
    && (a.SendPull? ==> SameFile(a.payload, mail.payload))
  }

  lemma UninterruptedFits(c: Config, mail: Mail, env: Env)
    ensures
      var acts := Uninterrupted(mail, env, c.clean(mail.payload.file)).actions;
      forall i :: 0 <= i < |acts| ==> PlanActionOk(c, mail, env, acts[i])
  {
    hide OutputName;
  }

  lemma PolicyFits(c: Config, mail: Mail, env: Env, ok: bool)
    ensures
      var acts := Policy(mail, ok, c.maxRetries);
      forall i :: 0 <= i < |acts| ==> PlanActionOk(c, mail, env, acts[i])
  {
  }

  /** Every action of a plan is one its environment explains, interrupted or not. */
  lemma PlanFits(c: Config, mail: Mail, env: Env, rowFound: bool, i: nat)
    requires i < |Plan(c, mail, env, rowFound)|
    ensures PlanActionOk(c, mail, env, Plan(c, mail, env, rowFound)[i])
  {
    hide Uninterrupted, Policy, Writes, SameFile;
    var h := Handler(mail, env, rowFound, c.clean(mail.payload.file));
    UninterruptedFits(c, mail, env);
    PolicyFits(c, mail, env, h.ok);
    if i < |h.actions| {
      assert h.actions[i] == Uninterrupted(mail, env, c.clean(mail.payload.file)).actions[i];
    }
  }

  lemma ReceivedFits(c: Config, run: seq<Step>, s: Step, rowFound: bool)
    requires s.Receive? && Named(run, s.mail.payload)
    ensures AllFit(c, run + [s], Task(s.mail, Plan(c, s.mail, s.env, rowFound)))
  {
    hide Plan, Explained;
    var plan := Plan(c, s.mail, s.env, rowFound);
    forall i | 0 <= i < |plan|
      ensures Fits(c, run + [s], s.mail, plan[i])
    {
      PlanFits(c, s.mail, s.env, rowFound, i);
      if plan[i].Commit? {
        ExplainedGrows(c, run, s, s.mail.payload.file, plan[i].status);
      }
    }
  }

  lemma RestFits(c: Config, run: seq<Step>, s: Step, t: Task)
    requires AllFit(c, run, t) && t.todo != []
    ensures Fits(c, run, t.mail, t.todo[0]) && AllFit(c, run + [s], t.(todo := t.todo[1..]))
  {
    AllFitGrows(c, run, s, t);
    hide Fits;
  }

  lemma StepKeepsTasks(c: Config, run: seq<Step>, w: World, s: Step, k: int)
    requires Accounted(c, run, w) && Enabled(w, s) && k in Next(c, w, s).tasks
    ensures AllFit(c, run + [s], Next(c, w, s).tasks[k])
  {
    hide AllFit, Plan, Named, Explained;
    var w' := Next(c, w, s);
    if s.Receive? && s.worker == k {
      ReceivedFits(c, run, s, s.mail.payload.file in w.status);
    } else {
      assert k in w.tasks;
      if s.Act? && s.worker == k {
        RestFits(c, run, s, w.tasks[k]);
      } else {
        AllFitGrows(c, run, s, w.tasks[k]);
      }
    }
  }

  lemma StepKeepsRows(c: Config, run: seq<Step>, w: World, s: Step, f: FileId)
    requires Accounted(c, run, w) && Enabled(w, s) && f in Next(c, w, s).status
    ensures var w' := Next(c, w, s); w'.status[f].Pending? || Explained(c, run + [s], f, w'.status[f])
  {
    hide Plan, Named, Explained;
    var w' := Next(c, w, s);
    ExplainedGrows(c, run, s, f, w'.status[f]);
    if s.Act? {
      assert AllFit(c, run, w.tasks[s.worker]);
      assert Fits(c, run, w.tasks[s.worker].mail, w.tasks[s.worker].todo[0]);
    }
  }

  /** Where a message of the next world comes from. */
  lemma PoolComesFrom(c: Config, w: World, s: Step, m: Mail)
    requires Enabled(w, s) && m in Next(c, w, s).pool
    ensures
      || m in w.pool
      || (s.Announce? && m.payload == Payload(s.file, s.storedName, false, None))
      || (s.Act? && w.tasks[s.worker].todo[0] == Send(m))
      || (s.Crash? && w.tasks[s.worker].mail == m)
  {
    hide Plan;
  }

  lemma StepKeepsMailName(c: Config, run: seq<Step>, w: World, s: Step, m: Mail)
    requires Accounted(c, run, w) && Enabled(w, s) && m in Next(c, w, s).pool
    ensures Named(run + [s], m.payload)
  {
    hide Next, Explained, AllFit;
    PoolComesFrom(c, w, s, m);
    if s.Act? || s.Crash? {
      assert AllFit(c, run, w.tasks[s.worker]);
      NamedFirst(c, run, w.tasks[s.worker]);
    }
  }

  lemma StepKeepsPullName(c: Config, run: seq<Step>, w: World, s: Step, p: Payload)
    requires Accounted(c, run, w) && Enabled(w, s) && p in Next(c, w, s).pulled
    ensures Named(run + [s], p)
  {
    hide Plan, Explained, AllFit;
    if s.Act? {
      assert AllFit(c, run, w.tasks[s.worker]);
      NamedFirst(c, run, w.tasks[s.worker]);
    }
  }

  lemma NamedFirst(c: Config, run: seq<Step>, t: Task)
    requires AllFit(c, run, t)
    ensures Named(run, t.mail.payload)
    ensures t.todo != [] ==> Fits(c, run, t.mail, t.todo[0])
  {
  }

  lemma {:induction false} RunIsAccounted(c: Config, run: seq<Step>)
    requires IsRun(c, run)
    ensures Accounted(c, run, Exec(c, run))
    decreases |run|
  {
    hide Next, Enabled, AllFit, Explained, Named;
    if run != [] {
      var before, s := run[..|run| - 1], run[|run| - 1];
      var w := Exec(c, before);
      RunIsAccounted(c, before);
      assert run == before + [s];
      forall m | m in Next(c, w, s).pool
        ensures Named(run, m.payload)
      {
        StepKeepsMailName(c, before, w, s, m);
      }
      forall p | p in Next(c, w, s).pulled
        ensures Named(run, p)
      {
        StepKeepsPullName(c, before, w, s, p);
      }
      forall k | k in Next(c, w, s).tasks
        ensures AllFit(c, run, Next(c, w, s).tasks[k])
      {
        StepKeepsTasks(c, before, w, s, k);
      }
      forall f | f in Next(c, w, s).status
        ensures Next(c, w, s).status[f].Pending? || Explained(c, run, f, Next(c, w, s).status[f])
      {
        StepKeepsRows(c, before, w, s, f);
      }
    }
  }

  /**
   Over every run, interrupted and crashed deliveries included, a row that is not pending has a status that some
   delivery of its file wrote, as its stage and the scanner, ffmpeg or the pull decided.
   */
  lemma StatusIsExplained(c: Config, run: seq<Step>, file: FileId)
    requires IsRun(c, run) && file in Exec(c, run).status
    ensures
      var s := Exec(c, run).status[file];
      s.Pending? || exists k :: 0 <= k < |run| && Explains(c, run[k], file, s)
  {
    RunIsAccounted(c, run);
  }

  lemma {:induction false} PrefixIsRun(c: Config, run: seq<Step>, k: nat)
    requires IsRun(c, run) && k < |run|
    ensures IsRun(c, run[..k]) && Enabled(Exec(c, run[..k]), run[k])
    decreases |run|
  {
    hide Next;
    if k < |run| - 1 {
      PrefixIsRun(c, run[..|run| - 1], k);
      assert run[..|run| - 1][..k] == run[..k];
    }
  }

  /** Past the scan: the statuses only a clean file may ever have. */
  predicate PastScan(s: Status)
  {
    s.ScanClean? || s.Transcoding? || s.Transcoded? || s.TranscodeFailed? || s.ReadyForTransfer? || s.Transferring?
  }

  /** The scan gates the rows: over every run only clean files' are past it, and only infected ones' in quarantine. */
  lemma RowsPastScanAreClean(c: Config, run: seq<Step>, file: FileId)
    requires IsRun(c, run) && file in Exec(c, run).status
    ensures PastScan(Exec(c, run).status[file]) ==> c.clean(file)
    ensures Exec(c, run).status[file].Quarantined? ==> !c.clean(file)
  {
    hide Exec, IsRun;
    StatusIsExplained(c, run, file);
    var s := Exec(c, run).status[file];
    if PastScan(s) {
      var k :| 0 <= k < |run| && Explains(c, run[k], file, s);
      PrefixIsRun(c, run, k);
      ScanGate(c, run[..k]);
    }
  }

  /** Over every run, what reaches the internal zone names the object made from a name its file was announced under. */
  lemma PulledNamesAreAnnounced(c: Config, run: seq<Step>, p: Payload)
    requires IsRun(c, run) && p in Exec(c, run).pulled
    ensures p == Payload(p.file, p.storedName, true, Some(OutputName(p.storedName)))
    ensures Announce(p.file, p.storedName) in run
  {
    RunIsAccounted(c, run);
    RunKeepsInv(c, run);
    assert PullOk(c, p, Exec(c, run).stored);
  }

  // ---- Names ------------------------------------------------------------------------------------------

  lemma {:induction false} LastIndexIs(s: string, c: char)
    ensures var i := LastIndexOf(s, c);
            && (i >= 0 ==> s[i] == c) && (forall k :: i < k < |s| ==> s[k] != c)
  {
    if s != "" && s[|s| - 1] != c {
      LastIndexIs(s[..|s| - 1], c);
    }
  }

  lemma LastIndexAt(s: string, c: char, i: int)
    requires -1 <= i < |s| && (i >= 0 ==> s[i] == c) && forall k :: i < k < |s| ==> s[k] != c
    ensures LastIndexOf(s, c) == i
  {
    LastIndexIs(s, c);
  }

  /** The object's name: the directory goes, and the last extension, if there is a name before it, becomes mp4. */
  lemma OutputNameIs(dir: string, stem: string, ext: string)
    requires dir == "" || dir[|dir| - 1] == '/'
    requires '/' !in stem && '/' !in ext && '.' !in ext
    ensures stem != "" && ext != "" ==> OutputName(dir + stem + "." + ext) == stem + ".mp4"
    ensures stem == "" || ext == "" ==> OutputName(dir + stem + "." + ext) == stem + "." + ext + ".mp4"
    ensures OutputName(dir + ext) == ext + ".mp4"
  {
    hide LastIndexOf, OutputName;
    var base := stem + "." + ext;
    assert dir + stem + "." + ext == dir + base;
    LastIndexAt(base, '.', |stem|);
    NameOf(dir, base);
    assert base[..|stem|] == stem;
    LastIndexAt(ext, '.', -1);
    NameOf(dir, ext);
  }

  lemma NameOf(dir: string, base: string)
    requires (dir == "" || dir[|dir| - 1] == '/') && '/' !in base
    ensures OutputName(dir + base)
         == (if 0 < LastIndexOf(base, '.') < |base| - 1 then base[..LastIndexOf(base, '.')] else base) + ".mp4"
  {
    hide LastIndexOf;
    BaseName(dir, base);
  }

  lemma BaseName(dir: string, base: string)
    requires (dir == "" || dir[|dir| - 1] == '/') && '/' !in base
    ensures (dir + base)[LastIndexOf(dir + base, '/') + 1..] == base
  {
    var s := dir + base;
    assert dir == "" ==> s == base;
    LastIndexAt(s, '/', |dir| - 1);
    assert s[|dir|..] == base;
  }
}
