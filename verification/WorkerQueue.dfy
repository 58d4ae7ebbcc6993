/** The worker queue of the manifest generator as a protocol: the main routine, the workers, the
    message printer and the error collector take steps in any interleaving, and meet at bounded
    channels and wait groups. */
module WorkerQueue {
  import opened Basics

  /** A job that terminates: it sends its messages and returns an error or none. */
  datatype Job = Job(messages: seq<string>, error: Option<string>)

  datatype Setup = Setup(nworkers: nat, jobs: seq<Job>)

  datatype Main =
    | Starting(started: nat)
    | Submitting(submitted: nat)
    | ClosingJobs
    | AwaitingWorkers
    | ClosingMessages
    | ClosingErrors
    | AwaitingUtil
    | Returned

  datatype Worker =
    | Spawned
    | Receiving
    | Working(job: Job, sent: nat)
    | Reporting(error: string)
    | Leaving
    | Finishing
    | Exited
  {
    /** `Done` has been called on the worker group. */
    predicate Left() {
      Finishing? || Exited?
    }

    predicate OutOfLoop() {
      Leaving? || Finishing? || Exited?
    }
  }

  datatype Util = NotStarted | Running | Stopped

  /** A channel: what is queued, and whether it was closed. */
  datatype Channel<T> = Channel(queue: seq<T>, closed: bool)
  {
    predicate CanReceive() {
      queue != [] || closed
    }

    /** A send proceeds when there is room; on a closed channel it proceeds to a panic. */
    predicate CanSend(capacity: nat) {
      |queue| < capacity || closed
    }

    function Push(x: T): Channel<T> {
      Channel(queue + [x], closed)
    }

    function Pop(): Channel<T>
      requires queue != []
    {
      Channel(queue[1..], closed)
    }

    function Close(): Channel<T> {
      Channel(queue, true)
    }
  }

  datatype Crew = Crew(workers: seq<Worker>, group: int, active: int)
  {
    function Hire(): Crew {
      Crew(workers + [Spawned], group + 1, active)
    }

    function Becomes(k: nat, w: Worker): Crew
      requires k < |workers|
    {
      Crew(workers[k := w], group, active)
    }
  }

  datatype Helpers = Helpers(printer: Util, collector: Util, group: int)

  datatype Log = Log(printed: seq<string>, errors: seq<string>, finished: seq<Job>)

  datatype State = State(
    main: Main,
    jobs: Channel<Job>,
    msgs: Channel<string>,
    errs: Channel<string>,
    crew: Crew,
    util: Helpers,
    log: Log,
    panicked: bool)

  datatype Actor = MainRoutine | WorkerRoutine(index: nat) | Printer | Collector

  function Initial(): State {
    State(Starting(0), Channel([], false), Channel([], false), Channel([], false), Crew([], 0, 0),
          Helpers(NotStarted, NotStarted, 0), Log([], [], []), false)
  }

  // ---------- steps ----------

  /** Whether a routine can take its next step, or is blocked or finished. */
  predicate Enabled(c: Setup, s: State, a: Actor) {
    match a
    case MainRoutine =>
      (match s.main
       case Submitting(i) => i == |c.jobs| || s.jobs.CanSend(|c.jobs|)
       case AwaitingWorkers => s.crew.group == 0
       case AwaitingUtil => s.util.group == 0
       case Returned => false
       case _ => true)
    case WorkerRoutine(k) =>
      k < |s.crew.workers| &&
      (match s.crew.workers[k]
       case Receiving => s.jobs.CanReceive()
       case Working(job, sent) => sent >= |job.messages| || s.msgs.CanSend(c.nworkers)
       case Reporting(_) => s.errs.CanSend(c.nworkers)
       case Exited => false
       case _ => true)
    case Printer => s.util.printer.Running? && s.msgs.CanReceive()
    case Collector => s.util.collector.Running? && s.errs.CanReceive()
  }

  function MainStep(c: Setup, s: State): State
    requires Enabled(c, s, MainRoutine)
  {
    match s.main
    case Starting(n) =>
      if n == 0 then s.(main := Starting(1), util := Helpers(Running, s.util.collector, s.util.group + 1))
      else if n == 1 then s.(main := Starting(2), util := Helpers(s.util.printer, Running, s.util.group + 1))
      else if n < c.nworkers + 2 then s.(main := Starting(n + 1), crew := s.crew.Hire())
      else s.(main := Submitting(0))
    case Submitting(i) =>
      if i >= |c.jobs| then s.(main := ClosingJobs)
      else if s.jobs.closed then s.(panicked := true)
      else s.(main := Submitting(i + 1), jobs := s.jobs.Push(c.jobs[i]))
    case ClosingJobs => s.(main := AwaitingWorkers, jobs := s.jobs.Close(), panicked := s.panicked || s.jobs.closed)
    case AwaitingWorkers => s.(main := ClosingMessages)
    case ClosingMessages => s.(main := ClosingErrors, msgs := s.msgs.Close(), panicked := s.panicked || s.msgs.closed)
    case ClosingErrors => s.(main := AwaitingUtil, errs := s.errs.Close(), panicked := s.panicked || s.errs.closed)
    case AwaitingUtil => s.(main := Returned)
    case Returned => s
  }

  function WorkerStep(c: Setup, s: State, k: nat): State
    requires Enabled(c, s, WorkerRoutine(k))
  {
    match s.crew.workers[k]
    case Spawned => s.(crew := s.crew.Becomes(k, Receiving).(active := s.crew.active + 1))
    case Receiving =>
      if s.jobs.queue != [] then s.(crew := s.crew.Becomes(k, Working(s.jobs.queue[0], 0)), jobs := s.jobs.Pop())
      else s.(crew := s.crew.Becomes(k, Leaving))
    case Working(job, sent) =>
      if sent >= |job.messages| then
        s.(crew := s.crew.Becomes(k, if job.error.Some? then Reporting(job.error.value) else Receiving),
           log := s.log.(finished := s.log.finished + [job]))
      else if s.msgs.closed then s.(panicked := true)
      else s.(crew := s.crew.Becomes(k, Working(job, sent + 1)), msgs := s.msgs.Push(job.messages[sent]))
    case Reporting(error) =>
      if s.errs.closed then s.(panicked := true)
      else s.(crew := s.crew.Becomes(k, Receiving), errs := s.errs.Push(error))
    case Leaving =>
      s.(crew := s.crew.Becomes(k, Finishing).(group := s.crew.group - 1), panicked := s.panicked || s.crew.group <= 0)
    case Finishing => s.(crew := s.crew.Becomes(k, Exited).(active := s.crew.active - 1))
    case Exited => s
  }

  function PrinterStep(s: State): State {
    if s.msgs.queue != [] then s.(log := s.log.(printed := s.log.printed + [s.msgs.queue[0]]), msgs := s.msgs.Pop())
    else s.(util := s.util.(printer := Stopped, group := s.util.group - 1))
  }

  function CollectorStep(s: State): State {
    if s.errs.queue != [] then s.(log := s.log.(errors := s.log.errors + [s.errs.queue[0]]), errs := s.errs.Pop())
    else s.(util := s.util.(collector := Stopped, group := s.util.group - 1))
  }

  function Step(c: Setup, s: State, a: Actor): State
    requires Enabled(c, s, a)
  {
    match a
    case MainRoutine => MainStep(c, s)
    case WorkerRoutine(k) => WorkerStep(c, s, k)
    case Printer => PrinterStep(s)
    case Collector => CollectorStep(s)
  }

  /** The state after the schedule `run`; `None` when a routine in it was not able to step. */
  function Execute(c: Setup, run: seq<Actor>): Option<State> {
    if run == [] then Some(Initial())
    else
      match Execute(c, run[..|run| - 1])
      case None => None
      case Some(s) => if Enabled(c, s, run[|run| - 1]) then Some(Step(c, s, run[|run| - 1])) else None
  }

  predicate Reaches(c: Setup, run: seq<Actor>, s: State) {
    Execute(c, run) == Some(s)
  }

  // ---------- what is where ----------

  /** A sum over the workers. */
  function Sum(ws: seq<Worker>, f: Worker -> nat): nat {
    if ws == [] then 0 else f(ws[0]) + Sum(ws[1..], f)
  }

  function HasJob(x: Job): Worker -> nat {
    (w: Worker) => if w.Working? && w.job == x then 1 else 0
  }

  function HasError(x: string): Worker -> nat {
    (w: Worker) => if w.Reporting? && w.error == x then 1 else 0
  }

  function HasSent(x: string): Worker -> nat {
    (w: Worker) => if w.Working? && w.sent <= |w.job.messages| then multiset(w.job.messages[..w.sent])[x] else 0
  }

  function IsPresent(): Worker -> nat {
    (w: Worker) => if w.Left() then 0 else 1
  }

  lemma {:induction false} SumReplaced(ws: seq<Worker>, k: nat, w: Worker, f: Worker -> nat)
    requires k < |ws|
    ensures Sum(ws[k := w], f) + f(ws[k]) == Sum(ws, f) + f(w)
  {
    if k == 0 {
      assert ws[0 := w][1..] == ws[1..];
    } else {
      assert ws[k := w][1..] == ws[1..][k - 1 := w];
      SumReplaced(ws[1..], k - 1, w, f);
    }
  }

  lemma {:induction false} SumAdded(ws: seq<Worker>, w: Worker, f: Worker -> nat)
    ensures Sum(ws + [w], f) == Sum(ws, f) + f(w)
  {
    if ws == [] {
      assert [] + [w] == [w] && [w][1..] == [];
    } else {
      assert (ws + [w])[1..] == ws[1..] + [w];
      SumAdded(ws[1..], w, f);
    }
  }

  lemma {:induction false} SumOfNone(ws: seq<Worker>, f: Worker -> nat)
    requires forall k :: 0 <= k < |ws| ==> f(ws[k]) == 0
    ensures Sum(ws, f) == 0
  {
    if ws != [] {
      assert forall k :: 0 <= k < |ws[1..]| ==> ws[1..][k] == ws[k + 1];
      SumOfNone(ws[1..], f);
    }
  }

  lemma {:induction false} SumAtLeast(ws: seq<Worker>, k: nat, f: Worker -> nat)
    requires k < |ws|
    ensures f(ws[k]) <= Sum(ws, f)
  {
    if k != 0 { SumAtLeast(ws[1..], k - 1, f); }
  }

  function Present(ws: seq<Worker>): nat {
    Sum(ws, IsPresent())
  }

  lemma NonePresent(ws: seq<Worker>)
    requires Present(ws) == 0
    ensures forall k :: 0 <= k < |ws| ==> ws[k].Left()
  {
    forall k | 0 <= k < |ws| ensures ws[k].Left() { SumAtLeast(ws, k, IsPresent()); }
  }

  lemma {:induction false} SomePresent(ws: seq<Worker>) returns (k: nat)
    requires Present(ws) > 0
    ensures k < |ws| && !ws[k].Left()
  {
    if !ws[0].Left() {
      k := 0;
    } else {
      k := SomePresent(ws[1..]);
      k := k + 1;
    }
  }

  /** How often an error is returned by the given jobs. */
  function ErrorCount(jobs: seq<Job>, e: string): nat {
    if jobs == [] then 0 else (if jobs[0].error == Some(e) then 1 else 0) + ErrorCount(jobs[1..], e)
  }

  /** How often a message is sent by the given jobs. */
  function MessageCount(jobs: seq<Job>, m: string): nat {
    if jobs == [] then 0 else multiset(jobs[0].messages)[m] + MessageCount(jobs[1..], m)
  }

  lemma {:induction false} CountConcat(a: seq<Job>, b: seq<Job>, x: string)
    ensures ErrorCount(a + b, x) == ErrorCount(a, x) + ErrorCount(b, x)
    ensures MessageCount(a + b, x) == MessageCount(a, x) + MessageCount(b, x)
  {
    if a == [] {
      assert a + b == b;
    } else {
      assert (a + b)[1..] == a[1..] + b;
      CountConcat(a[1..], b, x);
    }
  }

  lemma {:induction false} CountsPermute(a: seq<Job>, b: seq<Job>, x: string)
    requires multiset(a) == multiset(b)
    ensures ErrorCount(a, x) == ErrorCount(b, x) && MessageCount(a, x) == MessageCount(b, x)
  {
    SameLength(a, b);
    if a != [] {
      var l, r := SplitAtHead(a, b);
      CountsPermute(a[1..], l + r, x);
      CountConcat(l, r, x);
      CountConcat(l + [a[0]], r, x);
      CountConcat(l, [a[0]], x);
      assert [a[0]][1..] == [];
    }
  }

  // ---------- the invariant ----------

  function Submitted(c: Setup, m: Main): nat {
    match m
    case Starting(_) => 0
    case Submitting(i) => i
    case _ => |c.jobs|
  }

  predicate JobsAreClosed(m: Main) {
    m.AwaitingWorkers? || WorkersAreDone(m)
  }

  predicate WorkersAreDone(m: Main) {
    m.ClosingMessages? || MessagesAreClosed(m)
  }

  predicate MessagesAreClosed(m: Main) {
    m.ClosingErrors? || ErrorsAreClosed(m)
  }

  predicate ErrorsAreClosed(m: Main) {
    m.AwaitingUtil? || m.Returned?
  }

  /** How far the routines are, and what that says about channels and groups. */
  predicate Progress(c: Setup, s: State) {
    && !s.panicked
    && (s.main.Starting? ==> s.main.started <= c.nworkers + 2)
    && Submitted(c, s.main) <= |c.jobs|
    && (s.util.printer.NotStarted? <==> s.main == Starting(0))
    && (s.util.collector.NotStarted? <==> s.main == Starting(0) || s.main == Starting(1))
    && |s.crew.workers| == (if !s.main.Starting? then c.nworkers else if s.main.started < 2 then 0 else s.main.started - 2)
    && s.crew.group == Present(s.crew.workers)
    && s.util.group == (if s.util.printer.Running? then 1 else 0) + (if s.util.collector.Running? then 1 else 0)
    && (s.jobs.closed <==> JobsAreClosed(s.main))
    && (s.msgs.closed <==> MessagesAreClosed(s.main))
    && (s.errs.closed <==> ErrorsAreClosed(s.main))
    && (WorkersAreDone(s.main) ==> s.crew.group == 0)
    && (s.util.printer.Stopped? ==> s.msgs.closed && s.msgs.queue == [])
    && (s.util.collector.Stopped? ==> s.errs.closed && s.errs.queue == [])
    && (s.main.Returned? ==> s.util.printer.Stopped? && s.util.collector.Stopped?)
    && (forall k :: 0 <= k < |s.crew.workers| && s.crew.workers[k].OutOfLoop() ==> s.jobs.closed && s.jobs.queue == [])
    && (forall k :: 0 <= k < |s.crew.workers| && s.crew.workers[k].Working? ==> s.crew.workers[k].sent <= |s.crew.workers[k].job.messages|)
    && |s.jobs.queue| <= Submitted(c, s.main)
  }

  predicate JobBalanced(c: Setup, s: State, x: Job) {
    Submitted(c, s.main) <= |c.jobs| ==>
      multiset(s.jobs.queue)[x] + Sum(s.crew.workers, HasJob(x)) + multiset(s.log.finished)[x]
      == multiset(c.jobs[..Submitted(c, s.main)])[x]
  }

  predicate ErrorBalanced(s: State, x: string) {
    multiset(s.log.errors)[x] + multiset(s.errs.queue)[x] + Sum(s.crew.workers, HasError(x)) == ErrorCount(s.log.finished, x)
  }

  predicate MessageBalanced(s: State, x: string) {
    multiset(s.log.printed)[x] + multiset(s.msgs.queue)[x] == MessageCount(s.log.finished, x) + Sum(s.crew.workers, HasSent(x))
  }

  /** Nothing is lost and nothing is duplicated. */
  ghost predicate Conserved(c: Setup, s: State) {
    && (forall x :: JobBalanced(c, s, x))
    && (forall x :: ErrorBalanced(s, x))
    && (forall x :: MessageBalanced(s, x))
  }

  ghost predicate Invariant(c: Setup, s: State) {
    Progress(c, s) && Conserved(c, s)
  }

  lemma InitialInvariant(c: Setup)
    ensures Invariant(c, Initial())
  {
  }

  // ---------- every step keeps it ----------

  lemma HeadCount<T>(q: seq<T>, x: T)
    requires q != []
    ensures multiset(q)[x] == multiset(q[1..])[x] + (if q[0] == x then 1 else 0)
  {
    assert q == [q[0]] + q[1..];
  }

  lemma LastCount<T>(q: seq<T>, y: T, x: T)
    ensures multiset(q + [y])[x] == multiset(q)[x] + (if y == x then 1 else 0)
  {
  }

  lemma MainProgress(c: Setup, s: State)
    requires Progress(c, s) && Enabled(c, s, MainRoutine)
    ensures Progress(c, MainStep(c, s))
  {
    if s.main.Starting? { SumAdded(s.crew.workers, Spawned, IsPresent()); }
  }

  lemma OneMoreSubmitted(js: seq<Job>, i: nat, queue: seq<Job>, x: Job)
    requires i < |js|
    ensures multiset(js[..i + 1])[x] == multiset(js[..i])[x] + (if js[i] == x then 1 else 0)
    ensures multiset(queue + [js[i]])[x] == multiset(queue)[x] + (if js[i] == x then 1 else 0)
  {
    assert js[..i + 1] == js[..i] + [js[i]];
    LastCount(js[..i], js[i], x);
    LastCount(queue, js[i], x);
  }

  lemma MainKeepsJobs(c: Setup, s: State, x: Job)
    requires Progress(c, s) && Enabled(c, s, MainRoutine) && JobBalanced(c, s, x)
    ensures JobBalanced(c, MainStep(c, s), x)
  {
    match s.main {
      case Starting(_) => SumAdded(s.crew.workers, Spawned, HasJob(x));
      case Submitting(i) =>
        if i < |c.jobs| { OneMoreSubmitted(c.jobs, i, s.jobs.queue, x); }
      case _ =>
    }
  }

  /** The main routine touches neither the log nor the queued texts. */
  lemma MainFrame(c: Setup, s: State)
    requires Enabled(c, s, MainRoutine)
    ensures var s' := MainStep(c, s);
            && s'.log == s.log && s'.errs.queue == s.errs.queue && s'.msgs.queue == s.msgs.queue
            && (s'.crew == s.crew || s'.crew == s.crew.Hire())
  {
  }

  lemma MainKeepsTexts(c: Setup, s: State, x: string)
    requires Enabled(c, s, MainRoutine)
    ensures ErrorBalanced(s, x) ==> ErrorBalanced(MainStep(c, s), x)
    ensures MessageBalanced(s, x) ==> MessageBalanced(MainStep(c, s), x)
  {
    MainFrame(c, s);
    SumAdded(s.crew.workers, Spawned, HasError(x));
    SumAdded(s.crew.workers, Spawned, HasSent(x));
  }

  /** A worker that has not left finds the message and error channels open. */
  lemma WorkerNotClosed(c: Setup, s: State, k: nat)
    requires Progress(c, s) && k < |s.crew.workers| && !s.crew.workers[k].Left()
    ensures !s.msgs.closed && !s.errs.closed && 0 < s.crew.group && !WorkersAreDone(s.main)
  {
    SumAtLeast(s.crew.workers, k, IsPresent());
  }

  lemma WorkerProgress(c: Setup, s: State, k: nat)
    requires Progress(c, s) && Enabled(c, s, WorkerRoutine(k))
    ensures Progress(c, WorkerStep(c, s, k)) && WorkerStep(c, s, k).main == s.main
  {
    SumReplaced(s.crew.workers, k, WorkerStep(c, s, k).crew.workers[k], IsPresent());
    if !s.crew.workers[k].Left() { WorkerNotClosed(c, s, k); }
  }

  lemma WorkerKeepsJobs(c: Setup, s: State, k: nat, x: Job)
    requires Enabled(c, s, WorkerRoutine(k)) && JobBalanced(c, s, x)
    requires s.crew.workers[k].Working? ==> !s.msgs.closed
    ensures JobBalanced(c, WorkerStep(c, s, k), x)
  {
    var s' := WorkerStep(c, s, k);
    SumReplaced(s.crew.workers, k, s'.crew.workers[k], HasJob(x));
    if s.crew.workers[k].Receiving? && s.jobs.queue != [] {
      HeadCount(s.jobs.queue, x);
    } else if s.crew.workers[k].Working? {
      LastCount(s.log.finished, s.crew.workers[k].job, x);
    }
  }

  lemma WorkerKeepsErrors(c: Setup, s: State, k: nat, x: string)
    requires Enabled(c, s, WorkerRoutine(k)) && ErrorBalanced(s, x)
    requires s.crew.workers[k].Working? || s.crew.workers[k].Reporting? ==> !s.msgs.closed && !s.errs.closed
    ensures ErrorBalanced(WorkerStep(c, s, k), x)
  {
    var s' := WorkerStep(c, s, k);
    SumReplaced(s.crew.workers, k, s'.crew.workers[k], HasError(x));
    if s.crew.workers[k].Reporting? {
      LastCount(s.errs.queue, s.crew.workers[k].error, x);
    } else if s.crew.workers[k].Working? {
      CountOne(s.log.finished, s.crew.workers[k].job, x);
    }
  }

  lemma CountOne(js: seq<Job>, j: Job, x: string)
    ensures ErrorCount(js + [j], x) == ErrorCount(js, x) + (if j.error == Some(x) then 1 else 0)
    ensures MessageCount(js + [j], x) == MessageCount(js, x) + multiset(j.messages)[x]
  {
    CountConcat(js, [j], x);
    assert [j][1..] == [];
  }

  lemma WorkerKeepsMessages(c: Setup, s: State, k: nat, x: string)
    requires Enabled(c, s, WorkerRoutine(k)) && MessageBalanced(s, x)
    requires s.crew.workers[k].Working? ==> !s.msgs.closed && s.crew.workers[k].sent <= |s.crew.workers[k].job.messages|
    ensures MessageBalanced(WorkerStep(c, s, k), x)
  {
    var s' := WorkerStep(c, s, k);
    SumReplaced(s.crew.workers, k, s'.crew.workers[k], HasSent(x));
    if s.crew.workers[k].Working? {
      var job, sent := s.crew.workers[k].job, s.crew.workers[k].sent;
      if sent < |job.messages| {
        OneMoreSent(job, sent, x);
        LastCount(s.msgs.queue, job.messages[sent], x);
      } else {
        assert job.messages[..sent] == job.messages;
        CountOne(s.log.finished, job, x);
      }
    }
  }

  lemma OneMoreSent(job: Job, sent: nat, x: string)
    requires sent < |job.messages|
    ensures HasSent(x)(Working(job, sent + 1)) == HasSent(x)(Working(job, sent)) + (if job.messages[sent] == x then 1 else 0)
  {
    assert job.messages[..sent + 1] == job.messages[..sent] + [job.messages[sent]];
    LastCount(job.messages[..sent], job.messages[sent], x);
  }

  lemma UtilKeeps(c: Setup, s: State, a: Actor, x: string)
    requires Progress(c, s) && Enabled(c, s, a) && (a.Printer? || a.Collector?)
    ensures Progress(c, Step(c, s, a))
    ensures ErrorBalanced(s, x) ==> ErrorBalanced(Step(c, s, a), x)
    ensures MessageBalanced(s, x) ==> MessageBalanced(Step(c, s, a), x)
  {
    if a.Printer? && s.msgs.queue != [] {
      HeadCount(s.msgs.queue, x);
      LastCount(s.log.printed, s.msgs.queue[0], x);
    }
    if a.Collector? && s.errs.queue != [] {
      HeadCount(s.errs.queue, x);
      LastCount(s.log.errors, s.errs.queue[0], x);
    }
  }

  /** Main result: every step of every routine keeps the invariant; in particular no routine
      ever sends on or closes a closed channel. */
  lemma StepKeepsInvariant(c: Setup, s: State, a: Actor)
    requires Invariant(c, s) && Enabled(c, s, a)
    ensures Invariant(c, Step(c, s, a))
  {
    match a {
      case MainRoutine =>
        MainProgress(c, s);
        forall x ensures JobBalanced(c, Step(c, s, a), x) { MainKeepsJobs(c, s, x); }
        forall x ensures ErrorBalanced(Step(c, s, a), x) && MessageBalanced(Step(c, s, a), x) {
          MainKeepsTexts(c, s, x);
        }
      case WorkerRoutine(k) =>
        WorkerProgress(c, s, k);
        if !s.crew.workers[k].Left() { WorkerNotClosed(c, s, k); }
        forall x ensures JobBalanced(c, Step(c, s, a), x) { WorkerKeepsJobs(c, s, k, x); }
        forall x ensures ErrorBalanced(Step(c, s, a), x) { WorkerKeepsErrors(c, s, k, x); }
        forall x ensures MessageBalanced(Step(c, s, a), x) { WorkerKeepsMessages(c, s, k, x); }
      case _ =>
        forall x { UtilKeeps(c, s, a, x); }
        UtilKeeps(c, s, a, "");
        forall x ensures JobBalanced(c, Step(c, s, a), x) { assert JobBalanced(c, s, x); }
    }
  }

  lemma {:induction false} ReachableInvariant(c: Setup, run: seq<Actor>, s: State)
    requires Reaches(c, run, s)
    ensures Invariant(c, s)
    decreases |run|
  {
    if run == [] {
      InitialInvariant(c);
    } else {
      var before := Execute(c, run[..|run| - 1]).value;
      ReachableInvariant(c, run[..|run| - 1], before);
      StepKeepsInvariant(c, before, run[|run| - 1]);
    }
  }

  // ---------- main results ----------

  /** Submitting never blocks: there is room for all jobs. */
  lemma SubmitNeverBlocks(c: Setup, run: seq<Actor>, s: State)
    requires Reaches(c, run, s) && s.main.Submitting? && s.main.submitted < |c.jobs|
    ensures !s.jobs.closed && |s.jobs.queue| < |c.jobs| && Enabled(c, s, MainRoutine)
  {
    ReachableInvariant(c, run, s);
  }

  /** No deadlock: until the main routine has returned, some routine can step. */
  lemma NoDeadlock(c: Setup, run: seq<Actor>, s: State)
    requires Reaches(c, run, s) && !s.main.Returned?
    ensures exists a :: Enabled(c, s, a)
  {
    ReachableInvariant(c, run, s);
    if !Enabled(c, s, MainRoutine) {
      if s.main.AwaitingWorkers? {
        var k := SomePresent(s.crew.workers);
        assert Enabled(c, s, WorkerRoutine(k)) || Enabled(c, s, Printer) || Enabled(c, s, Collector);
      } else {
        assert Enabled(c, s, Printer) || Enabled(c, s, Collector);
      }
    }
  }

  lemma ReturnedIdle(c: Setup, s: State)
    requires Progress(c, s) && s.main.Returned? && 0 < c.nworkers
    ensures s.jobs.queue == [] && s.msgs.queue == [] && s.errs.queue == []
    ensures forall x :: Sum(s.crew.workers, HasJob(x)) == 0
    ensures forall x :: Sum(s.crew.workers, HasError(x)) == 0 && Sum(s.crew.workers, HasSent(x)) == 0
  {
    NonePresent(s.crew.workers);
    assert s.crew.workers[0].OutOfLoop();
    forall x ensures Sum(s.crew.workers, HasJob(x)) == 0 { SumOfNone(s.crew.workers, HasJob(x)); }
    forall x ensures Sum(s.crew.workers, HasError(x)) == 0 && Sum(s.crew.workers, HasSent(x)) == 0 {
      SumOfNone(s.crew.workers, HasError(x));
      SumOfNone(s.crew.workers, HasSent(x));
    }
  }

  /** What the main routine returns with: every job has run exactly once, the errors are exactly
      the errors of the jobs, and every message was printed, provided there is a worker. */
  lemma ReturnsEverything(c: Setup, run: seq<Actor>, s: State)
    requires Reaches(c, run, s) && s.main.Returned? && 0 < c.nworkers
    ensures multiset(s.log.finished) == multiset(c.jobs)
    ensures forall e :: multiset(s.log.errors)[e] == ErrorCount(c.jobs, e)
    ensures forall m :: multiset(s.log.printed)[m] == MessageCount(c.jobs, m)
    ensures !s.panicked
  {
    ReachableInvariant(c, run, s);
    ReturnedIdle(c, s);
    assert c.jobs[..|c.jobs|] == c.jobs;
    forall x ensures multiset(s.log.finished)[x] == multiset(c.jobs)[x] { assert JobBalanced(c, s, x); }
    forall e ensures multiset(s.log.errors)[e] == ErrorCount(c.jobs, e) {
      assert ErrorBalanced(s, e);
      CountsPermute(s.log.finished, c.jobs, e);
    }
    forall m ensures multiset(s.log.printed)[m] == MessageCount(c.jobs, m) {
      assert MessageBalanced(s, m);
      CountsPermute(s.log.finished, c.jobs, m);
    }
  }

  /** Without workers nothing runs; so all jobs are run exactly when there is a worker or no job. */
  lemma AllJobsRunIff(c: Setup, run: seq<Actor>, s: State)
    requires Reaches(c, run, s) && s.main.Returned?
    ensures multiset(s.log.finished) == multiset(c.jobs) <==> 0 < c.nworkers || c.jobs == []
  {
    if 0 < c.nworkers {
      ReturnsEverything(c, run, s);
    } else {
      NothingRunsWithoutWorkers(c, run, s);
      assert |multiset(c.jobs)| == |c.jobs|;
    }
  }

  lemma {:induction false} NothingRunsWithoutWorkers(c: Setup, run: seq<Actor>, s: State)
    requires Reaches(c, run, s) && c.nworkers == 0
    ensures s.log.finished == []
    decreases |run|
  {
    if run != [] {
      var before := Execute(c, run[..|run| - 1]).value;
      NothingRunsWithoutWorkers(c, run[..|run| - 1], before);
      ReachableInvariant(c, run[..|run| - 1], before);
    }
  }

  // ---------- bounds and order ----------

  function IsActive(): Worker -> nat {
    (w: Worker) => if w.Spawned? || w.Exited? then 0 else 1
  }

  /** The jobs still queued are those submitted last, in their order. */
  predicate JobsInOrder(c: Setup, s: State) {
    var n, queued := Submitted(c, s.main), |s.jobs.queue|;
    queued <= n <= |c.jobs| && s.jobs.queue == c.jobs[n - queued..n]
  }

  /** The queues stay within their capacities, jobs are taken in the order in which they were
      submitted, and the counter says how many workers are active. */
  ghost predicate Bounded(c: Setup, s: State) {
    && |s.msgs.queue| <= c.nworkers && |s.errs.queue| <= c.nworkers
    && JobsInOrder(c, s)
    && s.crew.active == Sum(s.crew.workers, IsActive())
  }

  lemma SliceGrows(js: seq<Job>, from: nat, n: nat)
    requires from <= n < |js|
    ensures js[from..n + 1] == js[from..n] + [js[n]]
  {
  }

  lemma SliceShrinks(js: seq<Job>, from: nat, n: nat)
    requires from < n <= |js|
    ensures js[from..n][1..] == js[from + 1..n]
  {
  }

  lemma MainKeepsOrder(c: Setup, s: State)
    requires JobsInOrder(c, s) && Enabled(c, s, MainRoutine)
    ensures JobsInOrder(c, MainStep(c, s))
  {
    var n, queued := Submitted(c, s.main), |s.jobs.queue|;
    if s.main.Submitting? && n < |c.jobs| { SliceGrows(c.jobs, n - queued, n); }
  }

  lemma WorkerKeepsOrder(c: Setup, s: State, k: nat)
    requires JobsInOrder(c, s) && Enabled(c, s, WorkerRoutine(k))
    ensures JobsInOrder(c, WorkerStep(c, s, k))
  {
    var n, queued := Submitted(c, s.main), |s.jobs.queue|;
    if queued != 0 { SliceShrinks(c.jobs, n - queued, n); }
  }

  lemma JobsStayInOrder(c: Setup, s: State, a: Actor)
    requires JobsInOrder(c, s) && Enabled(c, s, a)
    ensures JobsInOrder(c, Step(c, s, a))
  {
    match a {
      case MainRoutine => MainKeepsOrder(c, s);
      case WorkerRoutine(k) => WorkerKeepsOrder(c, s, k);
      case _ =>
    }
  }

  lemma CountStays(c: Setup, s: State, a: Actor)
    requires s.crew.active == Sum(s.crew.workers, IsActive()) && Progress(c, s) && Enabled(c, s, a)
    ensures Step(c, s, a).crew.active == Sum(Step(c, s, a).crew.workers, IsActive())
  {
    match a {
      case MainRoutine => if s.main.Starting? { SumAdded(s.crew.workers, Spawned, IsActive()); }
      case WorkerRoutine(k) => SumReplaced(s.crew.workers, k, WorkerStep(c, s, k).crew.workers[k], IsActive());
      case _ =>
    }
  }

  lemma TextsStayBounded(c: Setup, s: State, a: Actor)
    requires |s.msgs.queue| <= c.nworkers && |s.errs.queue| <= c.nworkers && Progress(c, s) && Enabled(c, s, a)
    ensures |Step(c, s, a).msgs.queue| <= c.nworkers && |Step(c, s, a).errs.queue| <= c.nworkers
  {
    match a {
      case MainRoutine => MainFrame(c, s);
      case WorkerRoutine(k) => if !s.crew.workers[k].Left() { WorkerNotClosed(c, s, k); }
      case _ =>
    }
  }

  lemma StepKeepsBounds(c: Setup, s: State, a: Actor)
    requires Bounded(c, s) && Progress(c, s) && Enabled(c, s, a)
    ensures Bounded(c, Step(c, s, a))
  {
    JobsStayInOrder(c, s, a);
    CountStays(c, s, a);
    TextsStayBounded(c, s, a);
  }

  /** Main result: in every run no channel ever holds more than it may: a message or an error for
      each worker, and the jobs submitted last. */
  lemma {:induction false} QueuesAreBounded(c: Setup, run: seq<Actor>, s: State)
    requires Reaches(c, run, s)
    ensures Bounded(c, s)
    decreases |run|
  {
    if run != [] {
      var before := Execute(c, run[..|run| - 1]).value;
      QueuesAreBounded(c, run[..|run| - 1], before);
      ReachableInvariant(c, run[..|run| - 1], before);
      StepKeepsBounds(c, before, run[|run| - 1]);
    }
  }

  /** A worker waits for exactly three things: a job while none is queued and more may come, and room
      for a message or an error while as many are queued as there are workers. */
  lemma WorkerWaitsIff(c: Setup, run: seq<Actor>, s: State, k: nat)
    requires Reaches(c, run, s) && k < |s.crew.workers| && s.crew.workers[k] != Exited
    ensures var w := s.crew.workers[k];
            !Enabled(c, s, WorkerRoutine(k)) <==>
              || (w == Receiving && s.jobs.queue == [] && !s.jobs.closed)
              || (w.Working? && w.sent < |w.job.messages| && |s.msgs.queue| == c.nworkers)
              || (w.Reporting? && |s.errs.queue| == c.nworkers)
  {
    ReachableInvariant(c, run, s);
    QueuesAreBounded(c, run, s);
    if !s.crew.workers[k].Left() { WorkerNotClosed(c, s, k); }
  }

  /** Messages are printed, and errors collected, in the order in which they were sent: what was
      printed followed by what is queued only ever grows at its end. */
  lemma StepKeepsOrder(c: Setup, s: State, a: Actor)
    requires Enabled(c, s, a)
    ensures s.log.printed + s.msgs.queue <= Step(c, s, a).log.printed + Step(c, s, a).msgs.queue
    ensures s.log.errors + s.errs.queue <= Step(c, s, a).log.errors + Step(c, s, a).errs.queue
  {
    var s' := Step(c, s, a);
    match a {
      case MainRoutine => MainFrame(c, s);
      case WorkerRoutine(k) =>
        assert s'.log.printed + s'.msgs.queue == s.log.printed + s.msgs.queue + s'.msgs.queue[|s.msgs.queue|..];
        assert s'.log.errors + s'.errs.queue == s.log.errors + s.errs.queue + s'.errs.queue[|s.errs.queue|..];
      case Printer => assert s.log.printed + s.msgs.queue == s'.log.printed + s'.msgs.queue;
      case Collector => assert s.log.errors + s.errs.queue == s'.log.errors + s'.errs.queue;
    }
  }

  // ---------- termination ----------

  function JobWork(j: Job): nat {
    2 * |j.messages| + 4
  }

  function JobsWork(js: seq<Job>): nat {
    if js == [] then 0 else JobWork(js[0]) + JobsWork(js[1..])
  }

  function WorkerWork(w: Worker): nat {
    match w
    case Spawned => 4
    case Receiving => 3
    case Working(j, sent) => 6 + (if sent < |j.messages| then 2 * (|j.messages| - sent) else 0)
    case Reporting(_) => 5
    case Leaving => 2
    case Finishing => 1
    case Exited => 0
  }

  function WorkOf(): Worker -> nat {
    (w: Worker) => WorkerWork(w)
  }

  function MainWork(c: Setup, m: Main): nat {
    match m
    case Starting(n) =>
      (if n <= c.nworkers + 2 then 5 * (c.nworkers + 2 - n) else 0) + JobsWork(c.jobs) + |c.jobs| + 7
    case Submitting(i) => (if i <= |c.jobs| then JobsWork(c.jobs[i..]) + |c.jobs| - i else 0) + 6
    case ClosingJobs => 5
    case AwaitingWorkers => 4
    case ClosingMessages => 3
    case ClosingErrors => 2
    case AwaitingUtil => 1
    case Returned => 0
  }

  function UtilWork(u: Util): nat {
    if u.Running? then 1 else 0
  }

  /** A bound on the number of steps that all routines together can still take. */
  function Work(c: Setup, s: State): nat {
    MainWork(c, s.main) + JobsWork(s.jobs.queue) + Sum(s.crew.workers, WorkOf()) + |s.msgs.queue| + |s.errs.queue|
    + UtilWork(s.util.printer) + UtilWork(s.util.collector)
  }

  lemma {:induction false} JobsWorkSnoc(js: seq<Job>, j: Job)
    ensures JobsWork(js + [j]) == JobsWork(js) + JobWork(j)
  {
    if js == [] {
      assert [] + [j] == [j] && [j][1..] == [];
    } else {
      assert (js + [j])[1..] == js[1..] + [j];
      JobsWorkSnoc(js[1..], j);
    }
  }

  lemma MainUsesWork(c: Setup, s: State)
    requires Progress(c, s) && Enabled(c, s, MainRoutine)
    ensures Work(c, MainStep(c, s)) < Work(c, s)
  {
    match s.main {
      case Starting(n) =>
        SumAdded(s.crew.workers, Spawned, WorkOf());
        assert c.jobs[0..] == c.jobs;
      case Submitting(i) =>
        if i < |c.jobs| {
          JobsWorkSnoc(s.jobs.queue, c.jobs[i]);
          assert c.jobs[i..][1..] == c.jobs[i + 1..];
        }
      case _ =>
    }
  }

  lemma WorkerUsesWork(c: Setup, s: State, k: nat)
    requires Progress(c, s) && Enabled(c, s, WorkerRoutine(k))
    ensures Work(c, WorkerStep(c, s, k)) < Work(c, s)
  {
    if !s.crew.workers[k].Left() { WorkerNotClosed(c, s, k); }
    SumReplaced(s.crew.workers, k, WorkerStep(c, s, k).crew.workers[k], WorkOf());
  }

  /** Every step uses up work, so every schedule ends. */
  lemma StepUsesWork(c: Setup, s: State, a: Actor)
    requires Invariant(c, s) && Enabled(c, s, a)
    ensures Work(c, Step(c, s, a)) < Work(c, s)
  {
    match a {
      case MainRoutine => MainUsesWork(c, s);
      case WorkerRoutine(k) => WorkerUsesWork(c, s, k);
      case _ =>
    }
  }

  lemma {:induction false} RunsAreBounded(c: Setup, run: seq<Actor>, s: State)
    requires Reaches(c, run, s)
    ensures |run| + Work(c, s) <= Work(c, Initial())
    decreases |run|
  {
    if run != [] {
      var before := Execute(c, run[..|run| - 1]).value;
      ReachableInvariant(c, run[..|run| - 1], before);
      RunsAreBounded(c, run[..|run| - 1], before);
      StepUsesWork(c, before, run[|run| - 1]);
    }
  }
}
