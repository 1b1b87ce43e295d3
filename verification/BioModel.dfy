/**
 * Background jobs as interleaved steps. Three workers each own a queue; requests for a
 * completion pass through one shared list and a pipe that wakes the main loop. A step
 * is what one thread does between two lock operations or system calls.
 */
module BioModel {

  datatype Kind =
    | CloseFile | AofFsync | LazyFree | CloseAof
    | RequestCloseFile | RequestAofFsync | RequestLazyFree

  datatype Job = Job(kind: Kind, tag: nat)

  const WORKERS := 3

  // bio_job_to_worker.
  function WorkerOf(k: Kind): (w: nat)
    ensures w < WORKERS
  {
    match k
    case CloseFile | RequestCloseFile => 0
    case AofFsync | CloseAof | RequestAofFsync => 1
    case LazyFree | RequestLazyFree => 2
  }

  predicate IsRequest(k: Kind) {
    k.RequestCloseFile? || k.RequestAofFsync? || k.RequestLazyFree?
  }

  // Where a worker thread stands: about to look at its queue, asleep on the condition,
  // holding the head of the queue, done with its effect but not yet with the pipe, or
  // about to remove it.
  datatype Pc = Awake | Asleep | Holding | Listed | Finished

  // A thread draining the worker's queue: not there, about to look, or asleep.
  datatype Drain = Away | Looking | Sleeping

  // submitted and ran record everything ever queued and every effect performed.
  datatype Worker = Worker(queue: seq<Job>, pc: Pc, drain: Drain, submitted: seq<Job>, ran: seq<Job>)

  // The main loop: waiting for the pipe, reading it, about to take the list, calling back.
  datatype Reader = Waiting | Reading | Taking | Calling(todo: seq<Job>)

  datatype State = State(
    workers: seq<Worker>, counters: map<Kind, nat>,
    listed: seq<Job>, pipe: nat, reader: Reader, called: seq<Job>)

  // The pipe's capacity and the reader's buffer.
  const CAPACITY := 65536
  const CHUNK := 128

  // `drainFirst` says whom a signal finds first, should both threads sleep.
  datatype Action =
    | Submit(job: Job, drainFirst: bool)
    | Look(w: nat)
    | Perform(w: nat)
    | Write(w: nat)
    | Remove(w: nat, drainFirst: bool)
    | Spurious(w: nat)
    | DrainEnter(w: nat)
    | DrainLook(w: nat)
    | DrainSpurious(w: nat)
    | Read
    | Take
    | Call

  // pthread_cond_signal: wakes one of the threads asleep on the condition.
  function Signal(x: Worker, drainFirst: bool): Worker {
    if x.drain.Sleeping? && (drainFirst || !x.pc.Asleep?) then x.(drain := Looking)
    else if x.pc.Asleep? then x.(pc := Awake)
    else x
  }

  function Count(q: seq<Job>, k: Kind): nat {
    if q == [] then 0 else Count(q[..|q| - 1], k) + (if q[|q| - 1].kind == k then 1 else 0)
  }

  // What one action does to the worker it concerns.
  predicate WorkerEnabled(x: Worker, a: Action) {
    match a
    case Submit(_, _) => true
    case Look(_) => x.pc.Awake?
    case Perform(_) => x.pc.Holding? && x.queue != []
    case Write(_) => x.pc.Listed?
    case Remove(_, _) => x.pc.Finished? && x.queue != []
    case Spurious(_) => x.pc.Asleep?
    case DrainEnter(_) => x.drain.Away?
    case DrainLook(_) => x.drain.Looking?
    case DrainSpurious(_) => x.drain.Sleeping?
    case Read | Take | Call => false
  }

  function WorkerStep(x: Worker, a: Action): Worker
    requires WorkerEnabled(x, a)
  {
    match a
    case Submit(j, f) => Signal(x.(queue := x.queue + [j], submitted := x.submitted + [j]), f)
    case Look(_) => x.(pc := if x.queue == [] then Asleep else Holding)
    case Perform(_) =>
      x.(pc := if IsRequest(x.queue[0].kind) then Listed else Finished, ran := x.ran + [x.queue[0]])
    case Write(_) => x.(pc := Finished)
    case Remove(_, f) => Signal(x.(pc := Awake, queue := x.queue[1..]), f)
    case Spurious(_) => x.(pc := Awake)
    case DrainEnter(_) => x.(drain := Looking)
    case DrainLook(_) => x.(drain := if x.queue == [] then Away else Sleeping)
    case DrainSpurious(_) => x.(drain := Looking)
  }

  predicate IsReader(a: Action) {
    a.Read? || a.Take? || a.Call?
  }

  function Concerns(a: Action): nat
    requires !IsReader(a)
  {
    match a
    case Submit(j, _) => WorkerOf(j.kind)
    case Look(w) => w
    case Perform(w) => w
    case Write(w) => w
    case Remove(w, _) => w
    case Spurious(w) => w
    case DrainEnter(w) => w
    case DrainLook(w) => w
    case DrainSpurious(w) => w
  }

  predicate ReaderEnabled(s: State, a: Action) {
    match a
    case Read => s.reader.Reading? || (s.reader.Waiting? && s.pipe > 0)
    case Take => s.reader.Taking?
    case Call => s.reader.Calling?
    case _ => false
  }

  predicate Enabled(s: State, a: Action) {
    if IsReader(a) then ReaderEnabled(s, a)
    else Concerns(a) < |s.workers| && WorkerEnabled(s.workers[Concerns(a)], a)
  }

  function ReaderStep(s: State, a: Action): State
    requires ReaderEnabled(s, a)
  {
    match a
    case Read =>
      if s.pipe >= CHUNK then s.(pipe := s.pipe - CHUNK, reader := Reading)
      else s.(pipe := 0, reader := Taking)
    case Take =>
      if s.listed == [] then s.(reader := Waiting) else s.(listed := [], reader := Calling(s.listed))
    case Call =>
      if s.reader.todo == [] then s.(reader := Waiting)
      else s.(reader := Calling(s.reader.todo[1..]), called := s.called + [s.reader.todo[0]])
  }

  function Bumped(c: map<Kind, nat>, k: Kind): map<Kind, nat> {
    if k in c then c[k := c[k] + 1] else c
  }

  function Dropped(c: map<Kind, nat>, k: Kind): map<Kind, nat> {
    if k in c && c[k] > 0 then c[k := c[k] - 1] else c
  }

  function Step(s: State, a: Action): State
    requires Enabled(s, a)
  {
    if IsReader(a) then ReaderStep(s, a)
    else
      var w := Concerns(a);
      var x := s.workers[w];
      s.(workers := s.workers[w := WorkerStep(x, a)],
         counters := if a.Submit? then Bumped(s.counters, a.job.kind)
                     else if a.Remove? then Dropped(s.counters, x.queue[0].kind) else s.counters,
         listed := if a.Perform? && IsRequest(x.queue[0].kind) then s.listed + [x.queue[0]] else s.listed,
         pipe := if a.Write? && s.pipe < CAPACITY then s.pipe + 1 else s.pipe)
  }

  const Idle := Worker([], Awake, Away, [], [])

  function AllKinds(): set<Kind> {
    {CloseFile, AofFsync, LazyFree, CloseAof, RequestCloseFile, RequestAofFsync, RequestLazyFree}
  }

  function Init(): State {
    State([Idle, Idle, Idle], map k <- AllKinds() :: 0, [], 0, Waiting, [])
  }

  // ---------- what every step keeps ----------

  // Effects performed: everything no longer queued, and the head once its effect is done.
  function Performed(x: Worker): int {
    |x.submitted| - |x.queue| + (if x.pc.Listed? || x.pc.Finished? then 1 else 0)
  }

  ghost predicate WorkerInv(x: Worker, w: nat) {
    && |x.queue| <= |x.submitted| && x.queue == x.submitted[|x.submitted| - |x.queue|..]
    && (x.pc.Holding? || x.pc.Listed? || x.pc.Finished? ==> x.queue != [])
    && x.ran == x.submitted[..Performed(x)]
    && (x.pc.Listed? ==> IsRequest(x.queue[0].kind))
    && (x.pc.Asleep? ==> x.queue == [])
    && (x.drain.Sleeping? ==> x.queue != [])
    && (forall i | 0 <= i < |x.submitted| :: WorkerOf(x.submitted[i].kind) == w)
  }

  // Jobs that belong to worker `w`.
  function Of(w: nat, s: seq<Job>): seq<Job> {
    if s == [] then []
    else Of(w, s[..|s| - 1]) + if WorkerOf(s[|s| - 1].kind) == w then [s[|s| - 1]] else []
  }

  function Requests(s: seq<Job>): seq<Job> {
    if s == [] then []
    else Requests(s[..|s| - 1]) + if IsRequest(s[|s| - 1].kind) then [s[|s| - 1]] else []
  }

  function InHand(r: Reader): seq<Job> {
    if r.Calling? then r.todo else []
  }

  // Every completion on its way, oldest first.
  function Answers(s: State): seq<Job> {
    s.called + InHand(s.reader) + s.listed
  }

  // Each worker's requests are answered once each, in the order they were performed.
  ghost predicate Answered(s: State) {
    forall w | 0 <= w < |s.workers| :: Of(w, Answers(s)) == Requests(s.workers[w].ran)
  }

  // A listed completion has a byte in the pipe, or a thread that is about to see to it.
  ghost predicate WakeUpComing(s: State) {
    s.listed == [] || s.pipe > 0 || s.reader.Reading? || s.reader.Taking?
      || exists w :: 0 <= w < |s.workers| && s.workers[w].pc.Listed?
  }

  ghost predicate Counted(s: State) {
    |s.workers| == WORKERS && forall k: Kind :: k in s.counters && s.counters[k] == Count(s.workers[WorkerOf(k)].queue, k)
  }

  ghost predicate Inv(s: State) {
    && |s.workers| == WORKERS
    && (forall w | 0 <= w < |s.workers| :: WorkerInv(s.workers[w], w))
    && Answered(s) && WakeUpComing(s) && Counted(s)
  }

  // ---------- one worker ----------

  lemma WorkerKeeps(x: Worker, a: Action, w: nat)
    requires WorkerInv(x, w) && WorkerEnabled(x, a) && (a.Submit? ==> WorkerOf(a.job.kind) == w)
    ensures WorkerInv(WorkerStep(x, a), w)
    ensures WorkerStep(x, a).ran == x.ran + (if a.Perform? then [x.queue[0]] else [])
  {
    match a {
      case Submit(j, f) => SubmitKeeps(x, j, f, w);
      case Remove(_, f) => RemoveKeeps(x, f, w);
      case Perform(_) => PerformKeeps(x, a, w);
      case _ =>
    }
  }

  lemma SubmitKeeps(x: Worker, j: Job, f: bool, w: nat)
    requires WorkerInv(x, w) && WorkerOf(j.kind) == w
    ensures WorkerInv(WorkerStep(x, Submit(j, f)), w)
    ensures WorkerStep(x, Submit(j, f)).ran == x.ran
  {
    var q, all, n := x.queue + [j], x.submitted + [j], |x.submitted| - |x.queue|;
    assert q == all[n..];
    assert all[..Performed(x)] == x.submitted[..Performed(x)];
  }

  lemma RemoveKeeps(x: Worker, f: bool, w: nat)
    requires WorkerInv(x, w) && x.pc.Finished?
    ensures WorkerInv(WorkerStep(x, Remove(w, f)), w)
    ensures WorkerStep(x, Remove(w, f)).ran == x.ran
  {
    assert x.queue[1..] == x.submitted[|x.submitted| - |x.queue| + 1..];
  }

  lemma PerformKeeps(x: Worker, a: Action, w: nat)
    requires WorkerInv(x, w) && a.Perform? && x.pc.Holding?
    ensures WorkerInv(WorkerStep(x, a), w)
  {
    var n := |x.submitted| - |x.queue|;
    assert x.submitted[n] == x.queue[0];
    assert x.submitted[..n + 1] == x.submitted[..n] + [x.queue[0]];
  }

  lemma {:induction false} CountTail(q: seq<Job>, k: Kind)
    requires q != []
    ensures Count(q, k) == Count(q[1..], k) + (if q[0].kind == k then 1 else 0)
  {
    if |q| > 1 {
      var n := |q| - 1;
      CountTail(q[..n], k);
      assert q[..n][1..] == q[1..][..n - 1] && q[1..][n - 1] == q[n];
    } else {
      assert q[..0] == [] && q[1..] == [];
    }
  }

  // ---------- answers ----------

  lemma {:induction false} OfConcat(w: nat, s: seq<Job>, t: seq<Job>)
    ensures Of(w, s + t) == Of(w, s) + Of(w, t)
  {
    if t == [] {
      assert s + t == s;
    } else {
      var n := |t| - 1;
      OfConcat(w, s, t[..n]);
      assert (s + t)[..|s + t| - 1] == s + t[..n];
    }
  }

  lemma OfOne(w: nat, j: Job)
    ensures Of(w, [j]) == if WorkerOf(j.kind) == w then [j] else []
  {
    assert [j][..0] == [];
  }

  lemma RequestsMore(s: seq<Job>, j: Job)
    ensures Requests(s + [j]) == Requests(s) + (if IsRequest(j.kind) then [j] else [])
  {
    assert (s + [j])[..|s|] == s;
  }

  // The reader moves answers along without losing, adding or reordering any.
  lemma ReaderKeepsAnswers(s: State, a: Action)
    requires ReaderEnabled(s, a)
    ensures Answers(ReaderStep(s, a)) == Answers(s)
  {
    if a.Call? && s.reader.todo != [] {
      assert s.reader.todo == [s.reader.todo[0]] + s.reader.todo[1..];
    }
  }

  // One more effect of worker `w`, as worker `v` sees the answers.
  lemma OneMore(v: nat, w: nat, answers: seq<Job>, ran: seq<Job>, j: Job)
    requires WorkerOf(j.kind) == w && Of(v, answers) == Requests(ran)
    ensures v == w ==> Of(v, answers + (if IsRequest(j.kind) then [j] else [])) == Requests(ran + [j])
    ensures v != w ==> Of(v, answers + (if IsRequest(j.kind) then [j] else [])) == Requests(ran)
  {
    RequestsMore(ran, j);
    OfOne(v, j);
    OfConcat(v, answers, [j]);
    assert answers + [] == answers;
  }

  lemma PerformAnswers(s: State, w: nat)
    requires Answered(s) && w < |s.workers| && Enabled(s, Perform(w)) && WorkerOf(s.workers[w].queue[0].kind) == w
    ensures Answered(Step(s, Perform(w)))
  {
    hide Of, Requests;
    var x, n := s.workers[w], Step(s, Perform(w));
    var j := x.queue[0];
    assert Answers(n) == Answers(s) + if IsRequest(j.kind) then [j] else [];
    forall v | 0 <= v < |n.workers|
      ensures Of(v, Answers(n)) == Requests(n.workers[v].ran)
    {
      OneMore(v, w, Answers(s), s.workers[v].ran, j);
    }
  }

  lemma HeadIsMine(x: Worker, w: nat)
    requires WorkerInv(x, w) && x.queue != []
    ensures WorkerOf(x.queue[0].kind) == w
  {
    assert x.queue[0] == x.submitted[|x.submitted| - |x.queue|];
  }

  lemma StepAnswers(s: State, a: Action)
    requires Inv(s) && Enabled(s, a)
    ensures Answered(Step(s, a))
  {
    hide WorkerInv, WakeUpComing, Counted, Of, Requests;
    if IsReader(a) {
      ReaderKeepsAnswers(s, a);
    } else if a.Perform? {
      HeadIsMine(s.workers[a.w], a.w);
      PerformAnswers(s, a.w);
    } else {
      assert Answers(Step(s, a)) == Answers(s);
    }
  }

  // ---------- wake-ups ----------

  // No listed completion is ever left without a wake-up to come.
  lemma StepWakes(s: State, a: Action)
    requires Inv(s) && Enabled(s, a)
    ensures WakeUpComing(Step(s, a))
  {
    hide WorkerInv, Answered, Counted;
    var n := Step(s, a);
    if !IsReader(a) && s.listed != [] && s.pipe == 0 && !s.reader.Reading? && !s.reader.Taking? {
      var v :| 0 <= v < |s.workers| && s.workers[v].pc.Listed?;
      if a.Write? && a.w == v {
        assert n.pipe > 0;
      } else {
        assert n.workers[v].pc.Listed?;
      }
    }
    if a.Perform? && n.listed != s.listed {
      assert n.workers[a.w].pc.Listed?;
    }
  }

  // ---------- counters ----------

  // The queue a step leaves, and the counter of one kind.
  lemma QueueStep(x: Worker, a: Action)
    requires WorkerEnabled(x, a)
    ensures WorkerStep(x, a).queue
      == if a.Submit? then x.queue + [a.job] else if a.Remove? then x.queue[1..] else x.queue
  {
  }

  lemma StepCounts(s: State, a: Action)
    requires Inv(s) && Enabled(s, a)
    ensures Counted(Step(s, a))
  {
    if !IsReader(a) {
      assert WorkerInv(s.workers[Concerns(a)], Concerns(a));
    }
    hide WakeUpComing, Answered, WorkerInv, WorkerStep;
    if IsReader(a) {
    } else if a.Submit? {
      SubmitCounts(s, a);
    } else if a.Remove? {
      RemoveCounts(s, a);
    } else {
      QueueStep(s.workers[Concerns(a)], a);
    }
  }

  lemma SubmitCounts(s: State, a: Action)
    requires Counted(s) && Enabled(s, a) && a.Submit?
    ensures Counted(Step(s, a))
  {
    hide WorkerStep;
    var x := s.workers[Concerns(a)];
    QueueStep(x, a);
    assert (x.queue + [a.job])[..|x.queue|] == x.queue;
  }

  lemma RemoveCounts(s: State, a: Action)
    requires Counted(s) && Enabled(s, a) && a.Remove? && WorkerInv(s.workers[a.w], a.w)
    ensures Counted(Step(s, a))
  {
    var x := s.workers[a.w];
    HeadIsMine(x, a.w);
    hide WorkerStep, WorkerInv;
    QueueStep(x, a);
    forall k: Kind
      ensures Count(x.queue, k) == Count(x.queue[1..], k) + (if x.queue[0].kind == k then 1 else 0)
    {
      CountTail(x.queue, k);
    }
  }

  lemma StepWorkers(s: State, a: Action)
    requires Inv(s) && Enabled(s, a)
    ensures |Step(s, a).workers| == WORKERS
    ensures forall w | 0 <= w < WORKERS :: WorkerInv(Step(s, a).workers[w], w)
  {
    hide WorkerInv, Answered, Counted, WakeUpComing, WorkerStep, WorkerEnabled;
    if !IsReader(a) {
      var w := Concerns(a);
      WorkerKeeps(s.workers[w], a, w);
    }
  }

  lemma StepInv(s: State, a: Action)
    requires Inv(s) && Enabled(s, a)
    ensures Inv(Step(s, a))
  {
    StepWorkers(s, a);
    StepAnswers(s, a);
    StepWakes(s, a);
    StepCounts(s, a);
  }

  // ---------- every run ----------

  // A run is any sequence of actions; one that its thread cannot take does nothing.
  function After(s: State, run: seq<Action>): State {
    if run == [] then s
    else
      var t, a := After(s, run[..|run| - 1]), run[|run| - 1];
      if Enabled(t, a) then Step(t, a) else t
  }

  lemma InitInv()
    ensures Inv(Init())
  {
    var s := Init();
    assert Of(0, []) == [] && Of(1, []) == [] && Of(2, []) == [];
    assert forall w | 0 <= w < 3 :: s.workers[w] == Idle;
    forall k: Kind
      ensures k in s.counters
    {
      assert k == CloseFile || k == AofFsync || k == LazyFree || k == CloseAof
        || k == RequestCloseFile || k == RequestAofFsync || k == RequestLazyFree;
    }
  }

  lemma {:induction false} RunInv(run: seq<Action>)
    ensures Inv(After(Init(), run))
  {
    if run == [] {
      InitInv();
    } else {
      var n := |run| - 1;
      RunInv(run[..n]);
      var t := After(Init(), run[..n]);
      if Enabled(t, run[n]) {
        StepInv(t, run[n]);
      }
    }
  }

  ghost predicate Reachable(s: State) {
    exists run :: After(Init(), run) == s
  }

  lemma ReachableStep(s: State, a: Action)
    requires Reachable(s) && Enabled(s, a)
    ensures Reachable(Step(s, a))
  {
    hide Enabled, Step;
    var run :| After(Init(), run) == s;
    assert (run + [a])[..|run|] == run;
    assert After(Init(), run + [a]) == Step(s, a);
  }

  lemma ReachableInv(s: State)
    requires Reachable(s)
    ensures Inv(s)
  {
    hide Inv, After;
    var run :| After(Init(), run) == s;
    RunInv(run);
  }

  /**
   * What a submitter may rely on, after any run: the requests called back for a worker
   * are, in order and without repetition, the first of those submitted to it, and every
   * job queued before one of them has run.
   */
  lemma CallbacksInOrder(run: seq<Action>, w: nat)
    requires w < WORKERS
    ensures
      var s := After(Init(), run);
      && w < |s.workers|
      && s.workers[w].ran <= s.workers[w].submitted
      && Of(w, s.called) <= Requests(s.workers[w].ran) <= Requests(s.workers[w].submitted)
  {
    hide After, Inv, Of, Requests;
    RunInv(run);
    var s := After(Init(), run);
    InvAt(s, w);
    AnsweredInOrder(s, w);
  }

  lemma InvAt(s: State, w: nat)
    requires Inv(s) && w < WORKERS
    ensures w < |s.workers| && WorkerInv(s.workers[w], w) && Of(w, Answers(s)) == Requests(s.workers[w].ran)
  {
  }

  lemma AnsweredInOrder(s: State, w: nat)
    requires w < |s.workers| && WorkerInv(s.workers[w], w) && Of(w, Answers(s)) == Requests(s.workers[w].ran)
    ensures s.workers[w].ran <= s.workers[w].submitted
    ensures Of(w, s.called) <= Requests(s.workers[w].ran) <= Requests(s.workers[w].submitted)
  {
    hide Of, Requests;
    var x := s.workers[w];
    OfConcat(w, s.called, InHand(s.reader) + s.listed);
    assert Answers(s) == s.called + (InHand(s.reader) + s.listed);
    RequestsPrefix(x.submitted, Performed(x));
  }

  lemma {:induction false} RequestsPrefix(s: seq<Job>, n: nat)
    requires n <= |s|
    ensures Requests(s[..n]) <= Requests(s)
  {
    if n < |s| {
      var k := |s| - 1;
      RequestsPrefix(s[..k], n);
      assert s[..k][..n] == s[..n];
    } else {
      assert s[..n] == s;
    }
  }

  // bioDrainWorker returns only when every job queued to the worker so far has run.
  lemma DrainReturns(run: seq<Action>, w: nat)
    requires Enabled(After(Init(), run), DrainLook(w))
    requires Step(After(Init(), run), DrainLook(w)).workers[w].drain.Away?
    ensures After(Init(), run).workers[w].ran == After(Init(), run).workers[w].submitted
  {
    RunInv(run);
    var x := After(Init(), run).workers[w];
    assert WorkerInv(x, w);
    assert x.submitted[..|x.submitted|] == x.submitted;
  }

  // ---------- nothing is left waiting for ever ----------

  // Steps that only carry on with what was submitted.
  predicate Internal(a: Action) {
    !(a.Submit? || a.Spurious? || a.DrainEnter? || a.DrainSpurious?)
  }

  function PcLeft(pc: Pc): nat {
    match pc
    case Awake => 21
    case Asleep => 20
    case Holding => 20
    case Listed => 16
    case Finished => 6
  }

  function WorkLeft(x: Worker): nat {
    20 * |x.queue| + PcLeft(x.pc) + (if x.drain.Looking? then 1 else 0)
  }

  function ReaderLeft(r: Reader): nat {
    match r
    case Waiting => 0
    case Reading => 4
    case Taking => 3
    case Calling(todo) => 1 + 2 * |todo|
  }

  function Left(s: State): nat
    requires |s.workers| == WORKERS
  {
    WorkLeft(s.workers[0]) + WorkLeft(s.workers[1]) + WorkLeft(s.workers[2])
      + 2 * |s.listed| + 8 * s.pipe + ReaderLeft(s.reader)
  }

  lemma WorkShrinks(x: Worker, a: Action)
    requires WorkerEnabled(x, a) && Internal(a)
    ensures WorkLeft(WorkerStep(x, a)) + (if a.Perform? && IsRequest(x.queue[0].kind) then 2 else 0)
      + (if a.Write? then 8 else 0) < WorkLeft(x)
  {
  }

  lemma InternalShrinks(s: State, a: Action)
    requires |s.workers| == WORKERS && Enabled(s, a) && Internal(a)
    ensures |Step(s, a).workers| == WORKERS && Left(Step(s, a)) < Left(s)
  {
    if !IsReader(a) {
      hide WorkLeft, WorkerStep;
      WorkShrinks(s.workers[Concerns(a)], a);
    }
  }

  // Every action of the run is one its thread can take.
  predicate Taken(s: State, run: seq<Action>) {
    run == [] || (Taken(s, run[..|run| - 1]) && Enabled(After(s, run[..|run| - 1]), run[|run| - 1]))
  }

  // Without new submissions, only so many steps are left to take.
  lemma {:induction false} Bounded(s: State, run: seq<Action>)
    requires |s.workers| == WORKERS && Taken(s, run) && forall a <- run :: Internal(a)
    ensures |After(s, run).workers| == WORKERS && |run| + Left(After(s, run)) <= Left(s)
  {
    if run != [] {
      var n := |run| - 1;
      Bounded(s, run[..n]);
      InternalShrinks(After(s, run[..n]), run[n]);
    }
  }

  /**
   * A state in which nothing can be carried on: every job has run, every request was
   * called back, and no thread is still draining. With `Bounded`, every run that stops
   * submitting gets here: no wake-up is ever lost.
   */
  lemma SettledIsDone(run: seq<Action>, w: nat)
    requires w < WORKERS && forall a | Internal(a) :: !Enabled(After(Init(), run), a)
    ensures
      var s := After(Init(), run);
      && w < |s.workers| && s.workers[w].queue == [] && s.workers[w].drain.Away?
      && s.workers[w].ran == s.workers[w].submitted
      && Of(w, s.called) == Requests(s.workers[w].submitted)
  {
    hide After, Inv, Of, Requests;
    RunInv(run);
    SettledState(After(Init(), run), w);
  }

  lemma SettledState(s: State, w: nat)
    requires Inv(s) && w < WORKERS && forall a | Internal(a) :: !Enabled(s, a)
    ensures s.workers[w].queue == [] && s.workers[w].drain.Away? && s.workers[w].ran == s.workers[w].submitted
    ensures Of(w, s.called) == Requests(s.workers[w].submitted)
  {
    hide WorkerInv, WorkerEnabled, Of, Requests, Counted;
    forall v | 0 <= v < WORKERS
      ensures s.workers[v].pc.Asleep? && s.workers[v].drain.Away? && s.workers[v].queue == []
      ensures s.workers[v].ran == s.workers[v].submitted
    {
      NotEnabled(s, Look(v));
      NotEnabled(s, Perform(v));
      NotEnabled(s, Write(v));
      NotEnabled(s, Remove(v, false));
      NotEnabled(s, DrainLook(v));
      SettledWorker(s.workers[v], v);
    }
    assert !Enabled(s, Read) && !Enabled(s, Take) && !Enabled(s, Call);
    assert s.listed == [] && s.reader.Waiting?;
    assert Answers(s) == s.called;
    assert Of(w, Answers(s)) == Requests(s.workers[w].ran);
  }

  lemma SettledWorker(x: Worker, v: nat)
    requires WorkerInv(x, v) && !WorkerEnabled(x, Look(v)) && !WorkerEnabled(x, Perform(v)) && !WorkerEnabled(x, Write(v))
    requires !WorkerEnabled(x, Remove(v, false)) && !WorkerEnabled(x, DrainLook(v))
    ensures x.pc.Asleep? && x.drain.Away? && x.queue == [] && x.ran == x.submitted
  {
    assert x.submitted[..|x.submitted|] == x.submitted;
  }

  lemma NotEnabled(s: State, a: Action)
    requires (forall b | Internal(b) :: !Enabled(s, b)) && Internal(a) && !IsReader(a) && Concerns(a) < |s.workers|
    ensures !WorkerEnabled(s.workers[Concerns(a)], a)
  {
    hide WorkerEnabled;
    assert !Enabled(s, a);
  }

  // ---------- by kind, as the submitters see it ----------

  // Everything a run submits, in order.
  function Submissions(run: seq<Action>): seq<Job> {
    if run == [] then []
    else Submissions(run[..|run| - 1]) + match run[|run| - 1] { case Submit(j, _) => [j] case _ => [] }
  }

  function Times(q: seq<Job>, j: Job): nat {
    if q == [] then 0 else Times(q[..|q| - 1], j) + (if q[|q| - 1] == j then 1 else 0)
  }

  function OfKinds(q: seq<Job>, kinds: set<Kind>): seq<Job> {
    if q == [] then []
    else OfKinds(q[..|q| - 1], kinds) + if q[|q| - 1].kind in kinds then [q[|q| - 1]] else []
  }

  lemma OfMore(w: nat, q: seq<Job>, j: Job)
    ensures Of(w, q + [j]) == Of(w, q) + (if WorkerOf(j.kind) == w then [j] else [])
  {
    assert (q + [j])[..|q|] == q;
  }

  lemma SubmissionsMore(run: seq<Action>, a: Action)
    ensures Submissions(run + [a]) == Submissions(run) + (if a.Submit? then [a.job] else [])
  {
    assert (run + [a])[..|run|] == run;
  }

  lemma StepSubmitted(s: State, a: Action, w: nat)
    requires Enabled(s, a) && w < |s.workers|
    ensures |Step(s, a).workers| == |s.workers|
    ensures Step(s, a).workers[w].submitted
      == s.workers[w].submitted + (if a.Submit? && WorkerOf(a.job.kind) == w then [a.job] else [])
  {
  }

  // Each worker has been given its share of what the run submitted.
  lemma {:induction false} Shares(run: seq<Action>, w: nat)
    requires w < WORKERS
    ensures |After(Init(), run).workers| == WORKERS && After(Init(), run).workers[w].submitted == Of(w, Submissions(run))
  {
    if run != [] {
      hide WorkerStep, WorkerEnabled, Step, Enabled;
      var n := |run| - 1;
      var t, a := After(Init(), run[..n]), run[n];
      Shares(run[..n], w);
      SubmissionsMore(run[..n], a);
      assert run == run[..n] + [a];
      if Enabled(t, a) {
        StepSubmitted(t, a, w);
      } else if a.Submit? {
        SubmitEnabled(t, a);
      }
      assert Submissions(run[..n]) + [] == Submissions(run[..n]);
      if a.Submit? {
        OfMore(w, Submissions(run[..n]), a.job);
      }
    }
  }

  lemma SubmitEnabled(s: State, a: Action)
    requires |s.workers| == WORKERS && a.Submit?
    ensures Enabled(s, a)
  {
  }

  lemma {:induction false} TimesOf(w: nat, q: seq<Job>, j: Job)
    ensures Times(Of(w, q), j) == if WorkerOf(j.kind) == w then Times(q, j) else 0
  {
    if q != [] {
      var n := |q| - 1;
      TimesOf(w, q[..n], j);
      TimesMore(Of(w, q[..n]), q[n], j);
      assert Of(w, q[..n]) + [] == Of(w, q[..n]);
    }
  }

  lemma TimesMore(q: seq<Job>, last: Job, j: Job)
    ensures Times(q + [last], j) == Times(q, j) + (if last == j then 1 else 0)
  {
    assert (q + [last])[..|q|] == q;
  }

  lemma {:induction false} TimesRequests(q: seq<Job>, j: Job)
    ensures Times(Requests(q), j) == if IsRequest(j.kind) then Times(q, j) else 0
  {
    if q != [] {
      var n := |q| - 1;
      TimesRequests(q[..n], j);
      TimesMore(Requests(q[..n]), q[n], j);
      assert Requests(q[..n]) + [] == Requests(q[..n]);
    }
  }

  lemma {:induction false} PrefixTimes(p: seq<Job>, q: seq<Job>, j: Job)
    requires p <= q
    ensures Times(p, j) <= Times(q, j)
  {
    if p != q {
      PrefixTimes(p, q[..|q| - 1], j);
    }
  }

  lemma {:induction false} PrefixKinds(p: seq<Job>, q: seq<Job>, kinds: set<Kind>)
    requires p <= q
    ensures OfKinds(p, kinds) <= OfKinds(q, kinds)
  {
    if p != q {
      PrefixKinds(p, q[..|q| - 1], kinds);
    }
  }

  lemma {:induction false} PrefixOf(w: nat, p: seq<Job>, q: seq<Job>)
    requires p <= q
    ensures Of(w, p) <= Of(w, q)
  {
    if p != q {
      PrefixOf(w, p, q[..|q| - 1]);
    }
  }

  lemma {:induction false} SubmissionsPrefix(run: seq<Action>, i: nat)
    requires i <= |run|
    ensures Submissions(run[..i]) <= Submissions(run)
  {
    if i < |run| {
      var n := |run| - 1;
      assert run[..n][..i] == run[..i];
      SubmissionsPrefix(run[..n], i);
    } else {
      assert run[..i] == run;
    }
  }

  lemma {:induction false} KindsOf(w: nat, q: seq<Job>, kinds: set<Kind>)
    requires forall k <- kinds :: WorkerOf(k) == w
    ensures OfKinds(Of(w, q), kinds) == OfKinds(q, kinds)
  {
    if q != [] {
      var n := |q| - 1;
      KindsOf(w, q[..n], kinds);
      assert (Of(w, q[..n]) + [q[n]])[..|Of(w, q[..n])|] == Of(w, q[..n]);
      assert Of(w, q[..n]) + [] == Of(w, q[..n]);
      assert OfKinds(q[..n], kinds) + [] == OfKinds(q[..n], kinds);
    }
  }

  /**
   * A completion request is called back only after every job it stands for that was
   * submitted before it: closings of files; append-only syncs and closings of append-only
   * files; frees. (`called` holds it more often than it was submitted earlier.)
   */
  lemma CallbackAfterEarlier(run: seq<Action>, i: nat, kinds: set<Kind>)
    requires i < |run| && run[i].Submit?
    requires
      || (run[i].job.kind == RequestCloseFile && kinds == {CloseFile})
      || (run[i].job.kind == RequestAofFsync && kinds == {AofFsync, CloseAof})
      || (run[i].job.kind == RequestLazyFree && kinds == {LazyFree})
    requires Times(After(Init(), run).called, run[i].job) > Times(Submissions(run[..i]), run[i].job)
    ensures exists w ::
      && 0 <= w < |After(Init(), run).workers|
      && OfKinds(Submissions(run[..i]), kinds) <= OfKinds(After(Init(), run).workers[w].ran, kinds)
  {
    var s, r, before := After(Init(), run), run[i].job, Submissions(run[..i]);
    var w := WorkerOf(r.kind);
    CallbacksInOrder(run, w);
    Shares(run, w);
    hide After, Of, Requests, Times, OfKinds, Submissions;
    var ran := s.workers[w].ran;
    SubmissionsPrefix(run, i);
    PrefixOf(w, before, Submissions(run));
    TimesOf(w, s.called, r);
    TimesOf(w, before, r);
    PrefixTimes(Of(w, s.called), Requests(ran), r);
    TimesRequests(ran, r);
    if |ran| <= |Of(w, before)| {
      PrefixTimes(ran, Of(w, before), r);
    }
    PrefixKinds(Of(w, before), ran, kinds);
    KindsOf(w, before, kinds);
  }

  // Only completion requests are called back, and none more often than it was submitted.
  lemma CalledAtMost(run: seq<Action>, j: Job)
    ensures Times(After(Init(), run).called, j)
      <= if j.kind in {RequestCloseFile, RequestAofFsync, RequestLazyFree} then Times(Submissions(run), j) else 0
  {
    var s, w := After(Init(), run), WorkerOf(j.kind);
    CallbacksInOrder(run, w);
    Shares(run, w);
    hide After, Of, Requests, Times, Submissions;
    TimesOf(w, s.called, j);
    TimesOf(w, Submissions(run), j);
    PrefixTimes(Of(w, s.called), Requests(s.workers[w].submitted), j);
    TimesRequests(s.workers[w].submitted, j);
  }

  // Once nothing can be carried on, each request was called back as often as submitted.
  lemma SettledCallsBack(run: seq<Action>, j: Job)
    requires forall a | Internal(a) :: !Enabled(After(Init(), run), a)
    requires j.kind in {RequestCloseFile, RequestAofFsync, RequestLazyFree}
    ensures Times(After(Init(), run).called, j) == Times(Submissions(run), j)
  {
    var s, w := After(Init(), run), WorkerOf(j.kind);
    SettledIsDone(run, w);
    Shares(run, w);
    hide After, Of, Requests, Times, Submissions, Enabled, Internal;
    TimesOf(w, s.called, j);
    TimesOf(w, Submissions(run), j);
    TimesRequests(s.workers[w].submitted, j);
  }
}
