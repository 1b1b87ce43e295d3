/**
 * The shared state of the background-job system, and the critical sections of its
 * threads as methods. Each is one action of `BioModel`, so the invariants proved there
 * for every run hold of every interleaving of these calls.
 */
module BioPool {
  import opened BioModel

  class Pool {
    var queues: seq<seq<Job>>
    var counters: map<Kind, nat>
    var listed: seq<Job>
    var pipe: nat
    // Where each thread stands.
    var pcs: seq<Pc>
    var drains: seq<Drain>
    var reader: Reader
    // The same with everything queued, performed and called back so far.
    ghost var view: State

    ghost predicate Mirrors(s: State)
      reads this
    {
      && |queues| == |pcs| == |drains| == |s.workers| == WORKERS
      && (forall w | 0 <= w < WORKERS ::
            queues[w] == s.workers[w].queue && pcs[w] == s.workers[w].pc && drains[w] == s.workers[w].drain)
      && counters == s.counters && listed == s.listed && pipe == s.pipe && reader == s.reader
    }

    ghost predicate Valid()
      reads this
    {
      Mirrors(view) && Reachable(view)
    }

    constructor ()
      ensures Valid() && view == Init()
    {
      queues, pcs, drains := [[], [], []], [Awake, Awake, Awake], [Away, Away, Away];
      counters := map k <- AllKinds() :: 0;
      listed, pipe, reader := [], 0, Waiting;
      view := Init();
      assert After(Init(), []) == Init();
    }

    method Wake(w: nat, drainFirst: bool)
      requires |pcs| == |drains| == WORKERS && w < WORKERS
      modifies this`pcs, this`drains
      ensures |pcs| == |drains| == WORKERS && pcs == old(pcs)[w := pcs[w]] && drains == old(drains)[w := drains[w]]
      ensures forall x: Worker | x.pc == old(pcs[w]) && x.drain == old(drains[w]) ::
        Signal(x, drainFirst) == x.(pc := pcs[w], drain := drains[w])
    {
      if drains[w].Sleeping? && (drainFirst || !pcs[w].Asleep?) {
        drains := drains[w := Looking];
      } else if pcs[w].Asleep? {
        pcs := pcs[w := Awake];
      }
    }

    // bioSubmitJob.
    method SubmitJob(job: Job, drainFirst: bool)
      requires Valid()
      modifies this`queues, this`counters, this`pcs, this`drains, this`view
      ensures Valid() && view == Step(old(view), Submit(job, drainFirst))
    {
      ghost var a := Submit(job, drainFirst);
      ReachableStep(view, a);
      CounterThere(view, job.kind);
      hide Reachable, Signal;
      var w := WorkerOf(job.kind);
      queues := queues[w := queues[w] + [job]];
      counters := counters[job.kind := counters[job.kind] + 1];
      Wake(w, drainFirst);
      view := Step(view, a);
    }

    // The top of bioProcessBackgroundJobs: wait for a job, or take the first.
    method LookForJob(w: nat)
      requires Valid() && w < WORKERS && pcs[w].Awake?
      modifies this`pcs, this`view
      ensures Valid() && view == Step(old(view), Look(w))
    {
      ReachableStep(view, Look(w));
      hide Reachable;
      pcs := pcs[w := if queues[w] == [] then Asleep else Holding];
      view := Step(view, Look(w));
    }

    // The effect of the job in hand; a request is put on the completion list.
    method PerformJob(w: nat)
      requires Valid() && w < WORKERS && pcs[w].Holding?
      modifies this`pcs, this`listed, this`view
      ensures Valid() && Enabled(old(view), Perform(w)) && view == Step(old(view), Perform(w))
    {
      HasJob(view, w);
      ReachableStep(view, Perform(w));
      hide Reachable;
      var job := queues[w][0];
      if IsRequest(job.kind) {
        listed := listed + [job];
        pcs := pcs[w := Listed];
      } else {
        pcs := pcs[w := Finished];
      }
      view := Step(view, Perform(w));
    }

    // write() on the non-blocking pipe: nothing happens when it is full.
    method WritePipe(w: nat)
      requires Valid() && w < WORKERS && pcs[w].Listed?
      modifies this`pcs, this`pipe, this`view
      ensures Valid() && view == Step(old(view), Write(w))
    {
      ReachableStep(view, Write(w));
      hide Reachable;
      if pipe < CAPACITY {
        pipe := pipe + 1;
      }
      pcs := pcs[w := Finished];
      view := Step(view, Write(w));
    }

    // The bottom of the worker loop.
    method RemoveJob(w: nat, drainFirst: bool)
      requires Valid() && w < WORKERS && pcs[w].Finished?
      modifies this`queues, this`counters, this`pcs, this`drains, this`view
      ensures Valid() && Enabled(old(view), Remove(w, drainFirst)) && view == Step(old(view), Remove(w, drainFirst))
    {
      ghost var a := Remove(w, drainFirst);
      HeadCounted(view, w);
      ReachableStep(view, a);
      hide Reachable, Signal;
      var kind := queues[w][0].kind;
      queues := queues[w := queues[w][1..]];
      counters := counters[kind := counters[kind] - 1];
      pcs := pcs[w := Awake];
      Wake(w, drainFirst);
      view := Step(view, a);
    }

    // bioPendingJobsOfType: the counter is the number of jobs of that kind still queued.
    method PendingOfType(k: Kind) returns (n: nat)
      requires Valid()
      ensures n == Count(queues[WorkerOf(k)], k)
    {
      CounterThere(view, k);
      hide Reachable;
      n := counters[k];
    }

    // One round of bioDrainWorker; true means the wait is over and every job has run.
    method DrainRound(w: nat) returns (empty: bool)
      requires Valid() && w < WORKERS && drains[w].Looking?
      modifies this`drains, this`view
      ensures Valid() && view == Step(old(view), DrainLook(w))
      ensures empty ==> view.workers[w].ran == view.workers[w].submitted
    {
      EmptyHasRun(view, w);
      ReachableStep(view, DrainLook(w));
      hide Reachable;
      empty := queues[w] == [];
      drains := drains[w := if empty then Away else Sleeping];
      view := Step(view, DrainLook(w));
    }

    // One read() of bioPipeReadJobCompList, started by a readable pipe.
    method ReadPipe()
      requires Valid() && (reader.Reading? || (reader.Waiting? && pipe > 0))
      modifies this`pipe, this`reader, this`view
      ensures Valid() && view == Step(old(view), Read)
    {
      ReachableStep(view, Read);
      hide Reachable;
      if pipe >= CHUNK {
        pipe, reader := pipe - CHUNK, Reading;
      } else {
        pipe, reader := 0, Taking;
      }
      view := Step(view, Read);
    }

    method TakeList()
      requires Valid() && reader.Taking?
      modifies this`listed, this`reader, this`view
      ensures Valid() && view == Step(old(view), Take)
    {
      ReachableStep(view, Take);
      hide Reachable;
      if listed == [] {
        reader := Waiting;
      } else {
        listed, reader := [], Calling(listed);
      }
      view := Step(view, Take);
    }

    // The next callback; the history of callbacks grows by exactly that job.
    method CallNext()
      requires Valid() && reader.Calling?
      modifies this`reader, this`view
      ensures Valid() && view == Step(old(view), Call)
    {
      ReachableStep(view, Call);
      hide Reachable;
      reader := if reader.todo == [] then Waiting else Calling(reader.todo[1..]);
      view := Step(view, Call);
    }
  }

  lemma CounterThere(s: State, k: Kind)
    requires Reachable(s)
    ensures WorkerOf(k) < |s.workers| && k in s.counters && s.counters[k] == Count(s.workers[WorkerOf(k)].queue, k)
  {
    ReachableInv(s);
  }

  // A worker that is not looking for a job has one at the head of its queue.
  lemma HasJob(s: State, w: nat)
    requires Reachable(s) && w < |s.workers| && (s.workers[w].pc.Holding? || s.workers[w].pc.Finished?)
    ensures s.workers[w].queue != [] && WorkerOf(s.workers[w].queue[0].kind) == w
  {
    ReachableInv(s);
    InvAt(s, w);
    HeadIsMine(s.workers[w], w);
  }

  lemma HeadCounted(s: State, w: nat)
    requires Reachable(s) && w < |s.workers| && s.workers[w].pc.Finished?
    ensures s.workers[w].queue != []
    ensures s.workers[w].queue[0].kind in s.counters && s.counters[s.workers[w].queue[0].kind] > 0
  {
    hide Reachable;
    HasJob(s, w);
    var q := s.workers[w].queue;
    CounterThere(s, q[0].kind);
    CountTail(q, q[0].kind);
  }

  lemma EmptyHasRun(s: State, w: nat)
    requires Reachable(s) && w < |s.workers|
    ensures s.workers[w].queue == [] ==> s.workers[w].ran == s.workers[w].submitted
  {
    ReachableInv(s);
    InvAt(s, w);
    var x := s.workers[w];
    assert x.submitted[..|x.submitted|] == x.submitted;
  }
}
