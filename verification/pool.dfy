/** The worker pool of `main`, as a transition system.

    The file channel is buffered to the number of files and is filled and
    closed before anything waits on it for long, so it is modelled as a queue
    holding every file from the start.  Each of the `nQueries` workers loops:
    take a file (or, when the queue is empty and closed, leave the loop), upload
    it, send one `InfoMsg`, repeat.  A schedule is any sequence of such steps
    of any workers, each upload ending with an arbitrary outcome; the sent
    messages, in sending order, are what the aggregator reads.  The program
    finishes once every worker has left its loop (`wg.Wait()`). */
module Pool {
  import opened Wrappers

  /** The message a worker sends after one upload attempt; `err` is `None`
      when the upload succeeded. */
  datatype InfoMsg = InfoMsg(fileName: string, err: Option<string>)

  datatype Worker =
    | Waiting                 // at the top of its loop, about to receive a file
    | Uploading(file: string) // has received `file`, its upload is in progress
    | Exited                  // received from the closed, empty channel and returned

  datatype State = State(queue: seq<string>, workers: seq<Worker>, sent: seq<InfoMsg>)

  datatype Step =
    | Pull(w: nat)                      // worker `w` receives from the file channel
    | Finish(w: nat, err: Option<string>) // worker `w`'s upload ends with `err`; it sends its message

  /** `for i := 0; i < nQueries; i++ { go worker }`: no worker when `nQueries <= 0`. */
  function Start(files: seq<string>, nQueries: int): (s: State)
    ensures s.queue == files && s.sent == []
    ensures nQueries >= 0 ==> |s.workers| == nQueries
    ensures nQueries < 0 ==> |s.workers| == 0
    ensures forall i :: 0 <= i < |s.workers| ==> s.workers[i] == Waiting
  {
    var n: nat := if nQueries > 0 then nQueries else 0;
    State(files, seq(n, _ => Waiting), [])
  }

  predicate Enabled(s: State, step: Step) {
    step.w < |s.workers| &&
    match step
    case Pull(w) => s.workers[w] == Waiting
    case Finish(w, _) => s.workers[w].Uploading?
  }

  /** One step; a step never adds or removes a worker, and a step of a worker
      that cannot take it leaves the state unchanged. */
  function Apply(s: State, step: Step): (s': State)
    ensures |s'.workers| == |s.workers|
    ensures !Enabled(s, step) ==> s' == s
  {
    if !Enabled(s, step) then s
    else
      match step
      case Pull(w) =>
        if |s.queue| == 0 then s.(workers := s.workers[w := Exited])
        else s.(queue := s.queue[1..], workers := s.workers[w := Uploading(s.queue[0])])
      case Finish(w, err) =>
        s.(workers := s.workers[w := Waiting], sent := s.sent + [InfoMsg(s.workers[w].file, err)])
  }

  /** What one enabled step does.  Receiving hands the worker the head of the
      queue, or ends its loop once the queue is drained; finishing an upload
      sends exactly one message, for the worker's file, and sends the worker
      back for the next file.  No other worker is affected. */
  lemma ApplyEffect(s: State, step: Step)
    requires Enabled(s, step)
    ensures forall i :: 0 <= i < |s.workers| && i != step.w ==> Apply(s, step).workers[i] == s.workers[i]
    ensures step.Pull? ==>
      var s' := Apply(s, step);
      && s'.sent == s.sent
      && (|s.queue| > 0 ==> s'.workers[step.w] == Uploading(s.queue[0]) && s'.queue == s.queue[1..])
      && (|s.queue| == 0 ==> s'.workers[step.w] == Exited && s'.queue == [])
    ensures step.Finish? ==>
      var s' := Apply(s, step);
      && s'.queue == s.queue
      && s'.workers[step.w] == Waiting
      && s'.sent == s.sent + [InfoMsg(s.workers[step.w].file, step.err)]
  {
  }

  /** The files still queued after a step are the last ones of the queue before it. */
  lemma ApplyQueueSuffix(s: State, step: Step)
    ensures var q := Apply(s, step).queue; |q| <= |s.queue| && q == s.queue[|s.queue| - |q|..]
  {
  }

  /** The state after the steps of `schedule`, in order: the pool keeps its
      size and messages are only ever appended. */
  function Run(s: State, schedule: seq<Step>): (s': State)
    ensures |s'.workers| == |s.workers|
    ensures s.sent <= s'.sent
    decreases |schedule|
  {
    if |schedule| == 0 then s else Run(Apply(s, schedule[0]), schedule[1..])
  }

  /** Files leave the queue only from its front, in order. */
  lemma {:induction false} RunTakesFromFront(s: State, schedule: seq<Step>)
    ensures var q := Run(s, schedule).queue; |q| <= |s.queue| && q == s.queue[|s.queue| - |q|..]
    decreases |schedule|
  {
    if |schedule| > 0 {
      var t := Apply(s, schedule[0]);
      ApplyQueueSuffix(s, schedule[0]);
      RunTakesFromFront(t, schedule[1..]);
    }
  }

  /** Every worker has returned: `wg.Wait()` is over. */
  predicate AllExited(s: State) {
    forall i :: 0 <= i < |s.workers| ==> s.workers[i] == Exited
  }

  function Names(msgs: seq<InfoMsg>): (names: seq<string>)
    ensures |names| == |msgs|
    ensures forall i :: 0 <= i < |msgs| ==> names[i] == msgs[i].fileName
  {
    if |msgs| == 0 then [] else Names(msgs[..|msgs| - 1]) + [msgs[|msgs| - 1].fileName]
  }

  function Holding(w: Worker): multiset<string> {
    if w.Uploading? then multiset{w.file} else multiset{}
  }

  /** The files whose uploads are in progress. */
  function InFlight(ws: seq<Worker>): multiset<string> {
    if |ws| == 0 then multiset{} else Holding(ws[0]) + InFlight(ws[1..])
  }

  /** Files still queued, being uploaded, or already reported: together always
      the files found, no more and no fewer. */
  ghost predicate Conserved(s: State, files: seq<string>) {
    multiset(s.queue) + InFlight(s.workers) + multiset(Names(s.sent)) == multiset(files)
  }

  /** A worker leaves its loop only once the queue is drained. */
  ghost predicate ExitOnlyWhenDrained(s: State) {
    forall i :: 0 <= i < |s.workers| && s.workers[i] == Exited ==> s.queue == []
  }

  ghost predicate Inv(s: State, files: seq<string>) {
    Conserved(s, files) && ExitOnlyWhenDrained(s)
  }

  // ---------------------------------------------------------------------------
  // Lemmas.
  // ---------------------------------------------------------------------------

  /** Replacing one worker changes the files in flight by what it held and what it holds now. */
  lemma {:induction false} InFlightUpdate(ws: seq<Worker>, w: nat, x: Worker)
    requires w < |ws|
    ensures InFlight(ws[w := x]) + Holding(ws[w]) == InFlight(ws) + Holding(x)
  {
    if w > 0 {
      InFlightUpdate(ws[1..], w - 1, x);
      InFlightUpdateStep(ws, w, x);
    } else {
      assert ws[0 := x][1..] == ws[1..];
    }
  }

  lemma InFlightUpdateStep(ws: seq<Worker>, w: nat, x: Worker)
    requires 0 < w < |ws|
    requires InFlight(ws[1..][w - 1 := x]) + Holding(ws[w]) == InFlight(ws[1..]) + Holding(x)
    ensures InFlight(ws[w := x]) + Holding(ws[w]) == InFlight(ws) + Holding(x)
  {
    var ws' := ws[w := x];
    assert ws'[0] == ws[0];
    assert ws'[1..] == ws[1..][w - 1 := x];
    assert InFlight(ws') == Holding(ws[0]) + InFlight(ws[1..][w - 1 := x]);
    assert InFlight(ws) == Holding(ws[0]) + InFlight(ws[1..]);
    forall f
      ensures (InFlight(ws') + Holding(ws[w]))[f] == (InFlight(ws) + Holding(x))[f]
    {
      assert (InFlight(ws[1..][w - 1 := x]) + Holding(ws[w]))[f] == (InFlight(ws[1..]) + Holding(x))[f];
    }
  }

  lemma {:induction false} InFlightAllExited(ws: seq<Worker>)
    requires forall i :: 0 <= i < |ws| ==> ws[i] == Exited
    ensures InFlight(ws) == multiset{}
  {
    if |ws| > 0 {
      InFlightAllExited(ws[1..]);
    }
  }

  lemma NamesAppend(msgs: seq<InfoMsg>, m: InfoMsg)
    ensures Names(msgs + [m]) == Names(msgs) + [m.fileName]
  {
    assert (msgs + [m])[..|msgs|] == msgs;
  }

  /** A file leaving the queue for a worker leaves the accounting unchanged. */
  lemma PullAccounting(q: multiset<string>, i: multiset<string>, n: multiset<string>,
                       q': multiset<string>, i': multiset<string>, f: string)
    requires q == multiset{f} + q' && i' + multiset{} == i + multiset{f}
    ensures q' + i' + n == q + i + n
  {
    forall g
      ensures (q' + i' + n)[g] == (q + i + n)[g]
    {
      assert (i' + multiset{})[g] == (i + multiset{f})[g];
    }
  }

  /** A file leaving a worker for the sent messages leaves the accounting unchanged. */
  lemma FinishAccounting(q: multiset<string>, i: multiset<string>, n: multiset<string>,
                         i': multiset<string>, n': multiset<string>, f: string)
    requires i' + multiset{f} == i + multiset{} && n' == n + multiset{f}
    ensures q + i' + n' == q + i + n
  {
    forall g
      ensures (q + i' + n')[g] == (q + i + n)[g]
    {
      assert (i' + multiset{f})[g] == (i + multiset{})[g];
    }
  }

  lemma PullPreserves(s: State, files: seq<string>, w: nat)
    requires Inv(s, files) && Enabled(s, Pull(w))
    ensures Inv(Apply(s, Pull(w)), files)
    ensures Apply(s, Pull(w)).sent == s.sent
    ensures |s.queue| > 0 ==> Apply(s, Pull(w)).workers[w] == Uploading(s.queue[0]) && Apply(s, Pull(w)).queue == s.queue[1..]
    ensures |s.queue| == 0 ==> Apply(s, Pull(w)).workers[w] == Exited
  {
    ApplyEffect(s, Pull(w));
    if |s.queue| == 0 {
      var ws' := s.workers[w := Exited];
      assert Apply(s, Pull(w)) == s.(workers := ws');
      InFlightUpdate(s.workers, w, Exited);
      forall g
        ensures InFlight(ws')[g] == InFlight(s.workers)[g]
      {
        assert (InFlight(ws') + multiset{})[g] == (InFlight(s.workers) + multiset{})[g];
      }
    } else {
      PullTakesFile(s, files, w);
    }
  }

  lemma PullTakesFile(s: State, files: seq<string>, w: nat)
    requires Inv(s, files) && Enabled(s, Pull(w)) && |s.queue| > 0
    ensures Inv(Apply(s, Pull(w)), files)
    ensures Apply(s, Pull(w)).sent == s.sent
  {
    var f := s.queue[0];
    var s' := Apply(s, Pull(w));
    assert s' == s.(queue := s.queue[1..], workers := s.workers[w := Uploading(f)]);
    InFlightUpdate(s.workers, w, Uploading(f));
    assert s.queue == [f] + s'.queue;
    assert multiset(s.queue) == multiset{f} + multiset(s'.queue);
    PullAccounting(multiset(s.queue), InFlight(s.workers), multiset(Names(s.sent)), multiset(s'.queue), InFlight(s'.workers), f);
    assert forall i :: 0 <= i < |s.workers| ==> s.workers[i] != Exited;
  }

  lemma FinishPreserves(s: State, files: seq<string>, w: nat, err: Option<string>)
    requires Inv(s, files) && Enabled(s, Finish(w, err))
    ensures Inv(Apply(s, Finish(w, err)), files)
    ensures Apply(s, Finish(w, err)).sent == s.sent + [InfoMsg(s.workers[w].file, err)]
  {
    var f := s.workers[w].file;
    var s' := Apply(s, Finish(w, err));
    assert s' == s.(workers := s.workers[w := Waiting], sent := s.sent + [InfoMsg(f, err)]);
    InFlightUpdate(s.workers, w, Waiting);
    NamesAppend(s.sent, InfoMsg(f, err));
    FinishAccounting(multiset(s.queue), InFlight(s.workers), multiset(Names(s.sent)), InFlight(s'.workers), multiset(Names(s'.sent)), f);
  }

  /** One step keeps the file accounting and the exit discipline, and only ever
      appends to the sent messages. */
  lemma ApplyPreserves(s: State, files: seq<string>, step: Step)
    requires Inv(s, files)
    ensures Inv(Apply(s, step), files)
    ensures s.sent <= Apply(s, step).sent
  {
    if Enabled(s, step) {
      match step
      case Pull(w) => PullPreserves(s, files, w);
      case Finish(w, err) => FinishPreserves(s, files, w, err);
    }
  }

  lemma {:induction false} RunPreserves(s: State, files: seq<string>, schedule: seq<Step>)
    requires Inv(s, files)
    ensures Inv(Run(s, schedule), files)
    ensures |Run(s, schedule).workers| == |s.workers|
    ensures s.sent <= Run(s, schedule).sent
    decreases |schedule|
  {
    if |schedule| > 0 {
      ApplyPreserves(s, files, schedule[0]);
      RunPreserves(Apply(s, schedule[0]), files, schedule[1..]);
    }
  }

  /** Once every worker of a non-empty pool has exited, each file found has been
      reported exactly once: the reported names are a permutation of the files. */
  lemma DrainedPoolReportsEveryFile(s: State, files: seq<string>)
    requires Inv(s, files) && |s.workers| >= 1 && AllExited(s)
    ensures multiset(Names(s.sent)) == multiset(files)
    ensures |s.sent| == |files|
  {
    InFlightAllExited(s.workers);
    assert s.workers[0] == Exited;
    assert |multiset(Names(s.sent))| == |multiset(files)|;
  }

  /** Whatever the interleaving and whatever the outcome of each upload, a run
      with at least one worker that has finished has sent exactly one message
      per file. */
  lemma OneMessagePerFile(files: seq<string>, nQueries: int, schedule: seq<Step>)
    requires nQueries >= 1
    requires AllExited(Run(Start(files, nQueries), schedule))
    ensures multiset(Names(Run(Start(files, nQueries), schedule).sent)) == multiset(files)
    ensures |Run(Start(files, nQueries), schedule).sent| == |files|
  {
    var s0 := Start(files, nQueries);
    assert InFlight(s0.workers) == multiset{} by {
      InFlightNoneUploading(s0.workers);
    }
    RunPreserves(s0, files, schedule);
    DrainedPoolReportsEveryFile(Run(s0, schedule), files);
  }

  lemma {:induction false} InFlightNoneUploading(ws: seq<Worker>)
    requires forall i :: 0 <= i < |ws| ==> !ws[i].Uploading?
    ensures InFlight(ws) == multiset{}
  {
    if |ws| > 0 {
      InFlightNoneUploading(ws[1..]);
    }
  }

  /** An upload error does not end the worker's loop: after its message the
      worker is waiting for the next file exactly as after a success. */
  lemma FailureKeepsWorking(s: State, w: nat, e: string)
    requires Enabled(s, Finish(w, Some(e)))
    ensures Apply(s, Finish(w, Some(e))).workers[w] == Waiting
    ensures Apply(s, Finish(w, Some(e))).workers == Apply(s, Finish(w, None)).workers
    ensures Apply(s, Finish(w, Some(e))).queue == Apply(s, Finish(w, None)).queue
    ensures Names(Apply(s, Finish(w, Some(e))).sent) == Names(Apply(s, Finish(w, None)).sent)
  {
    NamesAppend(s.sent, InfoMsg(s.workers[w].file, Some(e)));
    NamesAppend(s.sent, InfoMsg(s.workers[w].file, None));
  }

  // ---------------------------------------------------------------------------
  // The pool always finishes: some step is possible until every worker has
  // exited, and every possible step consumes work.
  // ---------------------------------------------------------------------------

  function Weight(w: Worker): nat {
    match w
    case Waiting => 1
    case Uploading(_) => 2
    case Exited => 0
  }

  function Weights(ws: seq<Worker>): nat {
    if |ws| == 0 then 0 else Weight(ws[0]) + Weights(ws[1..])
  }

  /** Work left: three per queued file, two per upload in progress, one per waiting worker. */
  function Work(s: State): nat {
    3 * |s.queue| + Weights(s.workers)
  }

  lemma {:induction false} WeightsUpdate(ws: seq<Worker>, w: nat, x: Worker)
    requires w < |ws|
    ensures Weights(ws[w := x]) + Weight(ws[w]) == Weights(ws) + Weight(x)
  {
    if w > 0 {
      assert ws[w := x][1..] == ws[1..][w - 1 := x];
      WeightsUpdate(ws[1..], w - 1, x);
    } else {
      assert ws[w := x][1..] == ws[1..];
    }
  }

  /** No deadlock: until every worker has exited, some worker can take a step. */
  lemma NoDeadlock(s: State)
    requires !AllExited(s)
    ensures exists step :: Enabled(s, step)
  {
    var i :| 0 <= i < |s.workers| && s.workers[i] != Exited;
    if s.workers[i] == Waiting {
      assert Enabled(s, Pull(i));
    } else {
      assert Enabled(s, Finish(i, None));
    }
  }

  /** Every step that happens strictly reduces the work left, so no schedule of
      real steps is longer than the initial work. */
  lemma StepConsumesWork(s: State, step: Step)
    requires Enabled(s, step)
    ensures Work(Apply(s, step)) < Work(s)
  {
    var s' := Apply(s, step);
    WeightsUpdate(s.workers, step.w, s'.workers[step.w]);
  }
}
