/** vixen/processor.py: `Job` and the `Processor` that runs a list of jobs,
    under a sequential abstraction with a single slot (`number_of_processes`
    is 1): starting a job runs it to completion, and what other threads do
    while the processor waits is given as a list of control calls. */
module JobModel {
  import opened Wrappers
  import opened PyStr
  import opened Values

  /** The `status` enum of `Job` and of `Processor`: 'none', 'running', 'error', 'success'. */
  datatype Status = NotStarted | Running | Errored | Succeeded

  /** The `interrupt` enum of `Processor`: '', 'pause', 'stop'. */
  datatype Interrupt = NoInterrupt | PauseRequested | StopRequested

  /** What calling `func(*args, **kw)` does: it returns a value, or it raises with
      a formatted traceback and, for exceptions that carry one, an `output`. */
  datatype Outcome = Returned(value: Value) | Raised(traceback: string, output: Option<string>)

  /** The status `_run` leaves for an outcome. */
  function StatusOf(o: Outcome): (r: Status)
    ensures r == Succeeded <==> o.Returned?
    ensures r == Errored <==> o.Raised?
  {
    if o.Returned? then Succeeded else Errored
  }

  /** The `error` text `_run` leaves after a raise, given the text `prev` before it:
      'OUTPUT: <output>\n' replaces it when the exception has an output, and the
      traceback is appended in every case. */
  function ErrorText(prev: string, o: Outcome): string
    requires o.Raised?
  {
    (if o.output.Some? then "OUTPUT: " + o.output.value + "\n" else prev) + o.traceback
  }

  /** The error text always ends with the traceback; it starts with "OUTPUT: "
      exactly when the exception carried an output or the previous text did;
      after `reset` it is the traceback alone when there is no output. */
  lemma {:induction false} ErrorTextShape(prev: string, o: Outcome)
    requires o.Raised?
    ensures var e := ErrorText(prev, o);
      |o.traceback| <= |e| && e[|e| - |o.traceback|..] == o.traceback
    ensures o.output.Some? ==> IsPrefix("OUTPUT: ", ErrorText(prev, o))
    ensures o.output.None? ==> ErrorText("", o) == o.traceback
  {
    var e := ErrorText(prev, o);
    var head := if o.output.Some? then "OUTPUT: " + o.output.value + "\n" else prev;
    assert e == head + o.traceback;
    assert e[|e| - |o.traceback|..] == o.traceback;
    if o.output.Some? {
      assert e == "OUTPUT: " + (o.output.value + "\n" + o.traceback);
      assert e[..|"OUTPUT: "|] == "OUTPUT: ";
    } else {
      assert "" + o.traceback == o.traceback;
    }
  }

  class Job {
    /** The call `func(*args, **kw)`, by the outcome it produces. */
    const func: Outcome
    const info: string
    var result: Value
    var error: string
    var status: Status

    /** `Job(func=..., info=...)`: not started, no result, no error. */
    constructor (f: Outcome, i: string)
      ensures func == f && info == i
      ensures result == VNone && error == "" && status == NotStarted
    {
      func, info := f, i;
      result, error, status := VNone, "", NotStarted;
    }

    /** `reset()`: back to 'none' with no error; the result is kept. */
    method Reset()
      modifies this`status, this`error
      ensures status == NotStarted && error == ""
    {
      status := NotStarted;
      error := "";
    }

    /** `_run()`, the target of the job's thread: status 'running', then either the
        returned value is stored with status 'success', or the error text is
        written with status 'error'. */
    method Run()
      modifies this`status, this`result, this`error
      ensures status == StatusOf(func)
      ensures func.Returned? ==> result == func.value && error == old(error)
      ensures func.Raised? ==> result == old(result) && error == ErrorText(old(error), func)
    {
      status := Running;
      match func
      case Returned(v) =>
        result := v;
        status := Succeeded;
      case Raised(tb, output) =>
        if output.Some? {
          error := "OUTPUT: " + output.value + "\n";
        }
        error := error + tb;
        status := Errored;
    }
  }

  /** What `_run` leaves in a job: its status follows from the outcome, and so does
      its result when it returned. */
  ghost predicate RanTo(j: Job)
    reads j
  {
    j.status == StatusOf(j.func) && (j.func.Returned? ==> j.result == j.func.value)
  }

  /** The outcomes of a list of jobs. */
  function Outcomes(js: seq<Job>): (r: seq<Outcome>)
    ensures |r| == |js|
    ensures forall i :: 0 <= i < |js| ==> r[i] == js[i].func
  {
    if js == [] then [] else Outcomes(js[..|js| - 1]) + [js[|js| - 1].func]
  }

  /** The jobs whose status is still `none`, in their original order. */
  function Pending(js: seq<Job>): (r: seq<Job>)
    reads set j | j in js
    ensures |r| <= |js|
    ensures forall i :: 0 <= i < |r| ==> r[i] in js && r[i].status == NotStarted
    ensures forall i :: 0 <= i < |js| && js[i].status == NotStarted ==> js[i] in r
  {
    if js == [] then []
    else
      var last := js[|js| - 1];
      Pending(js[..|js| - 1]) + (if last.status == NotStarted then [last] else [])
  }

  /** A call another thread makes on the processor. */
  datatype Control = StopCall | PauseCall | ResumeCall

  /** The `interrupt` a call made while the processor is running leaves, from `i`:
      `stop` and `pause` overwrite it, `resume` clears a pause and nothing else. */
  function AfterCall(i: Interrupt, c: Control): (r: Interrupt)
    ensures c == StopCall ==> r == StopRequested
    ensures c == PauseCall ==> r == PauseRequested
    ensures c == ResumeCall ==> r == (if i == PauseRequested then NoInterrupt else i)
  {
    match c
    case StopCall => StopRequested
    case PauseCall => PauseRequested
    case ResumeCall => if i == PauseRequested then NoInterrupt else i
  }

  /** The `interrupt` after the calls `cs`, made in order while the processor is
      running, starting from `i`. */
  function Settle(i: Interrupt, cs: seq<Control>): Interrupt
  {
    if cs == [] then i else AfterCall(Settle(i, cs[..|cs| - 1]), cs[|cs| - 1])
  }

  /** A pause followed by a resume leaves the processor running, a resume does
      not undo a stop, and a pause after a stop overrides it. */
  lemma {:induction false} SettleExamples()
    ensures Settle(NoInterrupt, [PauseCall, ResumeCall]) == NoInterrupt
    ensures Settle(NoInterrupt, [StopCall, ResumeCall]) == StopRequested
    ensures Settle(NoInterrupt, [StopCall, PauseCall]) == PauseRequested
  {
    assert [PauseCall, ResumeCall][..1] == [PauseCall];
    assert [StopCall, ResumeCall][..1] == [StopCall];
    assert [StopCall, PauseCall][..1] == [StopCall];
  }

  /** The calls made while the processor waits to admit job `i`, and for
      `i == |q|` the calls made while it waits for the last job to end. */
  function ControlsAt(env: seq<seq<Control>>, i: int): seq<Control>
  {
    if 0 <= i < |env| then env[i] else []
  }

  /** No pause is left pending by the calls before any of the first `n` jobs. */
  predicate NoPauseLeft(env: seq<seq<Control>>, n: int)
  {
    forall i :: 0 <= i < |env| && i < n ==> Settle(NoInterrupt, env[i]) != PauseRequested
  }

  /** The processor stops before admitting job `i`. */
  predicate StopsAt(env: seq<seq<Control>>, i: int)
  {
    Settle(NoInterrupt, ControlsAt(env, i)) == StopRequested
  }

  /** Admission ends before job `i`: the job before it raised, or a stop came. */
  predicate Halts(outs: seq<Outcome>, env: seq<seq<Control>>, i: int)
    requires 0 <= i <= |outs|
  {
    (i > 0 && outs[i - 1].Raised?) || StopsAt(env, i)
  }

  /** Admission does not halt before any of the jobs `from .. i - 1`. */
  predicate NoHaltBelow(outs: seq<Outcome>, env: seq<seq<Control>>, from: nat, i: int)
    requires from <= i <= |outs|
    decreases i - from
  {
    i == from || (NoHaltBelow(outs, env, from, i - 1) && !Halts(outs, env, i - 1))
  }

  /** The recursive form says the same as the quantified one. */
  lemma {:induction false} NoHaltBelowAll(outs: seq<Outcome>, env: seq<seq<Control>>, from: nat, i: int)
    requires from <= i <= |outs|
    ensures NoHaltBelow(outs, env, from, i) <==> forall n :: from <= n < i ==> !Halts(outs, env, n)
    decreases i - from
  {
    if i > from {
      NoHaltBelowAll(outs, env, from, i - 1);
    }
  }

  /** How many of the jobs with outcomes `outs[from..]` are started: admission
      goes on from `from` up to the first index where it halts. */
  function Admitted(outs: seq<Outcome>, env: seq<seq<Control>>, from: nat): (k: nat)
    requires from <= |outs|
    ensures from <= k <= |outs|
    ensures forall i :: from <= i < k ==> !Halts(outs, env, i)
    ensures k < |outs| ==> Halts(outs, env, k)
    decreases |outs| - from
  {
    if from == |outs| || Halts(outs, env, from) then from
    else Admitted(outs, env, from + 1)
  }

  /** The number admitted is the first index where admission halts. */
  lemma {:induction false} AdmittedIsFirstHalt(outs: seq<Outcome>, env: seq<seq<Control>>, from: nat, k: int)
    requires from <= k <= |outs|
    requires forall i :: from <= i < k ==> !Halts(outs, env, i)
    requires k == |outs| || Halts(outs, env, k)
    ensures Admitted(outs, env, from) == k
    decreases k - from
  {
    if from < k {
      assert !Halts(outs, env, from);
      AdmittedIsFirstHalt(outs, env, from + 1, k);
    }
  }

  /** Admission halts at the first index where it may: every admitted job but the
      last returned, and with no stop and no raise every job is admitted. */
  lemma {:induction false} AdmittedSpec(outs: seq<Outcome>, env: seq<seq<Control>>)
    ensures var k := Admitted(outs, env, 0);
      forall i :: 0 <= i && i + 1 < k ==> outs[i].Returned?
    ensures (forall i :: 0 <= i < |outs| ==> outs[i].Returned? && !StopsAt(env, i)) ==>
      Admitted(outs, env, 0) == |outs|
  {
    var k := Admitted(outs, env, 0);
    forall i | 0 <= i && i + 1 < k ensures outs[i].Returned? {
      assert !Halts(outs, env, i + 1);
    }
    if forall i :: 0 <= i < |outs| ==> outs[i].Returned? && !StopsAt(env, i) {
      forall i | 0 <= i < |outs| ensures !Halts(outs, env, i) {
        if i > 0 {
          assert outs[i - 1].Returned?;
        }
      }
      AdmittedIsFirstHalt(outs, env, 0, |outs|);
    }
  }

  /** The first raise halts admission right after the failing job, when nothing
      stops the processor before. */
  lemma {:induction false} FirstRaiseHalts(outs: seq<Outcome>, env: seq<seq<Control>>, e: int)
    requires 0 <= e < |outs| && outs[e].Raised?
    requires forall i :: 0 <= i < e ==> outs[i].Returned?
    requires forall i :: 0 <= i <= e ==> !StopsAt(env, i)
    ensures Admitted(outs, env, 0) == e + 1
  {
    forall i | 0 <= i < e + 1 ensures !Halts(outs, env, i) {
      if i > 0 {
        assert outs[i - 1].Returned?;
      }
    }
    assert Halts(outs, env, e + 1);
    AdmittedIsFirstHalt(outs, env, 0, e + 1);
  }

  /** Whether a run that admitted the first `k` jobs of `q` ends in error: the
      last admitted job raised. */
  predicate EndsInError(q: seq<Job>, k: int)
    requires 0 <= k <= |q|
  {
    k > 0 && q[k - 1].func.Raised?
  }

  /** Completing the next job of `q` extends the completed prefix by one. */
  lemma AppendNext(done: seq<Job>, q: seq<Job>, k: int)
    requires 0 < k <= |q|
    ensures done + q[..k - 1] + [q[k - 1]] == done + q[..k]
  {
    assert q[..k] == q[..k - 1] + [q[k - 1]];
  }

  /** The bookkeeping lists and flags of a `Processor`: `running`, `completed`,
      `errored_jobs`, `status` and `interrupt`. */
  datatype Books = Books(running: seq<Job>, completed: seq<Job>, errored: seq<Job>,
                         status: Status, interrupt: Interrupt)

  /** The bookkeeping while admission goes on, before the check for job `i` of
      the queue `q`, when `done` was completed before `process()` started: the
      previous job is in the slot and every job before it completed. */
  function Admitting(q: seq<Job>, done: seq<Job>, i: int): (b: Books)
    requires 0 <= i <= |q|
    ensures |b.running| <= 1 && b.status == Running && b.interrupt == NoInterrupt
    ensures i > 0 ==> b.running == [q[i - 1]] && b.completed == done + q[..i - 1]
    ensures i == 0 ==> b.running == [] && b.completed == done
  {
    if i == 0 then Books([], done, [], Running, NoInterrupt)
    else Books([q[i - 1]], done + q[..i - 1], [], Running, NoInterrupt)
  }

  /** The bookkeeping when admission halts before job `i`: the previous job was
      reaped, into `errored_jobs` with status 'error' when it raised and into
      `completed` otherwise, and `interrupt` is what the calls left. */
  function HaltedAt(q: seq<Job>, env: seq<seq<Control>>, done: seq<Job>, i: int): (b: Books)
    requires 0 <= i <= |q|
    ensures b.running == [] && b.interrupt == Settle(NoInterrupt, ControlsAt(env, i))
    ensures EndsInError(q, i) ==> b.status == Errored && b.errored == [q[i - 1]] && b.completed == done + q[..i - 1]
    ensures !EndsInError(q, i) ==> b.status == Running && b.errored == [] && b.completed == done + q[..i]
  {
    if EndsInError(q, i) then Books([], done + q[..i - 1], [q[i - 1]], Errored, Settle(NoInterrupt, ControlsAt(env, i)))
    else Books([], done + q[..i], [], Running, Settle(NoInterrupt, ControlsAt(env, i)))
  }

  /** The bookkeeping `process()` leaves for the queue `q`, with outcomes and
      calls `env`, when `done` was completed before it started: the jobs admitted
      before the halt, or all of them, completed except a last that raised, which
      is the errored job; the status is 'error' exactly then and 'success' else. */
  function Finished(q: seq<Job>, env: seq<seq<Control>>, done: seq<Job>): (b: Books)
    ensures var k := Admitted(Outcomes(q), env, 0);
      b.running == [] &&
      b.status == (if EndsInError(q, k) then Errored else Succeeded) &&
      b.errored == (if EndsInError(q, k) then [q[k - 1]] else []) &&
      b.completed == done + (if EndsInError(q, k) then q[..k - 1] else q[..k]) &&
      b.interrupt == Settle(NoInterrupt, ControlsAt(env, k))
  {
    var k := Admitted(Outcomes(q), env, 0);
    var i := Settle(NoInterrupt, ControlsAt(env, k));
    if EndsInError(q, k) then Books([], done + q[..k - 1], [q[k - 1]], Errored, i)
    else Books([], done + q[..k], [], Succeeded, i)
  }

  /** The jobs `q[..i]` ran, and every other job of `q` waits: it is not
      started, and when it is one of the errored jobs (from index `p` on) its
      error was cleared. */
  ghost predicate Progress(q: seq<Job>, p: int, i: int)
    reads q
  {
    0 <= i <= |q| &&
    (forall n :: 0 <= n < i ==> RanTo(q[n])) &&
    (forall n :: 0 <= n < |q| && q[n] !in q[..i] ==> q[n].status == NotStarted && (n >= p ==> q[n].error == ""))
  }

  /** vixen/tests/test_processor.py, test_processor_completes_jobs: when every
      job returns and no stop comes, all of them complete and the status is
      'success'. */
  lemma {:induction false} FinishedAllReturn(q: seq<Job>, env: seq<seq<Control>>, done: seq<Job>)
    requires forall i :: 0 <= i < |q| ==> q[i].func.Returned? && !StopsAt(env, i)
    ensures Finished(q, env, done) == Books([], done + q, [], Succeeded, Settle(NoInterrupt, ControlsAt(env, |q|)))
  {
    var outs := Outcomes(q);
    AdmittedSpec(outs, env);
    assert Admitted(outs, env, 0) == |q|;
    assert q[..|q|] == q;
  }

  /** A stop while the only job runs comes too late to halt anything: the job
      completes, the status is 'success', and the stop is still set. */
  lemma {:induction false} StopDuringLastJob(j: Job, done: seq<Job>)
    requires j.func.Returned?
    ensures Finished([j], [[], [StopCall]], done) == Books([], done + [j], [], Succeeded, StopRequested)
  {
    var q, env := [j], [[], [StopCall]];
    assert !StopsAt(env, 0) && Outcomes(q)[0].Returned?;
    AdmittedIsFirstHalt(Outcomes(q), env, 0, 1);
    assert Settle(NoInterrupt, [StopCall]) == StopRequested by {
      assert [StopCall][..0] == [];
    }
    assert q[..1] == q;
  }

  /** test_processor_bails_on_error: the first job that raises, with no stop
      before it, is the errored job; the jobs before it complete and the status
      is 'error'. */
  lemma {:induction false} FinishedFirstRaise(q: seq<Job>, env: seq<seq<Control>>, done: seq<Job>, e: int)
    requires 0 <= e < |q| && q[e].func.Raised?
    requires forall i :: 0 <= i < e ==> q[i].func.Returned?
    requires forall i :: 0 <= i <= e ==> !StopsAt(env, i)
    ensures var b := Finished(q, env, done);
      b.status == Errored && b.errored == [q[e]] && b.completed == done + q[..e] && b.running == []
  {
    FirstRaiseHalts(Outcomes(q), env, e);
  }

  /** test_processor_stops_correctly: a stop before job `s`, with no raise and
      no stop before it, leaves jobs `s ..` unstarted; only `q[..s]` completes
      and the status is 'success'. */
  lemma {:induction false} FinishedFirstStop(q: seq<Job>, env: seq<seq<Control>>, done: seq<Job>, s: int)
    requires 0 <= s < |q| && StopsAt(env, s)
    requires forall i :: 0 <= i < s ==> q[i].func.Returned? && !StopsAt(env, i)
    ensures var b := Finished(q, env, done);
      b.status == Succeeded && b.errored == [] && b.completed == done + q[..s] && b.interrupt == StopRequested
  {
    var outs := Outcomes(q);
    forall i | 0 <= i < s ensures !Halts(outs, env, i) {
      if i > 0 {
        assert outs[i - 1].Returned?;
      }
    }
    AdmittedIsFirstHalt(outs, env, 0, s);
  }

  /** test_processor_bails_on_error: with a failing job `bomb` first and ten
      returning jobs after it, the first `process()` starts only `bomb` and ends
      in error with nothing completed. The second `process()` then queues the
      jobs still not started followed by the reset `bomb` (see `Process`); it
      starts `bomb` again, completes every other job and ends in error with
      `bomb` the only errored job. */
  lemma {:induction false} BailThenRetry(bomb: Job, rest: seq<Job>, env1: seq<seq<Control>>, env2: seq<seq<Control>>)
    requires bomb.func.Raised? && forall i :: 0 <= i < |rest| ==> rest[i].func.Returned?
    requires forall i :: 0 <= i <= |rest| ==> !StopsAt(env1, i) && !StopsAt(env2, i)
    ensures Admitted(Outcomes([bomb] + rest), env1, 0) == 1
    ensures var b1 := Finished([bomb] + rest, env1, []);
      b1.status == Errored && b1.errored == [bomb] && b1.completed == []
    ensures Admitted(Outcomes(rest + [bomb]), env2, 0) == |rest| + 1
    ensures var b2 := Finished(rest + [bomb], env2, []);
      b2.status == Errored && b2.errored == [bomb] && b2.completed == rest
  {
    var q1 := [bomb] + rest;
    var q2 := rest + [bomb];
    FirstRaiseHalts(Outcomes(q1), env1, 0);
    FinishedFirstRaise(q1, env1, [], 0);
    assert q1[..0] == [];
    forall i | 0 <= i < |rest| ensures q2[i].func.Returned? {
      assert q2[i] == rest[i];
    }
    FirstRaiseHalts(Outcomes(q2), env2, |rest|);
    FinishedFirstRaise(q2, env2, [], |rest|);
    assert q2[..|rest|] == rest;
  }

  class Processor {
    var jobs: seq<Job>
    var erroredJobs: seq<Job>
    var completed: seq<Job>
    var running: seq<Job>
    var status: Status
    var interrupt: Interrupt

    /** `Processor(jobs=js)`. */
    constructor (js: seq<Job>)
      ensures jobs == js && erroredJobs == [] && completed == [] && running == []
      ensures status == NotStarted && interrupt == NoInterrupt
    {
      jobs, erroredJobs, completed, running := js, [], [], [];
      status, interrupt := NotStarted, NoInterrupt;
    }

    /** Assigning `jobs` a list that differs from the current one fires
        `_jobs_changed`, which empties `completed`. */
    method SetJobs(js: seq<Job>)
      modifies this`jobs, this`completed
      ensures jobs == js
      ensures js != old(jobs) ==> completed == []
      ensures js == old(jobs) ==> completed == old(completed)
    {
      if js != jobs {
        completed := [];
      }
      jobs := js;
    }

    /** `stop()`: asks for a stop, only while running. */
    method Stop()
      modifies this`interrupt
      ensures interrupt == if status == Running then StopRequested else old(interrupt)
    {
      if status == Running {
        interrupt := StopRequested;
      }
    }

    /** `pause()`: asks for a pause, only while running. */
    method Pause()
      modifies this`interrupt
      ensures interrupt == if status == Running then PauseRequested else old(interrupt)
    {
      if status == Running {
        interrupt := PauseRequested;
      }
    }

    /** `resume()`: clears a pause, only while running and paused. */
    method Resume()
      modifies this`interrupt
      ensures interrupt == if status == Running && old(interrupt) == PauseRequested then NoInterrupt else old(interrupt)
    {
      if status == Running && interrupt == PauseRequested {
        interrupt := NoInterrupt;
      }
    }

    /** The calls `cs` of other threads, one after another, while running. */
    method Control(cs: seq<Control>)
      requires status == Running
      modifies this`interrupt
      ensures interrupt == Settle(old(interrupt), cs)
    {
      ghost var start := interrupt;
      var n := 0;
      while n < |cs|
        invariant 0 <= n <= |cs|
        invariant interrupt == Settle(start, cs[..n])
      {
        assert cs[..n + 1][..n] == cs[..n];
        assert Settle(start, cs[..n + 1]) == AfterCall(interrupt, cs[n]);
        match cs[n] {
          case StopCall => Stop();
          case PauseCall => Pause();
          case ResumeCall => Resume();
        }
        n := n + 1;
      }
      assert cs[..n] == cs;
    }

    /** `_reset_errored_jobs()`. */
    method ResetErrored()
      modifies erroredJobs
      ensures forall j :: j in erroredJobs ==> j.status == NotStarted && j.error == ""
    {
      var n := 0;
      while n < |erroredJobs|
        invariant 0 <= n <= |erroredJobs|
        invariant forall i :: 0 <= i < n ==> erroredJobs[i].status == NotStarted && erroredJobs[i].error == ""
      {
        erroredJobs[n].Reset();
        n := n + 1;
      }
    }

    /** `process()`: the pending jobs and then the reset errored jobs are admitted
        one at a time; before each admission the previous job is reaped into
        `completed`, or halts admission when it raised; a stop halts it too.
        `env[i]` holds the calls other threads make while job `i` waits, and
        `env[|q|]` those made while the last job runs; a pause left pending
        before a job would block forever, so none is left there. Only the
        queued jobs, the unstarted ones and the errored ones, can change. */
    method Process(env: seq<seq<Control>>) returns (ghost started: seq<Job>)
      requires NoPauseLeft(env, |Pending(jobs)| + |erroredJobs|)
      modifies this, (set j | j in jobs && j.status == NotStarted), erroredJobs
      ensures var q := old(Pending(jobs)) + old(erroredJobs);
        started == q[..Admitted(Outcomes(q), env, 0)] &&
        jobs == old(jobs) && Snapshot() == Finished(q, env, old(completed))
      ensures Progress(old(Pending(jobs)) + old(erroredJobs), |old(Pending(jobs))|, |started|)
    {
      ghost var done := completed;
      var q;
      ghost var k;
      q, k := Launch(env);
      assert q == old(Pending(jobs)) + old(erroredJobs) && k == Admitted(Outcomes(q), env, 0);
      assert Progress(q, |old(Pending(jobs))|, k);
      Finish(q, env, done, k);
      assert jobs == old(jobs);
      started := q[..k];
    }

    /** `process()` up to the end of admission: the queue is set up and admitted. */
    method Launch(env: seq<seq<Control>>) returns (q: seq<Job>, ghost k: nat)
      requires NoPauseLeft(env, |Pending(jobs)| + |erroredJobs|)
      modifies this`running, this`interrupt, this`status, this`erroredJobs, this`completed, (set j | j in jobs && j.status == NotStarted), erroredJobs
      ensures q == old(Pending(jobs)) + old(erroredJobs) && jobs == old(jobs)
      ensures k == Admitted(Outcomes(q), env, 0)
      ensures Snapshot() == if k == |q| then Admitting(q, old(completed), k) else HaltedAt(q, env, old(completed), k)
      ensures Progress(q, |old(Pending(jobs))|, k)
    {
      ghost var p := |Pending(jobs)|;
      ghost var n := p + |erroredJobs|;
      q := Prepare();
      assert jobs == old(jobs) && |q| == n;
      assert NoPauseLeft(env, |q|);
      k := Admit(q, env, p);
    }

    /** The wait for the remaining jobs after admission: when admission ran
        through the queue, the calls made while the last job runs are taken;
        the job in the slot, if any, is reaped into `errored_jobs` or
        `completed`, and the status becomes 'success' unless it is 'error'. */
    method Finish(q: seq<Job>, env: seq<seq<Control>>, ghost done: seq<Job>, ghost k: nat)
      requires k == Admitted(Outcomes(q), env, 0)
      requires Snapshot() == if k == |q| then Admitting(q, done, k) else HaltedAt(q, env, done, k)
      requires k > 0 ==> RanTo(q[k - 1])
      modifies this`running, this`erroredJobs, this`status, this`completed, this`interrupt
      ensures Snapshot() == Finished(q, env, done)
    {
      ghost var b := Finished(q, env, done);
      if |running| == 1 || |q| == 0 {
        Control(ControlsAt(env, |q|));
      }
      if |running| == 1 {
        var j := running[0];
        assert k == |q| && j == q[k - 1] && (j.status == Errored <==> EndsInError(q, k));
        AppendNext(done, q, k);
        running := [];
        if j.status == Errored {
          erroredJobs := erroredJobs + [j];
          status := Errored;
        } else if j.status == Succeeded {
          completed := completed + [j];
        }
      }
      if status != Errored {
        status := Succeeded;
      }
      assert running == b.running && completed == b.completed && erroredJobs == b.errored;
      assert status == b.status && interrupt == b.interrupt;
    }

    /** The set-up of `process()`: the queue is the pending jobs followed by the
        errored jobs, which are reset; the processor is running, with nothing
        running, no interrupt and no errored job. */
    method Prepare() returns (q: seq<Job>)
      modifies this`running, this`interrupt, this`status, this`erroredJobs, erroredJobs
      ensures q == old(Pending(jobs)) + old(erroredJobs)
      ensures running == [] && interrupt == NoInterrupt && status == Running && erroredJobs == []
      ensures Progress(q, |old(Pending(jobs))|, 0)
      ensures forall n :: 0 <= n < |q| ==> q[n] in old(jobs) || q[n] in old(erroredJobs)
    {
      running, interrupt, status := [], NoInterrupt, Running;
      q := Pending(jobs);
      ResetErrored();
      q := q + erroredJobs;
      erroredJobs := [];
    }

    /** The reaping loop `while len(running) == number_of_processes` of `process()`:
        with one slot, the job in it has finished; it goes to `completed` unless it
        raised, in which case it is the returned error. */
    method Reap() returns (error: Job?)
      requires |running| <= 1
      modifies this`running, this`completed
      ensures running == []
      ensures old(running) == [] ==> error == null && completed == old(completed)
      ensures old(running) != [] && old(running[0].status) == Errored ==>
        error == old(running[0]) && completed == old(completed)
      ensures old(running) != [] && old(running[0].status) != Errored ==>
        error == null && completed == old(completed) + old(running)
    {
      error := null;
      if |running| == 1 {
        var j := running[0];
        if j.status == Errored {
          error := j;
        } else {
          completed := completed + [j];
        }
        running := [];
      }
    }

    /** The bookkeeping of the processor now. */
    ghost function Snapshot(): Books
      reads this
    {
      Books(running, completed, erroredJobs, status, interrupt)
    }

    /** The admission loop of `process()` over the queue `q`: it returns how many
        jobs were started, and leaves the bookkeeping of a halt before that job,
        or, when admission ran through the queue, the last job in the slot. */
    method Admit(q: seq<Job>, env: seq<seq<Control>>, ghost p: int) returns (ghost k: nat)
      requires NoPauseLeft(env, |q|)
      requires Snapshot() == Admitting(q, completed, 0) && Progress(q, p, 0)
      modifies this`running, this`interrupt, this`status, this`erroredJobs, this`completed, q
      ensures k == Admitted(Outcomes(q), env, 0)
      ensures Snapshot() == if k == |q| then Admitting(q, old(completed), k) else HaltedAt(q, env, old(completed), k)
      ensures Progress(q, p, k)
    {
      ghost var outs := Outcomes(q);
      ghost var done := completed;
      var i := 0;
      while i < |q|
        invariant 0 <= i <= |q|
        invariant Snapshot() == Admitting(q, done, i)
        invariant NoHaltBelow(outs, env, 0, i)
        invariant Progress(q, p, i)
      {
        var halt := Check(q, i, env, done);
        assert Progress(q, p, i);
        if halt {
          break;
        }
        Start(q, i, done, p);
        i := i + 1;
      }
      NoHaltBelowAll(outs, env, 0, i);
      AdmittedIsFirstHalt(outs, env, 0, i);
      k := i;
    }

    /** The checks before admitting job `i`: reap the slot, take the calls of
        other threads, then halt on an error or a stop. */
    method Check(q: seq<Job>, i: int, env: seq<seq<Control>>, ghost done: seq<Job>) returns (halt: bool)
      requires 0 <= i < |q| && Snapshot() == Admitting(q, done, i)
      requires i > 0 ==> RanTo(q[i - 1])
      requires NoPauseLeft(env, |q|)
      modifies this`running, this`interrupt, this`status, this`erroredJobs, this`completed
      ensures halt <==> Halts(Outcomes(q), env, i)
      ensures halt ==> Snapshot() == HaltedAt(q, env, done, i)
      ensures !halt ==> Snapshot() == Books([], done + q[..i], [], Running, NoInterrupt)
    {
      if i > 0 {
        assert q[..i - 1] + [q[i - 1]] == q[..i];
      }
      var error := Reap();
      Control(ControlsAt(env, i));
      if error != null {
        status := Errored;
        erroredJobs := erroredJobs + [error];
        return true;
      }
      return interrupt == StopRequested;
    }

    /** Admitting job `i`: it takes the slot and runs. */
    method Start(q: seq<Job>, i: int, ghost done: seq<Job>, ghost p: int)
      requires 0 <= i < |q| && Progress(q, p, i)
      requires Snapshot() == Books([], done + q[..i], [], Running, NoInterrupt)
      modifies this`running, q[i]
      ensures Snapshot() == Admitting(q, done, i + 1)
      ensures Progress(q, p, i + 1)
    {
      running := running + [q[i]];
      q[i].Run();
      assert q[..i + 1] == q[..i] + [q[i]];
    }
  }
}
