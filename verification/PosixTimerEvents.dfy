// Waking the POSIX timer's worker: what the eventfd's counter is for. Every kick is
// taken up once, a worker with none left serves its descriptors, and a request to exit
// is obeyed.
module PosixTimerEvents {

  import opened Wrappers
  import opened PosixTimerModel
  import opened PosixTimerStructure
  import opened PosixTimerArming
  import opened PosixTimerOwed
  import opened PosixTimerTheorems

  // ----- Kicks and what becomes of them -----

  /** The step writes to the eventfd: at the end of a restart or a stop, or to have the
      worker exit. */
  predicate Kicks(s: State, l: Label) {
    l.Shutdown? || (l.Act? && l.a in s.calls && (s.calls[l.a].RestartKick? || s.calls[l.a].StopKick?))
  }

  /** The worker takes up a poll's answer that the eventfd is readable. */
  predicate TakesUp(s: State, l: Label) {
    l.Work? && s.pc == Polled(true)
  }

  ghost function KickCount(s: State, run: seq<Label>): nat
    requires IsRun(s, run)
    decreases |run|
  {
    if run == [] then 0 else One(Kicks(s, run[0])) + KickCount(Step(s, run[0]), run[1..])
  }

  ghost function TakeCount(s: State, run: seq<Label>): nat
    requires IsRun(s, run)
    decreases |run|
  {
    if run == [] then 0 else One(TakesUp(s, run[0])) + TakeCount(Step(s, run[0]), run[1..])
  }

  /** How many polls were answered with the eventfd. */
  function AnswerCount(run: seq<Label>): nat {
    if run == [] then 0 else One(run[0].Answer? && run[0].event) + AnswerCount(run[1..])
  }

  predicate EventsOk(s: State) {
    s.pc == Polled(true) ==> s.events > 0
  }

  lemma CallKicks(s: State, a: Actor)
    requires CanStep(s, a)
    ensures CallStep(s, a).events == s.events + One(Kicks(s, Act(a))) && CallStep(s, a).exit == s.exit
  {
  }

  lemma WorkTakes(s: State)
    requires WorkerCanStep(s) && EventsOk(s)
    ensures WorkerStep(s).events + One(TakesUp(s, Work)) == s.events && EventsOk(WorkerStep(s))
    ensures WorkerStep(s).exit == s.exit
  {
  }

  lemma StepCountsEvents(s: State, l: Label)
    requires Enabled(s, l) && EventsOk(s)
    ensures EventsOk(Step(s, l)) && Step(s, l).events + One(TakesUp(s, l)) == s.events + One(Kicks(s, l))
    ensures Step(s, l).exit == (s.exit || l.Shutdown?)
    ensures One(Step(s, l).pc == Polled(true)) + One(TakesUp(s, l)) ==
            One(s.pc == Polled(true)) + One(l.Answer? && l.event)
  {
    match l
    case Act(a) => CallKicks(s, a);
    case Work =>
      WorkTakes(s);
      WorkDoesNotAnswer(s);
    case _ =>
  }

  lemma WorkDoesNotAnswer(s: State)
    requires WorkerCanStep(s)
    ensures !WorkerStep(s).pc.Polled?
  {
  }

  lemma {:induction false} RunCountsEvents(s: State, run: seq<Label>)
    requires IsRun(s, run) && EventsOk(s)
    ensures EventsOk(After(s, run)) && After(s, run).events + TakeCount(s, run) == s.events + KickCount(s, run)
    ensures One(After(s, run).pc == Polled(true)) + TakeCount(s, run) == One(s.pc == Polled(true)) + AnswerCount(run)
    decreases |run|
  {
    if run != [] {
      StepCountsEvents(s, run[0]);
      RunCountsEvents(Step(s, run[0]), run[1..]);
    }
  }

  /** Main result: every kick wakes the worker once at most. In any run, polls answered
      with the eventfd, taken up or about to be, never outnumber the kicks. */
  lemma KicksAreTakenOnce(n: nat, run: seq<Label>)
    requires IsRun(Initial(n), run)
    ensures TakeCount(Initial(n), run) <= AnswerCount(run) <= KickCount(Initial(n), run)
  {
    RunCountsEvents(Initial(n), run);
  }

  // ----- Exact polls -----

  /** Poll reports exactly what is readable; other results allow it to report less. */
  predicate IsExact(s: State, l: Label) {
    l.Answer? ==>
      && |l.ready| == |s.pfds| && (l.event <==> s.events > 0)
      && forall k {:trigger l.ready[k]} :: 0 <= k < |l.ready| ==> (l.ready[k] <==> Readable(s, s.pfds[k].fd))
  }

  /** Main result: a worker that has taken up every kick serves its descriptors. When as
      many answers were taken up as there were kicks, an exact poll that returns leads
      on to the descriptors, each watched one that is expired marked ready. */
  lemma QuietPollServes(n: nat, run: seq<Label>, l: Label)
    requires IsRun(Initial(n), run) && TakeCount(Initial(n), run) == KickCount(Initial(n), run)
    requires Enabled(After(Initial(n), run), l) && l.Answer? && IsExact(After(Initial(n), run), l)
    ensures var (s, s') := (After(Initial(n), run), Step(After(Initial(n), run), l));
            && s'.pc == Polled(false) && WorkerStep(s') == At(s', Serve(0)) && |s'.pfds| == |s.pfds|
            && forall k {:trigger s'.pfds[k]} :: 0 <= k < |s.pfds| ==>
                 s'.pfds[k].owner == s.pfds[k].owner && s'.pfds[k].fd == s.pfds[k].fd
                 && (s'.pfds[k].ready <==> Readable(s, s.pfds[k].fd))
  {
    RunCountsEvents(Initial(n), run);
  }

  /** While a kick is not taken up, an exact poll answers it and a new pass begins. */
  lemma KickedPollAnswers(n: nat, run: seq<Label>, l: Label)
    requires IsRun(Initial(n), run) && TakeCount(Initial(n), run) < KickCount(Initial(n), run)
    requires Enabled(After(Initial(n), run), l) && l.Answer? && IsExact(After(Initial(n), run), l)
    ensures Step(After(Initial(n), run), l).pc == Polled(true) && WorkerStep(Step(After(Initial(n), run), l)).pc == Top
  {
    RunCountsEvents(Initial(n), run);
  }

  // ----- Serving what was reported -----

  /** The `k`th descriptor was reported and is yet to be read. */
  predicate ToRead(s: State, k: nat) {
    && s.pc != Polled(true) && Unread(s.pc).Some? && Unread(s.pc).value <= k < |s.pfds| && s.pfds[k].ready
  }

  /** Some step of the run reads the `k`th descriptor. */
  ghost predicate IsRead(s: State, run: seq<Label>, k: nat)
    requires IsRun(s, run)
    decreases |run|
  {
    run != [] && ((run[0].Work? && s.pc == Serve(k)) || IsRead(Step(s, run[0]), run[1..], k))
  }

  lemma WorkReads(s: State, k: nat)
    requires WorkerCanStep(s) && ToRead(s, k)
    ensures s.pc == Serve(k) || ToRead(WorkerStep(s), k)
  {
  }

  lemma StepReads(s: State, l: Label, k: nat)
    requires Enabled(s, l) && ToRead(s, k)
    ensures (l.Work? && s.pc == Serve(k)) || ToRead(Step(s, l), k)
  {
    if l.Work? {
      WorkReads(s, k);
    }
  }

  lemma {:induction false} RunReads(s: State, run: seq<Label>, k: nat)
    requires IsRun(s, run) && ToRead(s, k)
    ensures IsRead(s, run, k) || ToRead(After(s, run), k)
    decreases |run|
  {
    if run != [] {
      StepReads(s, run[0], k);
      if ToRead(Step(s, run[0]), k) {
        RunReads(Step(s, run[0]), run[1..], k);
      }
    }
  }

  /** Main result: every descriptor reported is read. From a poll that reported it, and
      not the eventfd, no run gets to the next pass without reading it. */
  lemma ReportedIsRead(s: State, run: seq<Label>, k: nat)
    requires s.pc == Polled(false) && k < |s.pfds| && s.pfds[k].ready
    requires IsRun(s, run) && After(s, run).pc.Top?
    ensures IsRead(s, run, k)
  {
    RunReads(s, run, k);
  }

  // ----- Exiting -----

  /** Once asked to exit, the worker is on its way, or the request is yet to be taken up. */
  predicate ExitOk(s: State) {
    s.exit ==> s.events > 0 || s.pc.Top? || s.pc.Exited?
  }

  lemma ExitKept(s: State, l: Label)
    requires Enabled(s, l) && EventsOk(s) && ExitOk(s)
    ensures ExitOk(Step(s, l))
  {
    StepCountsEvents(s, l);
    if l.Work? {
      TakenUpIsTop(s);
    }
  }

  lemma TakenUpIsTop(s: State)
    requires WorkerCanStep(s)
    ensures s.pc == Polled(true) ==> WorkerStep(s).pc.Top?
    ensures s.pc.Top? && s.exit ==> WorkerStep(s).pc.Exited?
  {
  }

  lemma {:induction false} RunKeepsExit(s: State, run: seq<Label>)
    requires IsRun(s, run) && EventsOk(s) && ExitOk(s)
    ensures ExitOk(After(s, run)) && (s.exit ==> After(s, run).exit)
    decreases |run|
  {
    if run != [] {
      ExitKept(s, run[0]);
      StepCountsEvents(s, run[0]);
      RunKeepsExit(Step(s, run[0]), run[1..]);
    }
  }

  /** No step of the run begins a pass. */
  ghost predicate NoPassBegins(s: State, run: seq<Label>)
    requires IsRun(s, run)
    decreases |run|
  {
    run != [] ==>
      !(s.pc.Top? && Step(s, run[0]).pc.Scan?) && NoPassBegins(Step(s, run[0]), run[1..])
  }

  lemma ExitBeginsNoPass(s: State, l: Label)
    requires Enabled(s, l) && s.exit
    ensures Step(s, l).exit && !(s.pc.Top? && Step(s, l).pc.Scan?)
  {
    if l.Act? {
      CallKicks(s, l.a);
    }
  }

  lemma {:induction false} NoPassAfterExit(s: State, run: seq<Label>)
    requires IsRun(s, run) && s.exit
    ensures NoPassBegins(s, run)
    decreases |run|
  {
    if run != [] {
      ExitBeginsNoPass(s, run[0]);
      NoPassAfterExit(Step(s, run[0]), run[1..]);
    }
  }

  /** Main result: a worker asked to exit does. No pass begins after the request; and
      where the worker polls, as it does at the end of its last pass, an exact poll
      answers with the eventfd and leads it out in two steps. */
  lemma ShutdownExits(n: nat, run: seq<Label>, more: seq<Label>, l: Label)
    requires IsRun(Initial(n), run) && After(Initial(n), run).exit && IsRun(After(Initial(n), run), more)
    ensures NoPassBegins(After(Initial(n), run), more)
    ensures var s := After(After(Initial(n), run), more);
            Enabled(s, l) && l.Answer? && IsExact(s, l) ==>
              Step(s, l).pc == Polled(true) && WorkerStep(Step(s, l)).pc.Top?
              && WorkerStep(WorkerStep(Step(s, l))).pc.Exited?
  {
    var (first, s) := (After(Initial(n), run), After(After(Initial(n), run), more));
    NoPassAfterExit(first, more);
    RunCountsEvents(Initial(n), run);
    RunKeepsExit(Initial(n), run);
    RunKeepsExit(first, more);
    if Enabled(s, l) && l.Answer? && IsExact(s, l) {
      LeadsOut(s, l);
    }
  }

  lemma LeadsOut(s: State, l: Label)
    requires s.exit && s.events > 0 && l.Answer? && Enabled(s, l) && IsExact(s, l)
    ensures Step(s, l).pc == Polled(true) && WorkerStep(Step(s, l)).pc.Top?
    ensures WorkerStep(WorkerStep(Step(s, l))).pc.Exited?
  {
    TakenUpIsTop(Step(s, l));
    WorkTakesExit(Step(s, l));
    TakenUpIsTop(WorkerStep(Step(s, l)));
  }

  lemma WorkTakesExit(s: State)
    requires WorkerCanStep(s) && s.pc == Polled(true)
    ensures WorkerStep(s).exit == s.exit
  {
  }
}
