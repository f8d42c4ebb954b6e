/** One analysis run, cut at the points where its coroutine may be suspended. */
module Pipeline {
  import opened Options

  const PIPELINE_STEPS: seq<string> := [
    "Pobieranie danych", "Analiza techniczna", "Rozpoznawanie formacji",
    "Analiza fundamentalna", "Agregacja sygnalow", "Generowanie strategii"]

  const NO_DATA := "Brak danych rynkowych dla podanego symbolu"
  const NO_REPORT := "Pipeline returned no report"

  datatype StatusType = PENDING | RUNNING | COMPLETED | FAILED

  datatype Status = Status(
    status: StatusType,
    progressPct: real,
    currentStep: string,
    stepsCompleted: seq<string>,
    errorMessage: Option<string>)

  predicate Terminal(s: Status) {
    s.status == COMPLETED || s.status == FAILED
  }

  const PENDING_STATUS := Status(PENDING, 0.0, "", [], None)

  /** Where a run is suspended. */
  datatype Pc =
    | REJECTED            // the trigger was refused: the status exists, the task does not
    | SEMAPHORE
    | FETCH
    | TECHNICAL | TREND
    | PATTERNS | SCANNER | CONSOLIDATE
    | FUNDAMENTAL
    | PERSIST
    | CACHE
    | FINISHED

  /** `published` says that the status is in `analysis_tasks`, `fetched` that the
      context holds a fetch bundle, `cacheTried` that the write of the report to
      the cache returned or raised, `dumpFailed` that the report could not be
      dumped, so that there was no write. */
  datatype Run = Run(pc: Pc, status: Status, published: bool, fetched: bool, cacheTried: bool, dumpFailed: bool)

  /** How the code up to the next suspension goes: an exception at the first,
      second or third place that can raise, no market data, or a report that
      cannot be dumped. */
  datatype Outcome = Ok | Raises(at: nat, error: string) | NoData | DumpRaises

  predicate Possible(pc: Pc, o: Outcome) {
    match o
    case Ok => true
    case Raises(at, _) =>
      at == 0 || (pc == FETCH && at == 1) || (pc == FUNDAMENTAL && at <= 2)
    case NoData => pc == FETCH
    case DumpRaises => pc == PERSIST
  }

  function Progress(step: nat): real {
    var pct := step as real / 6.0 * 100.0;
    if pct < 99.0 then pct else 99.0
  }

  // ----- The status methods -----

  function UpdateStatus(r: Run, step: nat): Run
    requires step < |PIPELINE_STEPS|
  {
    r.(status := r.status.(status := RUNNING, progressPct := Progress(step), currentStep := PIPELINE_STEPS[step]),
       published := true)
  }

  function CompleteStep(r: Run, step: nat): Run
    requires step < |PIPELINE_STEPS|
  {
    r.(status := r.status.(stepsCompleted := r.status.stepsCompleted + [PIPELINE_STEPS[step]]))
  }

  function Fail(r: Run, error: string): Run {
    r.(status := r.status.(status := FAILED, errorMessage := Some(error)), published := true)
  }

  function Complete(r: Run): Run {
    r.(status := r.status.(status := COMPLETED, progressPct := 100.0, currentStep := ""), published := true)
  }

  // ----- One resumption -----

  /** `run` has failed and returned no report; the caller says so and pops the task. */
  function NoReport(r: Run, error: string): Run {
    Fail(Fail(r, error), NO_REPORT).(pc := FINISHED)
  }

  function Aggregate(r: Run, o: Outcome): Run {
    var r := UpdateStatus(r, 4);
    if o.Raises? && o.at == 1 then NoReport(r, o.error)
    else
      var r := UpdateStatus(CompleteStep(r, 4), 5);
      if o.Raises? && o.at == 2 then NoReport(r, o.error)
      else CompleteStep(r, 5).(pc := PERSIST)
  }

  function StartAnalysis(r: Run): Run {
    var r := UpdateStatus(r, 1);
    if !r.fetched then Aggregate(Fail(r, NO_DATA), Ok) else r.(pc := TECHNICAL)
  }

  function Publish(r: Run): Run {
    Complete(r).(pc := FINISHED)
  }

  predicate Suspended(pc: Pc) {
    pc != REJECTED && pc != FINISHED
  }

  /** From one suspension to the next. */
  function Advance(r: Run, o: Outcome): Run
    requires Suspended(r.pc) && Possible(r.pc, o)
  {
    if o.Raises? && o.at == 0 then
      if r.pc == CACHE then Publish(r.(cacheTried := true)) else NoReport(r, o.error)
    else
      match r.pc
      case SEMAPHORE => UpdateStatus(r, 0).(pc := FETCH)
      case FETCH =>
        var r := CompleteStep(r.(fetched := true), 0);
        if o == NoData then NoReport(r, NO_DATA)
        else if o.Raises? then NoReport(r, o.error)
        else StartAnalysis(r)
      case TECHNICAL => r.(pc := TREND)
      case TREND => UpdateStatus(CompleteStep(r, 1), 2).(pc := PATTERNS)
      case PATTERNS => r.(pc := SCANNER)
      case SCANNER => r.(pc := CONSOLIDATE)
      case CONSOLIDATE => UpdateStatus(CompleteStep(r, 2), 3).(pc := FUNDAMENTAL)
      case FUNDAMENTAL => Aggregate(CompleteStep(r, 3), o)
      case PERSIST => if o == DumpRaises then Publish(r.(dumpFailed := true)) else r.(pc := CACHE)
      case CACHE => Publish(r.(cacheTried := true))
  }

  // ----- What holds at every suspension -----

  /** The step shown while suspended here, and how many steps are behind. */
  function Step(pc: Pc): nat {
    match pc
    case FETCH => 0
    case TECHNICAL => 1
    case TREND => 1
    case PATTERNS => 2
    case SCANNER => 2
    case CONSOLIDATE => 2
    case FUNDAMENTAL => 3
    case _ => 5
  }

  function Done(pc: Pc): nat {
    if pc == PERSIST || pc == CACHE then 6 else Step(pc)
  }

  function RunningAt(pc: Pc): Status {
    Status(RUNNING, Progress(Step(pc)), PIPELINE_STEPS[Step(pc)], PIPELINE_STEPS[..Done(pc)], None)
  }

  ghost predicate Ended(s: Status) {
    || (s.status == COMPLETED && s.progressPct == 100.0 && s.stepsCompleted == PIPELINE_STEPS && s.errorMessage == None)
    || (s.status == FAILED && s.progressPct < 100.0 && s.stepsCompleted <= PIPELINE_STEPS && s.errorMessage == Some(NO_REPORT))
  }

  /** The status of a run is a function of where it is suspended; a finished run
      either completed all steps, after a cache write or because there was nothing
      to write, or failed with one message. */
  ghost predicate RunOk(r: Run) {
    match r.pc
    case REJECTED => r.status == PENDING_STATUS && !r.fetched && !r.cacheTried && !r.dumpFailed
    case SEMAPHORE => r.status == PENDING_STATUS && !r.fetched && !r.cacheTried && !r.dumpFailed
    case FINISHED => Ended(r.status) && (r.status.status == COMPLETED <==> r.cacheTried != r.dumpFailed)
      && !(r.cacheTried && r.dumpFailed)
    case _ => r.status == RunningAt(r.pc) && r.fetched == (r.pc != FETCH) && !r.cacheTried && !r.dumpFailed
  }

  lemma StepsGrow(k: nat)
    requires k < |PIPELINE_STEPS|
    ensures PIPELINE_STEPS[..k] + [PIPELINE_STEPS[k]] == PIPELINE_STEPS[..k + 1]
  {
  }

  lemma AggregateOk(r: Run, o: Outcome)
    requires r.status.(progressPct := 0.0, currentStep := "") == Status(RUNNING, 0.0, "", PIPELINE_STEPS[..4], None)
    requires r.fetched && !r.cacheTried && !r.dumpFailed
    ensures RunOk(Aggregate(r, o)) && Aggregate(r, o).pc in {PERSIST, FINISHED}
  {
    StepsGrow(4);
    StepsGrow(5);
  }

  lemma FundamentalOk(r: Run, o: Outcome)
    requires RunOk(r) && r.pc == FUNDAMENTAL && Possible(r.pc, o)
    ensures RunOk(Advance(r, o)) && Advance(r, o).pc in {PERSIST, FINISHED}
  {
    StepsGrow(3);
    AggregateOk(CompleteStep(r, 3), o);
  }

  /** Resuming a run, however it goes, leads to the status its next suspension calls for. */
  lemma AdvanceOk(r: Run, o: Outcome)
    requires RunOk(r) && Suspended(r.pc) && Possible(r.pc, o)
    ensures RunOk(Advance(r, o))
    ensures Advance(r, o).pc != SEMAPHORE && Advance(r, o).pc != REJECTED
  {
    StepsGrow(0);
    StepsGrow(1);
    StepsGrow(2);
    StepsGrow(3);
    if r.pc == FUNDAMENTAL {
      hide RunOk;
      FundamentalOk(r, o);
    } else {
      hide Aggregate;
    }
  }

  lemma AggregateFlags(r: Run, o: Outcome)
    ensures Aggregate(r, o).cacheTried == r.cacheTried && Aggregate(r, o).dumpFailed == r.dumpFailed
    ensures Aggregate(r, o).status.status != COMPLETED
  {
  }

  /** COMPLETED is published exactly on resuming from the awaited cache write, or
      from persisting with a report that cannot be dumped. */
  lemma CompletesIff(r: Run, o: Outcome)
    requires RunOk(r) && Suspended(r.pc) && Possible(r.pc, o)
    ensures Advance(r, o).status.status == COMPLETED <==> r.pc == CACHE || (r.pc == PERSIST && o == DumpRaises)
    ensures Advance(r, o).cacheTried <==> r.pc == CACHE
    ensures Advance(r, o).dumpFailed <==> r.pc == PERSIST && o == DumpRaises
  {
    hide Aggregate;
    if r.pc == FUNDAMENTAL {
      FundamentalOk(r, o);
      AggregateFlags(CompleteStep(r, 3), o);
    }
  }

  lemma AggregateFails(r: Run, o: Outcome)
    requires r.status.(progressPct := 0.0, currentStep := "") == Status(RUNNING, 0.0, "", PIPELINE_STEPS[..4], None)
    requires Possible(FUNDAMENTAL, o) && (o.Raises? ==> o.at > 0)
    ensures Aggregate(r, o).status.status == FAILED <==> o.Raises?
  {
  }

  /** A resumption fails the run exactly if something raises, other than the cache
      write, or there is no market data. */
  lemma FailsIff(r: Run, o: Outcome)
    requires RunOk(r) && Suspended(r.pc) && Possible(r.pc, o)
    ensures Advance(r, o).status.status == FAILED <==> (o.Raises? && r.pc != CACHE) || o == NoData
  {
    hide Aggregate;
    if r.pc == FUNDAMENTAL && !(o.Raises? && o.at == 0) {
      StepsGrow(3);
      AggregateFails(CompleteStep(r, 3), o);
    }
  }

  /** The guard on a missing fetch bundle is not taken, because the fetch phase has
      set the bundle before; taken from here, it would turn FAILED into RUNNING. */
  lemma GuardNotTaken(r: Run, o: Outcome)
    requires RunOk(r) && r.pc == FETCH && Possible(r.pc, o)
    ensures Advance(r, o).pc in {TECHNICAL, FINISHED}
    ensures var g := StartAnalysis(r); g.status.status == RUNNING && g.status.errorMessage == Some(NO_DATA)
  {
  }

  /** What a later status may be, seen from an earlier one. */
  ghost predicate Forward(a: Status, b: Status) {
    && (Terminal(a) ==> b == a)
    && a.progressPct <= b.progressPct
    && a.stepsCompleted <= b.stepsCompleted
    && (b.progressPct == 100.0 <==> b.status == COMPLETED)
  }

  lemma AdvanceForward(r: Run, o: Outcome)
    requires RunOk(r) && Suspended(r.pc) && Possible(r.pc, o)
    ensures Forward(r.status, Advance(r, o).status)
  {
  }

  // ----- Where a run is, and what it shows there -----

  /** The awaits of a run, in the order of the code. */
  const SUSPENSIONS: seq<Pc> := [
    SEMAPHORE, FETCH, TECHNICAL, TREND, PATTERNS, SCANNER, CONSOLIDATE, FUNDAMENTAL, PERSIST, CACHE]

  lemma StartsOrEnds(r: Run, o: Outcome)
    requires RunOk(r) && r.pc == FETCH && Possible(r.pc, o)
    ensures Advance(r, o).pc in {TECHNICAL, FINISHED}
  {
    GuardNotTaken(r, o);
  }

  /** From one await a run goes to the next one or ends: COMPLETED behind the last
      one or behind PERSIST, FAILED anywhere before. */
  lemma NextSuspension(r: Run, o: Outcome, k: nat)
    requires RunOk(r) && k < 10 && r.pc == SUSPENSIONS[k] && Possible(r.pc, o)
    ensures var r' := Advance(r, o);
      && (Suspended(r'.pc) ==> k + 1 < 10 && r'.pc == SUSPENSIONS[k + 1])
      && (r'.cacheTried <==> k == 9)
      && (r'.dumpFailed ==> k == 8)
      && (!Suspended(r'.pc) ==> r'.pc == FINISHED)
  {
    hide RunOk, Progress, StartAnalysis;
    CompletesIff(r, o);
    if k == 1 { StartsOrEnds(r, o); }
    if k == 7 { FundamentalOk(r, o); }
  }

  /** What is shown at each await. */
  lemma ShownWhileSuspended(r: Run)
    requires RunOk(r) && Suspended(r.pc)
    ensures var data, technical := "Pobieranie danych", "Analiza techniczna";
      var patterns, fundamental := "Rozpoznawanie formacji", "Analiza fundamentalna";
      var signals, strategies := "Agregacja sygnalow", "Generowanie strategii";
      r.status == match r.pc
        case SEMAPHORE => Status(PENDING, 0.0, "", [], None)
        case FETCH => Status(RUNNING, 0.0, data, [], None)
        case TECHNICAL => Status(RUNNING, 100.0 / 6.0, technical, [data], None)
        case TREND => Status(RUNNING, 100.0 / 6.0, technical, [data], None)
        case PATTERNS => Status(RUNNING, 200.0 / 6.0, patterns, [data, technical], None)
        case SCANNER => Status(RUNNING, 200.0 / 6.0, patterns, [data, technical], None)
        case CONSOLIDATE => Status(RUNNING, 200.0 / 6.0, patterns, [data, technical], None)
        case FUNDAMENTAL => Status(RUNNING, 300.0 / 6.0, fundamental, [data, technical, patterns], None)
        case PERSIST => Status(RUNNING, 500.0 / 6.0, strategies, [data, technical, patterns, fundamental, signals, strategies], None)
        case CACHE => Status(RUNNING, 500.0 / 6.0, strategies, [data, technical, patterns, fundamental, signals, strategies], None)
  {
    assert PIPELINE_STEPS[..1] == ["Pobieranie danych"];
    assert PIPELINE_STEPS[..2] == ["Pobieranie danych", "Analiza techniczna"];
    assert PIPELINE_STEPS[..3] == ["Pobieranie danych", "Analiza techniczna", "Rozpoznawanie formacji"];
    assert PIPELINE_STEPS[..6] == PIPELINE_STEPS;
  }

  lemma AggregatePublishes(r: Run, o: Outcome, before: Status)
    requires |r.status.stepsCompleted| > |before.stepsCompleted|
    ensures Aggregate(r, o).published && Aggregate(r, o).status != before
  {
    assert |Aggregate(r, o).status.stepsCompleted| >= |r.status.stepsCompleted|;
  }

  /** A status that a resumption changes is in the cache afterwards, also if it had been
      dropped from there; otherwise the resumption leaves the cache alone. */
  lemma AdvancePublishes(r: Run, o: Outcome)
    requires RunOk(r) && Suspended(r.pc) && Possible(r.pc, o)
    ensures Advance(r, o).published <==> r.published || Advance(r, o).status != r.status
  {
    hide Aggregate, Progress;
    if r.pc == FUNDAMENTAL && !(o.Raises? && o.at == 0) { AggregatePublishes(CompleteStep(r, 3), o, r.status); }
  }

  lemma FirstSteps()
    ensures PIPELINE_STEPS[..0] == []
    ensures PIPELINE_STEPS[..3] == ["Pobieranie danych", "Analiza techniczna", "Rozpoznawanie formacji"]
  {
  }

  /** What a failing run shows: the step, progress and completed steps of the place at
      which something raised, and always the same message. */
  lemma FailedShows(r: Run, error: string)
    requires RunOk(r)
    ensures var failed := (progress: real, step: string, done: seq<string>) =>
        Status(FAILED, progress, step, done, Some("Pipeline returned no report"));
      && (Suspended(r.pc) && r.pc != CACHE ==>
            Advance(r, Raises(0, error)).status == failed(r.status.progressPct, r.status.currentStep, r.status.stepsCompleted))
      && (r.pc == FETCH ==>
            && Possible(FETCH, Raises(1, error)) && Possible(FETCH, NoData)
            && Advance(r, Raises(1, error)).status == failed(0.0, "Pobieranie danych", ["Pobieranie danych"])
            && Advance(r, NoData).status == Advance(r, Raises(1, error)).status)
      && (r.pc == FUNDAMENTAL ==>
            && Possible(FUNDAMENTAL, Raises(1, error)) && Possible(FUNDAMENTAL, Raises(2, error))
            && Advance(r, Raises(1, error)).status == failed(400.0 / 6.0, "Agregacja sygnalow",
                 ["Pobieranie danych", "Analiza techniczna", "Rozpoznawanie formacji", "Analiza fundamentalna"])
            && Advance(r, Raises(2, error)).status == failed(500.0 / 6.0, "Generowanie strategii",
                 ["Pobieranie danych", "Analiza techniczna", "Rozpoznawanie formacji", "Analiza fundamentalna", "Agregacja sygnalow"]))
  {
    FirstSteps();
  }
}
