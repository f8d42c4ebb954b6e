/** The pipeline object, whose status fields are assigned in place by the phases. */
module PipelineObjects {
  import opened Options
  import opened Pipeline

  class AnalysisPipeline {
    var status: StatusType
    var progressPct: real
    var currentStep: string
    var stepsCompleted: seq<string>
    var errorMessage: Option<string>
    var published: bool
    var fetched: bool
    var cacheTried: bool
    var dumpFailed: bool
    var pc: Pc

    ghost function View(): Run
      reads this
    {
      Run(pc, Status(status, progressPct, currentStep, stepsCompleted, errorMessage), published, fetched, cacheTried, dumpFailed)
    }

    /** The constructor publishes PENDING, before anybody decides on the task. */
    constructor ()
      ensures View() == Run(REJECTED, PENDING_STATUS, true, false, false, false)
    {
      status, progressPct, currentStep, stepsCompleted, errorMessage := PENDING, 0.0, "", [], None;
      published, fetched, cacheTried, dumpFailed, pc := true, false, false, false, REJECTED;
    }

    method UpdateStatus(step: nat)
      requires step < |PIPELINE_STEPS|
      modifies this
      ensures View() == Pipeline.UpdateStatus(old(View()), step)
    {
      var progress := step as real / |PIPELINE_STEPS| as real * 100.0;
      status := RUNNING;
      progressPct := if progress < 99.0 then progress else 99.0;
      currentStep := PIPELINE_STEPS[step];
      published := true;
    }

    method CompleteStep(step: nat)
      requires step < |PIPELINE_STEPS|
      modifies this
      ensures View() == Pipeline.CompleteStep(old(View()), step)
    {
      stepsCompleted := stepsCompleted + [PIPELINE_STEPS[step]];
    }

    method Fail(error: string)
      modifies this
      ensures View() == Pipeline.Fail(old(View()), error)
    {
      status := FAILED;
      errorMessage := Some(error);
      published := true;
    }

    method Complete()
      modifies this
      ensures View() == Pipeline.Complete(old(View()))
    {
      status := COMPLETED;
      progressPct := 100.0;
      currentStep := "";
      published := true;
    }

    /** `run` fails and returns no report. */
    method NoReport(error: string)
      modifies this
      ensures View() == Pipeline.NoReport(old(View()), error)
    {
      Fail(error);
      Fail(NO_REPORT);
      pc := FINISHED;
    }

    /** The aggregation phase and the report phase up to its await. */
    method Aggregate(o: Outcome)
      modifies this
      ensures View() == Pipeline.Aggregate(old(View()), o)
    {
      UpdateStatus(4);
      if o.Raises? && o.at == 1 {
        NoReport(o.error);
        return;
      }
      CompleteStep(4);
      UpdateStatus(5);
      if o.Raises? && o.at == 2 {
        NoReport(o.error);
        return;
      }
      CompleteStep(5);
      pc := PERSIST;
    }

    method StartAnalysis()
      modifies this
      ensures View() == Pipeline.StartAnalysis(old(View()))
    {
      UpdateStatus(1);
      if !fetched {
        Fail(NO_DATA);
        Aggregate(Ok);
      } else {
        pc := TECHNICAL;
      }
    }

    /** The fetch phase behind its await, up to the await of the technical analysis. */
    method AfterFetch(o: Outcome)
      requires pc == FETCH && Possible(FETCH, o) && (o.Raises? ==> o.at == 1)
      modifies this
      ensures View() == Advance(old(View()), o)
    {
      fetched := true;
      CompleteStep(0);
      if o == NoData {
        NoReport(NO_DATA);
      } else if o.Raises? {
        NoReport(o.error);
      } else {
        StartAnalysis();
      }
    }

    /** What follows the cache write, or the failure to dump the report for it. */
    method Publish()
      modifies this
      ensures View() == Pipeline.Publish(old(View()))
    {
      Complete();
      pc := FINISHED;
    }

    /** From one suspension to the next. */
    method Resume(o: Outcome)
      requires Suspended(pc) && Possible(pc, o)
      modifies this
      ensures View() == Advance(old(View()), o)
    {
      if o.Raises? && o.at == 0 {
        if pc == CACHE {
          cacheTried := true;
          Publish();
        } else {
          NoReport(o.error);
        }
        return;
      }
      match pc
      case SEMAPHORE =>
        UpdateStatus(0);
        pc := FETCH;
      case FETCH =>
        AfterFetch(o);
      case TECHNICAL =>
        pc := TREND;
      case TREND =>
        CompleteStep(1);
        UpdateStatus(2);
        pc := PATTERNS;
      case PATTERNS =>
        pc := SCANNER;
      case SCANNER =>
        pc := CONSOLIDATE;
      case CONSOLIDATE =>
        CompleteStep(2);
        UpdateStatus(3);
        pc := FUNDAMENTAL;
      case FUNDAMENTAL =>
        CompleteStep(3);
        Aggregate(o);
      case PERSIST =>
        if o == DumpRaises {
          dumpFailed := true;
          Publish();
        } else {
          pc := CACHE;
        }
      case CACHE =>
        cacheTried := true;
        Publish();
    }
  }
}
