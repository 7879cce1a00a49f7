/** From the engine to the report: whatever the collectors return and however
    their runs end, the finished investigation correlates cleanly. */
module Pipeline {
  import opened Results
  import opened Investigation
  import opened Index
  import opened CorrelationIds
  import opened Emissions
  import EngineSpec
  import EngineReport
  import Correlate

  /** The store a run of the engine hands over. */
  function Finished(e: EngineSpec.Setup, store: Store, events: seq<EngineSpec.Event>): (s: Store)
  {
    EngineReport.Report(e, store, events).store
  }

  lemma QuietCaveats(truncated: Option<nat>, reused: nat)
    ensures forall n :: Correlate.CandidatesRejected(n) !in Correlate.Caveats(truncated, reused, 0)
  {
  }

  lemma NothingRefused(s: Store, naming: Naming)
    requires Sound(s)
    ensures RejectedFrom(Correlate.AllEmitted(IndexOf(s)), IndexOf(s), naming) == []
    ensures forall n :: Correlate.CandidatesRejected(n) !in Correlate.ReportOf(s, naming).limitations
  {
    Correlate.NoCandidateRejected(s, naming);
    QuietCaveats(Correlate.Shared.Truncation(IndexOf(s)), IndexOf(s).duplicateIds);
  }

  lemma FinishedSound(e: EngineSpec.Setup, store: Store, events: seq<EngineSpec.Event>)
    requires EngineReport.Ended(e, store, events)
    ensures Sound(Finished(e, store, events))
  {
    EngineReport.ObservationsConserved(e, store, events);
  }

  /** No candidate correlation of any finished run is rejected, whatever its
      collectors returned, and its report says so. */
  lemma FinishedRunCorrelates(e: EngineSpec.Setup, store: Store, events: seq<EngineSpec.Event>, naming: Naming)
    requires EngineReport.Ended(e, store, events)
    ensures var s := Finished(e, store, events);
      && RejectedFrom(Correlate.AllEmitted(IndexOf(s)), IndexOf(s), naming) == []
      && forall n :: Correlate.CandidatesRejected(n) !in Correlate.ReportOf(s, naming).limitations
  {
    FinishedSound(e, store, events);
    NothingRefused(Finished(e, store, events), naming);
  }

  /** Every correlation it reports states only what the run recorded, and the
      finding made of it would be accepted by the investigation. */
  lemma FinishedRunReports(e: EngineSpec.Setup, store: Store, events: seq<EngineSpec.Event>, naming: Naming, i: nat)
    requires EngineReport.Ended(e, store, events)
    requires i < |Correlate.ReportOf(Finished(e, store, events), naming).correlations|
    ensures var s := Finished(e, store, events);
            var r := Correlate.ReportOf(s, naming);
      && Correlate.StatesOnly(s, r.correlations[i])
      && |r.findings| == |r.correlations| && WithFinding(s, r.findings[i]).1.Ok?
  {
    var s := Finished(e, store, events);
    FinishedSound(e, store, events);
    Correlate.NoNewFacts(s, naming, Correlate.ReportOf(s, naming).correlations[i]);
    Correlate.FindingsMatch(s, naming, i);
  }
}
