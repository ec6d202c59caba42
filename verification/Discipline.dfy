/**
 * The generation assumption of the datapath machine, discharged: a run whose publications are those of a monotone
 * publication log is disciplined as far as generations go.
 */
module Discipline {
  import opened Common
  import opened Hints
  import opened Tables
  import opened Datapath
  import opened DatapathSafety
  import opened Kernel
  import Backend

  /** The event publishes the snapshot the publisher has filled in. */
  predicate Publishes(s: State, e: Event) {
    e.Publish? && s.publisher.Filling? && s.publisher.done == |s.publisher.snapshot.entries|
  }

  /** The snapshots published in a run, in order. */
  function Published(cpus: nat, events: seq<Event>): seq<Snapshot> {
    if events == [] then []
    else
      var n := |events| - 1;
      var s := Run(cpus, events[..n]);
      Published(cpus, events[..n]) + if Publishes(s, events[n]) then [s.publisher.snapshot] else []
  }

  /** Every sync of the run begins after the grace period. */
  predicate GraceRespected(cpus: nat, events: seq<Event>) {
    events == [] ||
    (var n := |events| - 1;
     var s := Run(cpus, events[..n]);
     && GraceRespected(cpus, events[..n])
     && (events[n].BeginSync? && s.publisher.Resting? ==> GraceElapsed(s)))
  }

  /** The published snapshots are those of the log, one by one. */
  predicate Carries(published: seq<Snapshot>, log: seq<Publication>) {
    |published| == |log| && forall j :: 0 <= j < |log| ==> published[j] == SnapshotOf(log[j])
  }

  /** At a publication the inactive slot holds the snapshot, so its meaning is that of the snapshot. */
  lemma PublishedEra(s: State)
    requires Inv(s) && Publishes(s, Publish)
    ensures var u := s.publisher.snapshot;
            Era(Policies(Target(s)), NewConfig(s, u).enforcement) == Backend.EraOf(u)
  {
    hide CpusOk, LogOk, EntriesOk, FlowsOk, Contents, Policies, Captured;
    var entries := s.publisher.snapshot.entries;
    assert entries[..|entries|] == entries;
  }

  /** What the history holds after an event. */
  lemma StepHistory(s: State, e: Event)
    requires Inv(s)
    ensures !Publishes(s, e) ==> Step(s, e).history == s.history
    ensures Publishes(s, e) ==>
              var u := s.publisher.snapshot; Step(s, e).history == s.history[u.config.policyGen := Backend.EraOf(u)]
  {
    hide Move, Policies, Contents, Inv;
    if Publishes(s, e) { PublishedEra(s); }
  }

  lemma PublishDisciplined(s: State, e: Event)
    requires Inv(s) && (e.BeginSync? && s.publisher.Resting? ==> GraceElapsed(s))
    requires Publishes(s, e) ==> Backend.KeepsEra(s.history, s.publisher.snapshot)
    ensures Disciplined(s, e)
  {
    hide Policies, Contents, Inv, GraceElapsed;
    if Publishes(s, e) { PublishedEra(s); }
  }

  /**
   * Whatever packets and the publisher do, if every sync waits out the grace period and the publications are those of
   * a monotone log, then no generation ever changes its meaning, and history holds what the log published.
   */
  lemma {:induction false} LoggedRunIsDisciplined(cpus: nat, events: seq<Event>, log: seq<Publication>)
    requires GraceRespected(cpus, events) && Monotone(log) && Carries(Published(cpus, events), log)
    ensures Assumed(cpus, events) && HistoryOk(Run(cpus, events).history, log)
  {
    hide Step, Inv, Follows, Monotone, HistoryOk, Meaning, SnapshotOf, Disciplined;
    if events == [] {
      NothingPublished(cpus);
    } else {
      var n := |events| - 1;
      var s, e := Run(cpus, events[..n]), events[n];
      if Publishes(s, e) {
        var m := |log| - 1;
        LogPrefix(log);
        assert Published(cpus, events) == Published(cpus, events[..n]) + [s.publisher.snapshot];
        LoggedRunIsDisciplined(cpus, events[..n], log[..m]);
        RunKeepsInv(cpus, events[..n]);
        NextKeepsMeaning(s.history, log[..m], log[m]);
        assert log[..m] + [log[m]] == log;
        assert s.publisher.snapshot == SnapshotOf(log[m]);
        SnapshotGeneration(log[m]);
      } else {
        LoggedRunIsDisciplined(cpus, events[..n], log);
        RunKeepsInv(cpus, events[..n]);
      }
      PublishDisciplined(s, e);
      StepHistory(s, e);
    }
  }

  lemma SnapshotGeneration(u: Publication)
    ensures SnapshotOf(u).config.policyGen == u.policyGen
  {
  }

  lemma NothingPublished(cpus: nat)
    ensures HistoryOk(Start(cpus).history, [])
  {
  }

  /** A monotone log's beginning is monotone, and its last publication follows it. */
  lemma LogPrefix(log: seq<Publication>)
    requires Monotone(log) && log != []
    ensures Monotone(log[..|log| - 1]) && (|log| > 1 ==> Follows(Last(log[..|log| - 1]), Last(log)))
  {
    hide Follows;
    var m := |log| - 1;
    forall i, j | 0 <= i < j < m
      ensures Follows(log[..m][i], log[..m][j])
    {
      assert Follows(log[i], log[j]);
    }
  }

  // ----- What the controller's publications guarantee of the packet program -----

  /** The log published this verdict for the subject and class under the generation. */
  ghost predicate Prescribes(log: seq<Publication>, gen: nat, subject: nat, classId: nat, verdict: Verdict) {
    exists j :: 0 <= j < |log| && log[j].policyGen == gen
      && verdict == VerdictOf(Contents(Entries(log[j].policy, log[j].classifier)), subject, classId)
  }

  lemma MeaningPrescribes(history: map<nat, Era>, log: seq<Publication>, gen: nat, subject: nat, classId: nat)
    requires HistoryOk(history, log) && gen in history
    ensures Prescribes(log, gen, subject, classId, VerdictOf(history[gen].policies, subject, classId))
  {
    hide Policies, Contents, VerdictOf;
    var j :| 0 <= j < |log| && log[j].policyGen == gen && history[gen] == Meaning(log[j].policy);
    MeaningOfSnapshot(log[j]);
    var t := Contents(Entries(log[j].policy, log[j].classifier));
    PoliciesOnce(t);
    VerdictDependsOnPolicies(Policies(t), t, subject, classId);
  }

  lemma PoliciesOnce(t: Table)
    ensures Policies(Policies(t)) == Policies(t)
  {
  }

  /** Every classified record holds the verdict that the controller published under the record's generation. */
  lemma RecordsFollowTheLog(cpus: nat, events: seq<Event>, log: seq<Publication>, id: nat)
    requires GraceRespected(cpus, events) && Monotone(log) && Carries(Published(cpus, events), log)
    requires id < |Run(cpus, events).shared.elements| && Run(cpus, events).shared.elements[id].kind != NoKind
    ensures var e := Run(cpus, events).shared.elements[id];
            Prescribes(log, e.gen, e.subject, e.classId, e.verdict)
  {
    hide Run, Inv, Monotone, HistoryOk, VerdictOf, Policies, Prescribes;
    LoggedRunIsDisciplined(cpus, events, log);
    VerdictCacheCoherent(cpus, events, id);
    var e := Run(cpus, events).shared.elements[id];
    MeaningPrescribes(Run(cpus, events).history, log, e.gen, e.subject, e.classId);
  }

  /**
   * Every mark from a record is the verdict the controller published under the record's generation, and that of the
   * packet's own snapshot whenever the record is of the packet's generation.
   */
  lemma MarksFollowTheLog(cpus: nat, events: seq<Event>, log: seq<Publication>, i: nat)
    requires GraceRespected(cpus, events) && Monotone(log) && Carries(Published(cpus, events), log)
    requires i < |Run(cpus, events).shared.log| && Run(cpus, events).shared.log[i].cause.Cached?
    ensures var m := Run(cpus, events).shared.log[i];
            var e := m.cause.entry;
            && Prescribes(log, e.gen, m.subject, e.classId, e.verdict)
            && (e.gen == m.config.policyGen ==> e.verdict == VerdictOf(m.view, m.subject, e.classId))
  {
    hide Run, Inv, Monotone, HistoryOk, VerdictOf, Policies, Prescribes;
    LoggedRunIsDisciplined(cpus, events, log);
    EveryMarkJustified(cpus, events, i);
    var m := Run(cpus, events).shared.log[i];
    MeaningPrescribes(Run(cpus, events).history, log, m.cause.entry.gen, m.subject, m.cause.entry.classId);
  }
}
