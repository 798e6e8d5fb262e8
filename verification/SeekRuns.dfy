/** What a search by time asks of a log, proved of every run of writes under a clock that does not go back. */
module SeekRuns {
  import opened Frames
  import opened Journals
  import opened JournalProofs
  import opened JournalLog
  import opened Seek

  /** No write is stamped, and no page is ended, earlier than the write before was stamped. */
  predicate Advancing(jobs: seq<Job>, since: int)
    decreases |jobs|
  {
    jobs == []
    || (since <= jobs[0].now && since <= jobs[0].frame.genTime && Advancing(jobs[1..], jobs[0].frame.genTime))
  }

  /** Nothing in the log is stamped later. */
  ghost predicate FramesBy(hist: seq<PageLog>, now: int) {
    forall i, l | 0 <= i < |hist| && 0 <= l < |hist[i].frames| :: hist[i].frames[l].genTime <= now
  }

  /** Only the page that is being written to may hold no frame. */
  lemma RolledStamped(hist: seq<PageLog>, since: int, e: Frame)
    requires hist != [] && Stamped(hist) && FramesBy(hist, since) && since <= e.genTime
    ensures Stamped(Rolled(hist, e)) && FramesBy(Rolled(hist, e), since)
  {
  }

  lemma AppendedStamped(hist: seq<PageLog>, since: int, f: Frame)
    requires hist != [] && hist[|hist| - 1].Open? && Stamped(hist) && FramesBy(hist, since) && since <= f.genTime
    ensures Stamped(Appended(hist, f)) && FramesBy(Appended(hist, f), f.genTime)
  {
    var hist' := Appended(hist, f);
    var n := |hist| - 1;
    assert forall j | 0 <= j < n :: hist'[j] == hist[j];
    assert forall l | 0 <= l < |hist'[n].frames| ::
        hist'[n].frames[l] == if l < |hist[n].frames| then hist[n].frames[l] else f;
  }

  lemma WrittenStamped(c: Config, s: State, hist: seq<PageLog>, f: Frame, now: int, since: int)
    requires hist != [] && hist[|hist| - 1].Open? && Stamped(hist) && FramesBy(hist, since)
    requires since <= now && since <= f.genTime
    ensures Stamped(Written(c, s, hist, f, now)) && FramesBy(Written(c, s, hist, f, now), f.genTime)
  {
    hide Stamped, FramesBy, MustRoll;
    if MustRoll(c, s, |f.data|) {
      var e := EndFrame(c, f.triggerTime, now);
      RolledStamped(hist, since, e);
      AppendedStamped(Rolled(hist, e), since, f);
    } else {
      AppendedStamped(hist, since, f);
    }
  }

  lemma LastIsOpen(c: Config, s: State, hist: seq<PageLog>)
    requires Inv(c, s, hist)
    ensures hist != [] && hist[|hist| - 1].Open?
  {
  }

  lemma {:induction false} RunOnStamped(c: Config, s: State, hist: seq<PageLog>, jobs: seq<Job>, since: int)
    requires Inv(c, s, hist) && AllFit(c, jobs) && Advancing(jobs, since) && Stamped(hist) && FramesBy(hist, since)
    ensures Stamped(Run(c, s, hist, jobs).1)
    decreases |jobs|
  {
    hide Inv, Ready, Run, Write, Written, Stamped, FramesBy, Fits;
    RunStep(c, s, hist, jobs);
    if jobs != [] {
      var f, now := jobs[0].frame, jobs[0].now;
      OneJob(c, s, hist, jobs[0]);
      LastIsOpen(c, s, hist);
      WrittenStamped(c, s, hist, f, now, since);
      RunOnStamped(c, Write(c, s, f, now), Written(c, s, hist, f, now), jobs[1..], f.genTime);
    }
  }

  lemma WrittenFull(c: Config, s: State, hist: seq<PageLog>, f: Frame, now: int)
    requires hist != [] && OnlyLastEmpty(hist) && (MustRoll(c, s, |f.data|) ==> hist[|hist| - 1].frames != [])
    ensures OnlyLastEmpty(Written(c, s, hist, f, now))
  {
  }

  /** A page without a frame takes any frame that fits. */
  lemma RollLeavesFrames(c: Config, s: State, hist: seq<PageLog>, f: Frame)
    requires Inv(c, s, hist) && Fits(c, f) && MustRoll(c, s, |f.data|)
    ensures hist[|hist| - 1].frames != []
  {
    PosZero(hist[|hist| - 1].frames);
  }

  lemma {:induction false} RunOnFull(c: Config, s: State, hist: seq<PageLog>, jobs: seq<Job>)
    requires Inv(c, s, hist) && AllFit(c, jobs) && OnlyLastEmpty(hist)
    ensures OnlyLastEmpty(Run(c, s, hist, jobs).1)
    decreases |jobs|
  {
    hide Inv, Ready, Run, Write, Written, OnlyLastEmpty, Fits, MustRoll;
    RunStep(c, s, hist, jobs);
    if jobs != [] {
      var f, now := jobs[0].frame, jobs[0].now;
      OneJob(c, s, hist, jobs[0]);
      if MustRoll(c, s, |f.data|) {
        RollLeavesFrames(c, s, hist, f);
      }
      WrittenFull(c, s, hist, f, now);
      RunOnFull(c, Write(c, s, f, now), Written(c, s, hist, f, now), jobs[1..]);
    }
  }

  lemma StartStamped(since: int)
    ensures Stamped([Open([])]) && FramesBy([Open([])], since) && OnlyLastEmpty([Open([])])
  {
  }

  /** Over every run of writes whose stamps and clock readings never decrease, a log comes about in which a search by
      time is exact: stamps never decrease along it, no page was ended before it was written to for the last time,
      and no page but the last is without a frame. */
  lemma RunIsStamped(c: Config, jobs: seq<Job>, since: int)
    requires ValidConfig(c) && c.rollback != 1 && AllFit(c, jobs) && Advancing(jobs, since)
    ensures Inv(c, Start(c), [Open([])])
    ensures Stamped(Run(c, Start(c), [Open([])], jobs).1) && OnlyLastEmpty(Run(c, Start(c), [Open([])], jobs).1)
  {
    hide Inv, Run, Stamped, FramesBy, OnlyLastEmpty, Advancing;
    StartInv(c);
    StartStamped(since);
    RunOnStamped(c, Start(c), [Open([])], jobs, since);
    RunOnFull(c, Start(c), [Open([])], jobs);
  }

  // ---------- What ends the pages ----------

  /** The frame behind visit `j` is of type `PAGE_END`, stamped with the clock read by the write that rolled, whose
      frame is the first of the next visit and caused it. */
  ghost predicate EndedBy(c: Config, hist: seq<PageLog>, jobs: seq<Job>, j: nat)
    requires j + 1 < |hist|
  {
    exists w | w in jobs ::
      && hist[j].Closed? && hist[j + 1].frames != [] && hist[j + 1].frames[0] == w.frame
      && hist[j].end == Frame(PAGE_END, w.now, w.frame.triggerTime, c.uid, c.dest, [])
  }

  ghost predicate EndsKnown(c: Config, hist: seq<PageLog>, jobs: seq<Job>) {
    forall j | 0 <= j < |hist| - 1 :: EndedBy(c, hist, jobs, j)
  }

  lemma WrittenEnds(c: Config, s: State, hist: seq<PageLog>, jobs: seq<Job>, w: Job)
    requires hist != [] && EndsKnown(c, hist, jobs)
    ensures EndsKnown(c, Written(c, s, hist, w.frame, w.now), jobs + [w])
  {
    var hist' := Written(c, s, hist, w.frame, w.now);
    forall j | 0 <= j < |hist'| - 1
      ensures EndedBy(c, hist', jobs + [w], j)
    {
      if j < |hist| - 1 {
        assert EndedBy(c, hist, jobs, j);
        var x :| x in jobs && hist[j].Closed? && hist[j + 1].frames != [] && hist[j + 1].frames[0] == x.frame
                 && hist[j].end == Frame(PAGE_END, x.now, x.frame.triggerTime, c.uid, c.dest, []);
        assert x in jobs + [w];
      } else {
        assert w in jobs + [w];
      }
    }
  }

  lemma {:induction false} RunOnEnds(c: Config, s: State, hist: seq<PageLog>, done: seq<Job>, jobs: seq<Job>)
    requires Inv(c, s, hist) && AllFit(c, jobs) && EndsKnown(c, hist, done)
    ensures EndsKnown(c, Run(c, s, hist, jobs).1, done + jobs)
    decreases |jobs|
  {
    hide Inv, Ready, Run, Write, Written, EndsKnown, Fits;
    RunStep(c, s, hist, jobs);
    if jobs == [] {
      assert done + jobs == done;
    } else {
      var f, now := jobs[0].frame, jobs[0].now;
      OneJob(c, s, hist, jobs[0]);
      LastIsOpen(c, s, hist);
      WrittenEnds(c, s, hist, done, jobs[0]);
      RunOnEnds(c, Write(c, s, f, now), Written(c, s, hist, f, now), done + [jobs[0]], jobs[1..]);
      assert done + [jobs[0]] + jobs[1..] == done + jobs;
    }
  }

  /** After any run, every page that was left was ended by the write whose frame is the first on the next page. */
  lemma RunEndsPages(c: Config, jobs: seq<Job>, j: nat)
    requires ValidConfig(c) && c.rollback != 1 && AllFit(c, jobs)
    ensures Inv(c, Start(c), [Open([])])
    ensures var hist := Run(c, Start(c), [Open([])], jobs).1;
            j + 1 < |hist| ==> EndedBy(c, hist, jobs, j)
  {
    hide Inv, Run, EndedBy;
    StartInv(c);
    RunOnEnds(c, Start(c), [Open([])], [], jobs);
    assert [] + jobs == jobs;
  }
}
