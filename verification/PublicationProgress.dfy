/** That publication gets on: what the writer is asked for comes to be in the log, and what is in the log comes to be
    with the readers, each by steps of its own. */
module PublicationProgress {
  import opened Frames
  import opened Journals
  import opened JournalProofs
  import opened JournalLog
  import opened PublicationStores
  import opened Publication
  import opened PublicationProofs

  // ---------- The writer ----------

  function WaitingSteps(waiting: seq<Frame>): nat {
    if waiting == [] then 0 else |FrameStores(PAGE_HEADER, waiting[0])| + 2
  }

  /** How many steps the writer has to make until it is idle. */
  function StepsLeft(pc: Pc): nat {
    match pc
    case Idle => 0
    case Storing(_, _, todo, waiting) => |todo| + 2 + WaitingSteps(waiting)
    case Marking(_, _, waiting) => 1 + WaitingSteps(waiting)
  }

  lemma OneStepLess(c: Config, s: System)
    requires Safe(c, s) && s.pc != Idle
    ensures StepsLeft(WriteStep(s).pc) == StepsLeft(s.pc) - 1 && WriteStep(s).asked == s.asked
  {
    hide FrameStores, Visible, PageHolds, ReaderOk, OnCourse, Log;
  }

  /** So many steps of the writer. */
  function WriterSteps(n: nat): seq<Action> {
    seq(n, _ => WriterStep)
  }

  lemma {:induction false} WriterFinishes(c: Config, s: System)
    requires Safe(c, s)
    ensures var t := Exec(c, s, WriterSteps(StepsLeft(s.pc)));
            t.pc == Idle && t.asked == s.asked && Log(t.hist) == s.asked
    decreases StepsLeft(s.pc)
  {
    hide Safe, WriteStep, StepsLeft, Log;
    if s.pc == Idle {
      NothingPending(c, s);
    } else {
      OneStepLess(c, s);
      StepKeeps(c, s, WriterStep);
      assert WriterSteps(StepsLeft(s.pc))[1..] == WriterSteps(StepsLeft(s.pc) - 1);
      WriterFinishes(c, WriteStep(s));
    }
  }

  lemma NothingPending(c: Config, s: System)
    requires Safe(c, s) && s.pc == Idle
    ensures StepsLeft(s.pc) == 0 && Log(s.hist) == s.asked && Exec(c, s, WriterSteps(0)) == s
  {
    hide Log, PagesOk, PcOk, ReaderOk;
  }

  /** An idle writer takes any frame that fits a page. */
  lemma TakesWhatFits(c: Config, s: System, f: Frame, now: int)
    requires Safe(c, s) && s.pc == Idle && Fits(c, f)
    ensures BeginStep(c, s, f, now).asked == s.asked + [f]
  {
    hide ReaderOk, Log, FrameStores, EndStores, EndFrame, Pos;
    var last := |s.pages| - 1;
    assert PageHolds(c, s.pages[last], s.hist[last]);
    AfterLastIsEnd(c, s.pages[last], s.hist[last].frames);
  }

  /** Whatever has been going on: once the writer is idle, a frame it is asked to write is the next of the log after
      finitely many steps of the writer, and nothing else has been added to it. */
  lemma AskedIsWritten(c: Config, s: System, f: Frame, now: int)
    requires Safe(c, s) && s.pc == Idle && Fits(c, f)
    ensures exists n: nat ::
              var t := Exec(c, Step(c, s, Begin(f, now)), WriterSteps(n));
              t.pc == Idle && Log(t.hist) == Log(s.hist) + [f]
  {
    hide Safe, Log, BeginStep, StepsLeft, Exec;
    NothingPending(c, s);
    TakesWhatFits(c, s, f, now);
    StepKeeps(c, s, Begin(f, now));
    WriterFinishes(c, Step(c, s, Begin(f, now)));
  }

  // ---------- A reader ----------

  /** The reader has been given all it can get: the whole log, or if it is guarded all there is up to the end of its
      page. */
  ghost predicate HasAll(hist: seq<PageLog>, r: Reader)
    requires r.page < |hist|
  {
    r.got == if r.guarded then Log(hist[..r.page]) + hist[r.page].frames else Log(hist)
  }

  function PcRank(pc: ReaderPc): nat {
    match pc
    case LoadLength => 4
    case LoadType => 3
    case LoadData => 2
    case NextType => 1
    case NextLength => 0
  }

  /** Frames ahead of the reader, pages ahead of it, and how far it is with the one it is at. */
  ghost function Ahead(hist: seq<PageLog>, r: Reader): int
    requires r.page < |hist|
  {
    5 * (|Log(hist[r.page..])| - r.frameNb) + 4 * (|hist| - r.page) + PcRank(r.pc)
  }

  lemma LogAhead(hist: seq<PageLog>, p: nat)
    requires p < |hist|
    ensures Log(hist[p..]) == hist[p].frames + Log(hist[p + 1..])
    ensures Log(hist) == Log(hist[..p]) + hist[p].frames + Log(hist[p + 1..])
  {
    hide Log;
    LogSplit(hist, p);
    LogFirst(hist[p..]);
    assert hist[p..][1..] == hist[p + 1..];
  }

  /** Behind a page that is open nothing has been written. */
  lemma NothingBehindOpen(c: Config, s: System, p: nat)
    requires Safe(c, s) && p < |s.hist| && s.hist[p].Open?
    ensures Log(s.hist[p + 1..]) == []
  {
    hide Visible, PageHolds, ReaderOk, OnCourse;
    if p + 1 < |s.hist| {
      assert s.pc.Storing? && p == Target(s) == |s.hist| - 2;
      assert s.hist[p + 1..] == [Open([])];
    }
  }

  lemma NotAllMeansMore(c: Config, s: System, r: Reader)
    requires Safe(c, s) && ReaderOk(s.hist, r) && !HasAll(s.hist, r)
    ensures Given(s.hist, r) < |s.hist[r.page].frames|
            || (!r.guarded && s.hist[r.page].Closed? && r.page + 1 < |s.hist|)
  {
    hide Log, Visible, PageHolds, PcOk, Pos;
    LogAhead(s.hist, r.page);
    if Given(s.hist, r) == |s.hist[r.page].frames| && s.hist[r.page].Open? {
      NothingBehindOpen(c, s, r.page);
    }
  }

  lemma EndHasLength(c: Config, mem: Mem, log: PageLog)
    requires Visible(c, mem, log) && log.Closed?
    ensures var off := Pos(log.frames, |log.frames|); off + FRAME_HEADER <= |mem| && mem[off + LENGTH] > 0
  {
    hide Pos, Chain;
  }

  /** Every load brings a reader that has not been given all on. */
  lemma LoadsOn(c: Config, s: System, r: Reader)
    requires Safe(c, s) && ReaderOk(s.hist, r) && !HasAll(s.hist, r)
    ensures var r' := ReadStep(s.pages, r); r'.page < |s.hist| && Ahead(s.hist, r') < Ahead(s.hist, r)
  {
    hide PcOk, Pos, Log, Holds, PageHolds, Visible, HasAll;
    var mem, log := s.pages[r.page], s.hist[r.page];
    NotAllMeansMore(c, s, r);
    SeesFrame(c, mem, log, r.frameNb);
    LogAhead(s.hist, r.page);
    if log.Closed? {
      EndHasLength(c, mem, log);
    }
    if r.pc == LoadData {
      HoldsReads(mem, r.off, log.frames[r.frameNb]);
    }
  }

  lemma AheadBound(c: Config, s: System, r: Reader)
    requires Safe(c, s) && ReaderOk(s.hist, r)
    ensures Ahead(s.hist, r) >= 0
  {
    hide Log, Visible, PageHolds, PcOk, Pos;
    LogAhead(s.hist, r.page);
  }

  function ReaderSteps(r: nat, n: nat): seq<Action> {
    seq(n, _ => ReaderStep(r))
  }

  lemma {:induction false} CatchesUp(c: Config, s: System, i: nat) returns (n: nat)
    requires Safe(c, s) && i < |s.readers|
    ensures var t := Exec(c, s, ReaderSteps(i, n));
            && t.hist == s.hist && i < |t.readers| && t.readers[i].page < |t.hist| && HasAll(t.hist, t.readers[i])
            && t.readers[i].guarded == s.readers[i].guarded
    decreases Ahead(s.hist, s.readers[i])
  {
    hide PcOk, PagesOk, ReaderOk, HasAll, Ahead, ReadStep, Log;
    assert s.readers[i].page < |s.hist| by { OnAPage(s.hist, s.readers[i]); }
    if HasAll(s.hist, s.readers[i]) {
      n := 0;
      assert Exec(c, s, ReaderSteps(i, 0)) == s;
    } else {
      var t := Step(c, s, ReaderStep(i));
      LoadsOn(c, s, s.readers[i]);
      AheadBound(c, s, s.readers[i]);
      StepKeeps(c, s, ReaderStep(i));
      SameKind(s.pages, s.readers[i]);
      n := CatchesUp(c, t, i);
      n := n + 1;
      assert ReaderSteps(i, n)[1..] == ReaderSteps(i, n - 1);
    }
  }

  lemma OnAPage(hist: seq<PageLog>, r: Reader)
    requires ReaderOk(hist, r)
    ensures r.page < |hist|
  {
  }

  lemma SameKind(pages: seq<Mem>, r: Reader)
    ensures ReadStep(pages, r).guarded == r.guarded
  {
  }

  /** In every state that any interleaving of writes, stores and loads can reach, every reader comes to be given by
      its own loads everything that has been published: one that walks the pages the whole log, one that steps only
      where `has_data` holds all of its page and the pages in front of it. */
  lemma PublishedIsRead(c: Config, guarded: seq<bool>, acts: seq<Action>, i: nat)
    requires ValidConfig(c) && i < |guarded|
    ensures var s := Exec(c, Initial(c, guarded), acts);
            exists n: nat ::
              var t := Exec(c, s, ReaderSteps(i, n));
              && t.hist == s.hist && i < |t.readers| && t.readers[i].page < |t.hist|
              && var p := t.readers[i].page;
                 t.readers[i].got == if guarded[i] then Log(t.hist[..p]) + t.hist[p].frames else Log(t.hist)
  {
    hide Exec, Initial, Safe, Log, Step, HasAll;
    InitialSafe(c, guarded);
    ExecKeeps(c, Initial(c, guarded), acts);
    FirstKind(c, guarded, i);
    KindsStay(c, Initial(c, guarded), acts, i);
    var s := Exec(c, Initial(c, guarded), acts);
    var n := CatchesUp(c, s, i);
    var t := Exec(c, s, ReaderSteps(i, n));
    assert t.readers[i].guarded == guarded[i];
    AllOf(t.hist, t.readers[i]);
  }

  lemma AllOf(hist: seq<PageLog>, r: Reader)
    requires r.page < |hist| && HasAll(hist, r)
    ensures r.got == if r.guarded then Log(hist[..r.page]) + hist[r.page].frames else Log(hist)
  {
  }

  lemma FirstKind(c: Config, guarded: seq<bool>, i: nat)
    requires ValidConfig(c) && i < |guarded|
    ensures i < |Initial(c, guarded).readers| && Initial(c, guarded).readers[i].guarded == guarded[i]
  {
  }

  lemma {:induction false} KindsStay(c: Config, s: System, acts: seq<Action>, i: nat)
    ensures |Exec(c, s, acts).readers| == |s.readers|
    ensures i < |s.readers| ==> Exec(c, s, acts).readers[i].guarded == s.readers[i].guarded
    decreases |acts|
  {
    hide Step;
    if acts != [] {
      KindStays(c, s, acts[0], i);
      KindsStay(c, Step(c, s, acts[0]), acts[1..], i);
    }
  }

  lemma KindStays(c: Config, s: System, a: Action, i: nat)
    ensures |Step(c, s, a).readers| == |s.readers|
    ensures i < |s.readers| ==> Step(c, s, a).readers[i].guarded == s.readers[i].guarded
  {
    hide FrameStores, EndStores, EndFrame, Fits, FrameAt, Readable;
  }
}
