/** The pages of a journal refine a sequence of frames: what a reader that walks
    them gets back, over every run of writes. */
module JournalLog {
  import opened Frames
  import opened Journals
  import opened JournalProofs

  // ---------- Runs of writes ----------

  /** One call of the writer; `now` is the clock it reads should it have to close the page. */
  datatype Job = Job(frame: Frame, now: int)

  function FramesOf(jobs: seq<Job>): seq<Frame> {
    if jobs == [] then [] else [jobs[0].frame] + FramesOf(jobs[1..])
  }

  predicate AllFit(c: Config, jobs: seq<Job>) {
    forall w | w in jobs :: Fits(c, w.frame)
  }

  lemma {:induction false} LogSplit(hist: seq<PageLog>, j: nat)
    requires j <= |hist|
    ensures Log(hist) == Log(hist[..j]) + Log(hist[j..])
  {
    if j == 0 {
      assert hist[..j] == [] && hist[j..] == hist;
    } else {
      LogSplit(hist[1..], j - 1);
      assert hist[..j][1..] == hist[1..][..j - 1] && hist[j..] == hist[1..][j - 1..];
    }
  }

  lemma LogFirst(hist: seq<PageLog>)
    requires |hist| > 0
    ensures Log(hist) == hist[0].frames + Log(hist[1..])
    ensures |hist| == 1 ==> Log(hist) == hist[0].frames
  {
  }

  lemma LogLast(hist: seq<PageLog>)
    requires |hist| > 0
    ensures Log(hist) == Log(hist[..|hist| - 1]) + hist[|hist| - 1].frames
  {
    LogSplit(hist, |hist| - 1);
    assert hist[|hist| - 1..] == [hist[|hist| - 1]];
  }

  lemma LogWritten(c: Config, s: State, hist: seq<PageLog>, f: Frame, now: int)
    requires |hist| > 0
    ensures Log(Written(c, s, hist, f, now)) == Log(hist) + [f]
    ensures var hist' := Written(c, s, hist, f, now);
            |hist'| >= |hist| && hist'[|hist'| - 1].frames != []
            && |hist'| == if MustRoll(c, s, |f.data|) then |hist| + 1 else |hist|
  {
    hide Log, MustRoll, EndFrame;
    var v := |hist|;
    var hist' := Written(c, s, hist, f, now);
    LogLast(hist);
    LogLast(hist');
    if MustRoll(c, s, |f.data|) {
      var rolled := hist'[..v];
      LogLast(rolled);
      assert rolled[..v - 1] == hist[..v - 1];
    } else {
      assert hist'[..v - 1] == hist[..v - 1];
    }
  }

  lemma OneJob(c: Config, s: State, hist: seq<PageLog>, w: Job)
    requires Inv(c, s, hist) && Fits(c, w.frame)
    ensures Ready(c, s) && |hist| > 0 && FitsLength(c, |w.frame.data|)
    ensures Inv(c, Write(c, s, w.frame, w.now), Written(c, s, hist, w.frame, w.now))
    ensures Log(Written(c, s, hist, w.frame, w.now)) == Log(hist) + [w.frame]
  {
    hide Inv, Write, Written, Log, MustRoll, Ready;
    InvReady(c, s, hist);
    WriteKeeps(c, s, hist, w.frame, w.now);
    LogWritten(c, s, hist, w.frame, w.now);
  }

  lemma OneFrameMore(log: seq<Frame>, jobs: seq<Job>)
    requires jobs != []
    ensures log + FramesOf(jobs) == (log + [jobs[0].frame]) + FramesOf(jobs[1..])
  {
  }

  /** Any run of writes ends in a well-formed journal whose log has grown by exactly the frames written. */
  ghost function Run(c: Config, s: State, hist: seq<PageLog>, jobs: seq<Job>): (r: (State, seq<PageLog>))
    requires Inv(c, s, hist) && AllFit(c, jobs)
    ensures Inv(c, r.0, r.1)
    ensures Log(r.1) == Log(hist) + FramesOf(jobs)
    decreases |jobs|
  {
    hide Inv, Ready, Write, Written, Log, Fits, FitsLength;
    if jobs == [] then (s, hist)
    else
      OneJob(c, s, hist, jobs[0]);
      OneFrameMore(Log(hist), jobs);
      Run(c, Write(c, s, jobs[0].frame, jobs[0].now), Written(c, s, hist, jobs[0].frame, jobs[0].now), jobs[1..])
  }

  lemma RunStep(c: Config, s: State, hist: seq<PageLog>, jobs: seq<Job>)
    requires Inv(c, s, hist) && AllFit(c, jobs)
    ensures if jobs == [] then Run(c, s, hist, jobs) == (s, hist)
            else
              var (f, now) := (jobs[0].frame, jobs[0].now);
              && Ready(c, s) && |hist| > 0
              && Inv(c, Write(c, s, f, now), Written(c, s, hist, f, now))
              && Run(c, s, hist, jobs) == Run(c, Write(c, s, f, now), Written(c, s, hist, f, now), jobs[1..])
  {
    hide Inv, Write, Written, Log;
    InvReady(c, s, hist);
    if jobs != [] {
      WriteKeeps(c, s, hist, jobs[0].frame, jobs[0].now);
    }
  }

  lemma {:induction false} RunLast(c: Config, s: State, hist: seq<PageLog>, jobs: seq<Job>)
    requires Inv(c, s, hist) && AllFit(c, jobs)
    ensures var hist' := Run(c, s, hist, jobs).1;
            |hist'| >= |hist| > 0 && (jobs == [] || hist'[|hist'| - 1].frames != [])
    decreases |jobs|
  {
    hide Inv, Write, Written, Log, Run, MustRoll;
    InvReady(c, s, hist);
    RunStep(c, s, hist, jobs);
    if jobs != [] {
      var (f, now) := (jobs[0].frame, jobs[0].now);
      LogWritten(c, s, hist, f, now);
      var (s', hist') := (Write(c, s, f, now), Written(c, s, hist, f, now));
      RunLast(c, s', hist', jobs[1..]);
      RunStep(c, s', hist', jobs[1..]);
    }
  }

  // ---------- A reader that calls `next` while there is a length ----------

  datatype Walked = Walked(frames: seq<Frame>, page: nat, off: nat)

  /** `turns` bounds how often the walk may enter another page. */
  function Walk(c: Config, pages: map<nat, Mem>, page: nat, off: nat, turns: nat): Walked
    decreases turns, if page in pages then |pages[page]| - off else 0
  {
    if page in pages && Readable(pages[page], off) && NonBlank(pages[page], off) then
      if pages[page][off + MSG_TYPE] == PAGE_END then
        if turns == 0 then Walked([], page, off) else Walk(c, pages, NextId(c, page), PAGE_HEADER, turns - 1)
      else
        var rest := Walk(c, pages, page, off + pages[page][off + LENGTH], turns);
        rest.(frames := [FrameAt(pages[page], off)] + rest.frames)
    else
      Walked([], page, off)
  }

  function NextId(c: Config, id: nat): nat {
    if c.rollback == 0 || id < c.rollback then id + 1 else 1
  }

  lemma WalkHit(c: Config, pages: map<nat, Mem>, page: nat, off: nat, f: Frame, turns: nat)
    requires page in pages && Holds(pages[page], off, f) && f.msgType != PAGE_END
    ensures var rest := Walk(c, pages, page, off + Size(f), turns);
            Walk(c, pages, page, off, turns) == rest.(frames := [f] + rest.frames)
  {
  }

  lemma WalkCross(c: Config, pages: map<nat, Mem>, page: nat, off: nat, e: Frame, turns: nat)
    requires page in pages && Holds(pages[page], off, e) && e.msgType == PAGE_END && turns > 0
    ensures Walk(c, pages, page, off, turns) == Walk(c, pages, NextId(c, page), PAGE_HEADER, turns - 1)
  {
  }

  lemma WalkStop(c: Config, pages: map<nat, Mem>, page: nat, off: nat, turns: nat)
    requires page in pages && Blank(pages[page], off)
    ensures Walk(c, pages, page, off, turns) == Walked([], page, off)
  {
  }

  function Prepend(fs: seq<Frame>, w: Walked): Walked {
    w.(frames := fs + w.frames)
  }

  lemma {:induction false} WalkChain(c: Config, pages: map<nat, Mem>, page: nat, fs: seq<Frame>, k: nat, turns: nat)
    requires page in pages && Chain(pages[page], fs) && k <= |fs|
    requires forall i | 0 <= i < |fs| :: fs[i].msgType != PAGE_END
    ensures Walk(c, pages, page, Pos(fs, k), turns) == Prepend(fs[k..], Walk(c, pages, page, End(fs), turns))
    decreases |fs| - k
  {
    hide Walk, Holds, Chain, Pos;
    if k < |fs| {
      ChainAt(pages[page], fs, k);
      WalkHit(c, pages, page, Pos(fs, k), fs[k], turns);
      WalkChain(c, pages, page, fs, k + 1, turns);
      var w := Walk(c, pages, page, End(fs), turns);
      assert fs[k..] + w.frames == [fs[k]] + (fs[k + 1..] + w.frames);
    }
  }

  /** What the log still holds from frame `k` of visit `j` on. */
  function Rest(hist: seq<PageLog>, j: nat, k: nat): seq<Frame>
    requires j < |hist| && k <= |hist[j].frames|
  {
    hist[j].frames[k..] + Log(hist[j + 1..])
  }

  /** From any boundary of any live page, the walk reads the rest of the log and stops at the writer's cursor. */
  lemma {:induction false} WalkFrom(c: Config, s: State, hist: seq<PageLog>, j: nat, k: nat, turns: nat)
    requires Inv(c, s, hist) && j < |hist| && Live(c, |hist|, j)
    requires k <= |hist[j].frames| && turns >= |hist| - 1 - j
    ensures Walk(c, s.pages, PageOf(c, j), Pos(hist[j].frames, k), turns) == Walked(Rest(hist, j, k), s.page, s.off)
    decreases |hist| - j
  {
    hide PageOf, Walk, Holds, Blank, Chain, Pos;
    var fs, page := hist[j].frames, PageOf(c, j);
    assert PageHolds(c, s.pages[page], hist[j]);
    WalkChain(c, s.pages, page, fs, k, turns);
    if j < |hist| - 1 {
      WalkCross(c, s.pages, page, End(fs), hist[j].end, turns);
      PageOfNext(c, j);
      PosZero(hist[j + 1].frames);
      WalkFrom(c, s, hist, j + 1, 0, turns - 1);
      assert hist[j + 1..] == [hist[j + 1]] + hist[j + 2..];
    } else {
      WalkStop(c, s.pages, page, End(fs), turns);
    }
  }

  /** The log refines a sequence: after any run of writes on a journal that never recycles
      pages, walking from the first page yields exactly the frames written, in order. */
  lemma WalkYieldsEveryWrite(c: Config, jobs: seq<Job>, turns: nat)
    requires ValidConfig(c) && c.rollback == 0 && AllFit(c, jobs)
    ensures Inv(c, Start(c), [Open([])])
    ensures var (s, hist) := Run(c, Start(c), [Open([])], jobs);
            turns >= |hist| ==> Walk(c, s.pages, 1, PAGE_HEADER, turns) == Walked(FramesOf(jobs), s.page, s.off)
  {
    StartInv(c);
    var (s, hist) := Run(c, Start(c), [Open([])], jobs);
    if turns >= |hist| {
      WalkFrom(c, s, hist, 0, 0, turns);
    }
  }

  // ---------- The size a frame may have ----------

  /** The bound that `close_frame` asserts, after `open_frame` has found a place, holds exactly
      when the frame fits an empty page. */
  lemma CloseBoundIff(c: Config, s: State, hist: seq<PageLog>, trigger: int, len: nat, now: int)
    requires Inv(c, s, hist)
    ensures Ready(c, s)
    ensures Reserve(c, s, trigger, len, now).off + FRAME_HEADER + len < Border(c) <==> FitsLength(c, len)
  {
    InvReady(c, s, hist);
  }

  /** The check at the top of `open_frame` lets through exactly the lengths of this gap too. */
  lemma OpenAssertIsTooWeak(c: Config, len: nat)
    ensures FRAME_HEADER + len + FRAME_HEADER <= c.pageSize && !FitsLength(c, len)
            <==> c.pageSize - PAGE_HEADER - 2 * FRAME_HEADER <= len <= c.pageSize - 2 * FRAME_HEADER
  {
  }

  // ---------- The recycling ring ----------

  /** The first visit whose page has not been recycled. */
  function Oldest(c: Config, hist: seq<PageLog>): nat {
    if c.rollback > 0 && |hist| > c.rollback then |hist| - c.rollback else 0
  }

  /** The page a reader of a ring has to start from: the one the writer will recycle next, if any. */
  function OldestPage(c: Config, s: State): nat {
    if s.inRollback == 0 then 1 else NextId(c, s.page)
  }

  lemma OldestPageHoldsOldest(c: Config, s: State, hist: seq<PageLog>)
    requires Inv(c, s, hist)
    ensures Oldest(c, hist) < |hist| && PageOf(c, Oldest(c, hist)) == OldestPage(c, s)
    ensures 1 <= s.page && (c.rollback > 0 ==> s.page <= c.rollback)
    ensures s.inRollback == if c.rollback > 0 && |hist| > c.rollback then s.page else 0
    ensures c.rollback > 0 ==> forall id :: id in s.pages ==> 1 <= id <= c.rollback
  {
    hide PageHolds, PageOf;
    var v := |hist|;
    PageOfNext(c, v - 1);
    PageOfNext(c, 0);
    if c.rollback > 0 && v > c.rollback {
      PageOfRecycled(c, v - c.rollback);
    }
  }

  lemma WalkOldest(c: Config, s: State, hist: seq<PageLog>, turns: nat)
    requires Inv(c, s, hist) && turns >= |hist| - Oldest(c, hist)
    ensures var live := Walk(c, s.pages, OldestPage(c, s), PAGE_HEADER, turns);
            && live.page == s.page && live.off == s.off
            && Log(hist) == Log(hist[..Oldest(c, hist)]) + live.frames
  {
    hide Inv, Walk;
    OldestPageHoldsOldest(c, s, hist);
    var j := Oldest(c, hist);
    PosZero(hist[j].frames);
    WalkFrom(c, s, hist, j, 0, turns);
    LogSplit(hist, j);
    assert hist[j..] == [hist[j]] + hist[j + 1..];
  }

  /** After any run on a ring of at least two pages: the page number stays in range, the writer
      knows from its own page number that it has rolled over, and the live pages, read from the
      oldest on, hold exactly a suffix of everything written. */
  lemma RingHoldsSuffix(c: Config, jobs: seq<Job>)
    requires ValidConfig(c) && c.rollback >= 2 && AllFit(c, jobs)
    ensures Inv(c, Start(c), [Open([])])
    ensures var (s, hist) := Run(c, Start(c), [Open([])], jobs);
            var live := Walk(c, s.pages, OldestPage(c, s), PAGE_HEADER, c.rollback);
            && 1 <= s.page <= c.rollback
            && (forall id :: id in s.pages ==> 1 <= id <= c.rollback)
            && s.inRollback == (if |hist| > c.rollback then s.page else 0)
            && live.page == s.page && live.off == s.off
            && FramesOf(jobs) == Log(hist[..Oldest(c, hist)]) + live.frames
  {
    hide Inv, Walk;
    StartInv(c);
    var (s, hist) := Run(c, Start(c), [Open([])], jobs);
    OldestPageHoldsOldest(c, s, hist);
    WalkOldest(c, s, hist, c.rollback);
  }

  lemma PageOfRecycled(c: Config, j: nat)
    requires c.rollback >= 2
    ensures PageOf(c, j + c.rollback) == PageOf(c, j)
  {
    var r := c.rollback;
    assert (j / r + 1) * r == (j / r) * r + r;
    ModUnique(j + r, r, j / r + 1, j % r);
  }

  /** The writer has entered the page of visit `j` again. */
  predicate Recycled(c: Config, v: nat, j: nat) {
    c.rollback > 0 && v > j + c.rollback
  }

  /** The last of the first `v` visits that went to the page of visit `j`. */
  function Latest(c: Config, v: nat, j: nat): nat
    decreases v - j
  {
    if Recycled(c, v, j) then Latest(c, v, j + c.rollback) else j
  }

  lemma {:induction false} LatestIs(c: Config, v: nat, j: nat)
    requires c.rollback != 1 && j < v
    ensures var i := Latest(c, v, j);
            && j <= i && Live(c, v, i) && PageOf(c, i) == PageOf(c, j)
            && (i == j <==> !Recycled(c, v, j))
    decreases v - j
  {
    hide PageOf;
    if Recycled(c, v, j) {
      PageOfRecycled(c, j);
      LatestIs(c, v, j + c.rollback);
    }
  }

  /** A reader of a ring stands at frame `k` of visit `j`. However much is written, the frame stays where it
      is and as it is as long as the writer has not entered the page again; once it has, a reader that goes
      over the page gets the frames of the latest visit to it and none of this one. */
  lemma RingReaderSafe(c: Config, s: State, hist: seq<PageLog>, jobs: seq<Job>, j: nat, k: nat)
    requires Inv(c, s, hist) && AllFit(c, jobs) && j < |hist| && k < |hist[j].frames|
    ensures var (s', hist') := Run(c, s, hist, jobs); var i := Latest(c, |hist'|, j); var page := PageOf(c, j);
            && |hist'| >= |hist| && page in s'.pages && i < |hist'|
            && (i == j <==> !Recycled(c, |hist'|, j))
            && (i == j ==> Holds(s'.pages[page], Pos(hist[j].frames, k), hist[j].frames[k]))
            && Drained(s'.pages[page], PAGE_HEADER).0 == hist'[i].frames
  {
    hide Run, Holds, Pos, PageHolds, PageOf, Log, Drained;
    var (s', hist') := Run(c, s, hist, jobs);
    RunGrows(c, s, hist, jobs, j);
    LatestIs(c, |hist'|, j);
    var i := Latest(c, |hist'|, j);
    var mem := s'.pages[PageOf(c, i)];
    DrainedPage(c, mem, hist'[i]);
    if i == j {
      ChainHolds(c, mem, hist'[j], k);
      assert hist'[j].frames == hist[j].frames + hist'[j].frames[|hist[j].frames|..];
      PosPrefix(hist[j].frames, hist'[j].frames[|hist[j].frames|..], k);
    }
  }

  lemma DrainedPage(c: Config, mem: Mem, log: PageLog)
    requires PageHolds(c, mem, log)
    ensures Drained(mem, PAGE_HEADER) == (log.frames, End(log.frames))
  {
    hide Pos, Chain, Drained;
    PosZero(log.frames);
    DrainedChain(mem, log.frames, 0);
  }

  lemma ChainHolds(c: Config, mem: Mem, log: PageLog, k: nat)
    requires PageHolds(c, mem, log) && k < |log.frames|
    ensures Holds(mem, Pos(log.frames, k), log.frames[k])
  {
    hide Pos, Holds;
    ChainAt(mem, log.frames, k);
  }

  /** A visit keeps the frames it has, and only the last one receives more. */
  lemma {:induction false} RunGrows(c: Config, s: State, hist: seq<PageLog>, jobs: seq<Job>, j: nat)
    requires Inv(c, s, hist) && AllFit(c, jobs) && j < |hist|
    ensures |Run(c, s, hist, jobs).1| >= |hist| && hist[j].frames <= Run(c, s, hist, jobs).1[j].frames
    decreases |jobs|
  {
    hide Write, Run, Log, MustRoll, PageHolds, PageOf;
    InvReady(c, s, hist);
    RunStep(c, s, hist, jobs);
    if jobs != [] {
      WriteKeeps(c, s, hist, jobs[0].frame, jobs[0].now);
      var f, now := jobs[0].frame, jobs[0].now;
      RunGrows(c, Write(c, s, f, now), Written(c, s, hist, f, now), jobs[1..], j);
    }
  }

  /** Closing a page leaves the writer in front of a blank frame exactly when the ring does not
      consist of a single page. */
  lemma EntersBlankPageIff(c: Config, s: State, hist: seq<PageLog>, trigger: int, now: int)
    requires if c.rollback == 1 then Ready(c, s) && s.page == 1 else Inv(c, s, hist)
    ensures Ready(c, s)
    ensures var s' := ClosePage(c, s, trigger, now);
            Blank(s'.pages[s'.page], s'.off) <==> c.rollback != 1
  {
    if c.rollback != 1 {
      hide LoadNextPage, EndMem;
      LoadNextIsBlank(c, s, hist);
    }
  }

  // ---------- A reader guarded by `has_data` ----------

  /** What `drain` delivers from one page, and the address it stops at. */
  function Drained(mem: Mem, off: nat): (seq<Frame>, nat)
    decreases |mem| - off
  {
    if Readable(mem, off) && HasData(mem, off) then
      var rest := Drained(mem, off + mem[off + LENGTH]);
      ([FrameAt(mem, off)] + rest.0, rest.1)
    else
      ([], off)
  }

  lemma DrainedHit(mem: Mem, off: nat, f: Frame)
    requires Holds(mem, off, f) && f.msgType > 0
    ensures var rest := Drained(mem, off + Size(f));
            Drained(mem, off) == ([f] + rest.0, rest.1)
  {
  }

  lemma DrainedStop(mem: Mem, off: nat)
    requires off + FRAME_HEADER <= |mem| && !HasData(mem, off)
    ensures Drained(mem, off) == ([], off)
  {
  }

  lemma {:induction false} DrainedChain(mem: Mem, fs: seq<Frame>, k: nat)
    requires Chain(mem, fs) && k <= |fs|
    requires forall i | 0 <= i < |fs| :: fs[i].msgType > 0
    requires End(fs) + FRAME_HEADER <= |mem| && !HasData(mem, End(fs))
    ensures Drained(mem, Pos(fs, k)) == (fs[k..], End(fs))
    decreases |fs| - k
  {
    hide Holds, Chain, Pos, Drained;
    DrainedStop(mem, End(fs));
    assert fs[|fs|..] == [];
    if k < |fs| {
      ChainAt(mem, fs, k);
      DrainedHit(mem, Pos(fs, k), fs[k]);
      DrainedChain(mem, fs, k + 1);
      assert fs[k..] == [fs[k]] + fs[k + 1..];
    }
  }

  lemma {:induction false} OnePageIff(c: Config, s: State, fs: seq<Frame>, jobs: seq<Job>)
    requires Inv(c, s, [Open(fs)]) && AllFit(c, jobs)
    ensures |Run(c, s, [Open(fs)], jobs).1| == 1 <==> End(fs + FramesOf(jobs)) < Border(c)
    decreases |jobs|
  {
    hide Write, Inv, Pos, Border, Run, Log;
    InvReady(c, s, [Open(fs)]);
    InvEnd(c, s, [Open(fs)]);
    RunStep(c, s, [Open(fs)], jobs);
    if jobs == [] {
      assert fs + [] == fs;
    } else {
      var f := jobs[0].frame;
      EndAppend(fs, f);
      var gs := fs + [f];
      assert fs + FramesOf(jobs) == gs + FramesOf(jobs[1..]);
      WriteKeeps(c, s, [Open(fs)], f, jobs[0].now);
      LogWritten(c, s, [Open(fs)], f, jobs[0].now);
      if MustRoll(c, s, |f.data|) {
        EndGrows(gs, FramesOf(jobs[1..]));
        RunLast(c, Write(c, s, f, jobs[0].now), Written(c, s, [Open(fs)], f, jobs[0].now), jobs[1..]);
      } else {
        assert Written(c, s, [Open(fs)], f, jobs[0].now) == [Open(gs)];
        OnePageIff(c, Write(c, s, f, jobs[0].now), gs, jobs[1..]);
      }
    }
  }

  /** Of frames written one after the other from `end` on, those in front of the first that does not fit. */
  function FirstPage(c: Config, end: nat, fs: seq<Frame>): seq<Frame>
    decreases |fs|
  {
    if fs == [] || end + Size(fs[0]) >= Border(c) then [] else [fs[0]] + FirstPage(c, end + Size(fs[0]), fs[1..])
  }

  /** What the first page receives in a run of writes. */
  lemma {:induction false} FirstPageReceives(c: Config, s: State, fs: seq<Frame>, jobs: seq<Job>)
    requires Inv(c, s, [Open(fs)]) && AllFit(c, jobs)
    ensures Run(c, s, [Open(fs)], jobs).1[0].frames == fs + FirstPage(c, End(fs), FramesOf(jobs))
    decreases |jobs|
  {
    hide Write, Inv, Pos, Border, Run, Log;
    InvReady(c, s, [Open(fs)]);
    InvEnd(c, s, [Open(fs)]);
    RunStep(c, s, [Open(fs)], jobs);
    if jobs == [] {
      assert fs + [] == fs;
    } else {
      var f, now := jobs[0].frame, jobs[0].now;
      EndAppend(fs, f);
      WriteKeeps(c, s, [Open(fs)], f, now);
      var hist := Written(c, s, [Open(fs)], f, now);
      assert FramesOf(jobs)[1..] == FramesOf(jobs[1..]);
      if MustRoll(c, s, |f.data|) {
        FirstPageKept(c, Write(c, s, f, now), hist, jobs[1..]);
        assert fs + [] == fs;
      } else {
        assert hist == [Open(fs + [f])];
        FirstPageReceives(c, Write(c, s, f, now), fs + [f], jobs[1..]);
        assert fs + [f] + FirstPage(c, End(fs + [f]), FramesOf(jobs[1..]))
               == fs + FirstPage(c, End(fs), FramesOf(jobs));
      }
    }
  }

  lemma {:induction false} FirstPageKept(c: Config, s: State, hist: seq<PageLog>, jobs: seq<Job>)
    requires Inv(c, s, hist) && AllFit(c, jobs) && |hist| > 1
    ensures |Run(c, s, hist, jobs).1| > 1 && Run(c, s, hist, jobs).1[0] == hist[0]
    decreases |jobs|
  {
    hide Write, Inv, Run, Log, MustRoll;
    InvReady(c, s, hist);
    RunStep(c, s, hist, jobs);
    if jobs != [] {
      WriteKeeps(c, s, hist, jobs[0].frame, jobs[0].now);
      var f, now := jobs[0].frame, jobs[0].now;
      FirstPageKept(c, Write(c, s, f, now), Written(c, s, hist, f, now), jobs[1..]);
    }
  }

  lemma InvEnd(c: Config, s: State, hist: seq<PageLog>)
    requires Inv(c, s, hist)
    ensures |hist| > 0 && s.off == End(hist[|hist| - 1].frames) < Border(c)
  {
    hide PageOf, Holds;
    assert Live(c, |hist|, |hist| - 1);
  }

  lemma EndGrows(fs: seq<Frame>, gs: seq<Frame>)
    ensures End(fs) <= End(fs + gs)
  {
    PosPrefix(fs, gs, |fs|);
    if gs != [] {
      PosMonotone(fs + gs, |fs|, |fs + gs|);
    }
  }

  lemma DrainedFirstPage(c: Config, s: State, hist: seq<PageLog>)
    requires Inv(c, s, hist) && c.rollback == 0
    ensures 1 in s.pages && |s.pages[1]| == c.pageSize
    ensures Drained(s.pages[1], PAGE_HEADER) == (hist[0].frames, End(hist[0].frames))
    ensures var stop := End(hist[0].frames);
            && stop < Border(c)
            && if |hist| == 1 then Blank(s.pages[1], stop)
               else s.pages[1][stop + LENGTH] == FRAME_HEADER && s.pages[1][stop + MSG_TYPE] == PAGE_END
  {
    hide Chain, Drained, Pos;
    assert Live(c, |hist|, 0) && PageHolds(c, s.pages[PageOf(c, 0)], hist[0]);
    DrainedPage(c, s.pages[1], hist[0]);
  }

  /** A reader guarded by `has_data` never leaves the first page: it delivers that page's frames and
      stops in front of a blank header or the header that ends the page.  So it delivers the whole
      log exactly when the whole log fits one page. */
  lemma GuardedDrainStopsAtPageEnd(c: Config, jobs: seq<Job>)
    requires ValidConfig(c) && c.rollback == 0 && AllFit(c, jobs)
    ensures Inv(c, Start(c), [Open([])])
    ensures var (s, hist) := Run(c, Start(c), [Open([])], jobs);
            && 1 in s.pages
            && var (got, stop) := Drained(s.pages[1], PAGE_HEADER);
            && got == FirstPage(c, PAGE_HEADER, FramesOf(jobs)) <= FramesOf(jobs)
            && stop == End(got) < Border(c) <= |s.pages[1]| - FRAME_HEADER
            && (if got == FramesOf(jobs) then Blank(s.pages[1], stop)
                else s.pages[1][stop + LENGTH] == FRAME_HEADER && s.pages[1][stop + MSG_TYPE] == PAGE_END)
            && (got == FramesOf(jobs) <==> End(FramesOf(jobs)) < Border(c))
  {
    hide Pos, Inv, Drained, Blank, Log, FramesOf, Run, FirstPage;
    StartInv(c);
    var (s, hist) := Run(c, Start(c), [Open([])], jobs);
    DrainedFirstPage(c, s, hist);
    RunLast(c, Start(c), [Open([])], jobs);
    LogFirst(hist);
    LogFirst([Open([])]);
    assert [] + FramesOf(jobs) == FramesOf(jobs);
    OnePageIff(c, Start(c), [], jobs);
    FirstPageReceives(c, Start(c), [], jobs);
    PosZero([]);
    assert [] + FirstPage(c, PAGE_HEADER, FramesOf(jobs)) == FirstPage(c, PAGE_HEADER, FramesOf(jobs));
    if |hist| > 1 {
      LogLast(hist[1..]);
    }
  }
}
