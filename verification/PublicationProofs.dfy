/** Whatever the interleaving, a reader only ever sees whole frames, in order. */
module PublicationProofs {
  import opened Frames
  import opened Journals
  import opened JournalProofs
  import opened JournalLog
  import opened PublicationStores
  import opened Publication

  // ---------- One page ----------

  lemma RecordedIsVisible(c: Config, mem: Mem, at: int, log: PageLog)
    requires ValidConfig(c) && |mem| == c.pageSize && PageHolds(c, mem[LAST_FRAME_POSITION := at], log)
    ensures Visible(c, mem, log)
  {
    hide Fits, Pos, Holds;
    var mem' := mem[LAST_FRAME_POSITION := at];
    ChainFrame(mem', mem, log.frames);
    if log.Closed? {
      HoldsFrame(mem', mem, End(log.frames), log.end);
    } else {
      assert mem'[End(log.frames) + LENGTH] == 0;
    }
  }

  lemma QuietIsVisible(c: Config, mem: Mem, log: PageLog)
    requires ValidConfig(c) && PageHolds(c, mem, log)
    ensures Visible(c, mem, log)
  {
    assert mem[LAST_FRAME_POSITION := mem[LAST_FRAME_POSITION]] == mem;
    RecordedIsVisible(c, mem, mem[LAST_FRAME_POSITION], log);
  }

  /** A store in front of the publication changes nothing a reader relies on. */
  lemma StoreStaysHidden(c: Config, mem: Mem, log: PageLog, at: nat, f: Frame, todo: seq<Store>)
    requires Visible(c, mem, log) && OnCourse(c, mem, log, at, f, todo) && todo != []
    ensures todo[0].addr < |mem|
    ensures var mem' := mem[todo[0].addr := todo[0].val];
            Visible(c, mem', log) && OnCourse(c, mem', log, at, f, todo[1..])
  {
    hide PageHolds, Fits, Pos, Holds;
    ChainFrame(mem, mem[todo[0].addr := todo[0].val], log.frames);
  }

  /** Storing the length publishes the whole frame. */
  lemma LengthPublishes(c: Config, mem: Mem, log: PageLog, at: nat, f: Frame)
    requires ValidConfig(c) && OnCourse(c, mem, log, at, f, [])
    ensures Visible(c, mem[at + LENGTH := Size(f)], Publish(log, f))
  {
    hide PageHolds, Visible;
    RecordedIsVisible(c, mem[at + LENGTH := Size(f)], at, Publish(log, f));
  }

  lemma FrameOnCourse(c: Config, mem: Mem, fs: seq<Frame>, f: Frame)
    requires ValidConfig(c) && PageHolds(c, mem, Open(fs)) && Fits(c, f) && End(fs) + Size(f) < Border(c)
    ensures OnCourse(c, mem, Open(fs), End(fs), f, FrameStores(End(fs), f))
  {
    hide FrameStores, FrameMem, Apply, Within, Pos, Chain;
    FrameStoresBehind(End(fs), f, |mem|);
    FrameStoresWrite(mem, End(fs), f);
    PutFrame(c, mem, FrameMem(mem, End(fs), f), fs, f);
  }

  lemma EndOnCourse(c: Config, mem: Mem, fs: seq<Frame>, e: Frame)
    requires ValidConfig(c) && PageHolds(c, mem, Open(fs)) && e.msgType == PAGE_END && e.data == []
    ensures OnCourse(c, mem, Open(fs), End(fs), e, EndStores(End(fs), e))
  {
    hide EndStores, EndMem, Apply, Within, Pos, Chain;
    EndStoresBehind(End(fs), e, |mem|);
    EndStoresWrite(mem, End(fs), e);
    PutEnd(c, mem, EndMem(mem, End(fs), e), fs, e);
  }

  // ---------- The log a reader has seen stays what it was ----------

  ghost predicate Grows(h: seq<PageLog>, h': seq<PageLog>) {
    && |h| <= |h'|
    && forall p | 0 <= p < |h| :: h[p].frames <= h'[p].frames && (h[p].Closed? ==> h'[p] == h[p])
  }

  lemma ReaderStays(h: seq<PageLog>, h': seq<PageLog>, r: Reader)
    requires ReaderOk(h, r) && Grows(h, h')
    ensures ReaderOk(h', r)
  {
    hide Pos, Log;
    var fs, fs' := h[r.page].frames, h'[r.page].frames;
    assert h[..r.page] == h'[..r.page];
    assert fs' == fs + fs'[|fs|..];
    PosPrefix(fs, fs'[|fs|..], r.frameNb);
    assert fs[..Given(h, r)] == fs'[..Given(h', r)];
  }

  // ---------- A step of a reader ----------

  lemma SeesFrame(c: Config, mem: Mem, log: PageLog, k: nat)
    requires Visible(c, mem, log) && k <= |log.frames|
    ensures var off := Pos(log.frames, k);
            && off + FRAME_HEADER <= |mem|
            && (k == |log.frames| && log.Open? ==> mem[off + LENGTH] == 0)
            && (k == |log.frames| && log.Closed? ==> mem[off + MSG_TYPE] == PAGE_END)
            && (k < |log.frames| ==> Holds(mem, off, log.frames[k]) && mem[off + MSG_TYPE] > 0
                                     && mem[off + LENGTH] == Size(log.frames[k])
                                     && Pos(log.frames, k + 1) == off + Size(log.frames[k]))
  {
    hide Pos;
    var fs := log.frames;
    if k < |fs| {
      ChainAt(mem, fs, k);
      HoldsFrame(mem, mem, Pos(fs, k), fs[k]);
    }
  }

  lemma ReadKeeps(c: Config, s: System, r: Reader)
    requires Safe(c, s) && ReaderOk(s.hist, r)
    ensures ReaderOk(s.hist, ReadStep(s.pages, r))
  {
    hide PcOk, Pos, Log, Holds, PageHolds, Visible;
    var mem, log := s.pages[r.page], s.hist[r.page];
    SeesFrame(c, mem, log, r.frameNb);
    PosZero(log.frames);
    match r.pc {
      case LoadData =>
        HoldsReads(mem, r.off, log.frames[r.frameNb]);
        GotOne(s.hist, r);
      case NextType =>
        if mem[r.off + MSG_TYPE] == PAGE_END && r.page + 1 < |s.pages| {
          GotPage(s.hist, r);
          PosZero(s.hist[r.page + 1].frames);
        }
      case _ =>
    }
  }

  lemma HoldsReads(mem: Mem, off: nat, f: Frame)
    requires Holds(mem, off, f)
    ensures Readable(mem, off) && FrameAt(mem, off) == f
  {
  }

  lemma GotOne(h: seq<PageLog>, r: Reader)
    requires ReaderOk(h, r) && r.pc == LoadData
    ensures r.got + [h[r.page].frames[r.frameNb]] == Log(h[..r.page]) + h[r.page].frames[..r.frameNb + 1]
  {
    hide Pos, Log;
  }

  lemma GotPage(h: seq<PageLog>, r: Reader)
    requires ReaderOk(h, r) && r.frameNb == |h[r.page].frames| && r.page + 1 < |h|
    ensures r.got == Log(h[..r.page + 1])
  {
    hide Pos, Log;
    LogLast(h[..r.page + 1]);
    assert h[..r.page + 1][..r.page] == h[..r.page];
  }

  // ---------- A step of the writer ----------

  lemma ReadersStay(h: seq<PageLog>, h': seq<PageLog>, rs: seq<Reader>)
    requires Grows(h, h') && forall i | 0 <= i < |rs| :: ReaderOk(h, rs[i])
    ensures forall i | 0 <= i < |rs| :: ReaderOk(h', rs[i])
  {
    hide ReaderOk, Grows;
    forall i | 0 <= i < |rs| ensures ReaderOk(h', rs[i]) {
      ReaderStays(h, h', rs[i]);
    }
  }

  lemma BeginKeeps(c: Config, s: System, f: Frame, now: int)
    requires Safe(c, s)
    ensures Safe(c, BeginStep(c, s, f, now)) && Grows(s.hist, BeginStep(c, s, f, now).hist)
  {
    hide Visible, PageHolds, ReaderOk, OnCourse, Pos, FrameStores, EndStores, AfterLast;
    var last := |s.pages| - 1;
    if s.pc == Idle && Fits(c, f) {
      var fs := s.hist[last].frames;
      AfterLastIsEnd(c, s.pages[last], fs);
      if s.off + Size(f) >= Border(c) {
        var s' := BeginStep(c, s, f, now);
        EndOnCourse(c, s.pages[last], fs, EndFrame(c, f.triggerTime, now));
        FreshHolds(c, FreshPage(c.pageSize));
        QuietIsVisible(c, FreshPage(c.pageSize), Open([]));
        ReadersStay(s.hist, s'.hist, s.readers);
        LogLast(s'.hist);
      } else {
        FrameOnCourse(c, s.pages[last], fs, f);
      }
    }
  }

  lemma StoreKeeps(c: Config, s: System)
    requires Safe(c, s) && s.pc.Storing? && s.pc.todo != []
    ensures Safe(c, WriteStep(s)) && WriteStep(s).hist == s.hist
  {
    hide Visible, PageHolds, ReaderOk, OnCourse;
    var t := Target(s);
    StoreStaysHidden(c, s.pages[t], s.hist[t], s.pc.at, s.pc.f, s.pc.todo);
  }

  lemma PublishKeeps(c: Config, s: System)
    requires Safe(c, s) && s.pc.Storing? && s.pc.todo == []
    ensures Safe(c, WriteStep(s)) && Grows(s.hist, WriteStep(s).hist)
  {
    hide Visible, PageHolds, ReaderOk, Pos, Log;
    var t, s' := Target(s), WriteStep(s);
    LengthPublishes(c, s.pages[t], s.hist[t], s.pc.at, s.pc.f);
    ReadersStay(s.hist, s'.hist, s.readers);
    EndAppend(s.hist[t].frames, s.pc.f);
    if Closing(s.pc) {
      SameLog(s.hist, s'.hist);
    } else {
      LogLast(s.hist);
      LogLast(s'.hist);
      assert s'.hist[..t] == s.hist[..t];
    }
  }

  lemma {:induction false} SameLog(h: seq<PageLog>, h': seq<PageLog>)
    requires |h| == |h'| && forall p | 0 <= p < |h| :: h[p].frames == h'[p].frames
    ensures Log(h) == Log(h')
  {
    if h != [] {
      SameLog(h[1..], h'[1..]);
    }
  }

  lemma MarkKeeps(c: Config, s: System)
    requires Safe(c, s) && s.pc.Marking?
    ensures Safe(c, WriteStep(s)) && WriteStep(s).hist == s.hist
  {
    hide Visible, PageHolds, ReaderOk, Pos, OnCourse, FrameStores;
    var t := Target(s);
    QuietIsVisible(c, s.pages[t][LAST_FRAME_POSITION := s.pc.at], s.hist[t]);
    if Closing(s.pc) {
      PosZero([]);
      FrameOnCourse(c, s.pages[t + 1], [], s.pc.waiting[0]);
    }
  }

  lemma StepKeeps(c: Config, s: System, a: Action)
    requires Safe(c, s)
    ensures Safe(c, Step(c, s, a)) && Grows(s.hist, Step(c, s, a).hist)
  {
    hide Visible, PageHolds, OnCourse, ReaderOk, Log;
    match a {
      case Begin(f, now) => BeginKeeps(c, s, f, now);
      case WriterStep =>
        match s.pc {
          case Idle =>
          case Storing(_, _, todo, _) =>
            if todo == [] {
              PublishKeeps(c, s);
            } else {
              StoreKeeps(c, s);
            }
          case Marking(_, _, _) => MarkKeeps(c, s);
        }
      case ReaderStep(r) =>
        if r < |s.readers| {
          ReadKeeps(c, s, s.readers[r]);
        }
    }
  }

  lemma {:induction false} ExecKeeps(c: Config, s: System, acts: seq<Action>)
    requires Safe(c, s)
    ensures Safe(c, Exec(c, s, acts)) && Grows(s.hist, Exec(c, s, acts).hist)
    decreases |acts|
  {
    hide Safe, Step;
    if acts != [] {
      StepKeeps(c, s, acts[0]);
      ExecKeeps(c, Step(c, s, acts[0]), acts[1..]);
      GrowsOn(s.hist, Step(c, s, acts[0]).hist, Exec(c, s, acts).hist);
    }
  }

  lemma GrowsOn(h: seq<PageLog>, h': seq<PageLog>, h'': seq<PageLog>)
    requires Grows(h, h') && Grows(h', h'')
    ensures Grows(h, h'')
  {
  }

  lemma InitialSafe(c: Config, guarded: seq<bool>)
    requires ValidConfig(c)
    ensures Safe(c, Initial(c, guarded))
  {
    hide Visible, PageHolds;
    FreshHolds(c, FreshPage(c.pageSize));
    QuietIsVisible(c, FreshPage(c.pageSize), Open([]));
  }

  // ---------- The theorems ----------

  /** Every boundary of a page that `has_data` accepts carries a complete frame that the writer was
      asked to write, and its successor is either without a length or complete as well. */
  ghost predicate BoundarySafe(s: System, p: nat, k: nat)
    requires p < |s.pages| && p < |s.hist| && k <= |s.hist[p].frames|
  {
    var (mem, fs) := (s.pages[p], s.hist[p].frames);
    && Pos(fs, k) + FRAME_HEADER <= |mem|
    && (HasData(mem, Pos(fs, k)) <==> k < |fs|)
    && (k < |fs| ==>
          && Holds(mem, Pos(fs, k), fs[k])
          && var next := Pos(fs, k + 1);
             && next == Pos(fs, k) + mem[Pos(fs, k) + LENGTH]
             && next + FRAME_HEADER <= |mem|
             && (mem[next + LENGTH] == 0
                 || (k + 1 < |fs| && Holds(mem, next, fs[k + 1]))
                 || (s.hist[p].Closed? && Holds(mem, next, s.hist[p].end))))
  }

  /** Safe publication: in every state that any interleaving of writes, single stores and single
      loads can reach, every boundary is safe, the log is what was asked for but for at most the
      frame in progress, and every reader stands on a boundary and has been given, in order, the
      frames of the log in front of it. */
  lemma SafePublication(c: Config, guarded: seq<bool>, acts: seq<Action>)
    requires ValidConfig(c)
    ensures var s := Exec(c, Initial(c, guarded), acts);
            && |s.pages| == |s.hist|
            && (forall p, k | 0 <= p < |s.pages| && 0 <= k <= |s.hist[p].frames| :: BoundarySafe(s, p, k))
            && Log(s.hist) <= s.asked && |s.asked| <= |Log(s.hist)| + 1
            && forall i | 0 <= i < |s.readers| :: ReaderSafe(s, s.readers[i])
  {
    hide Exec, Initial, Pos, PageHolds, PcOk, BoundarySafe, ReaderOk, ReaderSafe, Log;
    InitialSafe(c, guarded);
    ExecKeeps(c, Initial(c, guarded), acts);
    var s := Exec(c, Initial(c, guarded), acts);
    OneInProgress(c, s);
    forall p, k | 0 <= p < |s.pages| && 0 <= k <= |s.hist[p].frames| ensures BoundarySafe(s, p, k) {
      BoundaryIsSafe(c, s, p, k);
    }
    forall i | 0 <= i < |s.readers| ensures ReaderSafe(s, s.readers[i]) {
      ReaderIsSafe(s, s.readers[i]);
    }
  }

  /** The reader stands on a boundary, and what it has been given is a prefix of the log. */
  ghost predicate ReaderSafe(s: System, r: Reader) {
    && r.page < |s.hist| && r.frameNb <= |s.hist[r.page].frames|
    && r.off == Pos(s.hist[r.page].frames, r.frameNb)
    && r.got <= Log(s.hist)
    && (r.pc == LoadLength ==> r.got == Log(s.hist[..r.page]) + s.hist[r.page].frames[..r.frameNb])
  }

  lemma OneInProgress(c: Config, s: System)
    requires Safe(c, s)
    ensures Log(s.hist) <= s.asked && |s.asked| <= |Log(s.hist)| + 1
  {
    hide PagesOk, OnCourse, PageHolds, ReaderOk, Log;
  }

  lemma BoundaryIsSafe(c: Config, s: System, p: nat, k: nat)
    requires Safe(c, s) && p < |s.pages| && k <= |s.hist[p].frames|
    ensures BoundarySafe(s, p, k)
  {
    hide Pos, PageHolds, PcOk, ReaderOk, Holds, Log;
    SeesFrame(c, s.pages[p], s.hist[p], k);
    if k < |s.hist[p].frames| {
      SeesFrame(c, s.pages[p], s.hist[p], k + 1);
    }
  }

  lemma ReaderIsSafe(s: System, r: Reader)
    requires ReaderOk(s.hist, r)
    ensures ReaderSafe(s, r)
  {
    hide Pos, Log;
    var p := r.page;
    LogSplit(s.hist, p);
    LogFirst(s.hist[p..]);
  }

  /** A published frame stays where it is and as it is, whatever is done next.  So it makes no
      difference that `LoadData` reads a payload in one step. */
  lemma PublishedForever(c: Config, s: System, acts: seq<Action>, p: nat, k: nat)
    requires Safe(c, s) && p < |s.pages| && k < |s.hist[p].frames|
    ensures var s' := Exec(c, s, acts);
            p < |s'.pages| && Holds(s'.pages[p], Pos(s.hist[p].frames, k), s.hist[p].frames[k])
  {
    hide Exec, Pos, Holds, PageHolds, PcOk, ReaderOk, Log;
    ExecKeeps(c, s, acts);
    var s' := Exec(c, s, acts);
    var fs, fs' := s.hist[p].frames, s'.hist[p].frames;
    SeesFrame(c, s'.pages[p], s'.hist[p], k);
    assert fs' == fs + fs'[|fs|..];
    PosPrefix(fs, fs'[|fs|..], k);
  }
}
