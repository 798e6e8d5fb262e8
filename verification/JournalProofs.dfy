/** Every operation of the writer keeps the pages in step with the log. */
module JournalProofs {
  import opened Frames
  import opened Journals

  // ---------- One page ----------

  lemma PutFrame(c: Config, mem: Mem, mem': Mem, fs: seq<Frame>, f: Frame)
    requires ValidConfig(c) && PageHolds(c, mem, Open(fs)) && Fits(c, f)
    requires End(fs) + Size(f) < Border(c)
    requires WroteFrame(mem, mem', End(fs), f)
    ensures HeaderOk(c, mem') && PageHolds(c, mem', Open(fs + [f]))
  {
    hide Holds, Blank, Chain, Pos;
    EndAppend(fs, f);
    ChainFrame(mem, mem', fs);
    ChainAppend(mem', fs, f);
    PosPrefix(fs, [f], |fs|);
  }

  lemma ChainAppend(mem: Mem, fs: seq<Frame>, f: Frame)
    requires Chain(mem, fs) && Holds(mem, End(fs), f)
    ensures Chain(mem, fs + [f])
  {
    hide Holds;
    var gs := fs + [f];
    forall k | 0 <= k < |gs| ensures Holds(mem, Pos(gs, k), gs[k]) {
      PosPrefix(fs, [f], k);
      if k < |fs| {
        assert Holds(mem, Pos(fs, k), fs[k]);
      }
    }
  }

  lemma PutEnd(c: Config, mem: Mem, mem': Mem, fs: seq<Frame>, e: Frame)
    requires ValidConfig(c) && PageHolds(c, mem, Open(fs))
    requires e.msgType == PAGE_END && e.data == []
    requires WroteEnd(mem, mem', End(fs), e)
    ensures HeaderOk(c, mem') && PageHolds(c, mem', Closed(fs, e))
  {
    hide Holds, Blank;
    ChainFrame(mem, mem', fs);
  }

  lemma AfterLastIsEnd(c: Config, mem: Mem, fs: seq<Frame>)
    requires ValidConfig(c) && PageHolds(c, mem, Open(fs))
    ensures AfterLast(mem) == End(fs)
  {
    hide Holds, Fits, Chain;
    if fs != [] {
      var k := |fs| - 1;
      PosMonotone(fs, k, |fs|);
      ChainAt(mem, fs, k);
      HoldsFrame(mem, mem, Pos(fs, k), fs[k]);
    }
  }

  lemma FreshHolds(c: Config, mem: Mem)
    requires ValidConfig(c) && IsFresh(mem) && |mem| == c.pageSize
    ensures HeaderOk(c, mem) && PageHolds(c, mem, Open([]))
  {
  }

  lemma WipedIsFresh(c: Config, mem: Mem)
    requires ValidConfig(c) && HeaderOk(c, mem)
    ensures IsFresh(Wiped(mem))
  {
  }

  // ---------- Page numbers ----------

  lemma MulBound(d: int, r: int)
    requires r > 0
    ensures d >= 1 ==> d * r >= r
    ensures d <= -1 ==> d * r <= 0 - r
    ensures d == 0 ==> d * r == 0
  {
  }

  lemma ModUnique(n: nat, r: nat, q: int, m: nat)
    requires r > 0 && n == q * r + m && m < r
    ensures n % r == m
  {
    var d := n / r - q;
    assert d * r == m - n % r;
    MulBound(d, r);
  }

  lemma ModStep(j: nat, r: nat)
    requires r > 1
    ensures (j + 1) % r == if j % r + 1 < r then j % r + 1 else 0
    ensures j < r ==> j % r == j
  {
    var q := j / r;
    assert j == q * r + j % r && (q + 1) * r == q * r + r;
    if j < r {
      ModUnique(j, r, 0, j);
    }
    if j % r + 1 < r {
      ModUnique(j + 1, r, q, j % r + 1);
    } else {
      ModUnique(j + 1, r, q + 1, 0);
    }
  }

  lemma PageOfNext(c: Config, j: nat)
    requires c.rollback != 1
    ensures PageOf(c, j + 1) == if c.rollback == 0 || PageOf(c, j) < c.rollback then PageOf(c, j) + 1 else 1
    ensures c.rollback == 0 || j < c.rollback ==> PageOf(c, j) == j + 1
    ensures 1 <= PageOf(c, j) && (c.rollback > 0 ==> PageOf(c, j) <= c.rollback)
  {
    if c.rollback > 0 {
      ModStep(j, c.rollback);
    }
  }

  /** Visits that are live together never share a page. */
  lemma PageOfDistinct(c: Config, i: nat, j: nat)
    requires i < j && (c.rollback == 0 || j < i + c.rollback)
    ensures PageOf(c, i) != PageOf(c, j)
  {
    if c.rollback > 0 {
      var r := c.rollback;
      var d := j / r - i / r;
      assert j - i == d * r + (j % r - i % r);
      MulBound(d, r);
    }
  }

  // ---------- One operation ----------

  lemma InvReady(c: Config, s: State, hist: seq<PageLog>)
    requires Inv(c, s, hist)
    ensures Ready(c, s)
    ensures |hist| > 0 && AfterLast(s.pages[s.page]) == s.off
  {
    hide Chain, Blank;
    assert Live(c, |hist|, |hist| - 1);
    AfterLastIsEnd(c, s.pages[s.page], hist[|hist| - 1].frames);
  }

  function Rolled(hist: seq<PageLog>, e: Frame): seq<PageLog>
    requires |hist| > 0
  {
    hist[|hist| - 1 := Closed(hist[|hist| - 1].frames, e)] + [Open([])]
  }

  function Appended(hist: seq<PageLog>, f: Frame): seq<PageLog>
    requires |hist| > 0
  {
    hist[|hist| - 1 := Open(hist[|hist| - 1].frames + [f])]
  }

  /** The page entered next is not the one being left, and it is empty. */
  lemma LoadNextIsBlank(c: Config, s: State, hist: seq<PageLog>)
    requires Inv(c, s, hist)
    ensures Ready(c, s)
    ensures var s' := LoadNextPage(c, s);
            && s'.page == PageOf(c, |hist|) != s.page
            && s'.page in s'.pages
            && IsFresh(s'.pages[s'.page]) && |s'.pages[s'.page]| == c.pageSize
            && s'.pages == s.pages[s'.page := s'.pages[s'.page]]
            && s'.off == PAGE_HEADER && s'.frameNb == 0
            && s'.inRollback == if c.rollback > 0 && |hist| >= c.rollback then s'.page else 0
  {
    hide PageHolds, PageOf;
    var v := |hist|;
    InvReady(c, s, hist);
    PageOfNext(c, v - 1);
    PageOfNext(c, v);
    PageOfDistinct(c, v - 1, v);
    if PageOf(c, v) in s.pages {
      WipedIsFresh(c, s.pages[PageOf(c, v)]);
    }
  }

  /** Closing a page keeps everything that is still live and starts an empty page; behind the frames of the page left
      stands a frame of type `PAGE_END` that was stamped at the closing, with the trigger time of its cause. */
  lemma ClosePageKeeps(c: Config, s: State, hist: seq<PageLog>, trigger: int, now: int)
    requires Inv(c, s, hist)
    ensures Ready(c, s)
    ensures Inv(c, ClosePage(c, s, trigger, now), Rolled(hist, EndFrame(c, trigger, now)))
    ensures var s' := ClosePage(c, s, trigger, now);
            && s.page in s'.pages
            && Holds(s'.pages[s.page], End(hist[|hist| - 1].frames), Frame(PAGE_END, now, trigger, c.uid, c.dest, []))
  {
    hide PageOf, LoadNextPage, EndMem, PageHolds, HeaderOk, Holds;
    var v := |hist|;
    var e := EndFrame(c, trigger, now);
    LoadNextIsBlank(c, s, hist);
    InvReady(c, s, hist);
    PageOfNext(c, v);
    var s' := ClosePage(c, s, trigger, now);
    PutEnd(c, s.pages[s.page], s'.pages[s.page], hist[v - 1].frames, e);
    FreshHolds(c, s'.pages[s'.page]);
    var hist' := Rolled(hist, e);
    forall j | 0 <= j <= v && Live(c, v + 1, j)
      ensures PageOf(c, j) in s'.pages && PageHolds(c, s'.pages[PageOf(c, j)], hist'[j])
    {
      if j < v - 1 {
        PageOfDistinct(c, j, v);
        PageOfDistinct(c, j, v - 1);
        assert Live(c, v, j);
      }
    }
  }

  lemma AppendKeeps(c: Config, s: State, hist: seq<PageLog>, f: Frame, now: int)
    requires Inv(c, s, hist) && Fits(c, f) && !MustRoll(c, s, |f.data|)
    ensures Ready(c, s)
    ensures Inv(c, Write(c, s, f, now), Appended(hist, f))
  {
    hide PageOf, FrameMem, PageHolds, HeaderOk, Pos;
    var v := |hist|;
    var fs := hist[v - 1].frames;
    InvReady(c, s, hist);
    EndAppend(fs, f);
    assert Live(c, v, v - 1);
    var s' := Write(c, s, f, now);
    PutFrame(c, s.pages[s.page], s'.pages[s.page], fs, f);
    var hist' := Appended(hist, f);
    forall j | 0 <= j < v && Live(c, v, j)
      ensures PageOf(c, j) in s'.pages && PageHolds(c, s'.pages[PageOf(c, j)], hist'[j])
    {
      if j < v - 1 {
        PageOfDistinct(c, j, v - 1);
      }
    }
  }

  /** The log after one write. */
  function Written(c: Config, s: State, hist: seq<PageLog>, f: Frame, now: int): seq<PageLog>
    requires |hist| > 0
  {
    Appended(if MustRoll(c, s, |f.data|) then Rolled(hist, EndFrame(c, f.triggerTime, now)) else hist, f)
  }

  lemma WriteKeeps(c: Config, s: State, hist: seq<PageLog>, f: Frame, now: int)
    requires Inv(c, s, hist) && Fits(c, f)
    ensures Ready(c, s)
    ensures Inv(c, Write(c, s, f, now), Written(c, s, hist, f, now))
  {
    hide Inv, FrameMem, ClosePage;
    InvReady(c, s, hist);
    if MustRoll(c, s, |f.data|) {
      var s' := ClosePage(c, s, f.triggerTime, now);
      var hist' := Rolled(hist, EndFrame(c, f.triggerTime, now));
      ClosePageKeeps(c, s, hist, f.triggerTime, now);
      InvReady(c, s', hist');
      AppendKeeps(c, s', hist', f, now);
      assert Reserve(c, s, f.triggerTime, |f.data|, now) == s' == Reserve(c, s', f.triggerTime, |f.data|, now);
    } else {
      AppendKeeps(c, s, hist, f, now);
    }
  }

  /** Opening, copying, redirecting and closing amount to one write. */
  lemma WriteInSteps(c: Config, s: State, f: Frame, now: int)
    requires Ready(c, s) && Fits(c, f)
    ensures var s1 := OpenFrame(c, s, f.triggerTime, f.msgType, |f.data|, now);
            && s1.page in s1.pages && s1.off + Size(f) <= |s1.pages[s1.page]| == c.pageSize
            && var s3 := Redirect(CopyData(s1, f.data), f.source, f.dest);
            && CanClose(c, s3, |f.data|)
            && CloseFrame(c, s3, |f.data|, f.genTime) == Write(c, s, f, now)
  {
    hide ClosePage, FrameMem, ClosedMem, OpenedMem, Blit, WroteFrame;
    var r := Reserve(c, s, f.triggerTime, |f.data|, now);
    RedirectMem(r.pages[r.page], r.off, f, c.uid, c.dest);
    var s1 := OpenFrame(c, s, f.triggerTime, f.msgType, |f.data|, now);
    var s3 := Redirect(CopyData(s1, f.data), f.source, f.dest);
    assert CloseFrame(c, s3, |f.data|, f.genTime).pages == Write(c, s, f, now).pages;
  }

  lemma RedirectMem(mem: Mem, off: nat, f: Frame, source: int, dest: int)
    requires PAGE_HEADER <= off && off + Size(f) + FRAME_HEADER <= |mem|
    ensures var filled := Blit(OpenedMem(mem, off, f.triggerTime, f.msgType, source, dest), off + FRAME_HEADER, f.data);
            var redirected := filled[off + SOURCE := f.source][off + DEST := f.dest];
            && redirected[off + HEADER_LENGTH] == FRAME_HEADER && redirected[off + MSG_TYPE] == f.msgType
            && ClosedMem(redirected, off, |f.data|, f.genTime) == FrameMem(mem, off, f)
  {
    hide ClosedMem, WroteFrame;
    var filled := Blit(OpenedMem(mem, off, f.triggerTime, f.msgType, source, dest), off + FRAME_HEADER, f.data);
    var direct := Blit(OpenedMem(mem, off, f.triggerTime, f.msgType, f.source, f.dest), off + FRAME_HEADER, f.data);
    assert filled[off + SOURCE := f.source][off + DEST := f.dest] == direct;
  }

  /** Opening fills in the writer's own source and destination, and copying the payload leaves them. */
  lemma OpenedAs(c: Config, s: State, f: Frame, now: int)
    requires Ready(c, s) && Fits(c, f) && f.source == c.uid && f.dest == c.dest
    ensures var s1 := OpenFrame(c, s, f.triggerTime, f.msgType, |f.data|, now);
            && s1.page in s1.pages && s1.off + Size(f) <= |s1.pages[s1.page]|
            && Redirect(CopyData(s1, f.data), f.source, f.dest) == CopyData(s1, f.data)
  {
    hide ClosePage, LoadNextPage;
    var s1 := OpenFrame(c, s, f.triggerTime, f.msgType, |f.data|, now);
    var mem := CopyData(s1, f.data).pages[s1.page];
    assert mem[s1.off + SOURCE] == f.source && mem[s1.off + DEST] == f.dest;
    assert mem[s1.off + SOURCE := f.source][s1.off + DEST := f.dest] == mem;
  }

  /** Opening, copying and closing amount to one write of a frame from the writer's own location to its own
      destination. */
  lemma PlainInSteps(c: Config, s: State, f: Frame, now: int)
    requires Ready(c, s) && Fits(c, f) && f.source == c.uid && f.dest == c.dest
    ensures var s1 := OpenFrame(c, s, f.triggerTime, f.msgType, |f.data|, now);
            && s1.page in s1.pages && s1.off + Size(f) <= |s1.pages[s1.page]| == c.pageSize
            && CanClose(c, CopyData(s1, f.data), |f.data|)
            && CloseFrame(c, CopyData(s1, f.data), |f.data|, f.genTime) == Write(c, s, f, now)
  {
    hide OpenFrame, CopyData, Redirect, CanClose, CloseFrame, Write, Ready, Fits;
    OpenedAs(c, s, f, now);
    WriteInSteps(c, s, f, now);
  }

  lemma StartInv(c: Config)
    requires ValidConfig(c) && c.rollback != 1
    ensures Inv(c, Start(c), [Open([])])
  {
    FreshHolds(c, FreshPage(c.pageSize));
    PageOfNext(c, 0);
  }
}
