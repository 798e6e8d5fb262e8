/** What `seek_to_time` reads off a page, and what that says about the log. */
module Seek {
  import opened Frames
  import opened Journals

  function BeginTime(mem: Mem): int
    requires PAGE_HEADER + FRAME_HEADER <= |mem|
  {
    mem[PAGE_HEADER + GEN_TIME]
  }

  predicate LastInPage(mem: Mem) {
    LAST_FRAME_POSITION < |mem| && 0 <= mem[LAST_FRAME_POSITION] <= |mem| - FRAME_HEADER
  }

  function EndTime(mem: Mem): int
    requires LastInPage(mem)
  {
    mem[mem[LAST_FRAME_POSITION] + GEN_TIME]
  }

  predicate IsFull(c: Config, mem: Mem)
    requires LastInPage(mem)
  {
    mem[LAST_FRAME_POSITION] + mem[mem[LAST_FRAME_POSITION] + LENGTH] > Border(c)
  }

  /** A page reads as full exactly when it has been closed and no second header would have fitted
      behind the frame that closed it. So every full page is closed, and not the other way round. */
  lemma FullIff(c: Config, mem: Mem, log: PageLog)
    requires PageHolds(c, mem, log)
    ensures LastInPage(mem)
    ensures IsFull(c, mem) <==> log.Closed? && End(log.frames) + FRAME_HEADER > Border(c)
    ensures log.Closed? ==> EndTime(mem) == log.end.genTime
  {
    hide Pos, Fits;
    var fs := log.frames;
    PosZero(fs);
    if log.Open? && fs != [] {
      ChainAt(mem, fs, |fs| - 1);
      HoldsFrame(mem, mem, Pos(fs, |fs| - 1), fs[|fs| - 1]);
      PosMonotone(fs, |fs| - 1, |fs|);
    }
  }

  /** Stamps never decrease along the log, and the frame that closes a page is not older than the page. */
  ghost predicate Stamped(hist: seq<PageLog>) {
    && (forall j, k, l | 0 <= j < |hist| && 0 <= k <= l < |hist[j].frames| ::
          hist[j].frames[k].genTime <= hist[j].frames[l].genTime)
    && (forall j, k | 0 <= j < |hist| && 0 <= k < |hist[j].frames| && hist[j].Closed? ::
          hist[j].frames[k].genTime <= hist[j].end.genTime)
    && (forall i, j, k, l | 0 <= i < j < |hist| && 0 <= k < |hist[i].frames| && 0 <= l < |hist[j].frames| ::
          hist[i].frames[k].genTime <= hist[j].frames[l].genTime)
  }

  /** Everything in front of boundary `k` of visit `j` was stamped at or before `time`. */
  ghost predicate NoneLater(hist: seq<PageLog>, j: nat, k: nat, time: int)
    requires j < |hist| && k <= |hist[j].frames|
  {
    && (forall i, l | 0 <= i < j && 0 <= l < |hist[i].frames| :: hist[i].frames[l].genTime <= time)
    && (forall l | 0 <= l < k :: hist[j].frames[l].genTime <= time)
  }

  /** The frame at the boundary, if there is one on this page, was stamped after `time`, and so was everything behind
      it. */
  ghost predicate FirstLater(hist: seq<PageLog>, j: nat, k: nat, time: int)
    requires j < |hist| && k <= |hist[j].frames|
  {
    k < |hist[j].frames| ==>
      && (forall l | k <= l < |hist[j].frames| :: hist[j].frames[l].genTime > time)
      && (forall i, l | j < i < |hist| && 0 <= l < |hist[i].frames| :: hist[i].frames[l].genTime > time)
  }

  /** What `begin_time` reads off the page of this log: the stamp of its first frame, and 0 while it holds none. */
  function Began(log: PageLog): int {
    if log.frames == [] then 0 else log.frames[0].genTime
  }

  /** A page without a frame is one the writer has just entered. */
  ghost predicate OnlyLastEmpty(hist: seq<PageLog>) {
    forall i | 0 <= i < |hist| - 1 :: hist[i].frames != []
  }

  lemma BeginTimeIs(c: Config, mem: Mem, log: PageLog)
    requires PageHolds(c, mem, log) && (log.Open? || log.frames != [])
    ensures PAGE_HEADER + FRAME_HEADER <= |mem| && BeginTime(mem) == Began(log)
  {
    if log.frames != [] {
      ChainAt(mem, log.frames, 0);
    } else {
      PosZero(log.frames);
      assert mem[PAGE_HEADER + GEN_TIME] == 0;
    }
  }

  /** At a boundary of a page, `has_data` tells whether a frame of the log starts there. */
  lemma BoundaryHasData(c: Config, mem: Mem, log: PageLog, k: nat)
    requires PageHolds(c, mem, log) && k <= |log.frames|
    ensures var off := Pos(log.frames, k);
            && PAGE_HEADER <= off && off + FRAME_HEADER <= |mem|
            && (HasData(mem, off) <==> k < |log.frames|)
            && (k < |log.frames| ==> mem[off + LENGTH] == Size(log.frames[k])
                                     && Pos(log.frames, k + 1) == off + Size(log.frames[k])
                                     && mem[off + GEN_TIME] == log.frames[k].genTime
                                     && mem[off + MSG_TYPE] == log.frames[k].msgType)
  {
    hide Pos;
    var fs := log.frames;
    if k < |fs| {
      ChainAt(mem, fs, k);
      HoldsFrame(mem, mem, Pos(fs, k), fs[k]);
      PosMonotone(fs, k, |fs|);
    }
  }

  /** The page of visit `j` of a journal that never recycles pages. */
  lemma PageAt(c: Config, w: State, hist: seq<PageLog>, j: nat)
    requires Inv(c, w, hist) && c.rollback == 0 && j < |hist|
    ensures ValidConfig(c)
    ensures j + 1 in w.pages && PageHolds(c, w.pages[j + 1], hist[j]) && |w.pages[j + 1]| == c.pageSize
    ensures hist[j].Closed? <==> j + 1 < |hist|
  {
    hide PageHolds;
    assert Live(c, |hist|, j);
  }

  /** The page the search starts from: the last that reads as begun before `time`, else the first; at time 0 the
      first. */
  ghost predicate StartsFrom(hist: seq<PageLog>, start: nat, time: int) {
    && start < |hist|
    && (start == 0 || (time != 0 && Began(hist[start]) < time))
    && (time != 0 ==> forall i | start < i < |hist| :: Began(hist[i]) >= time)
  }

  /** The last page holds no frame yet, and the one in front of it a frame later than `time`: the search, for which
      a page without a frame began at 0, takes the last page and passes over what it should have stopped at. */
  ghost predicate Skips(hist: seq<PageLog>, time: int) {
    var n := |hist|;
    && n > 1 && hist[n - 1].frames == [] && time > 0
    && hist[n - 2].frames != [] && hist[n - 2].frames[|hist[n - 2].frames| - 1].genTime > time
  }

  /** The search starts with nothing later than `time` behind it exactly if it does not skip anything. */
  lemma StartIff(hist: seq<PageLog>, start: nat, time: int)
    requires Stamped(hist) && OnlyLastEmpty(hist) && StartsFrom(hist, start, time)
    ensures NoneLater(hist, start, 0, time) <==> !Skips(hist, time)
    ensures Skips(hist, time) ==> start == |hist| - 1
  {
    var n := |hist|;
    if Skips(hist, time) {
      assert Began(hist[n - 1]) < time;
      var l := |hist[n - 2].frames| - 1;
      assert hist[n - 2].frames[l].genTime > time;
    } else if start > 0 && hist[start].frames == [] {
      var last := |hist[n - 2].frames| - 1;
      forall i, l | 0 <= i < start && 0 <= l < |hist[i].frames|
        ensures hist[i].frames[l].genTime <= time
      {
        assert hist[i].frames[l].genTime <= hist[n - 2].frames[last].genTime;
      }
    }
  }

  lemma EndedBefore(hist: seq<PageLog>, j: nat, time: int)
    requires Stamped(hist) && j + 1 < |hist| && hist[j].Closed?
    requires NoneLater(hist, j, 0, time) && hist[j].end.genTime <= time
    ensures NoneLater(hist, j + 1, 0, time)
  {
  }

  lemma OneMore(hist: seq<PageLog>, j: nat, k: nat, time: int)
    requires j < |hist| && k < |hist[j].frames| && hist[j].frames[k].genTime <= time
    ensures NoneLater(hist, j, k, time) <==> NoneLater(hist, j, k + 1, time)
  {
  }

  lemma LaterFromHere(hist: seq<PageLog>, j: nat, k: nat, time: int)
    requires Stamped(hist) && j < |hist| && k <= |hist[j].frames|
    requires k < |hist[j].frames| ==> hist[j].frames[k].genTime > time
    ensures FirstLater(hist, j, k, time)
  {
  }

  /** Everything at or behind the boundary was stamped at or after `time`. */
  ghost predicate NoneEarlier(hist: seq<PageLog>, j: nat, k: nat, time: int)
    requires j < |hist| && k <= |hist[j].frames|
  {
    && (forall l | k <= l < |hist[j].frames| :: hist[j].frames[l].genTime >= time)
    && (forall i, l | j < i < |hist| && 0 <= l < |hist[i].frames| :: hist[i].frames[l].genTime >= time)
  }

  /** Some frame at or behind the boundary has just this stamp. */
  ghost predicate StillAhead(hist: seq<PageLog>, j: nat, k: nat, time: int)
    requires j < |hist| && k <= |hist[j].frames|
  {
    || (exists l :: k <= l < |hist[j].frames| && hist[j].frames[l].genTime == time)
    || (exists i, l :: j < i < |hist| && 0 <= l < |hist[i].frames| && hist[i].frames[l].genTime == time)
  }

  /** The next page begins with a frame of this stamp. */
  predicate NextBeginsAt(hist: seq<PageLog>, j: nat, time: int) {
    j + 1 < |hist| && hist[j + 1].frames != [] && hist[j + 1].frames[0].genTime == time
  }

  /** At time 0 the search takes the first page without looking, which is right if no stamp is negative. */
  ghost predicate Sane(hist: seq<PageLog>, time: int) {
    time != 0 || forall i, l | 0 <= i < |hist| && 0 <= l < |hist[i].frames| :: hist[i].frames[l].genTime >= 0
  }

  /** The page of visit `i` reads as full and ended in time. */
  predicate Passed(c: Config, pages: map<nat, Mem>, i: nat, time: int) {
    i + 1 in pages && LastInPage(pages[i + 1]) && IsFull(c, pages[i + 1]) && EndTime(pages[i + 1]) <= time
  }

  /** All pages behind page `j` began at or after `time`. */
  ghost predicate LaterBegin(hist: seq<PageLog>, j: nat, time: int) {
    forall i | j < i < |hist| && hist[i].frames != [] :: hist[i].frames[0].genTime >= time
  }

  lemma BeginOn(hist: seq<PageLog>, start: nat, j: nat, time: int)
    requires start <= j < |hist| && Sane(hist, time) && StartsFrom(hist, start, time)
    ensures LaterBegin(hist, j, time)
  {
    forall i | j < i < |hist| && hist[i].frames != []
      ensures hist[i].frames[0].genTime >= time
    {
      assert time != 0 ==> Began(hist[i]) >= time;
    }
  }

  lemma AheadIff(hist: seq<PageLog>, j: nat, k: nat, time: int)
    requires Stamped(hist) && j < |hist| && k <= |hist[j].frames|
    requires FirstLater(hist, j, k, time) && LaterBegin(hist, j, time) && OnlyLastEmpty(hist)
    ensures NoneEarlier(hist, j, k, time)
    ensures StillAhead(hist, j, k, time) <==> k == |hist[j].frames| && NextBeginsAt(hist, j, time)
  {
    forall i, l | j < i < |hist| && 0 <= l < |hist[i].frames|
      ensures hist[i].frames[l].genTime >= time
    {
      assert hist[i].frames[0].genTime <= hist[i].frames[l].genTime;
    }
    if k == |hist[j].frames| && StillAhead(hist, j, k, time) {
      var i, l :| j < i < |hist| && 0 <= l < |hist[i].frames| && hist[i].frames[l].genTime == time;
      FirstAhead(hist, j, i, l, time);
    }
  }

  lemma FirstAhead(hist: seq<PageLog>, j: nat, i: nat, l: nat, time: int)
    requires Stamped(hist) && j < i < |hist| && l < |hist[i].frames| && hist[i].frames[l].genTime == time
    requires LaterBegin(hist, j, time) && OnlyLastEmpty(hist)
    ensures NextBeginsAt(hist, j, time)
  {
    assert hist[j + 1].frames[0].genTime <= hist[i].frames[l].genTime;
  }

  lemma HasDataHere(mem: Mem, off: nat)
    requires off + FRAME_HEADER <= |mem|
    ensures HasData(mem, off) <==> mem[off + LENGTH] > 0 && mem[off + MSG_TYPE] > 0
  {
  }

  // ---------- A writer that goes on with a journal ----------

  /** Nothing in the log is stamped after `now`, and no page was ended after it. */
  ghost predicate AllBy(hist: seq<PageLog>, now: int) {
    && (forall i, l | 0 <= i < |hist| && 0 <= l < |hist[i].frames| :: hist[i].frames[l].genTime <= now)
    && (forall i | 0 <= i < |hist| && hist[i].Closed? :: hist[i].end.genTime <= now)
  }

  /** The pages from `start` up to the last but one read as full. */
  ghost predicate FullFrom(c: Config, hist: seq<PageLog>, start: nat) {
    forall i | start <= i < |hist| - 1 :: End(hist[i].frames) + FRAME_HEADER > Border(c)
  }

  /** The page a search for `time` starts from. */
  function StartPage(hist: seq<PageLog>, time: int): nat {
    StartAmong(hist, time, |hist|)
  }

  function StartAmong(hist: seq<PageLog>, time: int, n: nat): nat
    requires n <= |hist|
  {
    if n <= 1 || time == 0 then 0
    else if Began(hist[n - 1]) < time then n - 1
    else StartAmong(hist, time, n - 1)
  }

  lemma StartIs(hist: seq<PageLog>, start: nat, time: int)
    requires StartsFrom(hist, start, time)
    ensures start == StartPage(hist, time)
  {
    StartIsAmong(hist, start, time, |hist|);
  }

  lemma {:induction false} StartIsAmong(hist: seq<PageLog>, start: nat, time: int, n: nat)
    requires StartsFrom(hist, start, time) && start < n <= |hist|
    ensures start == StartAmong(hist, time, n)
  {
    if n > 1 && time != 0 && start < n - 1 {
      assert Began(hist[n - 1]) >= time;
      StartIsAmong(hist, start, time, n - 1);
    }
  }

  /** A writer goes on where the one before it stopped if there is but one page or the last one reads as begun
      before now; and only then if no closed page reads as full. */
  lemma ResumesWhere(c: Config, hist: seq<PageLog>, now: int)
    requires hist != []
    ensures |hist| == 1 || (now != 0 && Began(hist[|hist| - 1]) < now) ==> FullFrom(c, hist, StartPage(hist, now))
    ensures (forall i | 0 <= i < |hist| - 1 :: End(hist[i].frames) + FRAME_HEADER <= Border(c))
            && FullFrom(c, hist, StartPage(hist, now))
            ==> |hist| == 1 || (now != 0 && Began(hist[|hist| - 1]) < now)
  {
    var n := |hist|;
    if n > 1 && (now == 0 || Began(hist[n - 1]) >= now) {
      AmongBelow(hist, now, n - 1);
      assert StartPage(hist, now) <= n - 2;
      assert FullFrom(c, hist, StartPage(hist, now)) ==> End(hist[n - 2].frames) + FRAME_HEADER > Border(c);
    }
  }

  lemma {:induction false} AmongBelow(hist: seq<PageLog>, time: int, n: nat)
    requires 0 < n <= |hist|
    ensures StartAmong(hist, time, n) < n
  {
    if n > 1 {
      AmongBelow(hist, time, n - 1);
    }
  }

  lemma AllByNow(hist: seq<PageLog>, j: nat, k: nat, now: int)
    requires j < |hist| && k <= |hist[j].frames| && AllBy(hist, now) && FirstLater(hist, j, k, now)
    ensures k == |hist[j].frames|
  {
    if k < |hist[j].frames| {
      OnePast(hist, j, k, now);
    }
  }

  lemma OnePast(hist: seq<PageLog>, j: nat, k: nat, now: int)
    requires j < |hist| && k < |hist[j].frames| && AllBy(hist, now)
    ensures hist[j].frames[k].genTime <= now
  {
  }

  /** A closed page is passed exactly if it reads as full, where everything has been stamped by now. */
  lemma PassedIff(c: Config, w: State, hist: seq<PageLog>, i: nat, now: int)
    requires Inv(c, w, hist) && c.rollback == 0 && i < |hist| && AllBy(hist, now)
    ensures Passed(c, w.pages, i, now) <==> hist[i].Closed? && End(hist[i].frames) + FRAME_HEADER > Border(c)
  {
    hide Inv, PageHolds;
    PageAt(c, w, hist, i);
    FullIff(c, w.pages[i + 1], hist[i]);
  }
}
