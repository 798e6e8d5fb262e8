/** The publication protocol, one store and one load at a time: a writer that fills frames and
    rolls pages, and any number of readers that look at the same pages in between.  Memory is
    sequentially consistent and pages are never recycled. */
module Publication {
  import opened Frames
  import opened Journals
  import opened PublicationStores

  /** Where the writer is: between writes, in front of the next store of the frame `f` at `at`, or
      with `f` published but not yet recorded in the page header.  A frame of type PAGE_END closes
      the page for the sake of `waiting`. */
  datatype Pc =
    | Idle
    | Storing(at: nat, f: Frame, todo: seq<Store>, waiting: seq<Frame>)
    | Marking(at: nat, f: Frame, waiting: seq<Frame>)

  /** Where a reader is: about to load the length, the type or the data, or about to load the type
      and then the length in `next`. */
  datatype ReaderPc = LoadLength | LoadType | LoadData | NextType | NextLength

  /** A guarded reader calls `next` only when `has_data` holds; another one calls it whenever there is a length. */
  datatype Reader = Reader(guarded: bool, page: nat, off: nat, frameNb: nat, pc: ReaderPc, got: seq<Frame>)

  /** Pages are numbered from 0 here.  `hist` and `asked` record what the pages and the calls stand for. */
  datatype System = System(pages: seq<Mem>, off: nat, pc: Pc, readers: seq<Reader>, hist: seq<PageLog>,
                           asked: seq<Frame>)

  datatype Action = Begin(f: Frame, now: int) | WriterStep | ReaderStep(r: nat)

  predicate Closing(pc: Pc) {
    pc != Idle && pc.f.msgType == PAGE_END
  }

  /** The page the writer stores to: while it closes a page, the one before the last. */
  function Target(s: System): int {
    if Closing(s.pc) then |s.pages| - 2 else |s.pages| - 1
  }

  function Initial(c: Config, guarded: seq<bool>): System
    requires ValidConfig(c)
  {
    System([FreshPage(c.pageSize)], PAGE_HEADER, Idle,
           seq(|guarded|, i requires 0 <= i < |guarded| => Reader(guarded[i], 0, PAGE_HEADER, 0, LoadLength, [])),
           [Open([])], [])
  }

  // ---------- The steps; a step that is not enabled changes nothing ----------

  function BeginStep(c: Config, s: System, f: Frame, now: int): System {
    if s.pc == Idle && Fits(c, f) && s.pages != [] then
      if s.off + Size(f) >= Border(c) then
        var mem := s.pages[|s.pages| - 1];
        if |mem| > LAST_FRAME_POSITION && AfterLast(mem) >= 0 then
          var e := EndFrame(c, f.triggerTime, now);
          s.(pages := s.pages + [FreshPage(c.pageSize)],
             pc := Storing(AfterLast(mem), e, EndStores(AfterLast(mem), e), [f]),
             hist := s.hist + [Open([])], asked := s.asked + [f])
        else s
      else
        s.(pc := Storing(s.off, f, FrameStores(s.off, f), []), asked := s.asked + [f])
    else s
  }

  function Put(s: System, addr: nat, val: int): System {
    if 0 <= Target(s) < |s.pages| && addr < |s.pages[Target(s)]|
    then s.(pages := s.pages[Target(s) := s.pages[Target(s)][addr := val]])
    else s
  }

  function Publish(log: PageLog, f: Frame): PageLog {
    if f.msgType == PAGE_END then Closed(log.frames, f) else Open(log.frames + [f])
  }

  function WriteStep(s: System): System {
    match s.pc
    case Idle => s
    case Storing(at, f, todo, waiting) =>
      if todo != [] then Put(s, todo[0].addr, todo[0].val).(pc := Storing(at, f, todo[1..], waiting))
      else if 0 <= Target(s) < |s.hist| then
        // the length makes the frame visible
        Put(s, at + LENGTH, Size(f)).(pc := Marking(at, f, waiting),
                                      hist := s.hist[Target(s) := Publish(s.hist[Target(s)], f)])
      else s
    case Marking(at, f, waiting) =>
      var s' := Put(s, LAST_FRAME_POSITION, at);
      if waiting == [] then s'.(pc := Idle, off := at + Size(f))
      else s'.(pc := Storing(PAGE_HEADER, waiting[0], FrameStores(PAGE_HEADER, waiting[0]), []), off := PAGE_HEADER)
  }

  /** One load of a reader, and what it does with the value. */
  function ReadStep(pages: seq<Mem>, r: Reader): Reader {
    if r.page < |pages| && r.off + FRAME_HEADER <= |pages[r.page]| then
      var mem := pages[r.page];
      match r.pc
      case LoadLength =>
        if mem[r.off + LENGTH] > 0 then r.(pc := LoadType) else r
      case LoadType =>
        if mem[r.off + MSG_TYPE] > 0 then r.(pc := LoadData)
        else if r.guarded then r.(pc := LoadLength) else r.(pc := NextType)
      case LoadData =>
        if Readable(mem, r.off) then r.(pc := NextType, got := r.got + [FrameAt(mem, r.off)]) else r
      case NextType =>
        if mem[r.off + MSG_TYPE] != PAGE_END then r.(pc := NextLength)
        else if r.page + 1 < |pages| then r.(page := r.page + 1, off := PAGE_HEADER, frameNb := 0, pc := LoadLength)
        else r
      case NextLength =>
        if mem[r.off + LENGTH] >= 0 then
          r.(off := r.off + mem[r.off + LENGTH], frameNb := r.frameNb + 1, pc := LoadLength)
        else r
    else r
  }

  function Step(c: Config, s: System, a: Action): System {
    match a
    case Begin(f, now) => BeginStep(c, s, f, now)
    case WriterStep => WriteStep(s)
    case ReaderStep(r) =>
      if r < |s.readers| then s.(readers := s.readers[r := ReadStep(s.pages, s.readers[r])]) else s
  }

  function Exec(c: Config, s: System, acts: seq<Action>): System
    decreases |acts|
  {
    if acts == [] then s else Exec(c, Step(c, s, acts[0]), acts[1..])
  }

  // ---------- What holds in between ----------

  /** What any reader may rely on about a page: the published frames are there, complete, and behind
      them is either a header without a length or the complete header that ends the page. */
  ghost predicate Visible(c: Config, mem: Mem, log: PageLog) {
    var end := End(log.frames);
    && |mem| == c.pageSize
    && Chain(mem, log.frames)
    && PAGE_HEADER <= end < Border(c)
    && (forall k | 0 <= k < |log.frames| :: Fits(c, log.frames[k]))
    && if log.Open? then mem[end + LENGTH] == 0
       else log.end.msgType == PAGE_END && log.end.data == [] && Holds(mem, end, log.end)
  }

  /** What remains to be done to the page leads to the page of the log that has `f` behind it. */
  ghost predicate OnCourse(c: Config, mem: Mem, log: PageLog, at: nat, f: Frame, todo: seq<Store>) {
    && log.Open?
    && at == End(log.frames) < Border(c)
    && |mem| == c.pageSize
    && Within(todo, at, |mem|) && Within(todo, -1, |mem|)
    && PageHolds(c, Apply(mem, todo)[at + LENGTH := Size(f)][LAST_FRAME_POSITION := at], Publish(log, f))
  }

  ghost predicate PcOk(c: Config, s: System)
    requires ValidConfig(c) && |s.pages| == |s.hist| > 0
  {
    var last := |s.pages| - 1;
    match s.pc
    case Idle =>
      s.off == End(s.hist[last].frames)
    case Storing(at, f, todo, waiting) =>
      && 0 <= Target(s)
      && OnCourse(c, s.pages[Target(s)], s.hist[Target(s)], at, f, todo)
      && WaitingOk(c, s.hist[last], f, waiting)
    case Marking(at, f, waiting) =>
      && 0 <= Target(s)
      && PAGE_HEADER <= at && |s.pages[Target(s)]| == c.pageSize
      && PageHolds(c, s.pages[Target(s)][LAST_FRAME_POSITION := at], s.hist[Target(s)])
      && (if Closing(s.pc) then s.hist[Target(s)].Closed? else at + Size(f) == End(s.hist[Target(s)].frames))
      && WaitingOk(c, s.hist[last], f, waiting)
  }

  ghost predicate WaitingOk(c: Config, last: PageLog, f: Frame, waiting: seq<Frame>) {
    if f.msgType == PAGE_END then |waiting| == 1 && Fits(c, waiting[0]) && last == Open([]) else waiting == []
  }

  /** The frames asked for whose length has not been stored yet. */
  function Pending(pc: Pc): seq<Frame> {
    match pc
    case Idle => []
    case Storing(_, f, _, waiting) => if f.msgType == PAGE_END then waiting else [f]
    case Marking(_, f, waiting) => waiting
  }

  ghost predicate PagesOk(c: Config, s: System) {
    && |s.pages| == |s.hist| > 0
    && (forall p | 0 <= p < |s.pages| :: Visible(c, s.pages[p], s.hist[p]))
    && (forall p | 0 <= p < |s.pages| && (s.pc == Idle || p != Target(s)) :: PageHolds(c, s.pages[p], s.hist[p]))
    && (forall p | 0 <= p < |s.pages| :: s.hist[p].Open? <==> p == |s.pages| - 1 || (s.pc.Storing? && p == Target(s)))
  }

  /** How many frames of its page a reader has been given. */
  function Given(hist: seq<PageLog>, r: Reader): nat
    requires r.page < |hist|
  {
    if (r.pc == NextType || r.pc == NextLength) && r.frameNb < |hist[r.page].frames| then r.frameNb + 1 else r.frameNb
  }

  ghost predicate ReaderOk(hist: seq<PageLog>, r: Reader) {
    && r.page < |hist|
    && r.frameNb <= |hist[r.page].frames|
    && r.off == Pos(hist[r.page].frames, r.frameNb)
    && (forall q | 0 <= q < r.page :: hist[q].Closed?)
    && r.got == Log(hist[..r.page]) + hist[r.page].frames[..Given(hist, r)]
    && (r.pc == LoadType || r.pc == NextType ==> r.frameNb < |hist[r.page].frames| || (hist[r.page].Closed?))
    && (r.pc == LoadData || r.pc == NextLength || (r.pc == NextType && r.guarded) ==> r.frameNb < |hist[r.page].frames|)
  }

  ghost predicate Safe(c: Config, s: System) {
    && ValidConfig(c)
    && PagesOk(c, s)
    && PcOk(c, s)
    && (forall i | 0 <= i < |s.readers| :: ReaderOk(s.hist, s.readers[i]))
    && s.asked == Log(s.hist) + Pending(s.pc)
  }
}
