/** The paged journal as a value: the writer's cursor over its pages, the operations
    of `Journal` and `Writer` on it, and the log of frames the pages stand for. */
module Journals {
  import opened Frames

  /** `rollback` is the ring size; 0 means that pages are never recycled. */
  datatype Config = Config(pageSize: nat, rollback: nat, uid: int, dest: int)

  predicate ValidConfig(c: Config) {
    c.pageSize > PAGE_HEADER + 2 * FRAME_HEADER
  }

  /** `address_border`, relative to the page: room for one last header is kept behind it. */
  function Border(c: Config): int {
    c.pageSize - FRAME_HEADER
  }

  /** A frame of `len` payload bytes can be written on an empty page. */
  predicate FitsLength(c: Config, len: nat) {
    PAGE_HEADER + FRAME_HEADER + len < Border(c)
  }

  predicate Fits(c: Config, f: Frame) {
    f.msgType > 0 && FitsLength(c, |f.data|)
  }

  datatype State = State(pages: map<nat, Mem>, page: nat, off: nat, frameNb: nat, inRollback: nat)

  // ---------- The operations ----------

  predicate PagesSized(c: Config, s: State) {
    forall id :: id in s.pages ==> |s.pages[id]| == c.pageSize
  }

  /** The address behind the last recorded frame, where `close_page` puts its header. */
  function AfterLast(mem: Mem): int
    requires LAST_FRAME_POSITION < |mem|
  {
    var last := mem[LAST_FRAME_POSITION];
    if 0 <= last < |mem| then last + mem[last + LENGTH] else -1
  }

  /** What the operations below rely on; `Inv` implies it. */
  predicate Ready(c: Config, s: State) {
    && ValidConfig(c)
    && PagesSized(c, s)
    && s.page in s.pages
    && PAGE_HEADER <= s.off < Border(c)
    && PAGE_HEADER <= AfterLast(s.pages[s.page]) < Border(c)
  }

  function LoadPage(c: Config, s: State, id: nat): State
    requires ValidConfig(c)
  {
    s.(pages := if id in s.pages then s.pages else s.pages[id := FreshPage(c.pageSize)],
       page := id, off := PAGE_HEADER, frameNb := 0)
  }

  /** Recycle the page just entered and remember that the ring has rolled over. */
  function Recycle(s: State): State
    requires s.page in s.pages && PAGE_HEADER <= |s.pages[s.page]|
  {
    s.(pages := s.pages[s.page := Wiped(s.pages[s.page])], inRollback := s.page)
  }

  function LoadNextPage(c: Config, s: State): (r: State)
    requires Ready(c, s)
    ensures PagesSized(c, r) && s.page in r.pages && r.page in r.pages && r.off == PAGE_HEADER
    ensures PAGE_HEADER <= AfterLast(r.pages[s.page]) < Border(c)
  {
    if c.rollback == 0 || s.page < c.rollback then
      var s' := LoadPage(c, s, s.page + 1);
      if s.inRollback == s.page then Recycle(s') else s'
    else
      Recycle(LoadPage(c, s, 1))
  }

  function EndFrame(c: Config, trigger: int, now: int): Frame {
    Frame(PAGE_END, now, trigger, c.uid, c.dest, [])
  }

  function ClosePage(c: Config, s: State, trigger: int, now: int): (r: State)
    requires Ready(c, s)
    ensures PagesSized(c, r) && r.page in r.pages && r.off == PAGE_HEADER
  {
    var s' := LoadNextPage(c, s);
    var mem := s'.pages[s.page];
    s'.(pages := s'.pages[s.page := EndMem(mem, AfterLast(mem), EndFrame(c, trigger, now))])
  }

  predicate MustRoll(c: Config, s: State, len: nat) {
    s.off + FRAME_HEADER + len >= Border(c)
  }

  /** `open_frame` up to the point where it has found the place for the frame. */
  function Reserve(c: Config, s: State, trigger: int, len: nat, now: int): (r: State)
    requires Ready(c, s)
    ensures PagesSized(c, r) && r.page in r.pages && PAGE_HEADER <= r.off < Border(c)
    ensures FitsLength(c, len) ==> !MustRoll(c, r, len)
  {
    if MustRoll(c, s, len) then ClosePage(c, s, trigger, now) else s
  }

  function OpenFrame(c: Config, s: State, trigger: int, msgType: int, len: nat, now: int): State
    requires Ready(c, s)
  {
    var s' := Reserve(c, s, trigger, len, now);
    s'.(pages := s'.pages[s'.page := OpenedMem(s'.pages[s'.page], s'.off, trigger, msgType, c.uid, c.dest)])
  }

  function CopyData(s: State, data: seq<int>): State
    requires s.page in s.pages && s.off + FRAME_HEADER + |data| <= |s.pages[s.page]|
  {
    s.(pages := s.pages[s.page := Blit(s.pages[s.page], s.off + FRAME_HEADER, data)])
  }

  /** `write_as` replaces the source and the destination of the open frame. */
  function Redirect(s: State, source: int, dest: int): State
    requires s.page in s.pages && s.off + FRAME_HEADER <= |s.pages[s.page]|
  {
    s.(pages := s.pages[s.page := s.pages[s.page][s.off + SOURCE := source][s.off + DEST := dest]])
  }

  /** A frame has been opened at the cursor, and `len` bytes of payload leave room for the next header. */
  predicate CanClose(c: Config, s: State, len: nat) {
    && PagesSized(c, s)
    && s.page in s.pages
    && PAGE_HEADER <= s.off
    && s.off + FRAME_HEADER + len < Border(c)
    && s.pages[s.page][s.off + HEADER_LENGTH] == FRAME_HEADER
    && s.pages[s.page][s.off + MSG_TYPE] != PAGE_END
  }

  function CloseFrame(c: Config, s: State, len: nat, genTime: int): State
    requires CanClose(c, s, len)
  {
    s.(pages := s.pages[s.page := ClosedMem(s.pages[s.page], s.off, len, genTime)],
       off := s.off + FRAME_HEADER + len, frameNb := s.frameNb + 1)
  }

  /** Open, fill and close one frame; `now` stamps the end of the page if the writer has to roll. */
  function Write(c: Config, s: State, f: Frame, now: int): State
    requires Ready(c, s) && FitsLength(c, |f.data|)
  {
    var s' := Reserve(c, s, f.triggerTime, |f.data|, now);
    s'.(pages := s'.pages[s'.page := FrameMem(s'.pages[s'.page], s'.off, f)],
        off := s'.off + Size(f), frameNb := s'.frameNb + 1)
  }

  function Start(c: Config): State
    requires ValidConfig(c)
  {
    LoadPage(c, State(map[], 0, 0, 0, 0), 1)
  }

  // ---------- The log behind the pages ----------

  /** Everything one visit of a page has received; `end` is the frame that closed it. */
  datatype PageLog = Open(frames: seq<Frame>) | Closed(frames: seq<Frame>, end: Frame)

  function LastPos(fs: seq<Frame>): nat {
    if fs == [] then PAGE_HEADER else Pos(fs, |fs| - 1)
  }

  predicate HeaderOk(c: Config, mem: Mem) {
    && |mem| == c.pageSize > LAST_FRAME_POSITION
    && mem[VERSION] == JOURNAL_VERSION
    && mem[PAGE_HEADER_LENGTH] == PAGE_HEADER
    && mem[PAGE_SIZE] == c.pageSize
    && mem[FRAME_HEADER_LENGTH] == FRAME_HEADER
  }

  ghost predicate PageHolds(c: Config, mem: Mem, log: PageLog) {
    var end := End(log.frames);
    && HeaderOk(c, mem)
    && Chain(mem, log.frames)
    && PAGE_HEADER <= end < Border(c)
    && (forall k | 0 <= k < |log.frames| :: Fits(c, log.frames[k]))
    && match log
       case Open(fs) => Blank(mem, end) && mem[LAST_FRAME_POSITION] == LastPos(fs)
       case Closed(_, e) =>
         e.msgType == PAGE_END && e.data == [] && Holds(mem, end, e) && mem[LAST_FRAME_POSITION] == end
  }

  /** The page that visit number `j` (from 0) writes to. */
  function PageOf(c: Config, j: nat): nat {
    if c.rollback == 0 then j + 1 else j % c.rollback + 1
  }

  /** The visits whose pages have not been recycled yet, when `v` pages have been entered. */
  predicate Live(c: Config, v: nat, j: nat) {
    j < v && (c.rollback == 0 || v <= j + c.rollback)
  }

  ghost predicate Inv(c: Config, s: State, hist: seq<PageLog>) {
    var v := |hist|;
    && ValidConfig(c)
    && c.rollback != 1
    && v > 0
    && hist[v - 1].Open?
    && s.page == PageOf(c, v - 1)
    && s.off == End(hist[v - 1].frames)
    && s.frameNb == |hist[v - 1].frames|
    && s.inRollback == (if c.rollback > 0 && v > c.rollback then s.page else 0)
    && (forall id :: id in s.pages ==> HeaderOk(c, s.pages[id]))
    && (forall id :: id in s.pages <==> 1 <= id <= (if c.rollback == 0 || v < c.rollback then v else c.rollback))
    && (forall j | 0 <= j < v - 1 :: hist[j].Closed?)
    && (forall j | 0 <= j < v && Live(c, v, j) ::
          PageOf(c, j) in s.pages && PageHolds(c, s.pages[PageOf(c, j)], hist[j]))
  }

  /** All the frames, in the order they were written. */
  function Log(hist: seq<PageLog>): seq<Frame> {
    if hist == [] then [] else hist[0].frames + Log(hist[1..])
  }
}
