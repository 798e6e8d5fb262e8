/** The bytes of one journal page: where a frame keeps its fields, what it means
    for a page to hold a list of frames, and what each store of the writer does.

    A page is a sequence of cells, one per byte address.  A field wider than one
    byte is kept whole in the cell of its first byte; clearing a range clears every
    cell of the range, so two overlapping regions do disturb each other here. */
module Frames {
  // sizeof(FrameHeader) and the offsets of its fields
  const FRAME_HEADER: nat := 40
  const LENGTH: nat := 0
  const HEADER_LENGTH: nat := 4
  const GEN_TIME: nat := 8
  const TRIGGER_TIME: nat := 16
  const MSG_TYPE: nat := 24
  const SOURCE: nat := 28
  const DEST: nat := 32

  // sizeof(PageHeader) and the offsets of its fields
  const PAGE_HEADER: nat := 24
  const VERSION: nat := 0
  const PAGE_HEADER_LENGTH: nat := 4
  const PAGE_SIZE: nat := 8
  const FRAME_HEADER_LENGTH: nat := 12
  const LAST_FRAME_POSITION: nat := 16

  const JOURNAL_VERSION: int := 4
  const PAGE_END: int := 0

  type Mem = seq<int>

  datatype Frame = Frame(msgType: int, genTime: int, triggerTime: int, source: int, dest: int, data: seq<int>)

  function Size(f: Frame): nat {
    FRAME_HEADER + |f.data|
  }

  // ---------- What a reader sees at an address ----------

  /** The first test of `has_data` and of a walk that calls `next` while there is a length. */
  predicate NonBlank(mem: Mem, off: nat)
    requires off + FRAME_HEADER <= |mem|
  {
    mem[off + LENGTH] > 0
  }

  predicate HasData(mem: Mem, off: nat)
    requires off + FRAME_HEADER <= |mem|
  {
    mem[off + LENGTH] > 0 && mem[off + MSG_TYPE] > 0
  }

  predicate Readable(mem: Mem, off: nat) {
    && off + FRAME_HEADER <= |mem|
    && mem[off + HEADER_LENGTH] == FRAME_HEADER
    && FRAME_HEADER <= mem[off + LENGTH] <= |mem| - off
  }

  function FrameAt(mem: Mem, off: nat): Frame
    requires Readable(mem, off)
  {
    Frame(mem[off + MSG_TYPE], mem[off + GEN_TIME], mem[off + TRIGGER_TIME], mem[off + SOURCE], mem[off + DEST],
          mem[off + FRAME_HEADER..off + mem[off + LENGTH]])
  }

  /** The complete frame `f`, header and payload, lies at `off`. */
  predicate Holds(mem: Mem, off: nat, f: Frame) {
    Readable(mem, off) && FrameAt(mem, off) == f
  }

  predicate Blank(mem: Mem, off: nat) {
    off + FRAME_HEADER <= |mem| && forall i :: off <= i < off + FRAME_HEADER ==> mem[i] == 0
  }

  // ---------- A page that holds a list of frames ----------

  /** Address of frame `k` when the frames lie end to end behind the page header. */
  function Pos(fs: seq<Frame>, k: nat): nat
    requires k <= |fs|
  {
    if k == 0 then PAGE_HEADER else Pos(fs, k - 1) + Size(fs[k - 1])
  }

  function End(fs: seq<Frame>): nat {
    Pos(fs, |fs|)
  }

  ghost predicate Chain(mem: Mem, fs: seq<Frame>) {
    forall k | 0 <= k < |fs| :: Holds(mem, Pos(fs, k), fs[k])
  }

  lemma ChainAt(mem: Mem, fs: seq<Frame>, k: nat)
    requires Chain(mem, fs) && k < |fs|
    ensures Holds(mem, Pos(fs, k), fs[k])
    ensures Pos(fs, k + 1) == Pos(fs, k) + Size(fs[k])
  {
  }

  lemma PosZero(fs: seq<Frame>)
    ensures Pos(fs, 0) == PAGE_HEADER && fs[0..] == fs
  {
  }

  lemma {:induction false} PosPrefix(fs: seq<Frame>, gs: seq<Frame>, k: nat)
    requires k <= |fs|
    ensures Pos(fs + gs, k) == Pos(fs, k)
  {
    if k > 0 {
      PosPrefix(fs, gs, k - 1);
    }
  }

  lemma {:induction false} PosMonotone(fs: seq<Frame>, i: nat, j: nat)
    requires i < j <= |fs|
    ensures PAGE_HEADER <= Pos(fs, i)
    ensures Pos(fs, i) + Size(fs[i]) <= Pos(fs, j)
  {
    if i + 1 < j {
      PosMonotone(fs, i, j - 1);
    } else if i > 0 {
      PosMonotone(fs, i - 1, i);
    }
  }

  lemma EndAppend(fs: seq<Frame>, f: Frame)
    ensures PAGE_HEADER <= End(fs)
    ensures End(fs + [f]) == End(fs) + Size(f)
  {
    PosPrefix(fs, [f], |fs|);
    if fs != [] {
      PosMonotone(fs, 0, |fs|);
    }
  }

  lemma HoldsFrame(mem: Mem, mem': Mem, off: nat, f: Frame)
    requires Holds(mem, off, f) && |mem'| == |mem|
    requires forall i :: off <= i < off + Size(f) && i < |mem| ==> mem'[i] == mem[i]
    ensures Holds(mem', off, f)
    ensures mem[off + LENGTH] == Size(f) && off + Size(f) <= |mem|
  {
    assert mem[off + FRAME_HEADER..off + mem[off + LENGTH]] == mem'[off + FRAME_HEADER..off + mem'[off + LENGTH]];
  }

  /** Stores at or behind the end of the chain leave every frame of it as it was. */
  lemma ChainFrame(mem: Mem, mem': Mem, fs: seq<Frame>)
    requires Chain(mem, fs) && |mem'| == |mem|
    requires forall i :: PAGE_HEADER <= i < End(fs) && i < |mem| ==> mem'[i] == mem[i]
    ensures Chain(mem', fs)
  {
    hide Holds;
    forall k | 0 <= k < |fs| ensures Holds(mem', Pos(fs, k), fs[k]) {
      PosMonotone(fs, k, |fs|);
      HoldsFrame(mem, mem', Pos(fs, k), fs[k]);
    }
  }

  // ---------- The stores ----------

  function Blit(mem: Mem, at: nat, src: seq<int>): (r: Mem)
    requires at + |src| <= |mem|
    ensures |r| == |mem|
    ensures forall i :: 0 <= i < |mem| ==> r[i] == if at <= i < at + |src| then src[i - at] else mem[i]
  {
    mem[..at] + src + mem[at + |src|..]
  }

  function Zeros(n: nat): (r: seq<int>)
    ensures |r| == n && forall i :: 0 <= i < n ==> r[i] == 0
  {
    seq(n, _ => 0)
  }

  /** `open_frame`: every header field but the generation time and the length. */
  function OpenedMem(mem: Mem, off: nat, trigger: int, msgType: int, source: int, dest: int): (r: Mem)
    requires off + FRAME_HEADER <= |mem|
    ensures |r| == |mem|
  {
    mem[off + HEADER_LENGTH := FRAME_HEADER][off + TRIGGER_TIME := trigger][off + MSG_TYPE := msgType]
    [off + SOURCE := source][off + DEST := dest]
  }

  /** `close_frame`: blank the next header, stamp the frame, publish its length, and record it in the page header. */
  function ClosedMem(mem: Mem, off: nat, dataLength: nat, genTime: int): (r: Mem)
    requires PAGE_HEADER <= off && off + FRAME_HEADER + dataLength + FRAME_HEADER <= |mem|
    ensures |r| == |mem|
  {
    Blit(mem, off + FRAME_HEADER + dataLength, Zeros(FRAME_HEADER))
    [off + GEN_TIME := genTime][off + LENGTH := FRAME_HEADER + dataLength][LAST_FRAME_POSITION := off]
  }

  /** What the write of `f` at `off` does to a page: `f` is there, the next header is blank,
      the frames before it and the rest of the page header are untouched. */
  ghost predicate WroteFrame(mem: Mem, mem': Mem, off: nat, f: Frame) {
    && |mem'| == |mem| > LAST_FRAME_POSITION
    && Holds(mem', off, f)
    && Blank(mem', off + Size(f))
    && mem'[LAST_FRAME_POSITION] == off
    && forall i :: 0 <= i < off && i < |mem| && i != LAST_FRAME_POSITION ==> mem'[i] == mem[i]
  }

  /** One whole write of `f` at `off`. */
  function FrameMem(mem: Mem, off: nat, f: Frame): (r: Mem)
    requires PAGE_HEADER <= off && off + Size(f) + FRAME_HEADER <= |mem|
    ensures WroteFrame(mem, r, off, f)
  {
    var filled := Blit(OpenedMem(mem, off, f.triggerTime, f.msgType, f.source, f.dest), off + FRAME_HEADER, f.data);
    var r := ClosedMem(filled, off, |f.data|, f.genTime);
    assert r[off + FRAME_HEADER..off + FRAME_HEADER + |f.data|] == f.data;
    r
  }

  ghost predicate WroteEnd(mem: Mem, mem': Mem, off: nat, e: Frame) {
    && |mem'| == |mem| > LAST_FRAME_POSITION
    && Holds(mem', off, e)
    && mem'[LAST_FRAME_POSITION] == off
    && forall i :: 0 <= i < off && i < |mem| && i != LAST_FRAME_POSITION ==> mem'[i] == mem[i]
  }

  /** The tail of `close_page`: the frame that ends a page has a header only. */
  function EndMem(mem: Mem, off: nat, e: Frame): (r: Mem)
    requires PAGE_HEADER <= off && off + FRAME_HEADER <= |mem| && e.data == []
    ensures WroteEnd(mem, r, off, e)
  {
    var r := OpenedMem(mem, off, e.triggerTime, e.msgType, e.source, e.dest)
             [off + GEN_TIME := e.genTime][off + LENGTH := FRAME_HEADER][LAST_FRAME_POSITION := off];
    assert r[off + FRAME_HEADER..off + FRAME_HEADER] == e.data;
    r
  }

  ghost predicate IsFresh(mem: Mem) {
    && |mem| >= PAGE_HEADER
    && mem[VERSION] == JOURNAL_VERSION
    && mem[PAGE_HEADER_LENGTH] == PAGE_HEADER
    && mem[PAGE_SIZE] == |mem|
    && mem[FRAME_HEADER_LENGTH] == FRAME_HEADER
    && mem[LAST_FRAME_POSITION] == PAGE_HEADER
    && forall i :: PAGE_HEADER <= i < |mem| ==> mem[i] == 0
  }

  /** A page file on its first load: all zero but for the header. */
  function FreshPage(pageSize: nat): (r: Mem)
    requires PAGE_HEADER <= pageSize
    ensures |r| == pageSize && IsFresh(r)
  {
    Zeros(pageSize)[VERSION := JOURNAL_VERSION][PAGE_HEADER_LENGTH := PAGE_HEADER][PAGE_SIZE := pageSize]
    [FRAME_HEADER_LENGTH := FRAME_HEADER][LAST_FRAME_POSITION := PAGE_HEADER]
  }

  /** What a rolled-over ring does to the page it enters: keep the header, clear the rest. */
  function Wiped(mem: Mem): (r: Mem)
    requires PAGE_HEADER <= |mem|
    ensures |r| == |mem|
    ensures forall i :: 0 <= i < PAGE_HEADER && i != LAST_FRAME_POSITION ==> r[i] == mem[i]
    ensures r[LAST_FRAME_POSITION] == PAGE_HEADER
    ensures forall i :: PAGE_HEADER <= i < |mem| ==> r[i] == 0
  {
    Blit(mem, PAGE_HEADER, Zeros(|mem| - PAGE_HEADER))[LAST_FRAME_POSITION := PAGE_HEADER]
  }
}
