/** The writer's work on one frame as a program of single stores, and what the program amounts to. */
module PublicationStores {
  import opened Frames

  // ---------- The writer's program as single stores ----------

  datatype Store = Store(addr: nat, val: int)

  predicate Within(sts: seq<Store>, lo: int, hi: int) {
    forall i | 0 <= i < |sts| :: lo < sts[i].addr < hi
  }

  function Apply(mem: Mem, sts: seq<Store>): (r: Mem)
    requires Within(sts, -1, |mem|)
    ensures |r| == |mem|
    decreases |sts|
  {
    if sts == [] then mem else Apply(mem[sts[0].addr := sts[0].val], sts[1..])
  }

  function Block(at: nat, src: seq<int>): seq<Store> {
    seq(|src|, i requires 0 <= i < |src| => Store(at + i, src[i]))
  }

  /** `open_frame`. */
  function OpenStores(off: nat, f: Frame): seq<Store> {
    [Store(off + HEADER_LENGTH, FRAME_HEADER), Store(off + TRIGGER_TIME, f.triggerTime),
     Store(off + MSG_TYPE, f.msgType),
     Store(off + SOURCE, f.source), Store(off + DEST, f.dest)]
  }

  /** `open_frame` and the copy of the payload. */
  function FillStores(off: nat, f: Frame): seq<Store> {
    OpenStores(off, f) + Block(off + FRAME_HEADER, f.data)
  }

  /** These, and `close_frame` up to the store of the length. */
  function FrameStores(off: nat, f: Frame): seq<Store> {
    FillStores(off, f) + Block(off + Size(f), Zeros(FRAME_HEADER)) + [Store(off + GEN_TIME, f.genTime)]
  }

  /** `close_page` up to the store of the length. */
  function EndStores(off: nat, e: Frame): seq<Store> {
    OpenStores(off, e) + [Store(off + GEN_TIME, e.genTime)]
  }

  lemma {:induction false} ApplyConcat(mem: Mem, a: seq<Store>, b: seq<Store>)
    requires Within(a, -1, |mem|) && Within(b, -1, |mem|)
    ensures Within(a + b, -1, |mem|)
    ensures Apply(mem, a + b) == Apply(Apply(mem, a), b)
    decreases |a|
  {
    if a == [] {
      assert a + b == b;
    } else {
      assert (a + b)[1..] == a[1..] + b;
      ApplyConcat(mem[a[0].addr := a[0].val], a[1..], b);
    }
  }

  lemma {:induction false} ApplyBlock(mem: Mem, at: nat, src: seq<int>)
    requires at + |src| <= |mem|
    ensures Apply(mem, Block(at, src)) == Blit(mem, at, src)
    decreases |src|
  {
    if src != [] {
      var b := Block(at, src);
      assert b[1..] == Block(at + 1, src[1..]);
      ApplyBlock(mem[at := src[0]], at + 1, src[1..]);
    }
  }

  lemma ApplyCons(mem: Mem, st: Store, rest: seq<Store>)
    requires st.addr < |mem| && Within(rest, -1, |mem|)
    ensures Within([st] + rest, -1, |mem|) && Apply(mem, [st] + rest) == Apply(mem[st.addr := st.val], rest)
  {
    assert ([st] + rest)[1..] == rest;
  }

  lemma ApplyOpen(mem: Mem, off: nat, f: Frame)
    requires off + FRAME_HEADER <= |mem|
    ensures Within(OpenStores(off, f), -1, |mem|)
    ensures Apply(mem, OpenStores(off, f)) == OpenedMem(mem, off, f.triggerTime, f.msgType, f.source, f.dest)
  {
    hide Apply;
    var sts := OpenStores(off, f);
    var (m1, r1) := (mem[off + HEADER_LENGTH := FRAME_HEADER], sts[1..]);
    var (m2, r2) := (m1[off + TRIGGER_TIME := f.triggerTime], r1[1..]);
    var (m3, r3) := (m2[off + MSG_TYPE := f.msgType], r2[1..]);
    var (m4, r4) := (m3[off + SOURCE := f.source], r3[1..]);
    assert sts == [sts[0]] + r1 && r1 == [r1[0]] + r2 && r2 == [r2[0]] + r3 && r3 == [r3[0]] + r4 && r4 == [r4[0]] + [];
    ApplyCons(m4, r4[0], []);
    ApplyCons(m3, r3[0], r4);
    ApplyCons(m2, r2[0], r3);
    ApplyCons(m1, r1[0], r2);
    ApplyCons(mem, sts[0], r1);
    ApplyNone(m4[off + DEST := f.dest]);
  }

  lemma ApplyNone(mem: Mem)
    ensures Apply(mem, []) == mem
  {
  }

  lemma ApplyLast(mem: Mem, sts: seq<Store>, last: Store)
    requires Within(sts, -1, |mem|) && last.addr < |mem|
    ensures Within(sts + [last], -1, |mem|)
    ensures Apply(mem, sts + [last]) == Apply(mem, sts)[last.addr := last.val]
  {
    ApplyConcat(mem, sts, [last]);
    ApplyCons(Apply(mem, sts), last, []);
    assert [last] + [] == [last];
  }

  lemma WithinConcat(a: seq<Store>, b: seq<Store>, lo: int, hi: int)
    requires Within(a, lo, hi) && Within(b, lo, hi)
    ensures Within(a + b, lo, hi)
  {
  }

  lemma WithinWider(a: seq<Store>, lo: int, lo': int, hi: int)
    requires Within(a, lo, hi) && lo' <= lo
    ensures Within(a, lo', hi)
  {
  }

  /** No store of the program touches the length of the frame, or anything in front of it. */
  lemma FrameStoresBehind(off: nat, f: Frame, size: nat)
    requires off + Size(f) + FRAME_HEADER <= size
    ensures Within(FrameStores(off, f), off, size) && Within(FrameStores(off, f), -1, size)
  {
    var fill := Block(off + FRAME_HEADER, f.data);
    var blank := Block(off + Size(f), Zeros(FRAME_HEADER));
    WithinConcat(OpenStores(off, f), fill, off, size);
    WithinConcat(OpenStores(off, f) + fill, blank, off, size);
    WithinConcat(OpenStores(off, f) + fill + blank, [Store(off + GEN_TIME, f.genTime)], off, size);
    WithinWider(FrameStores(off, f), off, -1, size);
  }

  lemma EndStoresBehind(off: nat, e: Frame, size: nat)
    requires off + FRAME_HEADER <= size
    ensures Within(EndStores(off, e), off, size) && Within(EndStores(off, e), -1, size)
  {
    WithinConcat(OpenStores(off, e), [Store(off + GEN_TIME, e.genTime)], off, size);
    WithinWider(EndStores(off, e), off, -1, size);
  }

  /** The header filled in and the payload behind it. */
  function Filled(mem: Mem, off: nat, f: Frame): (m: Mem)
    requires off + Size(f) <= |mem|
    ensures |m| == |mem|
  {
    Blit(OpenedMem(mem, off, f.triggerTime, f.msgType, f.source, f.dest), off + FRAME_HEADER, f.data)
  }

  /** Then the next header blanked and the stamp stored. */
  function Blanked(filled: Mem, off: nat, f: Frame): (m: Mem)
    requires off + Size(f) + FRAME_HEADER <= |filled|
    ensures |m| == |filled|
  {
    Blit(filled, off + Size(f), Zeros(FRAME_HEADER))[off + GEN_TIME := f.genTime]
  }

  lemma FillStoresWrite(mem: Mem, off: nat, f: Frame)
    requires off + Size(f) <= |mem|
    ensures Within(FillStores(off, f), -1, |mem|)
    ensures Apply(mem, FillStores(off, f)) == Filled(mem, off, f)
  {
    hide Apply, OpenStores, Within, Blit, OpenedMem, Block;
    ApplyOpen(mem, off, f);
    BlockWithin(off + FRAME_HEADER, f.data, |mem|);
    ApplyBlock(OpenedMem(mem, off, f.triggerTime, f.msgType, f.source, f.dest), off + FRAME_HEADER, f.data);
    ApplyConcat(mem, OpenStores(off, f), Block(off + FRAME_HEADER, f.data));
  }

  lemma BlankStoresWrite(mem: Mem, sts: seq<Store>, off: nat, f: Frame)
    requires Within(sts, -1, |mem|) && off + Size(f) + FRAME_HEADER <= |mem|
    ensures var all := sts + Block(off + Size(f), Zeros(FRAME_HEADER)) + [Store(off + GEN_TIME, f.genTime)];
            Within(all, -1, |mem|) && Apply(mem, all) == Blanked(Apply(mem, sts), off, f)
  {
    hide Apply, Within, Blit, Zeros, Block;
    var at, last := off + Size(f), Store(off + GEN_TIME, f.genTime);
    BlockWithin(at, Zeros(FRAME_HEADER), |mem|);
    ApplyBlock(Apply(mem, sts), at, Zeros(FRAME_HEADER));
    ApplyConcat(mem, sts, Block(at, Zeros(FRAME_HEADER)));
    ApplyLast(mem, sts + Block(at, Zeros(FRAME_HEADER)), last);
  }

  lemma PublishFrame(mem: Mem, off: nat, f: Frame, m: Mem)
    requires PAGE_HEADER <= off && off + Size(f) + FRAME_HEADER <= |mem|
    requires m == Blanked(Filled(mem, off, f), off, f)
    ensures m[off + LENGTH := Size(f)][LAST_FRAME_POSITION := off] == FrameMem(mem, off, f)
  {
    hide Blit, Zeros, OpenedMem, WroteFrame;
  }

  /** Store by store, the writer does to a page what `FrameMem` does at once. */
  lemma FrameStoresWrite(mem: Mem, off: nat, f: Frame)
    requires PAGE_HEADER <= off && off + Size(f) + FRAME_HEADER <= |mem|
    ensures Within(FrameStores(off, f), -1, |mem|)
    ensures Apply(mem, FrameStores(off, f))[off + LENGTH := Size(f)][LAST_FRAME_POSITION := off]
            == FrameMem(mem, off, f)
  {
    hide Apply, Within, WroteFrame, FrameMem, FrameStores;
    FrameStoresFill(mem, off, f);
    PublishFrame(mem, off, f, Apply(mem, FrameStores(off, f)));
  }

  lemma FrameStoresFill(mem: Mem, off: nat, f: Frame)
    requires PAGE_HEADER <= off && off + Size(f) + FRAME_HEADER <= |mem|
    ensures Within(FrameStores(off, f), -1, |mem|)
    ensures Apply(mem, FrameStores(off, f)) == Blanked(Filled(mem, off, f), off, f)
  {
    hide Apply, FillStores, Within, Filled, Blanked, Zeros, Block;
    FillStoresWrite(mem, off, f);
    BlankStoresWrite(mem, FillStores(off, f), off, f);
  }

  lemma BlockWithin(at: nat, src: seq<int>, size: nat)
    requires at + |src| <= size
    ensures Within(Block(at, src), -1, size)
  {
  }

  lemma EndStoresFill(mem: Mem, off: nat, e: Frame)
    requires off + FRAME_HEADER <= |mem|
    ensures Within(EndStores(off, e), -1, |mem|)
    ensures Apply(mem, EndStores(off, e))
            == OpenedMem(mem, off, e.triggerTime, e.msgType, e.source, e.dest)[off + GEN_TIME := e.genTime]
  {
    hide Apply, OpenStores, Within, OpenedMem;
    ApplyOpen(mem, off, e);
    ApplyLast(mem, OpenStores(off, e), Store(off + GEN_TIME, e.genTime));
  }

  lemma EndStoresWrite(mem: Mem, off: nat, e: Frame)
    requires PAGE_HEADER <= off && off + FRAME_HEADER <= |mem| && e.data == []
    ensures Within(EndStores(off, e), -1, |mem|)
    ensures Apply(mem, EndStores(off, e))[off + LENGTH := Size(e)][LAST_FRAME_POSITION := off] == EndMem(mem, off, e)
  {
    hide Apply, Within, EndMem, EndStores;
    EndStoresFill(mem, off, e);
    PublishEnd(mem, off, e, Apply(mem, EndStores(off, e)));
  }

  lemma PublishEnd(mem: Mem, off: nat, e: Frame, m: Mem)
    requires PAGE_HEADER <= off && off + FRAME_HEADER <= |mem| && e.data == []
    requires m == OpenedMem(mem, off, e.triggerTime, e.msgType, e.source, e.dest)[off + GEN_TIME := e.genTime]
    ensures m[off + LENGTH := Size(e)][LAST_FRAME_POSITION := off] == EndMem(mem, off, e)
  {
    hide OpenedMem, WroteEnd;
  }
}
