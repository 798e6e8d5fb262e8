/** `Journal` and `Writer` as the objects they are: they share the mapped page files and
    store into them in place.  Each method is tied to an operation of module `Journals`. */
module JournalObjects {
  import opened Frames
  import J = Journals
  import opened JournalProofs
  import JournalLog
  import opened Seek

  /** The page files of one journal; mapping a page that is not there yet creates it. */
  class Disk {
    var pages: map<nat, array<int>>

    ghost predicate Valid()
      reads this
    {
      forall i, j | i in pages && j in pages && i != j :: pages[i] != pages[j]
    }

    ghost function Contents(): map<nat, Mem>
      reads this, pages.Values
    {
      map id | id in pages :: pages[id][..]
    }

    constructor ()
      ensures Valid() && pages == map[]
    {
      pages := map[];
    }

    method Load(id: nat, pageSize: nat) returns (a: array<int>)
      requires Valid() && PAGE_HEADER <= pageSize
      modifies this
      ensures Valid() && id in pages && pages[id] == a && (id in old(pages) || a.Length == pageSize)
      ensures if id in old(pages) then pages == old(pages) else fresh(a) && pages == old(pages)[id := a]
      ensures Contents() == if id in old(pages) then old(Contents()) else old(Contents())[id := FreshPage(pageSize)]
    {
      if id in pages {
        a := pages[id];
      } else {
        a := new int[pageSize](_ => 0);
        a[VERSION] := JOURNAL_VERSION;
        a[PAGE_HEADER_LENGTH] := PAGE_HEADER;
        a[PAGE_SIZE] := pageSize;
        a[FRAME_HEADER_LENGTH] := FRAME_HEADER;
        a[LAST_FRAME_POSITION] := PAGE_HEADER;
        assert a[..] == FreshPage(pageSize);
        pages := pages[id := a];
      }
    }

    /** A store into page `id` changes that page and no other. */
    twostate lemma Stored(id: nat)
      requires old(Valid()) && pages == old(pages) && id in pages
      requires forall i | i in pages && i != id :: unchanged(pages[i])
      ensures Contents() == old(Contents())[id := pages[id][..]]
    {
      forall i | i in pages && i != id ensures pages[i][..] == old(pages[i][..]) {
        assert unchanged(pages[i]);
      }
    }
  }

  class Journal {
    const c: J.Config
    const disk: Disk
    const isWriting: bool
    var page: nat
    var off: nat
    var frameNb: nat
    var inRollback: nat

    ghost function State(): J.State
      reads this, disk, disk.pages.Values
    {
      J.State(disk.Contents(), page, off, frameNb, inRollback)
    }

    /** The current page is mapped, and every page file has the configured size. */
    ghost predicate Mapped()
      reads this, disk, disk.pages.Values
    {
      && J.ValidConfig(c)
      && disk.Valid()
      && page in disk.pages
      && (forall i | i in disk.pages :: disk.pages[i].Length == c.pageSize)
    }

    ghost predicate Valid()
      reads this, disk, disk.pages.Values
    {
      Mapped() && J.Ready(c, State())
    }

    lemma ReadyIsValid()
      requires disk.Valid() && J.Ready(c, State())
      ensures Valid()
    {
      assert page in disk.Contents();
      MappedBy(State());
    }

    lemma MappedBy(w: J.State)
      requires disk.Contents() == w.pages && J.Ready(c, w)
      ensures J.ValidConfig(c) && forall i | i in disk.pages :: disk.pages[i].Length == c.pageSize
    {
      forall i | i in disk.pages ensures disk.pages[i].Length == c.pageSize {
        assert i in disk.Contents();
      }
    }

    constructor (c: J.Config, disk: Disk, isWriting: bool)
      requires J.ValidConfig(c) && disk.Valid() && disk.pages == map[]
      modifies disk
      ensures this.c == c && this.disk == disk && this.isWriting == isWriting
      ensures disk.Valid() && State() == J.Start(c) && fresh(disk.pages.Values)
    {
      this.c := c;
      this.disk := disk;
      this.isWriting := isWriting;
      page, off, frameNb, inRollback := 0, 0, 0, 0;
      new;
      LoadPage(1);
    }

    /** Over page files that are there already; no page is loaded yet. */
    constructor Over(c: J.Config, disk: Disk, isWriting: bool)
      ensures this.c == c && this.disk == disk && this.isWriting == isWriting
      ensures page == 0 && inRollback == 0
    {
      this.c := c;
      this.disk := disk;
      this.isWriting := isWriting;
      page, off, frameNb, inRollback := 0, 0, 0, 0;
    }

    method LoadPage(id: nat)
      requires J.ValidConfig(c) && disk.Valid()
      modifies this`page, this`off, this`frameNb, disk
      ensures disk.Valid() && State() == J.LoadPage(c, old(State()), id)
      ensures id in disk.pages
      ensures if id in old(disk.pages) then disk.pages == old(disk.pages)
              else fresh(disk.pages[id]) && disk.pages[id].Length == c.pageSize
      ensures old(disk.pages.Keys) <= disk.pages.Keys
      ensures forall i | i in old(disk.pages) :: disk.pages[i] == old(disk.pages[i])
      ensures fresh(disk.pages.Values - old(disk.pages.Values))
    {
      var _ := disk.Load(id, c.pageSize);
      page, off, frameNb := id, PAGE_HEADER, 0;
    }

    /** Clear the page just entered, in place. */
    method Recycle()
      requires disk.Valid() && page in disk.pages && disk.pages[page].Length >= PAGE_HEADER
      modifies this`inRollback, disk.pages[page]
      ensures disk.Valid() && State() == J.Recycle(old(State()))
    {
      var a := disk.pages[page];
      for i := PAGE_HEADER to a.Length
        invariant forall k :: PAGE_HEADER <= k < i ==> a[k] == 0
        invariant forall k :: 0 <= k < PAGE_HEADER ==> a[k] == old(a[k])
      {
        a[i] := 0;
      }
      a[LAST_FRAME_POSITION] := PAGE_HEADER;
      inRollback := page;
      assert a[..] == Wiped(old(a[..]));
      disk.Stored(page);
    }

    /** There is no ring, and the next page is there: moving on creates and clears nothing. */
    ghost predicate NextThere()
      reads this, disk
    {
      c.rollback == 0 && inRollback == 0 && page != 0 && page + 1 in disk.pages
    }

    method LoadNextPage()
      requires Mapped() && (isWriting ==> J.Ready(c, State()) || NextThere())
      modifies this, disk, if isWriting then disk.pages.Values else {}
      ensures disk.Valid()
      ensures isWriting && old(J.Ready(c, State())) ==> State() == J.LoadNextPage(c, old(State()))
      ensures old(disk.pages.Keys) <= disk.pages.Keys
      ensures forall i | i in old(disk.pages) :: disk.pages[i] == old(disk.pages[i])
      ensures fresh(disk.pages.Values - old(disk.pages.Values))
      // a reader only moves, to the page the writer moved to, and so does a writer for which that page is there
      ensures var next := JournalLog.NextId(c, old(page));
              !isWriting || old(NextThere())
              ==> State() == J.LoadPage(c, old(State()), next)
                  && (next in old(disk.pages) ==> disk.pages == old(disk.pages))
    {
      hide FreshPage, Wiped, J.Ready, Disk.Contents;
      if c.rollback == 0 || page < c.rollback {
        var oldPage := page;
        LoadPage(oldPage + 1);
        if isWriting && inRollback == oldPage {
          Recycle();
        }
      } else {
        LoadPage(1);
        if isWriting {
          Recycle();
        }
      }
    }

    /** Move to the next frame, or to the next page behind the frame that ends this one. */
    method Next()
      requires Mapped() && off + FRAME_HEADER <= c.pageSize && disk.pages[page][off + LENGTH] >= 0
      requires isWriting ==> J.Ready(c, State()) || disk.pages[page][off + MSG_TYPE] != PAGE_END
      modifies this, disk, if isWriting then disk.pages.Values else {}
      ensures disk.Valid()
      ensures var mem := old(disk.pages[page][..]);
              if mem[old(off) + MSG_TYPE] == PAGE_END then
                if isWriting then State() == J.LoadNextPage(c, old(State()))
                else State() == J.LoadPage(c, old(State()), JournalLog.NextId(c, old(page)))
              else
                disk.pages == old(disk.pages)
                && State() == old(State()).(off := old(off) + mem[old(off) + LENGTH], frameNb := old(frameNb) + 1)
    {
      var a := disk.pages[page];
      if a[off + MSG_TYPE] == PAGE_END {
        LoadNextPage();
      } else {
        off := off + a[off + LENGTH];
        frameNb := frameNb + 1;
      }
    }

    // ---------- Seeking ----------

    /** The page a seek starts from: the last one that began before `time`, else the first; at time 0 always the
        first. */
    method FindPageId(ids: seq<nat>, time: int) returns (id: nat)
      requires J.ValidConfig(c) && disk.Valid()
      requires forall k | 0 <= k < |ids| :: ids[k] in disk.pages && disk.pages[ids[k]].Length == c.pageSize
      ensures if ids == [] then id == 1
              else
                exists k | 0 <= k < |ids| :: id == ids[k]
                  && (k == 0 || (time != 0 && BeginTime(disk.pages[id][..]) < time))
                  && (time != 0 ==> forall m | k < m < |ids| :: BeginTime(disk.pages[ids[m]][..]) >= time)
    {
      if ids == [] {
        return 1;
      }
      if time == 0 {
        return ids[0];
      }
      var i := |ids| - 1;
      while i >= 0
        invariant -1 <= i < |ids|
        invariant forall m | i < m < |ids| :: BeginTime(disk.pages[ids[m]][..]) >= time
      {
        if disk.pages[ids[i]][PAGE_HEADER + GEN_TIME] < time {
          return ids[i];
        }
        i := i - 1;
      }
      return ids[0];
    }

    /** The cursor of this reader stands at boundary `k` of visit `j` of the log behind `w`. */
    ghost predicate StandsAt(w: J.State, hist: seq<J.PageLog>, j: nat, k: nat)
      reads this, disk, disk.pages.Values
    {
      && Mapped()
      && disk.Contents() == w.pages
      && j < |hist| && k <= |hist[j].frames|
      && page == j + 1
      && off == Pos(hist[j].frames, k)
      && frameNb == k
    }

    /** Passes over full pages that ended in time, and stops at the first other one. */
    method SkipFullPages(time: int, ghost w: J.State, ghost hist: seq<J.PageLog>, ghost start: nat)
      returns (ghost j: nat)
      requires inRollback == 0 && J.Inv(c, w, hist) && c.rollback == 0 && Stamped(hist) && StandsAt(w, hist, start, 0)
      modifies this, disk, if isWriting then disk.pages.Values else {}
      ensures disk.pages == old(disk.pages) && inRollback == 0
      ensures StandsAt(w, hist, j, 0) && (NoneLater(hist, start, 0, time) ==> NoneLater(hist, j, 0, time))
      ensures start <= j && !Passed(c, w.pages, j, time)
      ensures forall i | start <= i < j :: Passed(c, w.pages, i, time)
    {
      hide J.Inv, J.PageHolds, J.Ready, J.LoadNextPage, Pos, Stamped, NoneLater;
      j := start;
      while true
        invariant disk.pages == old(disk.pages) && inRollback == 0
        invariant StandsAt(w, hist, j, 0) && start <= j
        invariant NoneLater(hist, start, 0, time) ==> NoneLater(hist, j, 0, time)
        invariant forall i | start <= i < j :: Passed(c, w.pages, i, time)
        decreases |hist| - j
      {
        PageAt(c, w, hist, j);
        var a := disk.pages[page];
        assert a[..] == w.pages[page];
        FullIff(c, a[..], hist[j]);
        var last := a[LAST_FRAME_POSITION];
        if !(last + a[last + LENGTH] > c.pageSize - FRAME_HEADER && a[last + GEN_TIME] <= time) {
          break;
        }
        if NoneLater(hist, j, 0, time) {
          EndedBefore(hist, j, time);
        }
        assert Passed(c, w.pages, j, time);
        PageAt(c, w, hist, j + 1);
        PosZero(hist[j + 1].frames);
        assert page + 1 in disk.Contents();
        LoadNextPage();
        j := j + 1;
      }
    }

    /** What the loop below reads at boundary `k`. */
    lemma FrameHere(w: J.State, hist: seq<J.PageLog>, j: nat, k: nat)
      requires J.Inv(c, w, hist) && c.rollback == 0 && StandsAt(w, hist, j, k)
      ensures Mapped() && j < |hist| && k <= |hist[j].frames| && off + FRAME_HEADER <= c.pageSize
      ensures var a := disk.pages[page];
              && (a[off + LENGTH] > 0 && a[off + MSG_TYPE] > 0 <==> k < |hist[j].frames|)
              && (k < |hist[j].frames| ==>
                    a[off + GEN_TIME] == hist[j].frames[k].genTime && a[off + MSG_TYPE] > 0 && a[off + LENGTH] > 0
                    && off + a[off + LENGTH] == Pos(hist[j].frames, k + 1))
    {
      hide J.Inv, J.PageHolds, Pos, HasData;
      PageAt(c, w, hist, j);
      assert disk.pages[page][..] == w.pages[page];
      BoundaryHasData(c, w.pages[page], hist[j], k);
      HasDataHere(w.pages[page], off);
    }

    /** After one more frame the cursor stands at the next boundary. */
    lemma OneFurther(w: J.State, hist: seq<J.PageLog>, j: nat, k: nat)
      requires Mapped() && disk.Contents() == w.pages && j < |hist| && k < |hist[j].frames|
      requires page == j + 1 && off == Pos(hist[j].frames, k + 1) && frameNb == k + 1
      ensures StandsAt(w, hist, j, k + 1)
    {
    }

    method SkipFrames(time: int, ghost w: J.State, ghost hist: seq<J.PageLog>, ghost j: nat)
      returns (ghost k: nat)
      requires J.Inv(c, w, hist) && c.rollback == 0 && Stamped(hist) && StandsAt(w, hist, j, 0)
      modifies this, disk, if isWriting then disk.pages.Values else {}
      ensures disk.pages == old(disk.pages) && inRollback == old(inRollback)
      ensures StandsAt(w, hist, j, k) && FirstLater(hist, j, k, time)
      ensures NoneLater(hist, j, 0, time) <==> NoneLater(hist, j, k, time)
    {
      hide J.Inv, J.PageHolds, J.Ready, Pos, Stamped, NoneLater, FirstLater, J.LoadNextPage, J.LoadPage;
      k := 0;
      FrameHere(w, hist, j, 0);
      while disk.pages[page][off + LENGTH] > 0 && disk.pages[page][off + MSG_TYPE] > 0
            && disk.pages[page][off + GEN_TIME] <= time
        invariant disk.pages == old(disk.pages) && inRollback == old(inRollback)
        invariant StandsAt(w, hist, j, k) && off + FRAME_HEADER <= c.pageSize
        invariant NoneLater(hist, j, 0, time) <==> NoneLater(hist, j, k, time)
        decreases |hist[j].frames| - k
      {
        FrameHere(w, hist, j, k);
        OneMore(hist, j, k, time);
        Next();
        OneFurther(w, hist, j, k);
        k := k + 1;
        FrameHere(w, hist, j, k);
      }
      FrameHere(w, hist, j, k);
      LaterFromHere(hist, j, k, time);
    }

    /** Over a log `hist` that never recycles pages and whose stamps never decrease, the cursor ends on a frame
        boundary (`j`, `k`) with nothing stamped earlier than `time` behind it, and with nothing stamped later in
        front of it exactly if the search does not skip: if the last page holds no frame yet, the one before
        it ends with none later than `time`.  A frame stamped just `time` is still behind it exactly if the
        cursor is at the end of its page and the next page begins with one; the page then does not read as
        full, or its end was stamped later.  At time 0, where the search takes the first page without
        looking, no frame may be stamped before 0. */
    method SeekToTime(ids: seq<nat>, time: int, ghost w: J.State, ghost hist: seq<J.PageLog>)
      returns (ghost start: nat, ghost j: nat, ghost k: nat)
      requires disk.Valid() && inRollback == 0 && J.Inv(c, w, hist) && c.rollback == 0 && w.pages == disk.Contents()
      requires Stamped(hist) && OnlyLastEmpty(hist)
      requires |ids| == |hist| && forall i | 0 <= i < |ids| :: ids[i] == i + 1
      modifies this, disk, if isWriting then disk.pages.Values else {}
      ensures disk.pages == old(disk.pages) && inRollback == 0
      ensures StandsAt(w, hist, j, k) && FirstLater(hist, j, k, time)
      ensures NoneLater(hist, j, k, time) <==> !Skips(hist, time)
      ensures StartsFrom(hist, start, time) && start <= j && !Passed(c, w.pages, j, time)
      ensures forall i | start <= i < j :: Passed(c, w.pages, i, time)
      ensures Sane(hist, time)
              ==> NoneEarlier(hist, j, k, time)
                  && (StillAhead(hist, j, k, time) <==> k == |hist[j].frames| && NextBeginsAt(hist, j, time))
    {
      hide J.Inv, Stamped, NoneLater, FirstLater, NoneEarlier, StillAhead, NextBeginsAt, LaterBegin, Sane, StandsAt,
        Passed, StartsFrom, Skips, OnlyLastEmpty;
      start := LoadFirst(ids, time, w, hist);
      StartIff(hist, start, time);
      j := SkipFullPages(time, w, hist, start);
      k := SkipFrames(time, w, hist, j);
      InLog(w, hist, j, k);
      if Sane(hist, time) {
        BeginOn(hist, start, j, time);
        AheadIff(hist, j, k, time);
      }
    }

    lemma InLog(w: J.State, hist: seq<J.PageLog>, j: nat, k: nat)
      requires StandsAt(w, hist, j, k)
      ensures j < |hist| && k <= |hist[j].frames|
    {
    }

    /** Loads the page the search starts from. */
    method LoadFirst(ids: seq<nat>, time: int, ghost w: J.State, ghost hist: seq<J.PageLog>)
      returns (ghost start: nat)
      requires disk.Valid() && J.Inv(c, w, hist) && c.rollback == 0 && w.pages == disk.Contents() && OnlyLastEmpty(hist)
      requires |ids| == |hist| && forall i | 0 <= i < |ids| :: ids[i] == i + 1
      modifies this, disk
      ensures disk.pages == old(disk.pages) && inRollback == old(inRollback)
      ensures StandsAt(w, hist, start, 0) && StartsFrom(hist, start, time)
    {
      hide J.Inv, J.PageHolds, Pos, OnlyLastEmpty;
      InvReady(c, w, hist);
      MappedBy(w);
      forall i | 0 <= i < |ids| ensures ids[i] in disk.pages {
        PageAt(c, w, hist, i);
        assert ids[i] in disk.Contents();
      }
      var id := FindPageId(ids, time);
      start := id - 1;
      PageAt(c, w, hist, start);
      PosZero(hist[start].frames);
      PagesBegin(w, hist, ids);
      LoadPage(id);
    }

    /** What the search sees of the pages, said of the log. */
    lemma PagesBegin(w: J.State, hist: seq<J.PageLog>, ids: seq<nat>)
      requires J.Inv(c, w, hist) && c.rollback == 0 && w.pages == disk.Contents() && OnlyLastEmpty(hist)
      requires |ids| == |hist| && (forall i | 0 <= i < |ids| :: ids[i] == i + 1 && ids[i] in disk.pages)
      ensures forall i | 0 <= i < |ids| :: PAGE_HEADER + FRAME_HEADER <= disk.pages[ids[i]].Length
                                           && BeginTime(disk.pages[ids[i]][..]) == Began(hist[i])
    {
      hide J.Inv, J.PageHolds;
      forall i | 0 <= i < |ids|
        ensures PAGE_HEADER + FRAME_HEADER <= disk.pages[ids[i]].Length
                && BeginTime(disk.pages[ids[i]][..]) == Began(hist[i])
      {
        PageAt(c, w, hist, i);
        BeginTimeIs(c, w.pages[i + 1], hist[i]);
        assert disk.pages[ids[i]][..] == w.pages[i + 1];
      }
    }
  }

  /** The cursor is at the frame that ended a page with another one behind it. */
  ghost predicate AtPageEnd(w: J.State, log: seq<J.PageLog>, page: nat, off: nat) {
    && 0 < page < |log| && log[page - 1].Closed? && off == End(log[page - 1].frames)
    && page in w.pages && Holds(w.pages[page], off, log[page - 1].end) && log[page - 1].end.msgType == PAGE_END
  }

  /** Where a search for `now` leaves a writer. */
  lemma Resumed(c: J.Config, w: J.State, log: seq<J.PageLog>, journal: Journal, now: int, start: nat, j: nat, k: nat)
    requires J.Inv(c, w, log) && c.rollback == 0 && OnlyLastEmpty(log) && AllBy(log, now) && journal.c == c
    requires journal.inRollback == 0 && journal.isWriting && journal.StandsAt(w, log, j, k)
             && FirstLater(log, j, k, now)
    requires StartsFrom(log, start, now) && start <= j && !Passed(c, w.pages, j, now)
    requires forall i | start <= i < j :: Passed(c, w.pages, i, now)
    ensures journal.State() == w <==> FullFrom(c, log, StartPage(log, now))
    ensures journal.State() == w ==> journal.Valid()
    ensures journal.State() != w ==> AtPageEnd(w, log, journal.page, journal.off)
  {
    hide J.Inv, J.PageHolds, StartsFrom, AllBy, FirstLater, OnlyLastEmpty, Passed;
    AllByNow(log, j, k, now);
    StartIs(log, start, now);
    CursorIs(c, w, log, j);
    StopsAt(c, w, log, start, j, now);
    if j == |log| - 1 {
      InvReady(c, w, log);
      journal.ReadyIsValid();
    }
  }

  /** Where the writer of a log without a ring stands, and what ends the pages in front of it. */
  lemma CursorIs(c: J.Config, w: J.State, log: seq<J.PageLog>, j: nat)
    requires J.Inv(c, w, log) && c.rollback == 0 && j < |log|
    ensures w.page == |log| && w.off == End(log[|log| - 1].frames) && w.frameNb == |log[|log| - 1].frames|
            && w.inRollback == 0
    ensures j < |log| - 1 ==> AtPageEnd(w, log, j + 1, End(log[j].frames))
  {
    PageAt(c, w, log, j);
  }

  /** The search stops at the last page exactly if it passes all others from `start` on. */
  lemma StopsAt(c: J.Config, w: J.State, log: seq<J.PageLog>, start: nat, j: nat, now: int)
    requires J.Inv(c, w, log) && c.rollback == 0 && AllBy(log, now)
    requires start <= j < |log| && !Passed(c, w.pages, j, now)
             && forall i | start <= i < j :: Passed(c, w.pages, i, now)
    ensures j == |log| - 1 <==> FullFrom(c, log, start)
  {
    hide J.Inv, J.PageHolds, AllBy, Passed;
    forall i | start <= i < |log| - 1
      ensures Passed(c, w.pages, i, now) <==> End(log[i].frames) + FRAME_HEADER > J.Border(c)
    {
      PageAt(c, w, log, i);
      PassedIff(c, w, log, i, now);
    }
  }

  lemma EndStands(mem: Mem, at: nat, e: Frame)
    requires PAGE_HEADER <= at && at + FRAME_HEADER <= |mem| && e.data == []
    ensures Holds(EndMem(mem, at, e), at, e)
  {
  }

  class Writer {
    const journal: Journal
    var sizeToWrite: nat
    ghost var hist: seq<J.PageLog>

    ghost predicate Valid()
      reads this, journal, journal.disk, journal.disk.pages.Values
    {
      journal.isWriting && journal.Valid() && J.Inv(journal.c, journal.State(), hist)
    }

    constructor (c: J.Config)
      requires J.ValidConfig(c) && c.rollback != 1
      ensures Valid() && hist == [J.Open([])] && journal.c == c
      ensures fresh(journal) && fresh(journal.disk) && fresh(journal.disk.pages.Values)
    {
      var disk := new Disk();
      journal := new Journal(c, disk, true);
      sizeToWrite := 0;
      hist := [J.Open([])];
      new;
      StartInv(c);
      InvReady(c, journal.State(), hist);
      journal.ReadyIsValid();
    }

    /** A writer that goes on with the page files of a log, without a ring, seeks to `now`.  It comes to stand where
        the one before it stood exactly if the pages from the one the search starts from up to the last but one
        read as full; otherwise it stands on the frame that ends a page already closed. */
    constructor Resume(c: J.Config, disk: Disk, ids: seq<nat>, now: int, ghost w: J.State, ghost log: seq<J.PageLog>)
      requires disk.Valid() && J.Inv(c, w, log) && c.rollback == 0 && w.pages == disk.Contents()
      requires Stamped(log) && OnlyLastEmpty(log) && AllBy(log, now)
      requires |ids| == |log| && forall i | 0 <= i < |ids| :: ids[i] == i + 1
      modifies disk, disk.pages.Values
      ensures journal.c == c && journal.disk == disk && fresh(journal) && disk.pages == old(disk.pages)
      ensures disk.Contents() == w.pages && hist == log
      ensures journal.State() == w <==> FullFrom(c, log, StartPage(log, now))
      ensures journal.State() == w ==> Valid()
      ensures journal.State() != w ==> AtPageEnd(w, log, journal.page, journal.off)
    {
      hide J.Inv, Stamped, OnlyLastEmpty, AllBy, FirstLater, NoneLater, NoneEarlier, StillAhead, NextBeginsAt, Sane,
        Skips, StartsFrom, Passed, FullFrom, AtPageEnd, J.Ready;
      journal := new Journal.Over(c, disk, true);
      sizeToWrite := 0;
      hist := log;
      new;
      ghost var start, j, k := journal.SeekToTime(ids, now, w, log);
      Resumed(c, w, log, journal, now, start, j, k);
    }

    static method StoreEnd(a: array<int>, at: nat, e: Frame)
      requires PAGE_HEADER <= at && at + FRAME_HEADER <= a.Length && e.data == []
      modifies a
      ensures a[..] == EndMem(old(a[..]), at, e)
    {
      a[at + HEADER_LENGTH] := FRAME_HEADER;
      a[at + TRIGGER_TIME] := e.triggerTime;
      a[at + MSG_TYPE] := e.msgType;
      a[at + SOURCE] := e.source;
      a[at + DEST] := e.dest;
      a[at + GEN_TIME] := e.genTime;
      a[at + LENGTH] := FRAME_HEADER;
      a[LAST_FRAME_POSITION] := at;
    }

    /** Load the next page, then end the one just left behind its last frame. */
    method ClosePage(trigger: int, now: int)
      requires journal.isWriting && journal.Valid()
      modifies journal, journal.disk, journal.disk.pages.Values
      ensures journal.disk.Valid()
      ensures journal.State() == J.ClosePage(journal.c, old(journal.State()), trigger, now)
      ensures var id := old(journal.page);
              && id in journal.disk.pages
              && Holds(journal.disk.pages[id][..],
                       J.AfterLast(J.LoadNextPage(journal.c, old(journal.State())).pages[id]),
                       Frame(PAGE_END, now, trigger, journal.c.uid, journal.c.dest, []))
      ensures fresh(journal.disk.pages.Values - old(journal.disk.pages.Values))
    {
      hide EndMem, J.Ready, J.LoadNextPage, Holds, WroteEnd;
      var lastPage, lastId := journal.disk.pages[journal.page], journal.page;
      journal.LoadNextPage();
      label loaded:
      assert lastId in journal.disk.Contents();
      var at := lastPage[LAST_FRAME_POSITION];
      at := at + lastPage[at + LENGTH];
      EndStands(lastPage[..], at, J.EndFrame(journal.c, trigger, now));
      StoreEnd(lastPage, at, J.EndFrame(journal.c, trigger, now));
      journal.disk.Stored@loaded(lastId);
    }

    method FillHeader(trigger: int, msgType: int)
      requires journal.disk.Valid() && journal.page in journal.disk.pages
      requires journal.off + FRAME_HEADER <= journal.disk.pages[journal.page].Length
      modifies journal.disk.pages[journal.page]
      ensures journal.disk.Valid()
      ensures var s, c := old(journal.State()), journal.c;
              journal.State()
              == s.(pages := s.pages[s.page := OpenedMem(s.pages[s.page], s.off, trigger, msgType, c.uid, c.dest)])
    {
      var a, off := journal.disk.pages[journal.page], journal.off;
      a[off + HEADER_LENGTH] := FRAME_HEADER;
      a[off + TRIGGER_TIME] := trigger;
      a[off + MSG_TYPE] := msgType;
      a[off + SOURCE] := journal.c.uid;
      a[off + DEST] := journal.c.dest;
      journal.disk.Stored(journal.page);
    }

    /** Find the place for a frame and fill its header, all but the stamp and the length. */
    method OpenFrame(trigger: int, msgType: int, dataLength: nat, now: int)
      requires journal.isWriting && journal.Valid()
      modifies this`sizeToWrite, journal, journal.disk, journal.disk.pages.Values
      ensures journal.disk.Valid() && sizeToWrite == dataLength
      ensures journal.page in journal.disk.pages && journal.disk.pages[journal.page].Length == journal.c.pageSize
      ensures journal.State() == J.OpenFrame(journal.c, old(journal.State()), trigger, msgType, dataLength, now)
      ensures fresh(journal.disk.pages.Values - old(journal.disk.pages.Values))
    {
      hide J.ClosePage, OpenedMem;
      if journal.off + FRAME_HEADER + dataLength >= journal.c.pageSize - FRAME_HEADER {
        ClosePage(trigger, now);
      }
      assert journal.page in journal.disk.Contents();
      FillHeader(trigger, msgType);
      sizeToWrite := dataLength;
    }

    static method CopyInto(a: array<int>, at: nat, data: seq<int>)
      requires at + |data| <= a.Length
      modifies a
      ensures a[..] == Blit(old(a[..]), at, data)
    {
      for i := 0 to |data|
        invariant forall k :: 0 <= k < a.Length ==> a[k] == if at <= k < at + i then data[k - at] else old(a[k])
      {
        a[at + i] := data[i];
      }
    }

    /** Copy the payload behind the header of the frame that is open. */
    method CopyData(data: seq<int>)
      requires journal.disk.Valid() && journal.page in journal.disk.pages
      requires journal.off + FRAME_HEADER + |data| <= journal.disk.pages[journal.page].Length
      modifies journal.disk.pages[journal.page]
      ensures journal.disk.Valid() && journal.State() == J.CopyData(old(journal.State()), data)
    {
      hide Blit;
      CopyInto(journal.disk.pages[journal.page], journal.off + FRAME_HEADER, data);
      journal.disk.Stored(journal.page);
    }

    method Redirect(source: int, dest: int)
      requires journal.disk.Valid() && journal.page in journal.disk.pages
      requires journal.off + FRAME_HEADER <= journal.disk.pages[journal.page].Length
      modifies journal.disk.pages[journal.page]
      ensures journal.disk.Valid() && journal.State() == J.Redirect(old(journal.State()), source, dest)
    {
      var a, off := journal.disk.pages[journal.page], journal.off;
      a[off + SOURCE] := source;
      a[off + DEST] := dest;
      journal.disk.Stored(journal.page);
    }

    static method ClearHeader(a: array<int>, at: nat)
      requires at + FRAME_HEADER <= a.Length
      modifies a
      ensures a[..] == Blit(old(a[..]), at, Zeros(FRAME_HEADER))
    {
      for i := 0 to FRAME_HEADER
        invariant forall k :: 0 <= k < a.Length ==> a[k] == if at <= k < at + i then 0 else old(a[k])
      {
        a[at + i] := 0;
      }
    }

    /** The stores of `close_frame`; that of the length publishes the frame, the one of its position comes behind. */
    static method StoreClosing(a: array<int>, off: nat, dataLength: nat, genTime: int)
      requires PAGE_HEADER <= off && off + FRAME_HEADER + dataLength + FRAME_HEADER <= a.Length
      requires a[off + HEADER_LENGTH] == FRAME_HEADER
      modifies a
      ensures a[..] == ClosedMem(old(a[..]), off, dataLength, genTime)
      ensures a[off + LENGTH] == FRAME_HEADER + dataLength
    {
      hide Blit, Zeros;
      ClearHeader(a, off + FRAME_HEADER + dataLength);
      a[off + GEN_TIME] := genTime;
      a[off + LENGTH] := a[off + HEADER_LENGTH] + dataLength;
      a[LAST_FRAME_POSITION] := off;
    }

    /** Blank the next header, then publish the frame by storing its length. */
    method CloseFrame(dataLength: nat, genTime: int)
      requires journal.disk.Valid() && J.ValidConfig(journal.c) && J.CanClose(journal.c, journal.State(), dataLength)
      modifies this`sizeToWrite, journal, journal.disk, journal.disk.pages.Values
      ensures journal.disk.Valid() && sizeToWrite == 0
      ensures journal.State() == J.CloseFrame(journal.c, old(journal.State()), dataLength, genTime)
      ensures journal.disk.pages == old(journal.disk.pages)
    {
      hide ClosedMem;
      assert journal.page in journal.disk.Contents();
      var a, off := journal.disk.pages[journal.page], journal.off;
      StoreClosing(a, off, dataLength, genTime);
      sizeToWrite := 0;
      journal.disk.Stored(journal.page);
      // `next` behind a frame that does not end the page
      journal.off := journal.off + a[off + LENGTH];
      journal.frameNb := journal.frameNb + 1;
    }

    /** Write one whole frame under a source and destination of the caller's choice.  The log grows by that frame. */
    method WriteAs(f: Frame, now: int)
      requires Valid() && J.Fits(journal.c, f)
      modifies this, journal, journal.disk, journal.disk.pages.Values
      ensures Valid()
      ensures journal.State() == J.Write(journal.c, old(journal.State()), f, now)
      ensures J.Log(hist) == J.Log(old(hist)) + [f]
      ensures fresh(journal.disk.pages.Values - old(journal.disk.pages.Values))
    {
      hide J.Inv, J.OpenFrame, J.CopyData, J.Redirect, J.CloseFrame, J.Write, J.CanClose, Written, J.Log, J.Ready,
        J.Fits, Disk.Contents;
      ghost var c, s := journal.c, journal.State();
      InvReady(c, s, hist);
      WriteInSteps(c, s, f, now);
      OpenFrame(f.triggerTime, f.msgType, |f.data|, now);
      CopyData(f.data);
      Redirect(f.source, f.dest);
      CloseFrame(|f.data|, f.genTime);
      WriteKeeps(c, s, hist, f, now);
      JournalLog.LogWritten(c, s, hist, f, now);
      hist := Written(c, s, hist, f, now);
      InvReady(c, journal.State(), hist);
      journal.ReadyIsValid();
    }

    /** Write one whole frame from the journal's own location to its own destination. */
    method WriteData(trigger: int, msgType: int, data: seq<int>, genTime: int, now: int)
      requires Valid() && msgType > 0 && J.FitsLength(journal.c, |data|)
      modifies this, journal, journal.disk, journal.disk.pages.Values
      ensures Valid()
      ensures J.Log(hist) == J.Log(old(hist)) + [Frame(msgType, genTime, trigger, journal.c.uid, journal.c.dest, data)]
      ensures fresh(journal.disk.pages.Values - old(journal.disk.pages.Values))
    {
      hide J.Inv, J.OpenFrame, J.CopyData, J.CloseFrame, J.Write, J.CanClose, Written, J.Log, J.Ready, Disk.Contents;
      ghost var c, s := journal.c, journal.State();
      ghost var f := Frame(msgType, genTime, trigger, c.uid, c.dest, data);
      InvReady(c, s, hist);
      PlainInSteps(c, s, f, now);
      OpenFrame(trigger, msgType, |data|, now);
      CopyData(data);
      CloseFrame(|data|, genTime);
      WriteKeeps(c, s, hist, f, now);
      JournalLog.LogWritten(c, s, hist, f, now);
      hist := Written(c, s, hist, f, now);
      InvReady(c, journal.State(), hist);
      journal.ReadyIsValid();
    }
  }
}
