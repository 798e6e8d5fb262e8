/** The channels of the back-test protocol as what they stand for: the first pages of journals. */
module LockStepPages {
  import opened LockStep
  import Frames
  import J = Journals
  import opened JournalLog

  /** Of messages written one after the other to a channel, those that `Post` puts on its page. */
  function Kept(d: Disk, c: Chan, ms: seq<Msg>): seq<Msg>
    decreases |ms|
  {
    if ms == [] then []
    else (if HasRoom(d, Out(c, ms[0])) then [ms[0]] else []) + Kept(Filled(d, Out(c, ms[0])), c, ms[1..])
  }

  /** Frame by frame the sizes of the messages, and a page that has what the channel has for them. */
  ghost predicate Stands(j: J.Config, g: Geometry, c: Chan, fs: seq<Frames.Frame>, ms: seq<Msg>) {
    && |fs| == |ms| && (forall i | 0 <= i < |fs| :: Frames.Size(fs[i]) == g.size(ms[i]))
    && J.Border(j) == Frames.PAGE_HEADER + g.room(c)
  }

  lemma PageGetSet(ps: Pages, c: Chan, p: Page)
    ensures ps.Set(c, p).Get(c) == p
  {
  }

  lemma {:induction false} NothingAfterRoll(d: Disk, c: Chan, ms: seq<Msg>)
    requires d.pages.Get(c).rolled
    ensures Kept(d, c, ms) == []
    decreases |ms|
  {
    if ms != [] {
      PageGetSet(d.pages, c, d.pages.Get(c).(rolled := true));
      NothingAfterRoll(Filled(d, Out(c, ms[0])), c, ms[1..]);
    }
  }

  lemma {:induction false} KeptIsFirstPage(j: J.Config, d: Disk, c: Chan, fs: seq<Frames.Frame>, ms: seq<Msg>)
    requires Stands(j, d.g, c, fs, ms) && !d.pages.Get(c).rolled
    ensures Kept(d, c, ms) <= ms
    ensures |Kept(d, c, ms)| == |FirstPage(j, Frames.PAGE_HEADER + d.pages.Get(c).used, fs)|
    decreases |ms|
  {
    if ms != [] {
      var o := Out(c, ms[0]);
      var p := d.pages.Get(c);
      if HasRoom(d, o) {
        PageGetSet(d.pages, c, Page(p.used + d.g.size(ms[0]), false));
        KeptIsFirstPage(j, Filled(d, o), c, fs[1..], ms[1..]);
      } else {
        PageGetSet(d.pages, c, p.(rolled := true));
        NothingAfterRoll(Filled(d, o), c, ms[1..]);
      }
    }
  }

  /** The messages a channel keeps are those whose frames a reader guarded by `has_data` ever gets from the
      journal, whatever is written, in whatever order, on pages of whatever size. */
  lemma ChannelIsDrained(j: J.Config, g: Geometry, c: Chan, jobs: seq<Job>, ms: seq<Msg>)
    requires J.ValidConfig(j) && j.rollback == 0 && AllFit(j, jobs) && Stands(j, g, c, FramesOf(jobs), ms)
    ensures J.Inv(j, J.Start(j), [J.Open([])])
    ensures var (s, hist) := Run(j, J.Start(j), [J.Open([])], jobs);
            && 1 in s.pages
            && var kept := Kept(Disk(g, Pages(FRESH, FRESH, FRESH, FRESH, FRESH, FRESH)), c, ms);
            kept <= ms && |kept| == |Drained(s.pages[1], Frames.PAGE_HEADER).0|
  {
    hide Run, Kept, FirstPage, J.Inv, Drained;
    GuardedDrainStopsAtPageEnd(j, jobs);
    var d := Disk(g, Pages(FRESH, FRESH, FRESH, FRESH, FRESH, FRESH));
    assert d.pages.Get(c) == FRESH;
    KeptIsFirstPage(j, d, c, FramesOf(jobs), ms);
  }
}
