/** The channels of the merge as what they stand for: journals, seen from the page their cursor is on. */
module MergePages {
  import F = Frames
  import J = Journals
  import Seek
  import opened Merge

  function EventOf(k: Key, f: F.Frame): Event {
    Event(k, f.genTime, f.msgType)
  }

  function Events(k: Key, fs: seq<F.Frame>): seq<Event> {
    if fs == [] then [] else [EventOf(k, fs[0])] + Events(k, fs[1..])
  }

  function Pages(k: Key, hist: seq<J.PageLog>): seq<seq<Event>> {
    if hist == [] then [] else [Events(k, hist[0].frames)] + Pages(k, hist[1..])
  }

  /** The cursor on frame `n` of visit `j`. */
  function ChannelAt(k: Key, hist: seq<J.PageLog>, j: nat, n: nat): Channel
    requires j < |hist|
  {
    Channel(Events(k, hist[j].frames), n, Pages(k, hist[j + 1..]))
  }

  lemma {:induction false} EventsAt(k: Key, fs: seq<F.Frame>)
    ensures |Events(k, fs)| == |fs| && forall i | 0 <= i < |fs| :: Events(k, fs)[i] == EventOf(k, fs[i])
  {
    if fs != [] {
      EventsAt(k, fs[1..]);
    }
  }

  /** What the reader's loads tell it of the memory of the page is what the channel says: `has_data` holds
      exactly if the channel has a frame left, and then the header has its stamp and leads to the next. */
  lemma ChannelIsPage(c: J.Config, mem: F.Mem, k: Key, hist: seq<J.PageLog>, j: nat, n: nat)
    requires j < |hist| && J.PageHolds(c, mem, hist[j]) && n <= |hist[j].frames|
    ensures var off := F.Pos(hist[j].frames, n); var ch := ChannelAt(k, hist, j, n);
            && 0 <= off && off + F.FRAME_HEADER <= |mem|
            && (F.HasData(mem, off) <==> ch.HasData())
            && (ch.HasData() ==> mem[off + F.GEN_TIME] == ch.Front().genTime
                                 && F.Pos(hist[j].frames, n + 1) == off + mem[off + F.LENGTH]
                                 && ch.Stepped() == ChannelAt(k, hist, j, n + 1))
  {
    hide J.PageHolds, F.Pos, F.HasData;
    Seek.BoundaryHasData(c, mem, hist[j], n);
    EventsAt(k, hist[j].frames);
  }

  /** At the end of a closed page, `next` leads the channel, like the cursor, to the first frame of the next page. */
  lemma ChannelCrosses(k: Key, hist: seq<J.PageLog>, j: nat)
    requires j + 1 < |hist|
    ensures ChannelAt(k, hist, j, |hist[j].frames|).Stepped() == ChannelAt(k, hist, j + 1, 0)
  {
    EventsAt(k, hist[j].frames);
    assert hist[j + 1..][1..] == hist[j + 2..];
  }

  // ---------- What a drain delivers of a journal ----------

  /** The frames stamped at or before `t`. */
  function UpTo(fs: seq<F.Frame>, t: int): seq<F.Frame> {
    if fs == [] then [] else (if fs[0].genTime <= t then [fs[0]] else []) + UpTo(fs[1..], t)
  }

  lemma {:induction false} UpToConcat(fs: seq<F.Frame>, gs: seq<F.Frame>, t: int)
    ensures UpTo(fs + gs, t) == UpTo(fs, t) + UpTo(gs, t)
  {
    if fs == [] {
      assert fs + gs == gs;
    } else {
      UpToConcat(fs[1..], gs, t);
      assert (fs + gs)[1..] == fs[1..] + gs;
    }
  }

  lemma {:induction false} UpToPrefix(fs: seq<F.Frame>, t: int, n: nat)
    requires n <= |fs| && forall i | 0 <= i < |fs| :: fs[i].genTime <= t <==> i < n
    ensures UpTo(fs, t) == fs[..n]
    decreases |fs|
  {
    if fs != [] {
      forall i | 0 <= i < |fs[1..]|
        ensures fs[1..][i].genTime <= t <==> i < n - 1
      {
        assert fs[1..][i] == fs[i + 1];
      }
      UpToPrefix(fs[1..], t, if n == 0 then 0 else n - 1);
      if n > 0 {
        assert fs[..n] == [fs[0]] + fs[1..][..n - 1];
      } else {
        assert fs[1..][..0] == [];
      }
    }
  }

  /** Everything of the log from the cursor on. */
  function Ahead(hist: seq<J.PageLog>, j: nat, n: nat): seq<F.Frame>
    requires j < |hist| && n <= |hist[j].frames|
  {
    hist[j].frames[n..] + J.Log(hist[j + 1..])
  }

  /** A finished drain delivers of every journal exactly what is stamped up to the end time on the page the cursor
      is on. That is all it should deliver of the journal exactly if nothing on the pages behind is stamped so early. */
  lemma DeliversThePage(before: map<Key, Channel>, after: map<Key, Channel>, d: seq<Event>, endTime: int,
                        k: Key, hist: seq<J.PageLog>, j: nat, n: nat)
    requires Delivers(before, after, d, endTime)
    requires RemainingFrom(after, endTime + 1) || forall l | l in after :: !after[l].HasData()
    requires j < |hist| && n <= |hist[j].frames| && k in before && before[k] == ChannelAt(k, hist, j, n)
    ensures From(d, k) == Events(k, UpTo(hist[j].frames[n..], endTime))
    ensures From(d, k) == Events(k, UpTo(Ahead(hist, j, n), endTime)) <==> UpTo(J.Log(hist[j + 1..]), endTime) == []
  {
    hide Sorted, From, Channel.Valid, J.Log, UpTo, Events;
    var fs := hist[j].frames[n..];
    var p := after[k].pos;
    EventsAt(k, hist[j].frames);
    forall i | 0 <= i < |fs|
      ensures fs[i].genTime <= endTime <==> i < p - n
    {
      DeliversExactly(before, after, d, endTime, k, n + i);
    }
    UpToPrefix(fs, endTime, p - n);
    EventsAt(k, fs[..p - n]);
    assert From(d, k) == Events(k, hist[j].frames)[n..p];
    assert From(d, k) == Events(k, fs[..p - n]);
    var later := UpTo(J.Log(hist[j + 1..]), endTime);
    UpToConcat(fs, J.Log(hist[j + 1..]), endTime);
    EventsAt(k, fs[..p - n] + later);
    if later == [] {
      assert fs[..p - n] + later == fs[..p - n];
    }
  }
}
