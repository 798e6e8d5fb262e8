/** `Reader` merges the journals it has joined by generation time; `EventEngine.drain` delivers the
    merged stream.  A journal is seen here as the frames of the page its cursor is on, the number of
    them already consumed, and the pages behind that one, which draining never comes to. */
module Merge {
  type Key = nat

  /** `genTime` orders events; `tag` stands for everything else a frame carries. */
  datatype Event = Event(key: Key, genTime: int, tag: int)

  /** The frames of one page: of one journal, with stamps that never decrease. */
  ghost predicate PageOk(frames: seq<Event>, key: Key) {
    && (forall i | 0 <= i < |frames| :: frames[i].key == key)
    && (forall i, j | 0 <= i <= j < |frames| :: frames[i].genTime <= frames[j].genTime)
  }

  /** `more` is empty exactly if the page has not been closed. */
  datatype Channel = Channel(frames: seq<Event>, pos: nat, more: seq<seq<Event>>) {
    ghost predicate Valid(key: Key) {
      pos <= |frames| && PageOk(frames, key) && forall i | 0 <= i < |more| :: PageOk(more[i], key)
    }

    /** `Journal::next`: over a frame, over a page end, and nowhere from a blank header. */
    function Stepped(): Channel {
      if HasData() then this.(pos := pos + 1)
      else if more != [] then Channel(more[0], 0, more[1..])
      else this
    }

    /** The first frame of the page stamped later than `time`, or the end of the page. */
    function Sought(time: int): (k: nat)
      ensures k <= |frames|
    {
      SoughtFrom(time, 0)
    }

    function SoughtFrom(time: int, k: nat): (r: nat)
      ensures k <= |frames| ==> k <= r <= |frames|
      ensures k <= |frames| ==> forall i | k <= i < r :: frames[i].genTime <= time
      ensures k <= r < |frames| ==> frames[r].genTime > time
      decreases |frames| - k
    {
      if k < |frames| && frames[k].genTime <= time then SoughtFrom(time, k + 1) else k
    }

    predicate HasData() {
      pos < |frames|
    }

    function Front(): Event
      requires HasData()
    {
      frames[pos]
    }
  }

  datatype Option<T> = None | Some(value: T)

  /** The second loop of `seek_to_time`. */
  method SeekOnPage(start: Channel, time: int) returns (ch: Channel)
    requires start.pos == 0
    ensures ch == start.(pos := start.Sought(time))
  {
    ch := start;
    while ch.HasData() && ch.Front().genTime <= time
      invariant ch == start.(pos := ch.pos) && ch.pos <= |ch.frames|
      invariant start.SoughtFrom(time, ch.pos) == start.Sought(time)
      decreases |ch.frames| - ch.pos
    {
      ch := ch.Stepped();
    }
  }

  class Reader {
    var journals: map<Key, Channel>
    var current: Option<Key>

    ghost predicate Valid()
      reads this
    {
      && (current.Some? ==> current.value in journals)
      && forall k | k in journals :: journals[k].Valid(k)
    }

    /** A frame is there and was not stamped later than `now`. */
    predicate Eligible(k: Key, now: int)
      reads this
    {
      k in journals && journals[k].HasData() && journals[k].Front().genTime <= now
    }

    ghost predicate AnyEligible(now: int)
      reads this
    {
      exists k :: k in journals && Eligible(k, now)
    }

    ghost predicate Earliest(k: Key, now: int)
      reads this
    {
      && Eligible(k, now)
      && forall l | l in journals && Eligible(l, now) :: journals[k].Front().genTime <= journals[l].Front().genTime
    }

    constructor ()
      ensures Valid() && journals == map[] && current == None
    {
      journals, current := map[], None;
    }

    /** A journal that is joined already is left as it is; a new one is put behind what was stamped up to
        `from`, on the page that the search by time has loaded. Only a first journal makes the reader choose. */
    method Join(k: Key, frames: seq<Event>, more: seq<seq<Event>>, from: int, now: int)
      requires Valid() && Channel(frames, 0, more).Valid(k)
      modifies this
      ensures Valid()
      ensures journals == if k in old(journals) then old(journals)
                          else old(journals)[k := Channel(frames, Channel(frames, 0, more).Sought(from), more)]
      ensures old(current).Some? ==> current == old(current)
      ensures old(current).None?
              ==> if AnyEligible(now) then current.Some? && Earliest(current.value, now) else current == None
    {
      if k !in journals {
        var ch := SeekOnPage(Channel(frames, 0, more), from);
        journals := journals[k := ch];
      }
      if current == None {
        Sort(now);
      }
    }

    /** One pass over the joined journals, in an order of the hash map's choosing. The current journal
        becomes one with the earliest eligible frame; if there is none, it stays what it was. */
    method Sort(now: int)
      requires Valid()
      modifies this`current
      ensures Valid()
      ensures if AnyEligible(now)
              then current.Some? && Earliest(current.value, now)
              else current == old(current)
    {
      hide Channel.Valid;
      var minTime := now;
      var left := journals.Keys;
      var seen: set<Key> := {};
      while left != {}
        invariant seen + left == journals.Keys && seen !! left
        invariant minTime <= now
        invariant (exists k :: k in seen && Eligible(k, now)) ==>
                    current.Some? && current.value in seen && Eligible(current.value, now)
                    && journals[current.value].Front().genTime == minTime
        invariant (forall k | k in seen && Eligible(k, now) :: minTime <= journals[k].Front().genTime)
        invariant (forall k | k in seen :: !Eligible(k, now)) ==> current == old(current) && minTime == now
        decreases left
      {
        var k :| k in left;
        if journals[k].HasData() && journals[k].Front().genTime <= minTime {
          minTime := journals[k].Front().genTime;
          current := Some(k);
        }
        left, seen := left - {k}, seen + {k};
      }
    }

    method DataAvailable(now: int) returns (available: bool)
      requires Valid()
      modifies this`current
      ensures Valid()
      ensures if AnyEligible(now)
              then current.Some? && Earliest(current.value, now)
              else current == old(current)
      ensures available <==> current.Some? && journals[current.value].HasData()
    {
      Sort(now);
      available := current.Some? && journals[current.value].HasData();
    }

    /** If every frame has been stamped by `now`, an available frame is the earliest of all that
        remain, and if none is available none remains. */
    lemma AvailableIsEarliest(now: int, t: int)
      requires Valid() && AllStampedBy(journals, now) && now <= t
      requires AnyEligible(t) ==> current.Some? && Earliest(current.value, t)
      ensures if current.Some? && journals[current.value].HasData()
              then RemainingFrom(journals, journals[current.value].Front().genTime)
              else forall k | k in journals :: !journals[k].HasData()
    {
      forall k | k in journals && journals[k].HasData() ensures Eligible(k, t) {
      }
    }

    /** Steps the chosen journal, if one is chosen, over its frame or whatever else is there, and chooses again. */
    method Next(now: int)
      requires Valid()
      modifies this
      ensures Valid()
      ensures journals == if old(current).None? then old(journals)
                          else old(journals)[old(current.value) := old(journals[current.value]).Stepped()]
      ensures if AnyEligible(now) then current.Some? && Earliest(current.value, now) else current == old(current)
    {
      if current != None {
        journals := journals[current.value := journals[current.value].Stepped()];
      }
      Sort(now);
    }
  }

  // ---------- Delivered streams ----------

  ghost predicate Sorted(d: seq<Event>) {
    forall i, j | 0 <= i <= j < |d| :: d[i].genTime <= d[j].genTime
  }

  /** The part of a stream that comes from one journal, in the order of the stream. */
  function From(d: seq<Event>, k: Key): seq<Event> {
    if d == [] then []
    else From(d[..|d| - 1], k) + if d[|d| - 1].key == k then [d[|d| - 1]] else []
  }

  lemma FromAppend(d: seq<Event>, e: Event, k: Key)
    ensures From(d + [e], k) == From(d, k) + if e.key == k then [e] else []
  {
    assert (d + [e])[..|d|] == d;
  }

  /** `d` takes the journals from `before` to `after`: each gives up its next frames, in its own order. */
  ghost predicate Consumed(before: map<Key, Channel>, after: map<Key, Channel>, d: seq<Event>) {
    && before.Keys == after.Keys
    && (forall k | k in before :: after[k].frames == before[k].frames && after[k].more == before[k].more)
    && (forall k | k in before :: before[k].pos <= after[k].pos <= |before[k].frames|)
    && (forall k | k in before :: From(d, k) == before[k].frames[before[k].pos..after[k].pos])
    && (forall i | 0 <= i < |d| :: d[i].key in before)
  }

  ghost predicate AllStampedBy(journals: map<Key, Channel>, now: int) {
    forall k, i | k in journals && 0 <= i < |journals[k].frames| :: journals[k].frames[i].genTime <= now
  }

  ghost predicate RemainingFrom(journals: map<Key, Channel>, t: int) {
    forall k, i | k in journals && journals[k].pos <= i < |journals[k].frames| :: t <= journals[k].frames[i].genTime
  }

  /** `d` is what a drain that started from `before` has delivered when it stands at `after`. */
  ghost predicate Delivers(before: map<Key, Channel>, after: map<Key, Channel>, d: seq<Event>, endTime: int) {
    && Sorted(d)
    && Consumed(before, after, d)
    && (forall i | 0 <= i < |d| :: d[i].genTime <= endTime)
    && (d != [] ==> RemainingFrom(after, d[|d| - 1].genTime))
  }

  function Advance(journals: map<Key, Channel>, k: Key): map<Key, Channel>
    requires k in journals
  {
    journals[k := journals[k].(pos := journals[k].pos + 1)]
  }

  lemma SteppedOver(journals: map<Key, Channel>, k: Key)
    requires k in journals && journals[k].HasData()
    ensures journals[k := journals[k].Stepped()] == Advance(journals, k)
  {
  }

  lemma ConsumeOne(before: map<Key, Channel>, journals: map<Key, Channel>, d: seq<Event>, k: Key)
    requires Consumed(before, journals, d) && k in journals && journals[k].Valid(k) && journals[k].HasData()
    ensures Consumed(before, Advance(journals, k), d + [journals[k].Front()])
  {
    hide From;
    var e, after := journals[k].Front(), Advance(journals, k);
    forall l | l in before
      ensures From(d + [e], l) == before[l].frames[before[l].pos..after[l].pos]
    {
      FromAppend(d, e, l);
      if l == k {
        assert before[k].frames[before[k].pos..after[k].pos]
               == before[k].frames[before[k].pos..journals[k].pos] + [before[k].frames[journals[k].pos]];
      }
    }
  }

  /** The earliest frame of all may be delivered next. */
  lemma DeliverOne(before: map<Key, Channel>, journals: map<Key, Channel>, d: seq<Event>, k: Key, endTime: int)
    requires Delivers(before, journals, d, endTime)
    requires k in journals && journals[k].Valid(k) && journals[k].HasData()
    requires RemainingFrom(journals, journals[k].Front().genTime) && journals[k].Front().genTime <= endTime
    ensures Delivers(before, Advance(journals, k), d + [journals[k].Front()], endTime)
    ensures d != [] ==> d[|d| - 1].genTime <= journals[k].Front().genTime
  {
    hide Consumed;
    ConsumeOne(before, journals, d, k);
  }

  lemma DeliverNone(journals: map<Key, Channel>, endTime: int)
    requires forall k | k in journals :: journals[k].Valid(k)
    ensures Delivers(journals, journals, [], endTime)
  {
  }

  lemma StampedAdvance(journals: map<Key, Channel>, k: Key, now: int)
    requires k in journals && AllStampedBy(journals, now)
    ensures AllStampedBy(Advance(journals, k), now)
  {
  }

  lemma RemainingLater(journals: map<Key, Channel>, t: int, u: int)
    requires RemainingFrom(journals, t) && u <= t
    ensures RemainingFrom(journals, u)
  {
  }

  ghost function Left(journals: map<Key, Channel>): nat {
    if journals == map[] then 0
    else
      var k :| k in journals;
      LeftIn(journals[k]) + Left(journals - {k})
  }

  function LeftIn(ch: Channel): nat {
    if ch.pos <= |ch.frames| then |ch.frames| - ch.pos else 0
  }

  lemma {:induction false} LeftWithout(journals: map<Key, Channel>, k: Key)
    requires k in journals
    ensures Left(journals) == LeftIn(journals[k]) + Left(journals - {k})
    decreases |journals|
  {
    var l :| l in journals && Left(journals) == LeftIn(journals[l]) + Left(journals - {l});
    if l != k {
      LeftWithout(journals - {l}, k);
      LeftWithout(journals - {k}, l);
      assert journals - {l} - {k} == journals - {k} - {l};
    }
  }

  lemma LeftAdvance(journals: map<Key, Channel>, k: Key)
    requires k in journals && journals[k].HasData()
    ensures Left(Advance(journals, k)) < Left(journals)
  {
    LeftWithout(journals, k);
    LeftWithout(Advance(journals, k), k);
    assert Advance(journals, k) - {k} == journals - {k};
  }

  // ---------- The engine ----------

  /** The last event stops the engine. */
  predicate Stops(stops: Event -> bool, d: seq<Event>) {
    d != [] && stops(d[|d| - 1])
  }

  /** Some event in front of the last one should have stopped it. */
  predicate StopsBefore(stops: Event -> bool, d: seq<Event>) {
    exists i | 0 <= i < |d| - 1 :: stops(d[i])
  }

  lemma StopsOn(stops: Event -> bool, d: seq<Event>)
    ensures d == [] ==> !Stops(stops, d) && !StopsBefore(stops, d)
  {
  }

  lemma StopsAppend(stops: Event -> bool, d: seq<Event>, e: Event)
    requires !Stops(stops, d) && !StopsBefore(stops, d)
    ensures Stops(stops, d + [e]) == stops(e) && !StopsBefore(stops, d + [e])
  {
  }

  /** What one event handed on changes. */
  lemma OneDelivered(before: map<Key, Channel>, journals: map<Key, Channel>, d: seq<Event>, k: Key, endTime: int,
                     now: int)
    requires Delivers(before, journals, d, endTime) && AllStampedBy(journals, now)
    requires k in journals && journals[k].Valid(k) && journals[k].HasData()
    requires RemainingFrom(journals, journals[k].Front().genTime) && journals[k].Front().genTime <= endTime
    ensures var after := journals[k := journals[k].Stepped()];
            && Delivers(before, after, d + [journals[k].Front()], endTime)
            && Left(after) < Left(journals) && AllStampedBy(after, now)
    ensures d != [] ==> d[|d| - 1].genTime <= journals[k].Front().genTime
  {
    hide Delivers, Left, RemainingFrom, AllStampedBy, Channel.Valid;
    SteppedOver(journals, k);
    DeliverOne(before, journals, d, k, endTime);
    LeftAdvance(journals, k);
    StampedAdvance(journals, k, now);
  }

  /** Some journal has a frame left on the page its cursor is on. */
  ghost predicate AnyData(journals: map<Key, Channel>) {
    exists k | k in journals :: journals[k].HasData()
  }

  lemma SomeOrNone(journals: map<Key, Channel>, current: Option<Key>)
    requires current.Some? ==> current.value in journals
    ensures current.Some? && journals[current.value].HasData() ==> AnyData(journals)
    ensures (forall k | k in journals :: !journals[k].HasData()) ==> !AnyData(journals)
  {
  }

  class EventEngine {
    const reader: Reader
    const endTime: int
    /** The subscriber stops the engine on these events. */
    const stops: Event -> bool
    var live: bool
    var nowEventTime: int
    var delivered: seq<Event>

    constructor (reader: Reader, endTime: int, stops: Event -> bool)
      ensures this.reader == reader && this.endTime == endTime && this.stops == stops
      ensures live && nowEventTime == 0 && delivered == []
    {
      this.reader, this.endTime, this.stops := reader, endTime, stops;
      live, nowEventTime, delivered := true, 0, [];
    }

    /** Hand the event to the subscriber. */
    method OnNext(e: Event)
      modifies this`live, this`delivered
      ensures delivered == old(delivered) + [e]
      ensures live == (old(live) && !stops(e))
    {
      delivered := delivered + [e];
      if stops(e) {
        live := false;
      }
    }

    /** Deliver what the journals hold, as long as the engine is live and the end time is not reached.
        `now` is the clock on entry and no frame is stamped later. The stream `d` that is delivered is
        sorted, is an interleaving of the next frames of each journal, and stops exactly where it should. The
        answer is that there may be more, unless the live engine has come to a frame behind the end time. */
    method Drain(now: int) returns (more: bool, ghost d: seq<Event>)
      requires reader.Valid() && AllStampedBy(reader.journals, now)
      modifies this, reader
      ensures reader.Valid()
      ensures delivered == old(delivered) + d
      ensures Delivers(old(reader.journals), reader.journals, d, endTime)
      ensures live == (old(live) && !Stops(stops, d)) && !StopsBefore(stops, d)
      ensures !more <==> live && AnyData(reader.journals)
      ensures !more ==> RemainingFrom(reader.journals, endTime + 1)
      ensures nowEventTime == LastTime(d, old(nowEventTime))
    {
      hide Delivers, Left, RemainingFrom, Channel.Valid, AllStampedBy, Advance, Reader.Earliest, Reader.Eligible,
        Reader.AnyEligible, AnyData, LastTime, Stops;
      d := [];
      StopsOn(stops, d);
      LastTimeAppend(d, Event(0, 0, 0), nowEventTime);
      DeliverNone(reader.journals, endTime);
      while live
        invariant reader.Valid() && AllStampedBy(reader.journals, now)
        invariant delivered == old(delivered) + d
        invariant Delivers(old(reader.journals), reader.journals, d, endTime)
        invariant live == (old(live) && !Stops(stops, d)) && !StopsBefore(stops, d)
        invariant nowEventTime == LastTime(d, old(nowEventTime))
        decreases Left(reader.journals), live
      {
        var t := ReadClock(now);
        var available := reader.DataAvailable(t);
        reader.AvailableIsEarliest(now, t);
        SomeOrNone(reader.journals, reader.current);
        if !available {
          break;
        }
        var k := reader.current.value;
        var e := reader.journals[k].Front();
        if e.genTime > endTime {
          RemainingLater(reader.journals, e.genTime, endTime + 1);
          return false, d;
        }
        OneDelivered(old(reader.journals), reader.journals, d, k, endTime, now);
        LastTimeAppend(d, e, old(nowEventTime));
        StopsAppend(stops, d, e);
        if e.genTime > nowEventTime {
          nowEventTime := e.genTime;
        }
        OnNext(e);
        reader.Next(t);
        d := d + [e];
      }
      more := true;
    }
  }

  /** The event clock after a drain: the stamp of the last event, unless the clock was ahead of it. */
  function LastTime(d: seq<Event>, before: int): int {
    if d == [] || d[|d| - 1].genTime <= before then before else d[|d| - 1].genTime
  }

  lemma LastTimeAppend(d: seq<Event>, e: Event, before: int)
    requires d != [] ==> d[|d| - 1].genTime <= e.genTime
    ensures LastTime([], before) == before
    ensures LastTime(d + [e], before) == if e.genTime > LastTime(d, before) then e.genTime else LastTime(d, before)
  {
  }

  // ---------- What a finished drain has delivered ----------

  /** When a drain comes back with the engine live, each journal has given up, of the page its cursor is on,
      exactly the frames stamped at or before the end time, and its cursor is still on that page. */
  lemma DeliversExactly(before: map<Key, Channel>, after: map<Key, Channel>, d: seq<Event>, endTime: int, k: Key,
                        i: nat)
    requires Delivers(before, after, d, endTime)
    requires RemainingFrom(after, endTime + 1) || forall l | l in after :: !after[l].HasData()
    requires k in before && before[k].pos <= i < |before[k].frames|
    ensures before[k].frames[i].genTime <= endTime <==> i < after[k].pos
    ensures after[k].frames == before[k].frames && after[k].more == before[k].more
  {
    hide Sorted, From, Channel.Valid;
    if i < after[k].pos {
      var part := before[k].frames[before[k].pos..after[k].pos];
      assert From(d, k) == part && part[i - before[k].pos] == before[k].frames[i];
      FromIn(d, k, i - before[k].pos);
      InTime(d, endTime, before[k].frames[i]);
    }
  }

  lemma InTime(d: seq<Event>, endTime: int, e: Event)
    requires e in d && forall i | 0 <= i < |d| :: d[i].genTime <= endTime
    ensures e.genTime <= endTime
  {
  }

  lemma {:induction false} FromIn(d: seq<Event>, k: Key, i: nat)
    requires i < |From(d, k)|
    ensures From(d, k)[i] in d
  {
    var rest := d[..|d| - 1];
    if i < |From(rest, k)| {
      FromIn(rest, k, i);
    }
  }

  lemma {:induction false} InFrom(d: seq<Event>, e: Event)
    requires e in d
    ensures e in From(d, e.key)
  {
    var rest := d[..|d| - 1];
    if e in rest {
      InFrom(rest, e);
    } else {
      assert d == rest + [d[|d| - 1]];
    }
  }

  ghost predicate StrictlySorted(d: seq<Event>) {
    forall i, j | 0 <= i < j < |d| :: d[i].genTime < d[j].genTime
  }

  /** With distinct stamps the merged stream does not depend on the order in which the hash map is searched. */
  lemma {:induction false} StreamIsUnique(d1: seq<Event>, d2: seq<Event>)
    requires StrictlySorted(d1) && StrictlySorted(d2)
    requires forall k :: From(d1, k) == From(d2, k)
    ensures d1 == d2
  {
    forall e ensures e in d1 <==> e in d2 {
      if e in d1 {
        InFrom(d1, e);
        var i :| 0 <= i < |From(d2, e.key)| && From(d2, e.key)[i] == e;
        FromIn(d2, e.key, i);
      }
      if e in d2 {
        InFrom(d2, e);
        var i :| 0 <= i < |From(d1, e.key)| && From(d1, e.key)[i] == e;
        FromIn(d1, e.key, i);
      }
    }
    SameElements(d1, d2);
  }

  lemma {:induction false} SameElements(d1: seq<Event>, d2: seq<Event>)
    requires StrictlySorted(d1) && StrictlySorted(d2)
    requires forall e :: e in d1 <==> e in d2
    ensures d1 == d2
    decreases |d1|
  {
    assert d2 == [] || d2[0] in d2;
    if d1 != [] {
      assert d1[0] in d2;
      assert d2[0] in d1;
      assert d1[0] == d2[0];
      forall e ensures e in d1[1..] <==> e in d2[1..] {
        assert e in d1[1..] <==> e in d1 && e != d1[0];
        assert e in d2[1..] <==> e in d2 && e != d2[0];
      }
      SameElements(d1[1..], d2[1..]);
    }
  }

  /** The clock does not run backwards. */
  method ReadClock(now: int) returns (t: int)
    ensures t >= now
  {
    t :| t >= now;
  }
}
