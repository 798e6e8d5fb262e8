/** That the engines do not wait for one another for ever: they get on until CP has stopped, as long as the pages
    have room, and come to a stall exactly if the token or the termination has been lost. */
module LockStepProgress {
  import opened LockStep
  import opened LockStepInvariant
  import opened LockStepSteps
  import opened LockStepRuns

  /** CP has not finished, and no engine can do anything. */
  ghost predicate Stalled(s: Sys) {
    (s.cp.live || s.cp.todo != []) && forall a :: !Enabled(s, a)
  }

  /** Of the journals CP has joined, one with the earliest front. */
  function CpChoice(js: Journals): Chan {
    if js.bars != [] && (js.mdResp == [] || js.bars[0].time <= js.mdResp[0].time)
       && (js.tdResp == [] || js.bars[0].time <= js.tdResp[0].time) then Bars
    else if js.mdResp != [] && (js.tdResp == [] || js.mdResp[0].time <= js.tdResp[0].time) then MdResp
    else TdResp
  }

  /** Of the journals TD has joined, one with the earliest front. */
  function TdChoice(js: Journals): Chan {
    if js.orders == [] || (js.tdReq != [] && js.tdReq[0].time <= js.orders[0].time) then TdReq else Orders
  }

  /** A step that can be taken if any can; in it the clock advances, and neither the strategy nor the matching
      comes up with anything. */
  function Next(s: Sys): Action {
    if s.cp.todo != [] then CpWrite(1)
    else if s.md.todo != [] then MdWrite(1)
    else if s.td.todo != [] then TdWrite(1)
    else if s.cp.live && !(s.js.bars == [] && s.js.mdResp == [] && s.js.tdResp == []) then CpRead(CpChoice(s.js), [])
    else if s.md.live && s.js.mdReq != [] then MdRead
    else TdRead(TdChoice(s.js), [])
  }

  lemma SomeMeansNext(s: Sys, a: Action)
    requires Enabled(s, a)
    ensures Enabled(s, Next(s))
  {
    GetsThem(s.js);
  }

  lemma GetsThem(js: Journals)
    ensures js.Get(MdReq) == js.mdReq && js.Get(MdResp) == js.mdResp && js.Get(Bars) == js.bars
    ensures js.Get(TdReq) == js.tdReq && js.Get(Orders) == js.orders && js.Get(TdResp) == js.tdResp
  {
  }

  /** Something is to be written, or to be read by an engine that has not stopped. */
  predicate Busy(s: Sys) {
    || s.cp.todo != [] || s.md.todo != [] || s.td.todo != []
    || (s.cp.live && !(s.js.bars == [] && s.js.mdResp == [] && s.js.tdResp == []))
    || (s.md.live && s.js.mdReq != []) || (s.td.live && !(s.js.tdReq == [] && s.js.orders == []))
  }

  lemma BusyMeansNext(s: Sys)
    requires Busy(s)
    ensures Enabled(s, Next(s))
  {
    GetsThem(s.js);
  }

  lemma AmidSome(ms: seq<Stamped>)
    ensures TokenAmid(ms) ==> ms != []
  {
  }

  /** While the token is not lost and CP has not finished, there is something to do. */
  lemma NextMay(s: Sys, ph: Phase, all: seq<Row>)
    requires At(s, ph, all) && (s.cp.live || s.cp.todo != []) && ph != Lost
    ensures Enabled(s, Next(s))
  {
    hide Typed, StartComesFirst, Conserved, LossesOk, ValidGeometry, Parted, Replied, OnOrders, StartsFresh, RolledOk,
      TdRespOk, EndedEmpty, StartsOnly, OrderOutsOnly, Launching, RespsOnly, ReportsOnly, TokenAmid, Enabled, Next;
    AmidSome(s.js.tdResp);
    assert s.cp.todo == [] ==> ph != CpToMd by { NothingLaunched(s); }
    BusyMeansNext(s);
  }

  lemma NothingLaunched(s: Sys)
    ensures Launching(s.cp.todo) ==> s.cp.todo != []
  {
  }

  lemma NextInTime(s: Sys)
    requires Typed(s)
    ensures Timely(s, Next(s))
  {
    hide HasRoom;
    assert Before(s.js.Get(Orders), s.clock + 1) && Before(s.js.Get(Bars), s.clock + 1)
           && Before(s.js.Get(TdReq), s.clock + 1);
  }

  /** As long as neither the token nor the termination has been written behind a first page, some engine can step
      until CP has stopped. */
  lemma NeverStuck(s: Sys, rows: seq<Row>)
    requires Reachable(s, rows) && (s.cp.live || s.cp.todo != []) && !s.t.lost.signal
    ensures exists a :: Timely(s, a) && Enabled(s, a)
  {
    hide Reachable, At, Timely, Enabled;
    var ph := ReachableAt(s, rows);
    LostIsLost(s, ph, rows);
    NextMay(s, ph, rows);
    NextInTimeAt(s, ph, rows);
  }

  lemma NextInTimeAt(s: Sys, ph: Phase, all: seq<Row>)
    requires At(s, ph, all)
    ensures Timely(s, Next(s))
  {
    hide Typed, Timely, Shape, TdShape, Parted, Conserved, Replied, StartComesFirst, Counted;
    NextInTime(s);
  }

  // ---------- What is used up ----------

  /** How far the token has to go before MD reads the next row; the last stations have no row to read. */
  function Stage(ph: Phase): nat {
    match ph
    case InMd => 10
    case FromMd => 9
    case CpToTd => 8
    case AtTd => 7
    case InTd => 6
    case FromTd => 5
    case CpToMd => 4
    case AtMd => 3
    case Ending => 2
    case EndForCp => 1
    case Ended => 0
    case Lost => 0
  }

  /** What is to be written and to be read; a request weighs more than the answer to it. */
  function Load(s: Sys): nat {
    4 * |s.cp.todo| + 2 * |s.md.todo| + 2 * |s.td.todo|
    + 3 * |s.js.orders| + |s.js.tdReq| + |s.js.mdReq| + |s.js.mdResp| + |s.js.bars| + |s.js.tdResp|
  }

  /** No run of the steps `Next` from a state whose token is at `ph` is longer. */
  function Fuel(s: Sys, ph: Phase): nat {
    200 * |s.rows| + 20 * Stage(ph) + Load(s)
  }

  lemma PostLoad(s: Sys, dt: nat, o: Out)
    ensures var t := Post(s, dt, o);
            && t.rows == s.rows && t.cp == s.cp && t.md == s.md && t.td == s.td
            && Load(t) <= Load(s) + (if o.chan == Orders then 3 else 1)
  {
    hide HasRoom, Filled, Sent, Missed;
  }

  lemma TakeLoad(s: Sys, c: Chan)
    requires s.js.Get(c) != []
    ensures Load(s.(js := Take(s.js, c))) == Load(s) - (if c == Orders then 3 else 1)
  {
  }

  lemma NextWrite(s: Sys, ph: Phase)
    requires Shape(s, ph) && TdShape(s, ph) && Enabled(s, Next(s))
             && (Next(s).CpWrite? || Next(s).MdWrite? || Next(s).TdWrite?)
    ensures Load(Step(s, Next(s))) < Load(s) && Step(s, Next(s)).rows == s.rows
    ensures var ph' := NextPhase(s, ph, Next(s)); Stage(ph') <= Stage(ph)
  {
    hide Shape, TdShape, Post, HasRoom, OutOfRows;
    OutsElsewhere(s, ph);
    if s.cp.todo != [] {
      PostLoad(s.(cp := Rest(s.cp)), 1, s.cp.todo[0]);
    } else if s.md.todo != [] {
      PostLoad(s.(md := Rest(s.md)), 1, s.md.todo[0]);
    } else {
      TdOut(s, ph);
      PostLoad(s.(td := Rest(s.td)), 1, s.td.todo[0]);
    }
  }

  lemma CpReadLoad(s: Sys, c: Chan)
    requires Enabled(s, CpRead(c, [])) && s.js.Get(c) != [] && c != Orders
    ensures var t := Step(s, CpRead(c, [])); var m := s.js.Get(c)[0].msg;
            t.rows == s.rows && Load(t) + 1 <= Load(s) + (if m.Token? || m == End then 12 else 0)
  {
    hide Take, Chosen;
    TakeLoad(s, c);
  }

  lemma NextCpRead(s: Sys, ph: Phase, c: Chan)
    requires Shape(s, ph) && TdShape(s, ph) && OnOrders(s.js.orders, ph) && Enabled(s, CpRead(c, []))
    ensures Fuel(Step(s, CpRead(c, [])), NextPhase(s, ph, CpRead(c, []))) < Fuel(s, ph)
  {
    hide Shape, TdShape, OnOrders, Step, Load, OutOfRows;
    var a := CpRead(c, []);
    ReadsSomething(s, a);
    CpReadLoad(s, c);
    if ph == Lost {
      LostMeansSilent(s);
      SilentTake(s, c);
    } else {
      CpFront(s, ph, c, []);
    }
  }

  lemma NextMdRead(s: Sys, ph: Phase)
    requires Shape(s, ph) && TdShape(s, ph) && OnOrders(s.js.orders, ph) && StartComesFirst(s) && Enabled(s, MdRead)
    ensures Fuel(Step(s, MdRead), NextPhase(s, ph, MdRead)) < Fuel(s, ph)
  {
    hide Shape, TdShape, OnOrders, StartComesFirst, Take, Chosen;
    ReadsSomething(s, MdRead);
    TakeLoad(s, MdReq);
    MdReadsAt(s, ph);
  }

  /** TD writes at most one answer to a request. */
  lemma OneReply(req: Req)
    ensures |Reply(req)| <= 1
  {
  }

  lemma TdReadLoad(s: Sys, c: Chan)
    requires Enabled(s, TdRead(c, [])) && s.js.Get(c) != [] && (s.js.Get(c)[0].msg.Order? ==> c == Orders)
    ensures var t := Step(s, TdRead(c, [])); var m := s.js.Get(c)[0].msg;
            t.rows == s.rows && Load(t) + 1 <= Load(s) + (if m.Token? then 2 else 0)
  {
    hide Take, Chosen, Reply;
    TakeLoad(s, c);
    if s.js.Get(c)[0].msg.Order? {
      OneReply(s.js.Get(c)[0].msg.req);
    }
  }

  lemma NextTdRead(s: Sys, ph: Phase, c: Chan)
    requires Shape(s, ph) && TdShape(s, ph) && OnOrders(s.js.orders, ph) && Typed(s) && Enabled(s, TdRead(c, []))
    ensures Fuel(Step(s, TdRead(c, [])), NextPhase(s, ph, TdRead(c, []))) < Fuel(s, ph)
  {
    hide Shape, TdShape, OnOrders, Step, Load, OutOfRows, JournalsFit, OutsFit;
    ReadsSomething(s, TdRead(c, []));
    TakeKeeps(s.js, s.clock, c);
    TdReadsAt(s, ph, c, []);
    TdReadLoad(s, c);
  }

  lemma NextUses(s: Sys, ph: Phase, all: seq<Row>)
    requires At(s, ph, all) && Enabled(s, Next(s))
    ensures Fuel(Step(s, Next(s)), NextPhase(s, ph, Next(s))) < Fuel(s, ph)
  {
    hide Shape, TdShape, OnOrders, StartComesFirst, Typed, Parted, Conserved, Replied, Counted, Step, NextPhase,
      Enabled;
    match Next(s) {
      case CpRead(c, _) => NextCpRead(s, ph, c);
      case MdRead => NextMdRead(s, ph);
      case TdRead(c, _) => NextTdRead(s, ph, c);
      case _ => NextWrite(s, ph);
    }
  }

  // ---------- Runs to the end ----------

  /** Every page has room for `n` more messages of at most `b` bytes each, and no message is longer. */
  ghost predicate Roomy(d: Disk, b: nat, n: nat) {
    && (forall m: Msg :: d.g.size(m) <= b)
    && forall c: Chan :: !d.pages.Get(c).rolled && d.pages.Get(c).used + n * b < d.g.room(c)
  }

  lemma {:induction false} MoreFill(b: nat, m: nat, n: nat)
    requires m <= n
    ensures m * b <= n * b
    decreases n - m
  {
    if m < n {
      MoreFill(b, m, n - 1);
      assert n * b == (n - 1) * b + b;
    }
  }

  lemma FewerFit(b: nat, n: nat, n': nat)
    requires n' < n
    ensures n' * b + b <= n * b
  {
    MoreFill(b, n' + 1, n);
    assert (n' + 1) * b == n' * b + b;
  }

  lemma RoomyPost(s: Sys, dt: nat, o: Out, b: nat, n: nat, n': nat)
    requires Roomy(s.disk, b, n) && n' < n
    ensures HasRoom(s.disk, o) && Roomy(Post(s, dt, o).disk, b, n')
  {
    hide Sent, Missed, Send;
    FewerFit(b, n, n');
    var p := s.disk.pages.Get(o.chan);
    assert s.disk.g.size(o.msg) <= b && !p.rolled && p.used + n * b < s.disk.g.room(o.chan);
    forall c: Chan
      ensures !Filled(s.disk, o).pages.Get(c).rolled && Filled(s.disk, o).pages.Get(c).used + n' * b < s.disk.g.room(c)
    {
      assert s.disk.pages.Get(c).used + n * b < s.disk.g.room(c) && !s.disk.pages.Get(c).rolled;
    }
  }

  lemma RoomyLess(d: Disk, b: nat, n: nat, n': nat)
    requires Roomy(d, b, n) && n' < n
    ensures Roomy(d, b, n')
  {
    hide Pages.Get;
    FewerFit(b, n, n');
    forall c: Chan
      ensures !d.pages.Get(c).rolled && d.pages.Get(c).used + n' * b < d.g.room(c)
    {
      assert d.pages.Get(c).used + n * b < d.g.room(c) && !d.pages.Get(c).rolled;
    }
  }

  /** Where pages have room, a step leaves them with room for one message less and does not lose the token. */
  lemma RoomyStep(s: Sys, ph: Phase, a: Action, b: nat, n: nat, n': nat)
    requires Roomy(s.disk, b, n) && n' < n && Enabled(s, a) && ph != Lost
    ensures Roomy(Step(s, a).disk, b, n') && NextPhase(s, ph, a) != Lost
  {
    hide Roomy, Post, HasRoom, Take, Chosen, OrderOuts, TradeOuts, Reply, Answer, OutOfRows;
    match a {
      case CpWrite(dt) => RoomyPost(s.(cp := Rest(s.cp)), dt, s.cp.todo[0], b, n, n');
      case MdWrite(dt) => RoomyPost(s.(md := Rest(s.md)), dt, s.md.todo[0], b, n, n');
      case TdWrite(dt) => RoomyPost(s.(td := Rest(s.td)), dt, s.td.todo[0], b, n, n');
      case _ => RoomyLess(s.disk, b, n, n');
    }
  }

  // ---------- The termination is passed on ----------

  predicate HasEnd(ms: seq<Stamped>) {
    exists i | 0 <= i < |ms| :: ms[i].msg == End
  }

  predicate EndOut(outs: seq<Out>, c: Chan) {
    exists i | 0 <= i < |outs| :: outs[i] == Out(c, End)
  }

  /** CP still has to write the termination to `c`, or it is unread there, or the journal has rolled. */
  predicate EndOnTheWay(s: Sys, c: Chan) {
    s.disk.pages.Get(c).rolled || HasEnd(s.js.Get(c)) || EndOut(s.cp.todo, c)
  }

  /** Once CP has stopped, MD and TD have stopped too or will be told to. */
  predicate EndsAhead(s: Sys) {
    !s.cp.live ==> (s.md.live ==> EndOnTheWay(s, MdReq)) && (s.td.live ==> EndOnTheWay(s, TdReq))
  }

  lemma EndWritten(s: Sys, dt: nat, c: Chan)
    requires s.cp.todo != [] && EndOnTheWay(s, c)
    ensures EndOnTheWay(Step(s, CpWrite(dt)), c)
  {
    hide Sent, Missed, HasRoom;
    var o, t := s.cp.todo[0], Step(s, CpWrite(dt));
    PostPages(s.(cp := Rest(s.cp)), dt, o);
    if HasEnd(s.js.Get(c)) {
      EndKept(s.js.Get(c), t.js.Get(c));
    } else if EndOut(s.cp.todo, c) && !s.disk.pages.Get(c).rolled && o != Out(c, End) {
      var i :| 0 <= i < |s.cp.todo| && s.cp.todo[i] == Out(c, End);
      assert t.cp.todo[i - 1] == Out(c, End);
    } else if o == Out(c, End) && !t.disk.pages.Get(c).rolled {
      assert t.js.Get(c)[|s.js.Get(c)|].msg == End;
    }
  }

  lemma EndKept(ms: seq<Stamped>, ms': seq<Stamped>)
    requires HasEnd(ms) && ms <= ms'
    ensures HasEnd(ms')
  {
    var i :| 0 <= i < |ms| && ms[i].msg == End;
    assert ms'[i] == ms[i];
  }

  lemma EndBehind(ms: seq<Stamped>)
    requires HasEnd(ms) && ms[0].msg != End
    ensures HasEnd(ms[1..])
  {
    var i :| 0 <= i < |ms| && ms[i].msg == End;
    assert ms[1..][i - 1] == ms[i];
  }

  /** Another engine's write leaves it on the way. */
  lemma EndBeside(s: Sys, u: Sys, dt: nat, o: Out, c: Chan)
    requires EndOnTheWay(s, c) && u.js == s.js && u.disk == s.disk && u.cp == s.cp && o.chan != c
    ensures EndOnTheWay(Post(u, dt, o), c)
  {
    hide Sent, Missed, HasRoom;
    PostAside(u, dt, o, c);
  }

  lemma EndsTold(s: Sys, c: Chan, orders: seq<Req>)
    requires Enabled(s, CpRead(c, orders)) && EndsAhead(s) && s.js.Get(c) != []
    ensures EndsAhead(Step(s, CpRead(c, orders)))
  {
    hide Take, Chosen, OrderOuts, HasEnd, Journals.Get;
    if s.js.Get(c)[0].msg == End {
      var t := Step(s, CpRead(c, orders));
      assert t.cp.todo[0] == Out(MdReq, End) && t.cp.todo[1] == Out(TdReq, End);
    }
  }

  lemma EndTaken(s: Sys, u: Sys, c: Chan, d: Chan)
    requires EndOnTheWay(s, d) && s.js.Get(c) != [] && u.js == Take(s.js, c) && u.disk == s.disk && u.cp == s.cp
    requires c == d ==> s.js.Get(c)[0].msg != End
    ensures EndOnTheWay(u, d)
  {
    hide HasEnd, EndOut;
    if c == d {
      if HasEnd(s.js.Get(c)) {
        EndBehind(s.js.Get(c));
      }
    } else {
      TakenAside(s.js, c, d);
    }
  }

  lemma EndsPassed(s: Sys, a: Action)
    requires Enabled(s, a) && EndsAhead(s) && (a.MdRead? || a.TdRead?)
    ensures EndsAhead(Step(s, a))
  {
    hide Take, Chosen, EndOnTheWay, OutOfRows, Answer, TradeOuts, Reply, Journals.Get;
    ReadsSomething(s, a);
    var c := if a.MdRead? then MdReq else a.chan;
    var t := Step(s, a);
    if !s.cp.live {
      if t.md.live {
        EndTaken(s, t, c, MdReq);
      }
      if t.td.live {
        EndTaken(s, t, c, TdReq);
      }
    }
  }

  lemma EndsStep(s: Sys, a: Action)
    requires EndsAhead(s) && ToCp(s.md.todo) && ToCp(s.td.todo)
    ensures EndsAhead(Step(s, a))
  {
    hide EndOnTheWay, Post, Take, Chosen, CpHandle, MdHandle, TdHandle;
    if Enabled(s, a) {
      match a {
        case CpWrite(dt) =>
          PostStarted(s.(cp := Rest(s.cp)), dt, s.cp.todo[0]);
          if !s.cp.live && s.md.live {
            EndWritten(s, dt, MdReq);
          }
          if !s.cp.live && s.td.live {
            EndWritten(s, dt, TdReq);
          }
        case MdWrite(dt) => EndsBeside(s, s.(md := Rest(s.md)), dt, s.md.todo[0]);
        case TdWrite(dt) => EndsBeside(s, s.(td := Rest(s.td)), dt, s.td.todo[0]);
        case CpRead(c, orders) =>
          ReadsSomething(s, a);
          EndsTold(s, c, orders);
        case _ => EndsPassed(s, a);
      }
    }
  }

  lemma EndsBeside(s: Sys, u: Sys, dt: nat, o: Out)
    requires EndsAhead(s) && u.js == s.js && u.disk == s.disk && u.cp == s.cp
    requires u.md.live == s.md.live && u.td.live == s.td.live && o.chan != MdReq && o.chan != TdReq
    ensures EndsAhead(Post(u, dt, o))
  {
    hide EndOnTheWay, Post;
    PostStarted(u, dt, o);
    if !s.cp.live && s.md.live {
      EndBeside(s, u, dt, o, MdReq);
    }
    if !s.cp.live && s.td.live {
      EndBeside(s, u, dt, o, TdReq);
    }
  }

  lemma EndsStepAt(s: Sys, ph: Phase, a: Action, all: seq<Row>)
    requires At(s, ph, all) && EndsAhead(s)
    ensures EndsAhead(Step(s, a))
  {
    hide Shape, TdShape, EndsAhead, Step, Typed, Parted, Counted, Conserved;
    OutsToCp(s, ph);
    EndsStep(s, a);
  }

  lemma {:induction false} EndsThrough(s: Sys, ph: Phase, acts: seq<Action>, all: seq<Row>)
    requires At(s, ph, all) && TimelyRun(s, acts) && EndsAhead(s)
    ensures EndsAhead(Exec(s, acts))
    decreases |acts|
  {
    hide At, EndsAhead, Step, NextPhase, Timely;
    if acts != [] {
      AtStep(s, ph, acts[0], all);
      EndsStepAt(s, ph, acts[0], all);
      EndsThrough(Step(s, acts[0]), NextPhase(s, ph, acts[0]), acts[1..], all);
    }
  }

  lemma ReachableEnds(s: Sys, rows: seq<Row>)
    requires Reachable(s, rows)
    ensures EndsAhead(s)
  {
    hide At, Exec, TimelyRun, ValidGeometry, EndOnTheWay, PreStart;
    var g, ordersFirst, reqs, acts :|
      && ValidGeometry(g) && TimelyRun(Initial(g, ordersFirst, reqs, rows), acts)
      && s == Exec(Initial(g, ordersFirst, reqs, rows), acts);
    InitialAt(g, ordersFirst, reqs, rows);
    EndsThrough(Initial(g, ordersFirst, reqs, rows), CpToMd, acts, rows);
  }

  predicate NoneRolled(d: Disk) {
    !d.pages.Get(MdReq).rolled && !d.pages.Get(TdReq).rolled
  }

  lemma RoomyNotRolled(d: Disk, b: nat, n: nat)
    requires Roomy(d, b, n)
    ensures NoneRolled(d)
  {
    assert !d.pages.Get(MdReq).rolled && !d.pages.Get(TdReq).rolled;
  }

  /** CP has stopped, no engine can do anything, and the journals of the terminations are on their first pages: then
      all have stopped. */
  lemma AllHaveStopped(s: Sys)
    requires EndsAhead(s) && Finished(s) && NoneRolled(s.disk) && !Enabled(s, Next(s))
    ensures Stopped(s)
  {
    hide Enabled, Next;
    GetsThem(s.js);
    if Busy(s) {
      BusyMeansNext(s);
    }
  }

  /** No engine is live or has anything left to write. */
  predicate Stopped(s: Sys) {
    !s.cp.live && !s.md.live && !s.td.live && s.cp.todo == [] && s.md.todo == [] && s.td.todo == []
  }

  /** Taking the step `Next` as often as it can be taken comes to an end, and pages with enough room do not lose the
      token. */
  lemma {:induction false} Settles(s: Sys, ph: Phase, all: seq<Row>, b: nat) returns (acts: seq<Action>, ph': Phase)
    requires At(s, ph, all)
    ensures TimelyRun(s, acts) && At(Exec(s, acts), ph', all) && !Enabled(Exec(s, acts), Next(Exec(s, acts)))
    ensures ph == Lost ==> ph' == Lost
    ensures ph != Lost && Roomy(s.disk, b, Fuel(s, ph)) ==> ph' != Lost && NoneRolled(Exec(s, acts).disk)
    decreases Fuel(s, ph)
  {
    hide At, Enabled, Timely, Step, NextPhase, Next, Fuel, Roomy, NoneRolled;
    var a := Next(s);
    if Enabled(s, a) {
      var t, ph1 := Step(s, a), NextPhase(s, ph, a);
      NextInTimeAt(s, ph, all);
      NextUses(s, ph, all);
      AtStep(s, ph, a, all);
      StaysLost(s, a);
      if ph != Lost && Roomy(s.disk, b, Fuel(s, ph)) {
        RoomyStep(s, ph, a, b, Fuel(s, ph), Fuel(t, ph1));
      }
      var rest, ph2 := Settles(t, ph1, all, b);
      acts, ph' := [a] + rest, ph2;
      assert acts[1..] == rest;
    } else {
      acts, ph' := [], ph;
      if Roomy(s.disk, b, Fuel(s, ph)) {
        RoomyNotRolled(s.disk, b, Fuel(s, ph));
      }
    }
  }

  lemma StaysLost(s: Sys, a: Action)
    ensures NextPhase(s, Lost, a) == Lost
  {
  }

  /** From every reachable state some run whose tokens are stamped in time leads to where CP has stopped and has
      written all it had to, or the token or the termination has been lost. */
  lemma RunsToTheEnd(s: Sys, rows: seq<Row>)
    requires Reachable(s, rows)
    ensures exists acts :: TimelyRun(s, acts)
              && (Finished(Exec(s, acts)) || Exec(s, acts).t.lost.signal)
  {
    hide Reachable, At, Exec, TimelyRun, Next, Enabled;
    var ph := ReachableAt(s, rows);
    var acts, ph' := Settles(s, ph, rows, 0);
    LostIsLost(Exec(s, acts), ph', rows);
    if ph' != Lost && !Finished(Exec(s, acts)) {
      NextMay(Exec(s, acts), ph', rows);
    }
  }

  predicate Finished(s: Sys) {
    !s.cp.live && s.cp.todo == []
  }

  /** As long as nothing is lost, and the pages have room for so many messages, some run leads to where all three
      engines have stopped and have written all they had to, all rows in front of the first empty one answered and
      matched, without losing the token. */
  lemma RoomFinishes(s: Sys, rows: seq<Row>, b: nat)
    requires Reachable(s, rows) && !s.t.lost.signal && Roomy(s.disk, b, 200 * |s.rows| + 201 + Load(s))
    ensures exists acts :: TimelyRun(s, acts)
              && var t := Exec(s, acts); Stopped(t) && !t.t.lost.signal && t.t.answered == t.t.passes == Readable(rows)
  {
    hide Reachable, At, Exec, TimelyRun, Next, Enabled, Roomy, Readable, Load, EndsAhead, NoneRolled;
    var ph := ReachableAt(s, rows);
    LostIsLost(s, ph, rows);
    RoomyLess(s.disk, b, 200 * |s.rows| + 201 + Load(s), Fuel(s, ph));
    var acts, ph' := Settles(s, ph, rows, b);
    LostIsLost(Exec(s, acts), ph', rows);
    if !Finished(Exec(s, acts)) {
      NextMay(Exec(s, acts), ph', rows);
    }
    FinishedIsOver(Exec(s, acts), ph', rows);
    ReachableEnds(s, rows);
    EndsThrough(s, ph, acts, rows);
    AllHaveStopped(Exec(s, acts));
  }

  lemma FinishedIsOver(s: Sys, ph: Phase, all: seq<Row>)
    requires At(s, ph, all) && Finished(s)
    ensures s.t.answered == s.t.passes == Readable(all)
  {
    hide Shape, TdShape, Typed, Parted, Replied, Conserved, LossesOk, StartComesFirst, OnOrders;
    ReadableIs(all, s.t.answered);
  }

  // ---------- Stalls ----------

  /** Once the token is lost, no further row is answered and no further pass is made, whatever the engines do. */
  lemma {:induction false} LostForever(s: Sys, all: seq<Row>, acts: seq<Action>)
    requires At(s, Lost, all) && TimelyRun(s, acts)
    ensures var t := Exec(s, acts);
            && At(t, Lost, all) && t.cp.live
            && t.t.answered == s.t.answered && t.t.passes == s.t.passes && t.rows == s.rows
    decreases |acts|
  {
    hide Step, Shape, TdShape, OnOrders, Timely, Parted, Typed;
    if acts != [] {
      LostStep(s, acts[0]);
      AtStep(s, Lost, acts[0], all);
      StaysLost(s, acts[0]);
      LostForever(Step(s, acts[0]), all, acts[1..]);
    }
  }

  /** Before CP has finished, the system can come to a stall without losing anything more exactly if the
      token or the termination has been written behind a first page. */
  lemma StallsIff(s: Sys, rows: seq<Row>)
    requires Reachable(s, rows) && s.cp.live
    ensures (exists acts ::
               TimelyRun(s, acts) && Stalled(Exec(s, acts)) && Exec(s, acts).t.lost.signal == s.t.lost.signal)
            <==> s.t.lost.signal
  {
    hide Reachable, At, Exec, TimelyRun, Stalled;
    var ph := ReachableAt(s, rows);
    LostIsLost(s, ph, rows);
    if s.t.lost.signal {
      var acts, ph' := Settles(s, Lost, rows, 0);
      LostIsLost(Exec(s, acts), Lost, rows);
      NoNextStalls(Exec(s, acts), rows);
    } else {
      forall acts | TimelyRun(s, acts) && !Exec(s, acts).t.lost.signal
        ensures !Stalled(Exec(s, acts))
      {
        var ph' := ExecAt(s, ph, acts, rows);
        LostIsLost(Exec(s, acts), ph', rows);
        NotStalled(Exec(s, acts), ph', rows);
      }
    }
  }

  lemma NotStalled(s: Sys, ph: Phase, all: seq<Row>)
    requires At(s, ph, all) && ph != Lost
    ensures !Stalled(s)
  {
    hide At, Enabled;
    if s.cp.live || s.cp.todo != [] {
      NextMay(s, ph, all);
    }
  }

  lemma NoNextStalls(s: Sys, all: seq<Row>)
    requires At(s, Lost, all) && !Enabled(s, Next(s))
    ensures Stalled(s)
  {
    hide Enabled, Next, Shape, TdShape, OnOrders, Parted, Typed;
    forall a
      ensures !Enabled(s, a)
    {
      if Enabled(s, a) {
        SomeMeansNext(s, a);
      }
    }
  }
}
