/** What stamps that are not in time do to the protocol, and what answers to cancels do even where they are. */
module LockStepStamps {
  import opened LockStep
  import opened LockStepInvariant
  import opened LockStepSteps
  import opened LockStepRuns
  import opened LockStepProgress

  predicate SomeBy(ms: seq<Stamped>, t: nat) {
    exists i | 0 <= i < |ms| :: ms[i].time <= t
  }

  /** The token can be read although something stamped no later than it is unread on the journal beside it. */
  predicate MayOvertake(s: Sys) {
    || (Enabled(s, CpRead(MdResp, [])) && SomeBy(s.js.bars, s.js.mdResp[0].time))
    || (Enabled(s, TdRead(TdReq, [])) && s.js.tdReq[0].msg.Token? && SomeBy(s.js.orders, s.js.tdReq[0].time))
  }

  lemma NeverOvertakes(s: Sys, ph: Phase, all: seq<Row>)
    requires At(s, ph, all)
    ensures !MayOvertake(s)
  {
    hide At, Enabled;
    if Enabled(s, CpRead(MdResp, [])) {
      BarFirst(s, ph, all);
    }
    if Enabled(s, TdRead(TdReq, [])) {
      GetsThem(s.js);
      ReadsSomething(s, TdRead(TdReq, []));
      if s.js.tdReq[0].msg.Token? {
        TokenAtTd(s, ph, TdReq, [], all);
      }
    }
  }

  lemma BarFirst(s: Sys, ph: Phase, all: seq<Row>)
    requires At(s, ph, all) && Enabled(s, CpRead(MdResp, []))
    ensures s.js.bars == []
  {
    hide TdShape, Conserved, LossesOk, StartComesFirst, TdRespOk, EndedEmpty, Counted, Typed, ValidGeometry, Parted,
      Replied, StartsOnly, OrderOutsOnly, AllSilent;
    GetsThem(s.js);
  }

  // ---------- A bar with the stamp of the token behind it ----------

  /** A bar and the token behind it with the same stamp, both unread, and what else CP may have to do. */
  predicate TiedAtCp(s: Sys, t: nat) {
    && s.cp.live && OrderOutsOnly(s.cp.todo) && StartsOnly(s.js.tdReq) && RespsOnly(s.js.tdResp)
    && |s.js.mdResp| == 1 && s.js.mdResp[0].time == t && |s.js.bars| == 1 && s.js.bars[0].time == t
  }

  lemma CpTiedWrite(s: Sys, t: nat)
    requires TiedAtCp(s, t) && s.cp.todo != []
    ensures TiedAtCp(Step(s, CpWrite(1)), t) && Timely(s, CpWrite(1))
    ensures Step(s, CpWrite(1)).js.tdResp == s.js.tdResp && Step(s, CpWrite(1)).cp.todo == s.cp.todo[1..]
  {
    hide HasRoom, Filled, Sent, Missed, StartsOnly, RespsOnly;
    assert IsOrderOut(s.cp.todo[0]);
    StartsUntokened(s.js.tdReq, s.clock + 1);
  }

  lemma StartsUntokened(ms: seq<Stamped>, t: nat)
    requires StartsOnly(ms)
    ensures TokensBefore(ms, t)
  {
  }

  lemma CpTiedRead(s: Sys, t: nat)
    requires TiedAtCp(s, t) && s.cp.todo == [] && s.js.tdResp != [] && s.js.tdResp[0].time < t
    ensures TiedAtCp(Step(s, CpRead(TdResp, [])), t)
    ensures Step(s, CpRead(TdResp, [])).js.tdResp == s.js.tdResp[1..] && Step(s, CpRead(TdResp, [])).cp.todo == []
  {
    hide StartsOnly;
    GetsThem(s.js);
  }

  lemma CpTiedMay(s: Sys, t: nat)
    requires TiedAtCp(s, t) && s.cp.todo == [] && (s.js.tdResp == [] || t <= s.js.tdResp[0].time)
    ensures MayOvertake(s)
  {
    GetsThem(s.js);
    assert s.js.bars[0].time <= t;
  }

  /** CP writes what it has to write, reads what TD wrote before the tie, and then may read the token first. */
  lemma {:induction false} CpTieOvertakes(s: Sys, t: nat) returns (acts: seq<Action>)
    requires TiedAtCp(s, t)
    ensures TimelyRun(s, acts) && MayOvertake(Exec(s, acts))
    decreases |s.cp.todo| + |s.js.tdResp|
  {
    hide MayOvertake, TiedAtCp, Step;
    if s.cp.todo != [] {
      CpTiedWrite(s, t);
      var rest := CpTieOvertakes(Step(s, CpWrite(1)), t);
      acts := [CpWrite(1)] + rest;
      assert acts[1..] == rest;
    } else if s.js.tdResp != [] && s.js.tdResp[0].time < t {
      CpTiedRead(s, t);
      var rest := CpTieOvertakes(Step(s, CpRead(TdResp, [])), t);
      acts := [CpRead(TdResp, [])] + rest;
      assert acts[1..] == rest;
    } else {
      CpTiedMay(s, t);
      acts := [];
    }
  }

  // ---------- A request with the stamp of the token for TD ----------

  /** CP's token is in front of nothing but start signals, and some message on the journal of orders has its stamp. */
  predicate TiedAtTd(s: Sys, t: nat) {
    && s.td.live && Replying(s.td.todo)
    && TokenBehindStarts(s.js.tdReq, MatchOrder) && s.js.tdReq[|s.js.tdReq| - 1].time == t
    && Before(s.js.tdReq, t + 1) && Holds(s.js.orders, t) && OnOrders(s.js.orders, AtTd)
  }

  predicate Holds(ms: seq<Stamped>, t: nat) {
    exists i | 0 <= i < |ms| :: ms[i].time == t
  }

  lemma HoldsRest(ms: seq<Stamped>, t: nat)
    requires Holds(ms, t) && ms[0].time < t
    ensures Holds(ms[1..], t)
  {
    var i :| 0 <= i < |ms| && ms[i].time == t;
    assert ms[1..][i - 1].time == t;
  }

  lemma HoldsSome(ms: seq<Stamped>, t: nat)
    requires Holds(ms, t)
    ensures ms != [] && SomeBy(ms, t)
  {
  }

  lemma TdTiedWrite(s: Sys, t: nat)
    requires TiedAtTd(s, t) && s.td.todo != []
    ensures TiedAtTd(Step(s, TdWrite(1)), t)
    ensures var u := Step(s, TdWrite(1)); u.td.todo == [] && u.js.tdReq == s.js.tdReq && u.js.orders == s.js.orders
  {
    hide HasRoom, Filled, Sent, Missed, TokenBehindStarts, Before, Holds, OnOrders;
  }

  lemma TdTiedOrder(s: Sys, t: nat)
    requires TiedAtTd(s, t) && s.td.todo == [] && s.js.orders != []
    requires s.js.orders[0].time < t && s.js.orders[0].time <= s.js.tdReq[0].time
    ensures var u := Step(s, TdRead(Orders, []));
            TiedAtTd(u, t) && u.js == s.js.(orders := s.js.orders[1..]) && |u.td.todo| <= 1
  {
    hide TokenBehindStarts, Before, Holds, Reply;
    GetsThem(s.js);
    HoldsRest(s.js.orders, t);
    if s.js.orders[0].msg.Order? {
      RepliesTo(s.js.orders[0].msg.req, []);
    }
  }

  lemma TdTiedStart(s: Sys, t: nat)
    requires TiedAtTd(s, t) && s.td.todo == [] && |s.js.tdReq| > 1
    requires s.js.orders != [] && s.js.tdReq[0].time <= s.js.orders[0].time
    ensures var u := Step(s, TdRead(TdReq, []));
            TiedAtTd(u, t) && u.js == s.js.(tdReq := s.js.tdReq[1..]) && u.td.todo == []
  {
    hide Before, Holds, OnOrders, StartsOnly;
    GetsThem(s.js);
    StartsRest(s.js.tdReq);
    StartInFront(s.js.tdReq);
    BeforeRest(s.js.tdReq, t + 1);
  }

  lemma StartInFront(ms: seq<Stamped>)
    requires |ms| > 1 && StartsOnly(ms[..|ms| - 1])
    ensures ms[0].msg == Start
  {
    assert ms[..|ms| - 1][0] == ms[0];
  }

  lemma TdTiedMay(s: Sys, t: nat)
    requires TiedAtTd(s, t) && s.td.todo == [] && |s.js.tdReq| == 1 && s.js.orders != [] && t <= s.js.orders[0].time
    ensures MayOvertake(s)
  {
    GetsThem(s.js);
    HoldsSome(s.js.orders, t);
  }

  /** What TD has in front of it; it may have to answer what it reads. */
  function Ahead(s: Sys): nat {
    2 * (|s.js.tdReq| + |s.js.orders|) + |s.td.todo|
  }

  /** TD reads what is stamped before the tie, answers the cancels, and then may read the token first. */
  lemma {:induction false} TdTieOvertakes(s: Sys, t: nat) returns (acts: seq<Action>)
    requires TiedAtTd(s, t)
    ensures TimelyRun(s, acts) && MayOvertake(Exec(s, acts))
    decreases Ahead(s)
  {
    hide MayOvertake, TiedAtTd, Step;
    var a := TdTieStep(s, t);
    if MayOvertake(s) {
      acts := [];
    } else {
      var rest := TdTieOvertakes(Step(s, a), t);
      acts := [a] + rest;
      assert acts[1..] == rest;
    }
  }

  lemma TdTieStep(s: Sys, t: nat) returns (a: Action)
    requires TiedAtTd(s, t)
    ensures a.TdRead? || a.TdWrite?
    ensures MayOvertake(s) || (TiedAtTd(Step(s, a), t) && Ahead(Step(s, a)) < Ahead(s))
  {
    hide MayOvertake, TiedAtTd, Step;
    a := TdWrite(1);
    TdTied(s, t);
    if s.td.todo != [] {
      TdTiedWrite(s, t);
    } else if s.js.orders[0].time < t && s.js.orders[0].time <= s.js.tdReq[0].time {
      a := TdRead(Orders, []);
      TdTiedOrder(s, t);
    } else if |s.js.tdReq| > 1 {
      a := TdRead(TdReq, []);
      TdTiedStart(s, t);
    } else {
      TdTiedMay(s, t);
    }
  }

  lemma TdTied(s: Sys, t: nat)
    requires TiedAtTd(s, t)
    ensures s.js.tdReq != [] && s.js.orders != [] && s.js.tdReq[0].time <= t
    ensures |s.js.tdReq| == 1 ==> s.js.tdReq[0].time == t
  {
    HoldsSome(s.js.orders, t);
  }

  // ---------- Exactly then ----------

  lemma NoActs(s: Sys)
    ensures TimelyRun(s, []) && Exec(s, []) == s
  {
  }

  /** Writing the token no later than something it competes with, or a request no later than the token that is
      unread, and only that, lets the token be read first: from any reachable state, some continuation of the
      step whose writes are in time comes to where the token may overtake exactly if the step was not. */
  lemma OvertakesIff(s: Sys, rows: seq<Row>, a: Action)
    requires Reachable(s, rows) && Enabled(s, a)
    ensures (exists acts :: TimelyRun(Step(s, a), acts) && MayOvertake(Exec(Step(s, a), acts))) <==> !Timely(s, a)
  {
    hide Reachable, At, Exec, TimelyRun, MayOvertake, Timely, Step, Enabled;
    var ph := ReachableAt(s, rows);
    if Timely(s, a) {
      AtStep(s, ph, a, rows);
      forall acts | TimelyRun(Step(s, a), acts)
        ensures !MayOvertake(Exec(Step(s, a), acts))
      {
        var ph' := ExecAt(Step(s, a), NextPhase(s, ph, a), acts, rows);
        NeverOvertakes(Exec(Step(s, a), acts), ph', rows);
      }
    } else {
      var acts := UntimelyOvertakes(s, ph, a, rows);
    }
  }

  lemma UntimelyOvertakes(s: Sys, ph: Phase, a: Action, all: seq<Row>) returns (acts: seq<Action>)
    requires At(s, ph, all) && Enabled(s, a) && !Timely(s, a)
    ensures TimelyRun(Step(s, a), acts) && MayOvertake(Exec(Step(s, a), acts))
  {
    hide Exec, TimelyRun, Conserved, LossesOk, StartComesFirst, TdRespOk, Step, MayOvertake, Enabled, HasRoom, Shape,
      TdShape, Replied, JournalsFit, OutsFit, OnOrders, Counted;
    StampsPast(s);
    if a.MdWrite? {
      MdTie(s, ph, a.dt, all);
      acts := CpTieOvertakes(Step(s, a), s.clock + a.dt);
    } else {
      CpTie(s, ph, a.dt, all);
      acts := TdTieOvertakes(Step(s, a), s.clock + a.dt);
    }
  }

  lemma StampsPast(s: Sys)
    requires JournalsFit(s.js, s.clock)
    ensures Before(s.js.bars, s.clock + 1) && Before(s.js.orders, s.clock + 1) && Before(s.js.tdReq, s.clock + 1)
  {
    GetsThem(s.js);
    assert Before(s.js.Get(Bars), s.clock + 1) && Before(s.js.Get(Orders), s.clock + 1)
           && Before(s.js.Get(TdReq), s.clock + 1);
  }

  lemma TokenAtMd(s: Sys, ph: Phase, all: seq<Row>)
    requires Shape(s, ph) && TdShape(s, ph) && Counted(s, ph, all) && s.md.todo != [] && s.md.todo[0].msg.Token?
    ensures s.md.todo[0] == Out(MdResp, Token(MarketData)) && s.js.mdResp == [] && RespsOnly(s.js.tdResp) && s.cp.live
    ensures OneBar(s.js.bars) && OrderOutsOnly(s.cp.todo) && StartsOnly(s.js.tdReq)
  {
    hide OutOfRows;
  }

  lemma MdTie(s: Sys, ph: Phase, dt: nat, all: seq<Row>)
    requires Shape(s, ph) && TdShape(s, ph) && Counted(s, ph, all) && Enabled(s, MdWrite(dt)) && !Timely(s, MdWrite(dt))
    requires Before(s.js.bars, s.clock + 1)
    ensures TiedAtCp(Step(s, MdWrite(dt)), s.clock + dt)
  {
    hide HasRoom, Filled, Sent, Missed, Shape, TdShape, Counted, OrderOutsOnly, StartsOnly, RespsOnly;
    TokenAtMd(s, ph, all);
  }

  lemma CpTie(s: Sys, ph: Phase, dt: nat, all: seq<Row>)
    requires Shape(s, ph) && TdShape(s, ph) && OnOrders(s.js.orders, ph) && Counted(s, ph, all) && Parted(s, ph)
    requires Enabled(s, CpWrite(dt)) && !Timely(s, CpWrite(dt))
    requires Before(s.js.orders, s.clock + 1) && Before(s.js.tdReq, s.clock + 1)
    ensures TiedAtTd(Step(s, CpWrite(dt)), s.clock + dt)
  {
    hide Shape, TdShape, Counted, OnOrders, Parted, TiedAtTd, Step, HasRoom;
    TokenOrRequest(s, dt);
    if s.cp.todo[0].msg.Token? {
      TokenTie(s, ph, dt, all);
    } else {
      RequestTie(s, ph, dt, all);
    }
  }

  lemma TokenOrRequest(s: Sys, dt: nat)
    requires Enabled(s, CpWrite(dt)) && !Timely(s, CpWrite(dt))
    ensures s.cp.todo != [] && HasRoom(s.disk, s.cp.todo[0])
    ensures if s.cp.todo[0].msg.Token?
            then s.cp.todo[0] == Out(TdReq, Token(MatchOrder)) && !Before(s.js.orders, s.clock + dt)
            else s.cp.todo[0].msg.Order? && !TokensBefore(s.js.tdReq, s.clock + dt)
  {
    hide HasRoom, Before, TokensBefore;
  }

  lemma TokenAtCp(s: Sys, ph: Phase, all: seq<Row>)
    requires Shape(s, ph) && TdShape(s, ph) && OnOrders(s.js.orders, ph) && Counted(s, ph, all)
    requires s.cp.todo != [] && s.cp.todo[0] == Out(TdReq, Token(MatchOrder))
    ensures Replying(s.td.todo) && s.td.live && StartsOnly(s.js.tdReq) && OnOrders(s.js.orders, AtTd)
  {
    hide OutOfRows;
  }

  lemma TokenTie(s: Sys, ph: Phase, dt: nat, all: seq<Row>)
    requires Shape(s, ph) && TdShape(s, ph) && OnOrders(s.js.orders, ph) && Counted(s, ph, all)
    requires s.cp.todo != [] && s.cp.todo[0] == Out(TdReq, Token(MatchOrder)) && HasRoom(s.disk, s.cp.todo[0])
    requires Before(s.js.orders, s.clock + 1) && Before(s.js.tdReq, s.clock + 1) && !Before(s.js.orders, s.clock + dt)
    ensures TiedAtTd(Step(s, CpWrite(dt)), s.clock + dt)
  {
    hide HasRoom, Filled, Sent, Missed, Shape, TdShape, Counted, OnOrders, Replying;
    TokenAtCp(s, ph, all);
    var t := Step(s, CpWrite(dt));
    assert t.js.tdReq[..|t.js.tdReq| - 1] == s.js.tdReq;
    assert t.js.orders == s.js.orders;
    var i :| 0 <= i < |s.js.orders| && s.js.orders[i].time >= s.clock + dt;
    assert t.js.orders[i].time == s.clock + dt;
  }

  lemma RequestAtCp(s: Sys, ph: Phase, all: seq<Row>)
    requires Shape(s, ph) && TdShape(s, ph) && OnOrders(s.js.orders, ph) && Counted(s, ph, all)
    requires s.cp.todo != [] && s.cp.todo[0].msg.Order? && exists i | 0 <= i < |s.js.tdReq| :: s.js.tdReq[i].msg.Token?
    ensures ph == AtTd && IsOrderOut(s.cp.todo[0])
    ensures Replying(s.td.todo) && s.td.live && TokenBehindStarts(s.js.tdReq, MatchOrder) && OnOrders(s.js.orders, AtTd)
  {
    hide OutOfRows;
  }

  lemma RequestTie(s: Sys, ph: Phase, dt: nat, all: seq<Row>)
    requires Shape(s, ph) && TdShape(s, ph) && OnOrders(s.js.orders, ph) && Counted(s, ph, all)
    requires s.cp.todo != [] && s.cp.todo[0].msg.Order? && HasRoom(s.disk, s.cp.todo[0])
    requires Before(s.js.tdReq, s.clock + 1) && !TokensBefore(s.js.tdReq, s.clock + dt)
    ensures TiedAtTd(Step(s, CpWrite(dt)), s.clock + dt)
  {
    hide HasRoom, Filled, Sent, Missed, Shape, TdShape, Counted, Replying, StartsOnly;
    var i :| 0 <= i < |s.js.tdReq| && s.js.tdReq[i].msg.Token? && s.clock + dt <= s.js.tdReq[i].time;
    RequestAtCp(s, ph, all);
    TokenIsLast(s.js.tdReq, i);
    var t := Step(s, CpWrite(dt));
    assert t.js.orders[|s.js.orders|].time == s.clock + dt;
  }

  lemma TokenIsLast(ms: seq<Stamped>, i: nat)
    requires TokenBehindStarts(ms, MatchOrder) && i < |ms| && ms[i].msg.Token?
    ensures i == |ms| - 1
  {
    if i < |ms| - 1 {
      StartAmong(ms, i);
    }
  }

  lemma StartAmong(ms: seq<Stamped>, i: nat)
    requires i < |ms| - 1 && StartsOnly(ms[..|ms| - 1])
    ensures ms[i].msg == Start
  {
    assert ms[..|ms| - 1][i] == ms[i];
  }

  // ---------- Two runs ----------

  lemma {:induction false} ExecThen(s: Sys, acts: seq<Action>, a: Action)
    ensures Exec(s, acts + [a]) == Step(Exec(s, acts), a)
    ensures TimelyRun(s, acts) && Timely(Exec(s, acts), a) ==> TimelyRun(s, acts + [a])
    decreases |acts|
  {
    hide Step, Timely;
    if acts == [] {
      assert [a][1..] == [];
      assert acts + [a] == [a];
    } else {
      ExecThen(Step(s, acts[0]), acts[1..], a);
      assert (acts + [a])[1..] == acts[1..] + [a];
    }
  }

  const FRAME: nat := 64
  const PAGE: nat := 16 * 1024 * 1024

  /** Messages of one size on pages of one size. */
  function Even(): Geometry {
    Geometry(m => FRAME, c => PAGE)
  }

  /** So many messages on every page. */
  function Even6(a: nat, b: nat, c: nat, d: nat, e: nat, f: nat): Disk {
    Disk(Even(), Pages(Page(a * FRAME, false), Page(b * FRAME, false), Page(c * FRAME, false),
                       Page(d * FRAME, false), Page(e * FRAME, false), Page(f * FRAME, false)))
  }

  const NEW := Engine([], true, false)
  const WAITING := Engine([], true, true)

  /** Nothing is written yet; there is one row of data. */
  function AtRest(): Sys {
    Sys(0, Journals([], [], [], [], [], []), Even6(0, 0, 0, 0, 0, 0),
        Engine([Out(MdReq, Start), Out(TdReq, Start), Out(Orders, Start), Out(MdReq, Token(MarketData))], true, true),
        NEW, NEW, [Good], NOTHING_YET)
  }

  /** Half of the launch is done. */
  function HalfLaunched(): Sys {
    Sys(2, Journals([Stamped(1, Start)], [], [], [Stamped(2, Start)], [], []), Even6(1, 0, 0, 1, 0, 0),
        Engine([Out(Orders, Start), Out(MdReq, Token(MarketData))], true, true), NEW, NEW, [Good], NOTHING_YET)
  }

  /** CP has written its start signals and the first token. */
  function Launched(): Sys {
    Sys(4, Journals([Stamped(1, Start), Stamped(4, Token(MarketData))], [], [],
                    [Stamped(2, Start)], [Stamped(3, Start)], []),
        Even6(2, 0, 0, 1, 1, 0), WAITING, NEW, NEW, [Good], NOTHING_YET)
  }

  /** Some run leads from `s` to `s'`, its writes in time if `timely`; the clock never goes back but may stand still. */
  ghost predicate Leads(timely: bool, s: Sys, s': Sys) {
    exists acts :: Exec(s, acts) == s' && (timely ==> TimelyRun(s, acts))
  }

  lemma LeadsNowhere(timely: bool, s: Sys)
    ensures Leads(timely, s, s)
  {
    NoActs(s);
  }

  lemma LeadsOn(timely: bool, s: Sys, s': Sys, a: Action)
    requires Leads(timely, s, s') && (timely ==> Timely(s', a))
    ensures Leads(timely, s, Step(s', a))
  {
    hide Exec, TimelyRun, Timely, Step;
    var acts :| Exec(s, acts) == s' && (timely ==> TimelyRun(s, acts));
    ExecThen(s, acts, a);
  }

  lemma StartsAtRest()
    ensures Initial(Even(), false, [], [Good]) == AtRest()
  {
    assert PreStart(false, []) == AtRest().cp.todo;
  }

  lemma HalfLaunch(timely: bool)
    ensures Leads(timely, AtRest(), HalfLaunched())
  {
    hide Leads;
    var s1 := Step(AtRest(), CpWrite(1));
    assert s1.cp.todo == [Out(TdReq, Start), Out(Orders, Start), Out(MdReq, Token(MarketData))];
    assert s1.js == Journals([Stamped(1, Start)], [], [], [], [], []);
    assert s1.cp.todo[1..] == HalfLaunched().cp.todo;
    assert Step(s1, CpWrite(1)) == HalfLaunched();
    LeadsNowhere(timely, AtRest());
    LeadsOn(timely, AtRest(), AtRest(), CpWrite(1));
    LeadsOn(timely, AtRest(), s1, CpWrite(1));
  }

  lemma Launch(timely: bool)
    ensures Leads(timely, Initial(Even(), false, [], [Good]), Launched())
  {
    hide Leads, Initial, PreStart;
    StartsAtRest();
    HalfLaunch(timely);
    var s3 := Step(HalfLaunched(), CpWrite(1));
    assert s3.cp.todo == [Out(MdReq, Token(MarketData))];
    assert Step(s3, CpWrite(1)) == Launched();
    LeadsOn(timely, AtRest(), HalfLaunched(), CpWrite(1));
    LeadsOn(timely, AtRest(), s3, CpWrite(1));
  }

  // ---------- Equal stamps ----------

  /** MD has answered; the bar and the token behind it carry the same stamp. */
  function Tied(): Sys {
    Sys(5, Journals([], [Stamped(5, Token(MarketData))], [Stamped(5, Bar(0))],
                    [Stamped(2, Start)], [Stamped(3, Start)], []),
        Even6(2, 1, 1, 1, 1, 0), WAITING, WAITING, NEW, [], NOTHING_YET.(answered := 1, barsMade := [0]))
  }

  /** CP has taken the token first, and TD has the token in front of it. */
  function Overtaken(): Sys {
    Sys(6, Journals([], [], [Stamped(5, Bar(0))], [Stamped(6, Token(MatchOrder))], [], []), Even6(2, 1, 1, 2, 1, 0),
        WAITING, WAITING, WAITING, [], NOTHING_YET.(answered := 1, barsMade := [0]))
  }

  lemma AnswerAtOnce(s0: Sys)
    requires Leads(false, s0, Launched())
    ensures Leads(false, s0, Tied())
  {
    hide Leads;
    var s1 := Step(Launched(), MdRead);
    var s2 := Step(s1, MdRead);
    var s3 := Step(s2, MdWrite(1));
    var s4 := Step(s3, MdWrite(0));
    assert s4 == Tied();
    LeadsOn(false, s0, Launched(), MdRead);
    LeadsOn(false, s0, s1, MdRead);
    LeadsOn(false, s0, s2, MdWrite(1));
    LeadsOn(false, s0, s3, MdWrite(0));
  }

  lemma Overtake(s0: Sys)
    requires Leads(false, s0, Tied())
    ensures Leads(false, s0, Overtaken())
  {
    hide Leads;
    var s1 := Step(Tied(), CpRead(MdResp, []));
    var s2 := Step(s1, CpWrite(1));
    var s3 := Step(s2, TdRead(TdReq, []));
    var s4 := Step(s3, TdRead(Orders, []));
    assert s4 == Overtaken();
    LeadsOn(false, s0, Tied(), CpRead(MdResp, []));
    LeadsOn(false, s0, s1, CpWrite(1));
    LeadsOn(false, s0, s2, TdRead(TdReq, []));
    LeadsOn(false, s0, s3, TdRead(Orders, []));
  }

  /** The clock must strictly advance: when MD writes a bar and the token behind it with the same stamp,
      there is a run in which the first match pass is over before CP has handled the first bar, and
      the order it then writes for that bar has missed the pass. */
  lemma EqualStampsBreakLockStep()
    ensures exists s ::
              && Leads(false, Initial(Even(), false, [], [Good]), s)
              && s.t.passes == 1 && s.t.barsSeen == [0]
              && s.t.written == [Insert(7)] && s.t.inserted == []
  {
    hide Leads;
    var s0 := Initial(Even(), false, [], [Good]);
    Launch(false);
    AnswerAtOnce(s0);
    Overtake(s0);
    var s1 := Step(Overtaken(), TdRead(TdReq, []));
    var s2 := Step(s1, CpRead(Bars, [Insert(7)]));
    var s3 := Step(s2, CpWrite(1));
    LeadsOn(false, s0, Overtaken(), TdRead(TdReq, []));
    LeadsOn(false, s0, s1, CpRead(Bars, [Insert(7)]));
    LeadsOn(false, s0, s2, CpWrite(1));
    assert s2.cp.todo == [Out(Orders, Order(Insert(7)))];
    assert s3.t.written == [Insert(7)];
  }

  // ---------- A late answer ----------

  /** MD has answered, in time. */
  function Answered(): Sys {
    Sys(6, Journals([], [Stamped(6, Token(MarketData))], [Stamped(5, Bar(0))],
                    [Stamped(2, Start)], [Stamped(3, Start)], []),
        Even6(2, 1, 1, 1, 1, 0), WAITING, WAITING, NEW, [], NOTHING_YET.(answered := 1, barsMade := [0]))
  }

  /** The strategy has cancelled order 2 on the bar, and CP has handed the token on. */
  function Handed(): Sys {
    Sys(8, Journals([], [], [], [Stamped(2, Start), Stamped(8, Token(MatchOrder))],
                    [Stamped(3, Start), Stamped(7, Order(Cancel(2)))], []),
        Even6(2, 1, 1, 2, 2, 0), WAITING, WAITING, NEW, [],
        NOTHING_YET.(answered := 1, barsMade := [0], barsSeen := [0], written := [Cancel(2)], asked := 1))
  }

  /** TD has taken the cancel and answered it, and has the token in front of it. */
  function CancelAnswered(): Sys {
    Sys(9, Journals([], [], [], [Stamped(8, Token(MatchOrder))], [], [Stamped(9, Resp(2))]),
        Even6(2, 1, 1, 2, 2, 1), WAITING, WAITING, WAITING, [],
        NOTHING_YET.(answered := 1, barsMade := [0], barsSeen := [0], written := [Cancel(2)], asked := 1,
                     inserted := [Cancel(2)], respsMade := [2]))
  }

  lemma AnswerInTime(s0: Sys)
    requires Leads(true, s0, Launched())
    ensures Leads(true, s0, Answered())
  {
    hide Leads;
    var s1 := Step(Launched(), MdRead);
    var s2 := Step(s1, MdRead);
    var s3 := Step(s2, MdWrite(1));
    var s4 := Step(s3, MdWrite(1));
    assert s4 == Answered();
    LeadsOn(true, s0, Launched(), MdRead);
    LeadsOn(true, s0, s1, MdRead);
    LeadsOn(true, s0, s2, MdWrite(1));
    LeadsOn(true, s0, s3, MdWrite(1));
  }

  lemma CancelAndHand(s0: Sys)
    requires Leads(true, s0, Answered())
    ensures Leads(true, s0, Handed())
  {
    hide Leads;
    var s1 := Step(Answered(), CpRead(Bars, [Cancel(2)]));
    assert s1.cp.todo == [Out(Orders, Order(Cancel(2)))];
    var s2 := Step(s1, CpWrite(1));
    var s3 := Step(s2, CpRead(MdResp, []));
    var s4 := Step(s3, CpWrite(1));
    assert s4 == Handed();
    LeadsOn(true, s0, Answered(), CpRead(Bars, [Cancel(2)]));
    LeadsOn(true, s0, s1, CpWrite(1));
    LeadsOn(true, s0, s2, CpRead(MdResp, []));
    LeadsOn(true, s0, s3, CpWrite(1));
  }

  lemma TakeAndAnswer(s0: Sys)
    requires Leads(true, s0, Handed())
    ensures Leads(true, s0, CancelAnswered())
  {
    hide Leads;
    var s1 := Step(Handed(), TdRead(TdReq, []));
    var s2 := Step(s1, TdRead(Orders, []));
    var s3 := Step(s2, TdRead(Orders, []));
    assert s3.td.todo == [Out(TdResp, Resp(2))];
    var s4 := Step(s3, TdWrite(1));
    assert s4 == CancelAnswered();
    LeadsOn(true, s0, Handed(), TdRead(TdReq, []));
    LeadsOn(true, s0, s1, TdRead(Orders, []));
    LeadsOn(true, s0, s2, TdRead(Orders, []));
    LeadsOn(true, s0, s3, TdWrite(1));
  }

  lemma LeadsReach(s: Sys)
    requires Leads(true, Initial(Even(), false, [], [Good]), s)
    ensures Reachable(s, [Good])
  {
    hide Exec, TimelyRun, Initial;
    var s0 := Initial(Even(), false, [], [Good]);
    var acts :| Exec(s0, acts) == s && TimelyRun(s0, acts);
    assert ValidGeometry(Even());
  }

  /** Even if every write is in time, an order the strategy writes in answer to the response to a cancel can miss
      the pass: the cancel is stamped 7, the token 8, the response 9, the order 10, and TD may take the token. */
  lemma LateAnswerMissesPass()
    ensures exists s :: Reachable(s, [Good])
              && Enabled(s, TdRead(TdReq, [])) && s.js.tdReq == [Stamped(8, Token(MatchOrder))]
              && s.js.orders == [Stamped(10, Order(Insert(7)))]
              && s.t.written == [Cancel(2), Insert(7)] && s.t.inserted == [Cancel(2)] && s.t.lost == NOTHING_LOST
  {
    hide Leads, Reachable;
    var s0 := Initial(Even(), false, [], [Good]);
    Launch(true);
    AnswerInTime(s0);
    CancelAndHand(s0);
    TakeAndAnswer(s0);
    var s1 := Step(CancelAnswered(), CpRead(TdResp, [Insert(7)]));
    assert s1.cp.todo == [Out(Orders, Order(Insert(7)))];
    var s2 := Step(s1, CpWrite(1));
    LeadsOn(true, s0, CancelAnswered(), CpRead(TdResp, [Insert(7)]));
    LeadsOn(true, s0, s1, CpWrite(1));
    LeadsReach(s2);
    assert s2.t.written == [Cancel(2), Insert(7)];
  }
}
