/** A read of the protocol taken apart: a reader looks at its journals one after the other while the other engines go
    on, picks the earliest front stamped by the time the pass began, and otherwise stays with the journal it read
    last.  What it picks in the pass it could have picked at once; what it stays with, it could not always. */
module LockStepPasses {
  import opened LockStep
  import opened LockStepInvariant
  import opened LockStepSteps
  import opened LockStepRuns
  import opened LockStepProgress
  import opened LockStepStamps

  datatype Option<T> = None | Some(value: T)

  /** A look at one journal, and what the journals were like then. */
  datatype Look = Look(chan: Chan, s: Sys)

  datatype Choice = Choice(min: nat, current: Option<Chan>)

  /** The loop of `sort`, from the first look on. */
  function Sort(looks: seq<Look>, ch: Choice): Choice
    decreases |looks|
  {
    if looks == [] then ch
    else
      var ms := looks[0].s.js.Get(looks[0].chan);
      Sort(looks[1..], if ms != [] && ms[0].time <= ch.min then Choice(ms[0].time, Some(looks[0].chan)) else ch)
  }

  /** From `s` on nothing was taken from these journals, and what was added is stamped no earlier than `since`. */
  ghost predicate Grown(joined: set<Chan>, s: Sys, t: Sys, since: nat) {
    && since <= s.clock <= t.clock
    && forall c | c in joined ::
         && s.js.Get(c) <= t.js.Get(c)
         && forall i | |s.js.Get(c)| <= i < |t.js.Get(c)| :: since <= t.js.Get(c)[i].time
  }

  predicate ReadsFor(joined: set<Chan>, a: Action) {
    match a
    case CpRead(c, _) => c in joined
    case MdRead => MdReq in joined
    case TdRead(c, _) => c in joined
    case _ => false
  }

  lemma PostGrows(joined: set<Chan>, s: Sys, dt: nat, o: Out, since: nat)
    requires since <= s.clock
    ensures Grown(joined, s, Post(s, dt, o), since)
  {
    hide HasRoom, Filled, Sent, Missed;
    forall c | c in joined
      ensures var ms := Post(s, dt, o).js.Get(c);
              s.js.Get(c) <= ms && forall i | |s.js.Get(c)| <= i < |ms| :: since <= ms[i].time
    {
      GetSet(s.js, o.chan, s.js.Get(o.chan) + [Stamped(s.clock + dt, o.msg)], c);
    }
  }

  lemma SameGrown(joined: set<Chan>, s: Sys, u: Sys, t: Sys, since: nat)
    requires Grown(joined, u, t, since) && u.js == s.js && u.clock == s.clock
    ensures Grown(joined, s, t, since)
  {
  }

  lemma ReadGrows(joined: set<Chan>, s: Sys, a: Action, since: nat)
    requires Enabled(s, a) && (a.CpRead? || a.MdRead? || a.TdRead?) && !ReadsFor(joined, a) && since <= s.clock
    ensures Grown(joined, s, Step(s, a), since)
  {
    hide Enabled, OrderOuts, TradeOuts, Reply, Answer, OutOfRows, Take, Journals.Get;
    var c := if a.MdRead? then MdReq else a.chan;
    ReadsSomething(s, a);
    assert Step(s, a).js == Take(s.js, c) && Step(s, a).clock == s.clock;
    forall d | d in joined
      ensures Take(s.js, c).Get(d) == s.js.Get(d)
    {
      TakenAside(s.js, c, d);
    }
  }

  /** The other engines only add to what a reader has joined, stamped by a clock that does not go back. */
  lemma StepGrows(joined: set<Chan>, s: Sys, a: Action, since: nat)
    requires !ReadsFor(joined, a) && since <= s.clock
    ensures Grown(joined, s, Step(s, a), since)
  {
    hide Grown, Post, CpHandle, MdHandle, TdHandle, Take;
    if Enabled(s, a) {
      match a {
        case CpWrite(dt) =>
          PostGrows(joined, s.(cp := Rest(s.cp)), dt, s.cp.todo[0], since);
          SameGrown(joined, s, s.(cp := Rest(s.cp)), Step(s, a), since);
        case MdWrite(dt) =>
          PostGrows(joined, s.(md := Rest(s.md)), dt, s.md.todo[0], since);
          SameGrown(joined, s, s.(md := Rest(s.md)), Step(s, a), since);
        case TdWrite(dt) =>
          PostGrows(joined, s.(td := Rest(s.td)), dt, s.td.todo[0], since);
          SameGrown(joined, s, s.(td := Rest(s.td)), Step(s, a), since);
        case _ => ReadGrows(joined, s, a, since);
      }
    } else {
      NothingGrown(joined, s, since);
    }
  }

  lemma NothingGrown(joined: set<Chan>, s: Sys, since: nat)
    requires since <= s.clock
    ensures Grown(joined, s, s, since)
  {
  }

  lemma GrownOn(joined: set<Chan>, s: Sys, t: Sys, u: Sys, since: nat)
    requires Grown(joined, s, t, since) && Grown(joined, t, u, since)
    ensures Grown(joined, s, u, since)
  {
    forall c | c in joined
      ensures s.js.Get(c) <= u.js.Get(c)
              && forall i | |s.js.Get(c)| <= i < |u.js.Get(c)| :: since <= u.js.Get(c)[i].time
    {
      assert s.js.Get(c) <= t.js.Get(c) <= u.js.Get(c);
      forall i | |s.js.Get(c)| <= i < |u.js.Get(c)|
        ensures since <= u.js.Get(c)[i].time
      {
        assert i < |t.js.Get(c)| ==> u.js.Get(c)[i] == t.js.Get(c)[i];
      }
    }
  }

  lemma {:induction false} RunGrows(joined: set<Chan>, s: Sys, acts: seq<Action>, since: nat)
    requires (forall a | a in acts :: !ReadsFor(joined, a)) && since <= s.clock
    ensures Grown(joined, s, Exec(s, acts), since)
    decreases |acts|
  {
    hide Grown, Step, ReadsFor;
    if acts == [] {
      NothingGrown(joined, s, since);
    } else {
      StepGrows(joined, s, acts[0], since);
      assert since <= Step(s, acts[0]).clock by { ClockOn(joined, s, Step(s, acts[0]), since); }
      RunGrows(joined, Step(s, acts[0]), acts[1..], since);
      GrownOn(joined, s, Step(s, acts[0]), Exec(s, acts), since);
    }
  }

  lemma ClockOn(joined: set<Chan>, s: Sys, t: Sys, since: nat)
    requires Grown(joined, s, t, since)
    ensures since <= t.clock
  {
  }

  /** A pass that begins at time `now`: looks in any order, one state after the other, up to `end`. */
  ghost predicate Pass(joined: set<Chan>, looks: seq<Look>, end: Sys, now: nat) {
    forall i | 0 <= i < |looks| :: looks[i].chan in joined && Grown(joined, looks[i].s, end, now)
  }

  /** The fronts of what has been looked at are not earlier than the choice, and the choice is one of them. */
  ghost predicate Best(joined: set<Chan>, seen: set<Chan>, end: Sys, ch: Choice) {
    && (forall d | d in seen && end.js.Get(d) != [] :: ch.min <= end.js.Get(d)[0].time)
    && (match ch.current
        case None => true
        case Some(c) => c in joined && end.js.Get(c) != [] && end.js.Get(c)[0].time == ch.min)
  }

  function LooksAt(looks: seq<Look>): set<Chan> {
    set i | 0 <= i < |looks| :: looks[i].chan
  }

  lemma {:induction false} SortIsBest(joined: set<Chan>, seen: set<Chan>, looks: seq<Look>, end: Sys, now: nat,
                                      ch: Choice)
    requires Pass(joined, looks, end, now) && ch.min <= now && Best(joined, seen, end, ch)
    ensures Best(joined, seen + LooksAt(looks), end, Sort(looks, ch))
    decreases |looks|
  {
    if looks == [] {
      assert seen + LooksAt(looks) == seen;
    } else {
      var c, ms := looks[0].chan, looks[0].s.js.Get(looks[0].chan);
      assert Grown(joined, looks[0].s, end, now);
      assert ms != [] ==> end.js.Get(c)[0] == ms[0];
      assert ms == [] && end.js.Get(c) != [] ==> now <= end.js.Get(c)[0].time;
      var next := if ms != [] && ms[0].time <= ch.min then Choice(ms[0].time, Some(c)) else ch;
      SortIsBest(joined, seen + {c}, looks[1..], end, now, next);
      assert seen + LooksAt(looks) == seen + {c} + LooksAt(looks[1..]);
    }
  }

  /** Whatever the order of the looks and whatever is written between them: what a pass picks for being stamped by
      the time it began, a read that looks at all journals at once, when the pass is over, could pick. */
  lemma PassIsAtomic(joined: set<Chan>, looks: seq<Look>, end: Sys, now: nat)
    requires Pass(joined, looks, end, now) && LooksAt(looks) == joined
    ensures Sort(looks, Choice(now, None)).current.Some?
            ==> Chosen(end.js, joined, Sort(looks, Choice(now, None)).current.value)
  {
    SortIsBest(joined, {}, looks, end, now, Choice(now, None));
  }

  /** If the pass picks nothing, the reader stays with the journal it read last. */
  lemma {:induction false} StaysWith(looks: seq<Look>, min: nat, stale: Option<Chan>)
    ensures Sort(looks, Choice(min, stale))
            == var picked := Sort(looks, Choice(min, None)); if picked.current.Some? then picked else Choice(min, stale)
    decreases |looks|
  {
    if looks != [] {
      var ms := looks[0].s.js.Get(looks[0].chan);
      if ms != [] && ms[0].time <= min {
        PickedStays(looks[1..], Choice(ms[0].time, Some(looks[0].chan)));
      } else {
        StaysWith(looks[1..], min, stale);
      }
    }
  }

  lemma {:induction false} PickedStays(looks: seq<Look>, ch: Choice)
    requires ch.current.Some?
    ensures Sort(looks, ch).current.Some?
    decreases |looks|
  {
    if looks != [] {
      var ms := looks[0].s.js.Get(looks[0].chan);
      PickedStays(looks[1..],
                  if ms != [] && ms[0].time <= ch.min then Choice(ms[0].time, Some(looks[0].chan)) else ch);
    }
  }

  // ---------- CP stays with what is empty ----------

  /** The journal CP has read last in a run. */
  function LastCpRead(s: Sys, acts: seq<Action>, last: Option<Chan>): Option<Chan>
    decreases |acts|
  {
    if acts == [] then last
    else
      LastCpRead(Step(s, acts[0]), acts[1..],
                 if acts[0].CpRead? && Enabled(s, acts[0]) then Some(acts[0].chan) else last)
  }

  /** The stations between the token on MD_RESPONSE and the token on TD_RESPONSE. */
  predicate WithTd(ph: Phase) {
    ph == CpToTd || ph == AtTd || ph == InTd || ph == FromTd || ph == Lost
  }

  lemma StaysWithTd(s: Sys, ph: Phase, a: Action)
    requires Shape(s, ph) && TdShape(s, ph) && OnOrders(s.js.orders, ph) && StartComesFirst(s)
    requires WithTd(ph) && Enabled(s, a)
    ensures WithTd(NextPhase(s, ph, a)) || (a.CpRead? && a.chan == TdResp)
  {
    hide Shape, TdShape, OnOrders, StartComesFirst, Chosen, OutOfRows, HasRoom;
    if a.CpRead? && ph != Lost {
      CpFront(s, ph, a.chan, a.orders);
    }
  }

  lemma TokenReadLast(s: Sys, ph: Phase, orders: seq<Req>)
    requires Shape(s, ph) && TdShape(s, ph) && OnOrders(s.js.orders, ph) && Enabled(s, CpRead(MdResp, orders))
    ensures WithTd(NextPhase(s, ph, CpRead(MdResp, orders)))
  {
    hide Shape, TdShape, OnOrders, Chosen;
    ReadsSomething(s, CpRead(MdResp, orders));
    if ph == Lost {
      LostMeansSilent(s);
      SilentTake(s, MdResp);
    } else {
      CpFront(s, ph, MdResp, orders);
    }
  }

  lemma {:induction false} LastReadAt(s: Sys, ph: Phase, acts: seq<Action>, last: Option<Chan>, all: seq<Row>)
    returns (ph': Phase)
    requires At(s, ph, all) && TimelyRun(s, acts) && (last == Some(MdResp) ==> WithTd(ph))
    ensures At(Exec(s, acts), ph', all) && (LastCpRead(s, acts, last) == Some(MdResp) ==> WithTd(ph'))
    decreases |acts|
  {
    hide Step, NextPhase, Timely, Enabled, WithTd, Shape, TdShape, OnOrders, StartComesFirst, Typed, Parted, Counted;
    if acts == [] {
      ph' := ph;
    } else {
      var a := acts[0];
      AtStep(s, ph, a, all);
      if Enabled(s, a) {
        if last == Some(MdResp) {
          StaysWithTd(s, ph, a);
        }
        if a.CpRead? && a.chan == MdResp {
          TokenReadLast(s, ph, a.orders);
        }
      } else {
        AtTdOnly(s, ph, a);
      }
      var last' := if a.CpRead? && Enabled(s, a) then Some(a.chan) else last;
      ph' := LastReadAt(Step(s, a), NextPhase(s, ph, a), acts[1..], last', all);
    }
  }

  /** When the journal CP has read last is MD_RESPONSE, nothing is there: staying with it, CP never takes the token
      past a bar, in whatever order it looks. */
  lemma CpStaysWithNothing(g: Geometry, ordersFirst: bool, reqs: seq<Req>, rows: seq<Row>, acts: seq<Action>)
    requires ValidGeometry(g) && TimelyRun(Initial(g, ordersFirst, reqs, rows), acts)
    ensures var s := Initial(g, ordersFirst, reqs, rows);
            LastCpRead(s, acts, None) == Some(MdResp) ==> Exec(s, acts).js.mdResp == []
  {
    hide At, Initial, Exec, TimelyRun, LastCpRead, ValidGeometry;
    InitialAt(g, ordersFirst, reqs, rows);
    var ph := LastReadAt(Initial(g, ordersFirst, reqs, rows), CpToMd, acts, None, rows);
    NothingFromMd(Exec(Initial(g, ordersFirst, reqs, rows), acts), ph, rows);
  }

  lemma NothingFromMd(s: Sys, ph: Phase, all: seq<Row>)
    requires At(s, ph, all)
    ensures WithTd(ph) ==> s.js.mdResp == []
  {
    hide TdShape, OnOrders, StartComesFirst, Typed, Parted, Counted, Conserved;
  }

  // ---------- TD may stay with the token ----------

  /** The journal TD has read last in a run. */
  function LastTdRead(s: Sys, acts: seq<Action>, last: Option<Chan>): Option<Chan>
    decreases |acts|
  {
    if acts == [] then last
    else LastTdRead(Step(s, acts[0]), acts[1..], TdReadAfter(s, acts[0], last))
  }

  function TdReadAfter(s: Sys, a: Action, last: Option<Chan>): Option<Chan> {
    if a.TdRead? && Enabled(s, a) then Some(a.chan) else last
  }

  lemma {:induction false} LastThen(s: Sys, acts: seq<Action>, a: Action, last: Option<Chan>)
    ensures LastTdRead(s, acts + [a], last) == TdReadAfter(Exec(s, acts), a, LastTdRead(s, acts, last))
    decreases |acts|
  {
    hide Step, TdReadAfter;
    if acts == [] {
      assert acts + [a] == [a] && [a][1..] == [];
    } else {
      LastThen(Step(s, acts[0]), acts[1..], a, TdReadAfter(s, acts[0], last));
      assert (acts + [a])[1..] == acts[1..] + [a];
    }
  }

  /** Some run with all writes in time leads from `s` to `s'`, and TD has read `last` last. */
  ghost predicate Comes(s: Sys, s': Sys, last: Option<Chan>) {
    exists acts :: Exec(s, acts) == s' && TimelyRun(s, acts) && LastTdRead(s, acts, None) == last
  }

  lemma ComesNowhere(s: Sys)
    ensures Comes(s, s, None)
  {
    NoActs(s);
    assert LastTdRead(s, [], None) == None;
  }

  lemma ComesOn(s: Sys, s': Sys, last: Option<Chan>, a: Action)
    requires Comes(s, s', last) && Timely(s', a)
    ensures Comes(s, Step(s', a), TdReadAfter(s', a, last))
  {
    hide Exec, TimelyRun, Timely, Step, LastTdRead, TdReadAfter;
    var acts :| Exec(s, acts) == s' && TimelyRun(s, acts) && LastTdRead(s, acts, None) == last;
    ExecThen(s, acts, a);
    LastThen(s, acts, a, None);
  }

  /** The start signal goes to the orders first. */
  function First(): Sys {
    Initial(Even(), true, [], [Good])
  }

  function LaunchedOrdersFirst(): Sys {
    Sys(4, Journals([Stamped(1, Start), Stamped(4, Token(MarketData))], [], [],
                    [Stamped(3, Start)], [Stamped(2, Start)], []),
        Even6(2, 0, 0, 1, 1, 0), WAITING, NEW, NEW, [Good], NOTHING_YET)
  }

  /** TD has read both start signals, that on TD_REQ last; MD has answered. */
  function Idling(): Sys {
    Sys(6, Journals([], [Stamped(6, Token(MarketData))], [Stamped(5, Bar(0))], [], [], []),
        Even6(2, 1, 1, 1, 1, 0), WAITING, WAITING, WAITING, [], NOTHING_YET.(answered := 1, barsMade := [0]))
  }

  /** The strategy has ordered on the bar, and CP has handed the token on. */
  function OrderedAndHanded(): Sys {
    Sys(8, Journals([], [], [], [Stamped(8, Token(MatchOrder))], [Stamped(7, Order(Insert(7)))], []),
        Even6(2, 1, 1, 2, 2, 0), WAITING, WAITING, WAITING, [],
        NOTHING_YET.(answered := 1, barsMade := [0], barsSeen := [0], written := [Insert(7)], asked := 1))
  }

  function AtRestOrdersFirst(): Sys {
    AtRest().(cp := Engine([Out(MdReq, Start), Out(Orders, Start), Out(TdReq, Start), Out(MdReq, Token(MarketData))],
                           true, true))
  }

  function HalfLaunchedOrdersFirst(): Sys {
    Sys(2, Journals([Stamped(1, Start)], [], [], [], [Stamped(2, Start)], []), Even6(1, 0, 0, 0, 1, 0),
        Engine([Out(TdReq, Start), Out(MdReq, Token(MarketData))], true, true), NEW, NEW, [Good], NOTHING_YET)
  }

  lemma FirstIs()
    ensures First() == AtRestOrdersFirst()
  {
    assert PreStart(true, []) == AtRestOrdersFirst().cp.todo;
  }

  lemma HalfLaunchOrdersFirst()
    ensures Comes(First(), HalfLaunchedOrdersFirst(), None)
  {
    hide Comes, First;
    FirstIs();
    var s1 := Step(AtRestOrdersFirst(), CpWrite(1));
    assert s1.cp.todo == [Out(Orders, Start), Out(TdReq, Start), Out(MdReq, Token(MarketData))];
    assert s1.js == Journals([Stamped(1, Start)], [], [], [], [], []);
    assert s1.cp.todo[1..] == HalfLaunchedOrdersFirst().cp.todo;
    assert Step(s1, CpWrite(1)) == HalfLaunchedOrdersFirst();
    ComesNowhere(First());
    ComesOn(First(), AtRestOrdersFirst(), None, CpWrite(1));
    ComesOn(First(), s1, None, CpWrite(1));
  }

  lemma LaunchOrdersFirst()
    ensures Comes(First(), LaunchedOrdersFirst(), None)
  {
    hide Comes, First;
    HalfLaunchOrdersFirst();
    var s3 := Step(HalfLaunchedOrdersFirst(), CpWrite(1));
    assert s3.cp.todo == [Out(MdReq, Token(MarketData))];
    assert Step(s3, CpWrite(1)) == LaunchedOrdersFirst();
    ComesOn(First(), HalfLaunchedOrdersFirst(), None, CpWrite(1));
    ComesOn(First(), s3, None, CpWrite(1));
  }

  lemma ComesToIdle()
    ensures Comes(First(), Idling(), Some(TdReq))
  {
    hide Comes, First;
    LaunchOrdersFirst();
    var s4 := LaunchedOrdersFirst();
    var s5 := Step(s4, TdRead(Orders, []));
    var s6 := Step(s5, TdRead(TdReq, []));
    ComesOn(First(), s4, None, TdRead(Orders, []));
    ComesOn(First(), s5, Some(Orders), TdRead(TdReq, []));
    var s7 := Step(s6, MdRead);
    var s8 := Step(s7, MdRead);
    ComesOn(First(), s6, Some(TdReq), MdRead);
    ComesOn(First(), s7, Some(TdReq), MdRead);
    AnswersThen(s8);
  }

  lemma AnswersThen(s8: Sys)
    requires Comes(First(), s8, Some(TdReq))
    requires s8 == Sys(4, Journals([], [], [], [], [], []), Even6(2, 0, 0, 1, 1, 0), WAITING,
                       Engine([Out(Bars, Bar(0)), Out(MdResp, Token(MarketData))], true, true), WAITING, [],
                       NOTHING_YET.(answered := 1))
    ensures Comes(First(), Idling(), Some(TdReq))
  {
    hide Comes, First;
    var s9 := Step(s8, MdWrite(1));
    assert s9.md.todo == [Out(MdResp, Token(MarketData))];
    assert Step(s9, MdWrite(1)) == Idling();
    ComesOn(First(), s8, Some(TdReq), MdWrite(1));
    ComesOn(First(), s9, Some(TdReq), MdWrite(1));
  }

  const HANDING := [CpRead(Bars, [Insert(7)]), CpWrite(1), CpRead(MdResp, []), CpWrite(1)]

  lemma OneStep(s: Sys, a: Action, acts: seq<Action>, t: Sys)
    requires Timely(s, a) && Exec(Step(s, a), acts) == t && TimelyRun(Step(s, a), acts)
    ensures Exec(s, [a] + acts) == t && TimelyRun(s, [a] + acts)
  {
    assert ([a] + acts)[1..] == acts;
  }

  /** The strategy has ordered on the bar. */
  function Ordered(): Sys {
    Sys(7, Journals([], [Stamped(6, Token(MarketData))], [], [], [Stamped(7, Order(Insert(7)))], []),
        Even6(2, 1, 1, 1, 2, 0), WAITING, WAITING, WAITING, [],
        NOTHING_YET.(answered := 1, barsMade := [0], barsSeen := [0], written := [Insert(7)]))
  }

  lemma Orders7()
    ensures Step(Step(Idling(), HANDING[0]), HANDING[1]) == Ordered()
    ensures Timely(Idling(), HANDING[0]) && Timely(Step(Idling(), HANDING[0]), HANDING[1])
  {
    assert Step(Idling(), HANDING[0]).cp.todo == [Out(Orders, Order(Insert(7)))];
  }

  lemma HandsOn()
    ensures Step(Step(Ordered(), HANDING[2]), HANDING[3]) == OrderedAndHanded()
    ensures Timely(Ordered(), HANDING[2]) && Timely(Step(Ordered(), HANDING[2]), HANDING[3])
  {
  }

  lemma Hands()
    ensures Exec(Idling(), HANDING) == OrderedAndHanded() && TimelyRun(Idling(), HANDING)
  {
    hide Exec, TimelyRun, Step, Timely, Idling, Ordered, OrderedAndHanded;
    Orders7();
    HandsOn();
    NoActs(OrderedAndHanded());
    var b, d := HANDING[1], HANDING[3];
    OneStep(Step(Ordered(), HANDING[2]), d, [], OrderedAndHanded());
    OneStep(Ordered(), HANDING[2], [d] + [], OrderedAndHanded());
    OneStep(Step(Idling(), HANDING[0]), b, [HANDING[2]] + ([d] + []), OrderedAndHanded());
    OneStep(Idling(), HANDING[0], [b] + ([HANDING[2]] + ([d] + [])), OrderedAndHanded());
    assert HANDING == [HANDING[0]] + ([b] + ([HANDING[2]] + ([d] + [])));
  }

  lemma PicksNothing()
    ensures Sort([Look(Orders, Idling()), Look(TdReq, Idling())], Choice(6, Some(TdReq))) == Choice(6, Some(TdReq))
  {
    var looks := [Look(Orders, Idling()), Look(TdReq, Idling())];
    assert looks[1..] == [Look(TdReq, Idling())] && looks[1..][1..] == [];
    assert Sort(looks[1..], Choice(6, Some(TdReq))) == Choice(6, Some(TdReq));
  }

  /** Even if every write is in time, TD can match past an order: it looks at its journals when both are empty, CP
      writes an order, stamped 7, and the token, stamped 8, and TD, having picked nothing, stays with TD_REQ,
      which it read last and which now has the token. */
  lemma StaleChoiceMissesOrder()
    ensures exists s, end ::
              var looks := [Look(Orders, s), Look(TdReq, s)];
              && Comes(First(), s, Some(TdReq)) && Exec(s, HANDING) == end && TimelyRun(s, HANDING)
              && Pass({TdReq, Orders}, looks, end, s.clock)
              && Sort(looks, Choice(s.clock, Some(TdReq))).current == Some(TdReq)
              && end.td.todo == [] && end.td.live && end.js.tdReq == [Stamped(8, Token(MatchOrder))]
              && end.js.orders == [Stamped(7, Order(Insert(7)))] && end.t.written == [Insert(7)] && end.t.inserted == []
  {
    hide Comes, First, Grown, Exec, TimelyRun, Sort;
    ComesToIdle();
    Hands();
    PicksNothing();
    RunGrows({TdReq, Orders}, Idling(), HANDING, Idling().clock);
  }
}
