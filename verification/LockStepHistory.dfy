/** What becomes of everything the strategy asks for, every trade the matching comes up with and every row of the
    file, from the run alone: it is written, read in the order it came up, and nothing else is. */
module LockStepHistory {
  import opened LockStep
  import opened LockStepInvariant
  import opened LockStepSteps
  import opened LockStepRuns

  // ---------- What comes up in a run ----------

  /** The trades the matching comes up with in a step: those of a pass, if TD takes a token. */
  function NewTrades(s: Sys, a: Action): seq<nat> {
    if a.TdRead? && Enabled(s, a) && s.js.Get(a.chan)[0].msg.Token? then a.trades else []
  }

  /** What the strategy asks for in a step: on a bar, on a trade or on the answer to a cancel. */
  function NewRequests(s: Sys, a: Action): seq<Req> {
    if a.CpRead? && Enabled(s, a) && Heard(s.js.Get(a.chan)[0].msg) then a.orders else []
  }

  predicate Heard(m: Msg) {
    m.Bar? || m.Trade? || m.Resp?
  }

  function TradesOf(s: Sys, acts: seq<Action>): seq<nat>
    decreases |acts|
  {
    if acts == [] then [] else NewTrades(s, acts[0]) + TradesOf(Step(s, acts[0]), acts[1..])
  }

  function RequestsOf(s: Sys, acts: seq<Action>): seq<Req>
    decreases |acts|
  {
    if acts == [] then [] else NewRequests(s, acts[0]) + RequestsOf(Step(s, acts[0]), acts[1..])
  }

  /** The numbers of the rows that yield a bar. */
  function GoodRows(rows: seq<Row>): seq<nat> {
    if rows == [] then []
    else GoodRows(rows[..|rows| - 1]) + if rows[|rows| - 1] == Good then [|rows| - 1] else []
  }

  // ---------- What is still to be written ----------

  function OutTrades(outs: seq<Out>): seq<nat> {
    if outs == [] then []
    else if outs[0].msg.Trade? then [outs[0].msg.id] + OutTrades(outs[1..])
    else OutTrades(outs[1..])
  }

  function OutReqs(outs: seq<Out>): seq<Req> {
    if outs == [] then []
    else if outs[0].msg.Order? then [outs[0].msg.req] + OutReqs(outs[1..])
    else OutReqs(outs[1..])
  }

  function OutBars(outs: seq<Out>): seq<nat> {
    if outs == [] then []
    else if outs[0].msg.Bar? then [outs[0].msg.nr] + OutBars(outs[1..])
    else OutBars(outs[1..])
  }

  predicate Splits<T(==)>(all: seq<T>, made: seq<T>, ahead: seq<T>) {
    all == made + ahead
  }

  /** One more of what was ahead is made; or nothing was ahead, and something new is. */
  lemma SplitOn<T>(all: seq<T>, made: seq<T>, x: T, ahead: seq<T>)
    ensures Splits(all, made, [x] + ahead) ==> Splits(all, made + [x], ahead)
  {
  }

  lemma NewAhead<T>(all: seq<T>, made: seq<T>, found: seq<T>)
    ensures Splits(all, made, []) ==> Splits(all + found, made, found)
    ensures all + [] == all
  {
  }

  /** All trades, requests and bars that came up have been written or are about to be. */
  predicate Owes(s: Sys, trades: seq<nat>, reqs: seq<Req>, all: seq<Row>) {
    && Splits(trades, s.t.tradesMade, OutTrades(s.td.todo))
    && Splits(reqs, s.t.written, OutReqs(s.cp.todo))
    && s.t.answered <= |all| && Splits(GoodRows(all[..s.t.answered]), s.t.barsMade, OutBars(s.md.todo))
  }

  lemma {:induction false} OutReqsAppend(outs: seq<Out>, o: Out)
    ensures OutReqs(outs + [o]) == if o.msg.Order? then OutReqs(outs) + [o.msg.req] else OutReqs(outs)
  {
    if outs == [] {
      assert outs + [o] == [o] && [o][1..] == [];
    } else {
      assert (outs + [o])[1..] == outs[1..] + [o];
      OutReqsAppend(outs[1..], o);
    }
  }

  lemma {:induction false} OutTradesAppend(outs: seq<Out>, o: Out)
    ensures OutTrades(outs + [o]) == if o.msg.Trade? then OutTrades(outs) + [o.msg.id] else OutTrades(outs)
  {
    if outs == [] {
      assert outs + [o] == [o] && [o][1..] == [];
    } else {
      assert (outs + [o])[1..] == outs[1..] + [o];
      OutTradesAppend(outs[1..], o);
    }
  }

  lemma {:induction false} RequestsToWrite(reqs: seq<Req>)
    ensures OutReqs(OrderOuts(reqs)) == reqs
  {
    if reqs != [] {
      RequestsToWrite(reqs[1..]);
      assert OrderOuts(reqs)[1..] == OrderOuts(reqs[1..]);
    }
  }

  lemma {:induction false} TradesOnly(ids: seq<nat>)
    ensures OutTrades(TradeOuts(ids)) == ids
  {
    if ids != [] {
      TradesOnly(ids[1..]);
      assert TradeOuts(ids)[1..] == TradeOuts(ids[1..]);
    }
  }

  lemma TradesToWrite(ids: seq<nat>, flag: Flag)
    ensures OutTrades(TradeOuts(ids) + [Out(TdResp, Token(flag))]) == ids
  {
    TradesOnly(ids);
    OutTradesAppend(TradeOuts(ids), Out(TdResp, Token(flag)));
  }

  lemma NoneToWrite(req: Req)
    ensures OutTrades([]) == [] && OutReqs([]) == [] && OutBars([]) == [] && OutTrades(Reply(req)) == []
    ensures OutReqs([Out(TdReq, Token(MatchOrder))]) == [] && OutReqs([Out(MdReq, Token(MarketData))]) == []
    ensures OutReqs([Out(MdReq, End), Out(TdReq, End), Out(Orders, End)]) == [] && OutBars([Out(Bars, End)]) == []
  {
    var ends := [Out(MdReq, End), Out(TdReq, End), Out(Orders, End)];
    assert ends[1..] == [Out(TdReq, End), Out(Orders, End)] && ends[1..][1..] == [Out(Orders, End)];
  }

  lemma BarToWrite(row: Row, nr: nat, flag: Flag)
    ensures OutBars(Answer(row, nr, flag)) == if row == Good then [nr] else []
  {
    var back := Out(MdResp, Token(flag));
    assert OutBars([back]) == [];
    if row == Good {
      assert Answer(row, nr, flag)[1..] == [back];
    }
  }

  lemma NoRequest(o: Out, outs: seq<Out>)
    requires !o.msg.Order?
    ensures OutReqs([o] + outs) == OutReqs(outs)
  {
    assert ([o] + outs)[1..] == outs;
  }

  lemma StartsToWrite(ordersFirst: bool, reqs: seq<Req>)
    ensures OutReqs(PreStart(ordersFirst, reqs)) == reqs
  {
    hide OutReqs, OrderOuts;
    var second, third := if ordersFirst then Orders else TdReq, if ordersFirst then TdReq else Orders;
    var outs := OrderOuts(reqs) + [Out(MdReq, Token(MarketData))];
    RequestsToWrite(reqs);
    OutReqsAppend(OrderOuts(reqs), Out(MdReq, Token(MarketData)));
    NoRequest(Out(third, Start), outs);
    NoRequest(Out(second, Start), [Out(third, Start)] + outs);
    NoRequest(Out(MdReq, Start), [Out(second, Start)] + ([Out(third, Start)] + outs));
    assert PreStart(ordersFirst, reqs) == [Out(MdReq, Start)] + ([Out(second, Start)] + ([Out(third, Start)] + outs));
  }

  // ---------- One step ----------

  /** What a write adds to the tallies of what was written. */
  lemma PostMade(s: Sys, dt: nat, o: Out)
    ensures var t := Post(s, dt, o);
            && t.t.tradesMade == (if o.msg.Trade? then s.t.tradesMade + [o.msg.id] else s.t.tradesMade)
            && t.t.written == (if o.msg.Order? then s.t.written + [o.msg.req] else s.t.written)
            && t.t.barsMade == (if o.msg.Bar? then s.t.barsMade + [o.msg.nr] else s.t.barsMade)
            && t.t.answered == s.t.answered && t.cp == s.cp && t.md == s.md && t.td == s.td
  {
    hide HasRoom, Filled, Send;
  }

  /** Requests are written by CP, trades by TD and bars by MD only. */
  lemma WhoWrites(s: Sys, ph: Phase)
    requires Shape(s, ph) && TdShape(s, ph) && Typed(s)
    ensures s.cp.todo != [] ==> !s.cp.todo[0].msg.Trade? && !s.cp.todo[0].msg.Bar?
    ensures s.md.todo != [] ==> !s.md.todo[0].msg.Trade? && !s.md.todo[0].msg.Order?
    ensures s.td.todo != [] ==> !s.td.todo[0].msg.Order? && !s.td.todo[0].msg.Bar?
  {
    hide Shape, TdShape, JournalsFit;
    OutsElsewhere(s, ph);
    if s.td.todo != [] {
      TdOut(s, ph);
    }
  }

  /** Writing the first of what is to be written moves it from there to what was written. */
  lemma OneWritten(outs: seq<Out>)
    requires outs != []
    ensures OutTrades(outs)
            == if outs[0].msg.Trade? then [outs[0].msg.id] + OutTrades(outs[1..]) else OutTrades(outs[1..])
    ensures OutReqs(outs) == if outs[0].msg.Order? then [outs[0].msg.req] + OutReqs(outs[1..]) else OutReqs(outs[1..])
    ensures OutBars(outs) == if outs[0].msg.Bar? then [outs[0].msg.nr] + OutBars(outs[1..]) else OutBars(outs[1..])
  {
  }

  lemma OwesAfterCpWrite(s: Sys, dt: nat, trades: seq<nat>, reqs: seq<Req>, all: seq<Row>)
    requires Owes(s, trades, reqs, all) && s.cp.todo != [] && !s.cp.todo[0].msg.Trade? && !s.cp.todo[0].msg.Bar?
    ensures Owes(Post(s.(cp := Rest(s.cp)), dt, s.cp.todo[0]), trades, reqs, all)
  {
    hide Post, GoodRows, OutTrades, OutReqs, OutBars, Splits;
    PostMade(s.(cp := Rest(s.cp)), dt, s.cp.todo[0]);
    OneWritten(s.cp.todo);
    if s.cp.todo[0].msg.Order? {
      SplitOn(reqs, s.t.written, s.cp.todo[0].msg.req, OutReqs(s.cp.todo[1..]));
    }
  }

  lemma OwesAfterMdWrite(s: Sys, dt: nat, trades: seq<nat>, reqs: seq<Req>, all: seq<Row>)
    requires Owes(s, trades, reqs, all) && s.md.todo != [] && !s.md.todo[0].msg.Trade? && !s.md.todo[0].msg.Order?
    ensures Owes(Post(s.(md := Rest(s.md)), dt, s.md.todo[0]), trades, reqs, all)
  {
    hide Post, GoodRows, OutTrades, OutReqs, OutBars, Splits;
    PostMade(s.(md := Rest(s.md)), dt, s.md.todo[0]);
    OneWritten(s.md.todo);
    if s.md.todo[0].msg.Bar? {
      SplitOn(GoodRows(all[..s.t.answered]), s.t.barsMade, s.md.todo[0].msg.nr, OutBars(s.md.todo[1..]));
    }
  }

  lemma OwesAfterTdWrite(s: Sys, dt: nat, trades: seq<nat>, reqs: seq<Req>, all: seq<Row>)
    requires Owes(s, trades, reqs, all) && s.td.todo != [] && !s.td.todo[0].msg.Order? && !s.td.todo[0].msg.Bar?
    ensures Owes(Post(s.(td := Rest(s.td)), dt, s.td.todo[0]), trades, reqs, all)
  {
    hide Post, GoodRows, OutTrades, OutReqs, OutBars, Splits;
    PostMade(s.(td := Rest(s.td)), dt, s.td.todo[0]);
    OneWritten(s.td.todo);
    if s.td.todo[0].msg.Trade? {
      SplitOn(trades, s.t.tradesMade, s.td.todo[0].msg.id, OutTrades(s.td.todo[1..]));
    }
  }

  lemma OwesAfterWrite(s: Sys, ph: Phase, a: Action, trades: seq<nat>, reqs: seq<Req>, all: seq<Row>)
    requires Shape(s, ph) && TdShape(s, ph) && Typed(s) && Owes(s, trades, reqs, all)
    requires Enabled(s, a) && (a.CpWrite? || a.MdWrite? || a.TdWrite?)
    ensures Owes(Step(s, a), trades, reqs, all)
  {
    hide Shape, TdShape, Typed, Post, Owes;
    WhoWrites(s, ph);
    match a {
      case CpWrite(dt) => OwesAfterCpWrite(s, dt, trades, reqs, all);
      case MdWrite(dt) => OwesAfterMdWrite(s, dt, trades, reqs, all);
      case TdWrite(dt) => OwesAfterTdWrite(s, dt, trades, reqs, all);
    }
  }

  lemma OwesAfterCpRead(s: Sys, c: Chan, orders: seq<Req>, trades: seq<nat>, reqs: seq<Req>, all: seq<Row>)
    requires Enabled(s, CpRead(c, orders)) && s.js.Get(c) != [] && Owes(s, trades, reqs, all)
    ensures Owes(Step(s, CpRead(c, orders)), trades, reqs + NewRequests(s, CpRead(c, orders)), all)
  {
    hide GoodRows, Take, Chosen, OutReqs, OutTrades, OutBars, OrderOuts, Splits;
    RequestsToWrite(orders);
    NewAhead(reqs, s.t.written, orders);
    NoneToWrite(Insert(0));
  }

  lemma OwesAfterTdRead(s: Sys, c: Chan, found: seq<nat>, trades: seq<nat>, reqs: seq<Req>, all: seq<Row>)
    requires Enabled(s, TdRead(c, found)) && s.js.Get(c) != [] && Owes(s, trades, reqs, all)
    ensures Owes(Step(s, TdRead(c, found)), trades + NewTrades(s, TdRead(c, found)), reqs, all)
  {
    hide GoodRows, Take, Chosen, OutReqs, OutTrades, OutBars, TradeOuts, Reply, Splits;
    NewAhead(trades, s.t.tradesMade, found);
    match s.js.Get(c)[0].msg {
      case Order(req) => NoneToWrite(req);
      case Token(flag) => TradesToWrite(found, flag);
      case _ =>
    }
    NoneToWrite(Insert(0));
  }

  lemma OneRowMore(all: seq<Row>, n: nat)
    requires n < |all|
    ensures GoodRows(all[..n + 1]) == if all[n] == Good then GoodRows(all[..n]) + [n] else GoodRows(all[..n])
  {
    assert all[..n + 1][..n] == all[..n];
  }

  lemma OwesAfterMdRead(s: Sys, trades: seq<nat>, reqs: seq<Req>, all: seq<Row>)
    requires Enabled(s, MdRead) && s.js.mdReq != [] && Owes(s, trades, reqs, all)
    requires s.t.answered <= |all| && s.rows == all[s.t.answered..]
    ensures Owes(Step(s, MdRead), trades, reqs, all)
  {
    hide GoodRows, Take, Chosen, OutReqs, OutTrades, OutBars, Answer, Splits;
    NoneToWrite(Insert(0));
    NewAhead(GoodRows(all[..s.t.answered]), s.t.barsMade, [s.t.answered]);
    if s.js.mdReq[0].msg.Token? && !OutOfRows(s.rows) {
      OneRowMore(all, s.t.answered);
      BarToWrite(s.rows[0], s.t.answered, s.js.mdReq[0].msg.flag);
    }
  }

  lemma OwesStep(s: Sys, ph: Phase, a: Action, trades: seq<nat>, reqs: seq<Req>, all: seq<Row>)
    requires At(s, ph, all) && Owes(s, trades, reqs, all)
    ensures Owes(Step(s, a), trades + NewTrades(s, a), reqs + NewRequests(s, a), all)
  {
    hide Shape, TdShape, OnOrders, Parted, TdRespOk, EndedEmpty, StartsFresh, RolledOk, Conserved, Replied, LossesOk,
      StartComesFirst, Typed, Owes, Step, Enabled;
    assert trades + [] == trades && reqs + [] == reqs;
    if Enabled(s, a) {
      match a {
        case CpRead(c, orders) =>
          ReadsSomething(s, a);
          OwesAfterCpRead(s, c, orders, trades, reqs, all);
        case MdRead =>
          ReadsSomething(s, a);
          OwesAfterMdRead(s, trades, reqs, all);
        case TdRead(c, found) =>
          ReadsSomething(s, a);
          OwesAfterTdRead(s, c, found, trades, reqs, all);
        case _ => OwesAfterWrite(s, ph, a, trades, reqs, all);
      }
    } else {
      AtTdOnly(s, ph, a);
    }
  }

  lemma {:induction false} OwesThrough(s: Sys, ph: Phase, acts: seq<Action>, trades: seq<nat>, reqs: seq<Req>,
                                       all: seq<Row>)
    requires At(s, ph, all) && TimelyRun(s, acts) && Owes(s, trades, reqs, all)
    ensures Owes(Exec(s, acts), trades + TradesOf(s, acts), reqs + RequestsOf(s, acts), all)
    decreases |acts|
  {
    hide At, Step, NextPhase, Timely, Owes, NewTrades, NewRequests;
    if acts == [] {
      assert trades + [] == trades && reqs + [] == reqs;
    } else {
      var a, s' := acts[0], Step(s, acts[0]);
      AtStep(s, ph, a, all);
      OwesStep(s, ph, a, trades, reqs, all);
      OwesThrough(s', NextPhase(s, ph, a), acts[1..], trades + NewTrades(s, a), reqs + NewRequests(s, a), all);
      assert trades + NewTrades(s, a) + TradesOf(s', acts[1..]) == trades + TradesOf(s, acts);
      assert reqs + NewRequests(s, a) + RequestsOf(s', acts[1..]) == reqs + RequestsOf(s, acts);
    }
  }

  lemma InitialOwes(g: Geometry, ordersFirst: bool, reqs: seq<Req>, rows: seq<Row>)
    ensures Owes(Initial(g, ordersFirst, reqs, rows), [], reqs, rows)
  {
    hide PreStart;
    StartsToWrite(ordersFirst, reqs);
    assert rows[..0] == [];
  }

  // ---------- Whole runs ----------

  /** A run from the start whose writes are in time, and the state it leads to. */
  ghost predicate RunsTo(g: Geometry, ordersFirst: bool, reqs: seq<Req>, rows: seq<Row>, acts: seq<Action>, s: Sys) {
    && ValidGeometry(g) && TimelyRun(Initial(g, ordersFirst, reqs, rows), acts)
    && s == Exec(Initial(g, ordersFirst, reqs, rows), acts)
  }

  lemma RunsToOwes(g: Geometry, ordersFirst: bool, reqs: seq<Req>, rows: seq<Row>, acts: seq<Action>, s: Sys)
    requires RunsTo(g, ordersFirst, reqs, rows, acts, s)
    ensures Reachable(s, rows)
    ensures var s0 := Initial(g, ordersFirst, reqs, rows);
            Owes(s, TradesOf(s0, acts), reqs + RequestsOf(s0, acts), rows)
  {
    hide At, Exec, TimelyRun, Initial, Owes, TradesOf, RequestsOf, ValidGeometry;
    var s0 := Initial(g, ordersFirst, reqs, rows);
    InitialAt(g, ordersFirst, reqs, rows);
    InitialOwes(g, ordersFirst, reqs, rows);
    OwesThrough(s0, CpToMd, acts, [], reqs, rows);
    assert [] + TradesOf(s0, acts) == TradesOf(s0, acts);
  }

  /** Every trade of every pass, every request of the strategy and the bar of every row that yields one has been
      handled, is unread, was lost behind its first page or is still to be written, each in the order it came up. */
  lemma NothingIsForgotten(g: Geometry, ordersFirst: bool, reqs: seq<Req>, rows: seq<Row>, acts: seq<Action>, s: Sys)
    requires RunsTo(g, ordersFirst, reqs, rows, acts, s)
    ensures var s0 := Initial(g, ordersFirst, reqs, rows);
            && TradesOf(s0, acts) == s.t.tradesSeen + TradeIds(s.js.tdResp) + s.t.lost.trades + OutTrades(s.td.todo)
            && reqs + RequestsOf(s0, acts)
               == s.t.inserted + Reqs(s.js.orders) + s.t.lost.orders + OutReqs(s.cp.todo)
            && s.t.answered <= |rows|
            && GoodRows(rows[..s.t.answered])
               == s.t.barsSeen + BarRows(s.js.bars) + s.t.lost.bars + OutBars(s.md.todo)
  {
    hide RunsTo, Reachable, Shape, TdShape, OnOrders, Parted, Counted, TdRespOk, EndedEmpty, StartsFresh, RolledOk,
      Replied, LossesOk, StartComesFirst, Typed, ValidGeometry, TradeIds, Reqs, BarRows, OutTrades, OutReqs, OutBars,
      GoodRows, TradesOf, RequestsOf, Initial;
    RunsToOwes(g, ordersFirst, reqs, rows, acts, s);
    var ph := ReachableAt(s, rows);
  }

  /** When TD takes the token, what it has taken of the requests is exactly what the strategy had asked for when CP
      wrote the token, before the start or on any event, up to what was written behind the first page. */
  lemma MatchingSeesEveryOrder(g: Geometry, ordersFirst: bool, reqs: seq<Req>, rows: seq<Row>, acts: seq<Action>,
                               s: Sys, c: Chan, trades: seq<nat>)
    requires RunsTo(g, ordersFirst, reqs, rows, acts, s)
    requires Enabled(s, TdRead(c, trades)) && s.js.Get(c)[0].msg.Token?
    ensures var made := reqs + RequestsOf(Initial(g, ordersFirst, reqs, rows), acts);
            && 0 <= Asked(s.t) <= |made| && s.t.inserted == made[..Asked(s.t)]
            && s.t.written <= made
            && (|s.t.respsSeen| == s.t.heard && s.t.lost.orders == [] ==> s.t.inserted == made)
    ensures RequestsAfter(s.js.orders, s.js.Get(c)[0].time)
    ensures s.js.orders == [] <==> |s.t.written| - |s.t.lost.orders| <= s.t.asked
    ensures |s.t.respsSeen| == s.t.heard ==> s.js.orders == [] && s.cp.todo == []
    ensures s.td.started && s.t.passes + 1 == s.t.answered
    ensures s.t.tradesSeen == TradesOf(Initial(g, ordersFirst, reqs, rows), acts)
    ensures s.t.answered <= |rows| && s.t.barsSeen + s.t.lost.bars == GoodRows(rows[..s.t.answered])
  {
    hide RunsTo, Reachable, RequestsAfter, TradesOf, RequestsOf, Initial, Enabled, GoodRows;
    RunsToOwes(g, ordersFirst, reqs, rows, acts, s);
    TakenAtToken(s, rows, c, trades);
    IdleAtToken(s, rows, c, trades);
  }

  lemma IdleAtToken(s: Sys, rows: seq<Row>, c: Chan, trades: seq<nat>)
    requires Reachable(s, rows) && Enabled(s, TdRead(c, trades)) && s.js.Get(c)[0].msg.Token?
    ensures s.td.todo == [] && s.md.todo == []
  {
    hide Reachable, OnOrders, Parted, Counted, TdRespOk, EndedEmpty, StartsFresh, RolledOk, Conserved,
      Replied, LossesOk, StartComesFirst, Typed, ValidGeometry;
    var ph := ReachableAt(s, rows);
    TdReadsAt(s, ph, c, trades);
  }

  /** When MD is about to produce the next bar, the strategy has handled every trade of every match pass of the run,
      and the bar of every row that yields one, but for bars written behind the first page. */
  lemma NextBarSeesEveryTrade(g: Geometry, ordersFirst: bool, reqs: seq<Req>, rows: seq<Row>, acts: seq<Action>,
                              s: Sys)
    requires RunsTo(g, ordersFirst, reqs, rows, acts, s)
    requires Enabled(s, MdRead) && s.js.mdReq[0].msg.Token?
    ensures s.t.tradesSeen == TradesOf(Initial(g, ordersFirst, reqs, rows), acts)
    ensures s.t.answered <= |rows| && s.t.barsSeen + s.t.lost.bars == GoodRows(rows[..s.t.answered])
    ensures s.t.passes == s.t.answered && s.md.started
  {
    hide RunsTo, Reachable, TradesOf, RequestsOf, Initial, GoodRows, OnOrders, Parted, TdRespOk, EndedEmpty,
      StartsFresh, RolledOk, Conserved, Replied, LossesOk, Typed, ValidGeometry;
    RunsToOwes(g, ordersFirst, reqs, rows, acts, s);
    SeenAtNextBar(s, rows);
    var ph := ReachableAt(s, rows);
    MdReadsAt(s, ph);
    NothingToReport(s, ph, rows);
  }

  /** The termination comes only after every row in front of the first empty line has been answered and every answer
      has been matched; the strategy has handled every trade of the run and the bar of every such row that yields
      one, but for bars written behind the first page; these are all the rows exactly if no line is empty. */
  lemma TerminationComesLast(g: Geometry, ordersFirst: bool, reqs: seq<Req>, rows: seq<Row>, acts: seq<Action>, s: Sys)
    requires RunsTo(g, ordersFirst, reqs, rows, acts, s) && s.t.over
    ensures s.t.answered == s.t.passes == Readable(rows) <= |rows|
    ensures s.t.answered == |rows| <==> Empty !in rows
    ensures s.t.tradesSeen == TradesOf(Initial(g, ordersFirst, reqs, rows), acts)
    ensures s.t.barsSeen + s.t.lost.bars == GoodRows(rows[..Readable(rows)])
  {
    hide RunsTo, Reachable, TradesOf, RequestsOf, Initial, GoodRows, OnOrders, Parted, TdRespOk, EndedEmpty,
      StartsFresh, RolledOk, Conserved, Replied, LossesOk, Typed, ValidGeometry, Readable, StartComesFirst;
    RunsToOwes(g, ordersFirst, reqs, rows, acts, s);
    SeenAtEnd(s, rows);
    var ph := ReachableAt(s, rows);
    NothingToReport(s, ph, rows);
  }

  lemma NothingToReport(s: Sys, ph: Phase, all: seq<Row>)
    requires At(s, ph, all) && (s.t.over || ph == AtMd)
    ensures OutTrades(s.td.todo) == [] && OutBars(s.md.todo) == []
  {
    hide OnOrders, Parted, TdRespOk, EndedEmpty, StartsFresh, RolledOk, Conserved, Replied, LossesOk, Typed,
      ValidGeometry, StartComesFirst, OutTrades, OutBars, RespsOnly, ReportsOnly, StartsOnly, OrderOutsOnly, EndsOnly,
      AllSilent, TokenBehindStarts, OutOfRows;
    NoneToWrite(Insert(0));
    RepliesOnly(s.td.todo);
  }

  lemma RepliesOnly(outs: seq<Out>)
    ensures Replying(outs) ==> OutTrades(outs) == []
  {
    if Replying(outs) && outs != [] {
      assert outs[1..] == [];
    }
  }
}
