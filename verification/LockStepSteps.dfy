/** That every step keeps the invariant: what the token does, what TD does beside it, and the parts that say which
    stamps, counts and pages go with the station. */
module LockStepSteps {
  import opened LockStep
  import opened LockStepInvariant

  // ---------- The token ----------

  lemma CpWriteFirst(s: Sys, dt: nat)
    requires Shape(s, CpToMd) && OnOrders(s.js.orders, CpToMd)
    ensures Shape(Step(s, CpWrite(dt)), NextPhase(s, CpToMd, CpWrite(dt)))
    ensures OnOrders(Step(s, CpWrite(dt)).js.orders, CpToMd)
  {
    hide HasRoom, Filled, Sent, Missed;
  }

  lemma CpWriteOrder(s: Sys, ph: Phase, dt: nat)
    requires ph != Lost && Shape(s, ph) && OnOrders(s.js.orders, ph) && OrderOutsOnly(s.cp.todo) && s.cp.todo != []
    ensures ph != CpToMd && ph != CpToTd && ph != Ended
    ensures Shape(Step(s, CpWrite(dt)), ph) && OnOrders(Step(s, CpWrite(dt)).js.orders, ph)
  {
    hide HasRoom, Filled, Sent, Missed, Shape;
    assert IsOrderOut(s.cp.todo[0]);
    OrderSent(s, Step(s, CpWrite(dt)), ph);
  }

  /** Where CP has requests to write, they are no part of the shape. */
  lemma OrderSent(s: Sys, t: Sys, ph: Phase)
    requires ph != Lost && Shape(s, ph) && OrderOutsOnly(s.cp.todo) && s.cp.todo != []
    requires t.js == s.js.(orders := t.js.orders) && t.cp == s.cp.(todo := s.cp.todo[1..]) && t.md == s.md
    ensures ph != CpToMd && ph != CpToTd && ph != Ended
    ensures Shape(t, ph)
  {
    hide StartsOnly, TokenBehindStarts, OneBar;
    assert IsOrderOut(s.cp.todo[0]) && IsOrderOut(s.cp.todo[|s.cp.todo| - 1]);
  }

  lemma CpWriteToken(s: Sys, dt: nat)
    requires Shape(s, CpToTd) && OnOrders(s.js.orders, CpToTd)
    ensures Shape(Step(s, CpWrite(dt)), NextPhase(s, CpToTd, CpWrite(dt)))
    ensures Step(s, CpWrite(dt)).js.orders == s.js.orders
  {
    hide HasRoom, Filled, Sent, Missed;
  }

  lemma CpWriteEnd(s: Sys, dt: nat)
    requires Shape(s, Ended) && OnOrders(s.js.orders, Ended) && s.cp.todo != []
    ensures Shape(Step(s, CpWrite(dt)), Ended) && OnOrders(Step(s, CpWrite(dt)).js.orders, Ended)
  {
    hide HasRoom, Filled, Sent, Missed;
    assert IsEndOut(s.cp.todo[0]);
  }

  lemma CpWriteShape(s: Sys, ph: Phase, dt: nat)
    requires Shape(s, ph) && OnOrders(s.js.orders, ph) && s.cp.todo != [] && ph != Lost
    ensures Shape(Step(s, CpWrite(dt)), NextPhase(s, ph, CpWrite(dt)))
    ensures OnOrders(Step(s, CpWrite(dt)).js.orders, NextPhase(s, ph, CpWrite(dt)))
  {
    hide Step, OrderOutsOnly;
    match ph {
      case CpToMd => CpWriteFirst(s, dt);
      case CpToTd => CpWriteToken(s, dt);
      case Ended => CpWriteEnd(s, dt);
      case _ => CpWriteOrder(s, ph, dt);
    }
  }

  lemma MdWriteShape(s: Sys, ph: Phase, dt: nat)
    requires Shape(s, ph) && OnOrders(s.js.orders, ph) && Timely(s, MdWrite(dt)) && s.md.todo != [] && ph != Lost
    ensures Shape(Step(s, MdWrite(dt)), NextPhase(s, ph, MdWrite(dt)))
    ensures OnOrders(Step(s, MdWrite(dt)).js.orders, NextPhase(s, ph, MdWrite(dt)))
  {
    hide HasRoom, Filled, Sent, Missed;
  }

  /** What TD reports and what it takes of the orders is no part of the shape. */
  lemma ReportsAside(s: Sys, t: Sys, ph: Phase)
    requires Shape(s, ph) && t.js == s.js.(tdResp := t.js.tdResp, orders := t.js.orders)
    requires t.cp == s.cp && t.md == s.md && (ph == Lost ==> NoSignal(t.js.orders))
    ensures Shape(t, ph)
    ensures ph == InTd ==> Shape(t, FromTd) && (NoSignal(t.js.orders) ==> Shape(t, Lost))
  {
    hide StartsOnly, TokenBehindStarts, OrderOutsOnly, OneBar;
  }

  lemma TdWriteShape(s: Sys, ph: Phase, dt: nat)
    requires Shape(s, ph) && TdShape(s, ph) && OnOrders(s.js.orders, ph) && s.td.todo != []
    ensures Shape(Step(s, TdWrite(dt)), NextPhase(s, ph, TdWrite(dt)))
    ensures OnOrders(Step(s, TdWrite(dt)).js.orders, NextPhase(s, ph, TdWrite(dt)))
  {
    hide HasRoom, Filled, Sent, Missed, Shape;
    var t := Step(s, TdWrite(dt));
    assert s.td.todo[0].chan == TdResp by { TdOut(s, ph); }
    if ph == Lost {
      LostOrders(s);
    }
    ReportsAside(s, t, ph);
  }

  lemma LostOrders(s: Sys)
    requires Shape(s, Lost)
    ensures NoSignal(s.js.orders)
  {
  }

  /** All that TD writes goes to TD_RESPONSE. */
  lemma TdOut(s: Sys, ph: Phase)
    requires TdShape(s, ph) && s.td.todo != []
    ensures s.td.todo[0].chan == TdResp
    ensures if ph == InTd && |s.td.todo| == 1 then s.td.todo[0].msg == Token(MatchOrder)
            else s.td.todo[0].msg.Trade? || s.td.todo[0].msg.Resp?
    ensures ph != InTd ==> |s.td.todo| == 1 && s.td.todo[0].msg.Resp?
    ensures ph == InTd && |s.td.todo| > 1 ==> s.td.todo[0].msg.Trade?
  {
  }

  // ---------- Once the token is lost ----------

  lemma LostWrite(s: Sys, dt: nat)
    requires Silent(s) && OnOrders(s.js.orders, Lost) && s.cp.todo != []
    ensures Silent(Step(s, CpWrite(dt))) && OnOrders(Step(s, CpWrite(dt)).js.orders, Lost)
  {
    hide HasRoom, Filled, Sent, Missed;
    assert IsOrderOut(s.cp.todo[0]);
  }

  lemma LostRead(s: Sys, a: Action)
    requires Silent(s) && TdShape(s, Lost) && OnOrders(s.js.orders, Lost)
    requires Enabled(s, a) && (a.CpRead? || a.MdRead? || a.TdRead?)
    ensures Silent(Step(s, a)) && OnOrders(Step(s, a).js.orders, Lost)
    ensures LikewiseCounted(s, Step(s, a))
  {
    hide OutOfRows, Take, NoSignal, Chosen, OnOrders, OrderOuts, TradeOuts, Reply, Answer, Journals.Get, TdShape;
    var c := if a.MdRead? then MdReq else a.chan;
    ReadsSomething(s, a);
    SilentTake(s, c);
    if a.CpRead? {
      OrdersOut(a.orders);
    }
  }

  /** The counts that only the token moves on. */
  predicate LikewiseCounted(s: Sys, t: Sys) {
    t.t.answered == s.t.answered && t.t.passes == s.t.passes && t.t.over == s.t.over && t.rows == s.rows
  }

  lemma LostMeansSilent(s: Sys)
    ensures Shape(s, Lost) <==> Silent(s)
    ensures Silent(s) ==> s.md.todo == []
  {
  }

  /** Once lost, the token stays lost. */
  lemma LostStep(s: Sys, a: Action)
    requires Shape(s, Lost) && TdShape(s, Lost) && OnOrders(s.js.orders, Lost)
    ensures Shape(Step(s, a), Lost) && OnOrders(Step(s, a).js.orders, Lost)
    ensures LikewiseCounted(s, Step(s, a))
  {
    hide Post, CpHandle, MdHandle, TdHandle, Take, Silent, TdShape, Shape, OnOrders;
    LostMeansSilent(s);
    if Enabled(s, a) {
      match a {
        case CpWrite(dt) =>
          LostWrite(s, dt);
          PostCounts(s.(cp := Rest(s.cp)), dt, s.cp.todo[0]);
        case MdWrite(_) =>
        case TdWrite(dt) =>
          TdWriteShape(s, Lost, dt);
          PostCounts(s.(td := Rest(s.td)), dt, s.td.todo[0]);
        case _ =>
          LostRead(s, a);
      }
    }
    LostMeansSilent(Step(s, a));
  }

  lemma OrdersOut(reqs: seq<Req>)
    ensures OrderOutsOnly(OrderOuts(reqs)) && OrderOutsOnly([])
  {
  }

  lemma SilentTake(s: Sys, c: Chan)
    requires AllSilent(s.js) && TdShape(s, Lost) && OnOrders(s.js.orders, Lost) && s.js.Get(c) != []
             && s.js.mdResp == []
    ensures AllSilent(Take(s.js, c)) && OnOrders(Take(s.js, c).orders, Lost)
    ensures !s.js.Get(c)[0].msg.Token? && s.js.Get(c)[0].msg != End
    ensures Take(s.js, c).mdResp == []
  {
  }

  // ---------- What the engines read ----------

  lemma MdReadToken(s: Sys, ph: Phase)
    requires Shape(s, ph) && StartComesFirst(s) && Enabled(s, MdRead) && ph != Lost && s.js.mdReq[0].msg.Token?
    ensures ph == AtMd && Shape(Step(s, MdRead), NextPhase(s, ph, MdRead))
  {
    hide OutOfRows, OrderOutsOnly;
  }

  /** Start signals and terminations on MD_REQ do not touch what the shape is about. */
  lemma MdStartAside(s: Sys, t: Sys, ph: Phase)
    requires ph != Lost && Shape(s, ph) && s.js.mdReq != [] && !s.js.mdReq[0].msg.Token?
    requires t.js == s.js.(mdReq := s.js.mdReq[1..]) && t.cp == s.cp && t.md.todo == s.md.todo
    ensures Shape(t, ph)
  {
    hide OrderOutsOnly, OneBar, Before, StartsOnly, Launching, EndsOnly;
    StartsRest(s.js.mdReq);
  }

  lemma MdReadOther(s: Sys, ph: Phase)
    requires Shape(s, ph) && Enabled(s, MdRead) && ph != Lost && !s.js.mdReq[0].msg.Token?
    ensures Shape(Step(s, MdRead), ph)
  {
    hide Shape, Answer, OutOfRows;
    MdStartAside(s, Step(s, MdRead), ph);
  }

  lemma MdReadShape(s: Sys, ph: Phase)
    requires Shape(s, ph) && OnOrders(s.js.orders, ph) && StartComesFirst(s) && Enabled(s, MdRead) && ph != Lost
    ensures Shape(Step(s, MdRead), NextPhase(s, ph, MdRead))
    ensures OnOrders(Step(s, MdRead).js.orders, NextPhase(s, ph, MdRead))
  {
    hide Shape, StartComesFirst, OutOfRows, Answer;
    if s.js.mdReq[0].msg.Token? {
      MdReadToken(s, ph);
    } else {
      MdReadOther(s, ph);
    }
  }

  /** What the front of a journal that CP may read can be, and where the token then is. */
  lemma CpFront(s: Sys, ph: Phase, c: Chan, orders: seq<Req>)
    requires ph != Lost && Shape(s, ph) && TdShape(s, ph) && Enabled(s, CpRead(c, orders))
    ensures var m := s.js.Get(c)[0].msg;
            && (m.Token? ==> (ph == FromMd && c == MdResp && m.flag == MarketData && s.js.bars == [])
                             || (ph == FromTd && c == TdResp && m.flag == MatchOrder))
            && (m.Bar? ==> c == Bars && (ph == InMd || ph == FromMd))
            && (m.Trade? ==> c == TdResp && (ph == InTd || ph == FromTd))
            && (m.Resp? ==> c == TdResp)
            && (m == End ==> c == Bars && ph == EndForCp)
            && m != Start && !m.Order? && (c == TdResp || c == MdResp || c == Bars)
    ensures ph != CpToMd && ph != CpToTd && ph != Ended
    ensures c == MdResp ==> s.js.Get(c)[0].msg.Token?
    ensures c == Bars ==> s.js.Get(c)[0].msg.Bar? || s.js.Get(c)[0].msg == End
  {
    hide StartsOnly, OrderOutsOnly, TokenBehindStarts, Matching, Replying;
    assert s.js.Get(Bars) == s.js.bars && s.js.Get(MdResp) == s.js.mdResp && s.js.Get(TdResp) == s.js.tdResp;
    if ph == FromTd && c == TdResp {
      AmidFront(s.js.tdResp);
    }
  }

  lemma AmidFront(ms: seq<Stamped>)
    requires TokenAmid(ms)
    ensures ms != [] && (ms[0].msg == Token(MatchOrder) || ms[0].msg.Trade? || ms[0].msg.Resp?)
    ensures ms[0].msg.Token? ==> RespsOnly(ms[1..])
    ensures !ms[0].msg.Token? ==> TokenAmid(ms[1..])
  {
    var p :| 0 <= p < |ms| && TokenAt(ms, p);
    if p > 0 {
      assert ms[..p][0] == ms[0];
      assert ms[1..][..p - 1] == ms[..p][1..];
      assert ms[1..][p..] == ms[p + 1..];
      assert TokenAt(ms[1..], p - 1);
    }
  }

  /** While CP has nothing to write, what it reads on TD_RESPONSE leaves it with requests to write and is no part
      of the shape, but for the token. */
  lemma CpHeard(s: Sys, t: Sys, ph: Phase, reqs: seq<Req>)
    requires ph != Lost && ph != CpToMd && ph != CpToTd && ph != Ended && Shape(s, ph)
    requires t.js == s.js.(tdResp := t.js.tdResp) && t.cp == s.cp.(todo := OrderOuts(reqs)) && t.md == s.md
    ensures Shape(t, ph)
  {
    hide StartsOnly, TokenBehindStarts, OneBar, OrderOutsOnly, OrderOuts;
    OrdersOut(reqs);
  }

  lemma CpReadBar(s: Sys, ph: Phase, orders: seq<Req>)
    requires ph == InMd || ph == FromMd
    requires Shape(s, ph) && Enabled(s, CpRead(Bars, orders)) && s.js.bars[0].msg.Bar?
    ensures Shape(Step(s, CpRead(Bars, orders)), ph)
  {
    hide OrderOuts, OrderOutsOnly, StartsOnly;
    OrdersOut(orders);
  }

  lemma CpReadToken(s: Sys, ph: Phase, c: Chan, orders: seq<Req>)
    requires ph == FromMd
             ==> c == MdResp && s.js.bars == [] && s.js.mdResp != []
                 && s.js.mdResp[0].msg == Token(MarketData)
    requires ph != FromMd
             ==> ph == FromTd && c == TdResp && s.js.tdResp != []
                 && s.js.tdResp[0].msg == Token(MatchOrder)
    requires Shape(s, ph) && Enabled(s, CpRead(c, orders))
    ensures Shape(Step(s, CpRead(c, orders)), NextPhase(s, ph, CpRead(c, orders)))
  {
    hide OrderOuts, OrderOutsOnly, StartsOnly;
    StartsNone();
  }

  lemma StartsNone()
    ensures StartsOnly([])
  {
  }

  lemma CpReadEnd(s: Sys, orders: seq<Req>)
    requires Shape(s, EndForCp) && Enabled(s, CpRead(Bars, orders)) && s.js.bars[0].msg == End
    ensures Shape(Step(s, CpRead(Bars, orders)), Ended)
  {
  }

  lemma CpReadShape(s: Sys, ph: Phase, c: Chan, orders: seq<Req>)
    requires ph != Lost && Shape(s, ph) && TdShape(s, ph) && OnOrders(s.js.orders, ph) && Enabled(s, CpRead(c, orders))
    ensures Shape(Step(s, CpRead(c, orders)), NextPhase(s, ph, CpRead(c, orders)))
    ensures OnOrders(Step(s, CpRead(c, orders)).js.orders, NextPhase(s, ph, CpRead(c, orders)))
  {
    hide Shape, TdShape, OrderOuts, Chosen;
    CpFront(s, ph, c, orders);
    ReadsSomething(s, CpRead(c, orders));
    var m := s.js.Get(c)[0].msg;
    if m.Token? {
      CpReadToken(s, ph, c, orders);
    } else if m.Bar? {
      CpReadBar(s, ph, orders);
    } else if m == End {
      CpReadEnd(s, orders);
    } else {
      CpHeard(s, Step(s, CpRead(c, orders)), ph, orders);
    }
  }

  lemma StartsRest(ms: seq<Stamped>)
    requires ms != []
    ensures StartsOnly(ms) ==> StartsOnly(ms[1..])
    ensures StartsOnly(ms[..|ms| - 1]) && |ms| > 1 ==> StartsOnly(ms[1..][..|ms| - 2])
  {
    if |ms| > 1 {
      assert ms[1..][..|ms| - 2] == ms[..|ms| - 1][1..];
    }
  }

  /** Which journal has what TD may read. */
  lemma TdFront(s: Sys, ph: Phase, c: Chan, trades: seq<nat>)
    requires ph != Lost && Shape(s, ph) && OnOrders(s.js.orders, ph) && Enabled(s, TdRead(c, trades))
    ensures c == TdReq || c == Orders
    ensures s.js.Get(c)[0].msg.Token?
            ==> ph == AtTd && c == TdReq && s.js.tdReq[0].msg == Token(MatchOrder) && |s.js.tdReq| == 1
    ensures s.js.Get(c)[0].msg.Order? ==> c == Orders
    ensures s.js.Get(c)[0].msg == End ==> ph == Ended
    ensures var m := s.js.Get(c)[0].msg; m.Token? || m.Order? || m == End || m == Start
  {
    hide OrderOutsOnly, OneBar, Before, Launching, Answering, EndsOnly;
  }

  lemma TdTakesToken(s: Sys, t: Sys)
    requires Shape(s, AtTd) && |s.js.tdReq| == 1 && t.js == s.js.(tdReq := []) && t.cp == s.cp && t.md == s.md
    ensures Shape(t, InTd)
  {
    hide OrderOutsOnly;
  }

  /** A start signal or a termination on TD_REQ is no part of the shape. */
  lemma StartAside(s: Sys, t: Sys, ph: Phase)
    requires ph != Lost && Shape(s, ph) && s.js.tdReq != [] && !s.js.tdReq[0].msg.Token?
    requires t.js == s.js.(tdReq := s.js.tdReq[1..]) && t.cp == s.cp && t.md == s.md
    ensures Shape(t, ph)
  {
    hide OrderOutsOnly, OneBar, Before, StartsOnly, Launching, EndsOnly;
    StartsRest(s.js.tdReq);
  }

  lemma TdReadShape(s: Sys, ph: Phase, c: Chan, trades: seq<nat>)
    requires ph != Lost && Shape(s, ph) && OnOrders(s.js.orders, ph) && Enabled(s, TdRead(c, trades))
    ensures Shape(Step(s, TdRead(c, trades)), NextPhase(s, ph, TdRead(c, trades)))
    ensures OnOrders(Step(s, TdRead(c, trades)).js.orders, NextPhase(s, ph, TdRead(c, trades)))
  {
    hide Shape, TradeOuts, Reply, Chosen;
    TdFront(s, ph, c, trades);
    ReadsSomething(s, TdRead(c, trades));
    var t := Step(s, TdRead(c, trades));
    if s.js.Get(c)[0].msg.Token? {
      TdTakesToken(s, t);
    } else if c == Orders {
      ReportsAside(s, t, ph);
    } else {
      StartAside(s, t, ph);
    }
  }

  lemma ShapeStep(s: Sys, ph: Phase, a: Action)
    requires Shape(s, ph) && TdShape(s, ph) && OnOrders(s.js.orders, ph) && StartComesFirst(s) && Timely(s, a)
    ensures Shape(Step(s, a), NextPhase(s, ph, a)) && OnOrders(Step(s, a).js.orders, NextPhase(s, ph, a))
  {
    hide Shape, TdShape, OnOrders, StartComesFirst, Timely, Post, CpHandle, MdHandle, TdHandle, Take;
    if ph == Lost {
      LostStep(s, a);
    } else if Enabled(s, a) {
      match a {
        case CpWrite(dt) => CpWriteShape(s, ph, dt);
        case MdWrite(dt) => MdWriteShape(s, ph, dt);
        case TdWrite(dt) => TdWriteShape(s, ph, dt);
        case CpRead(c, orders) => CpReadShape(s, ph, c, orders);
        case MdRead => MdReadShape(s, ph);
        case TdRead(c, trades) => TdReadShape(s, ph, c, trades);
      }
    }
  }

  // ---------- TD beside the token ----------

  lemma RespsAreReports(ms: seq<Stamped>)
    ensures RespsOnly(ms) ==> ReportsOnly(ms)
    ensures ms != [] && RespsOnly(ms) ==> RespsOnly(ms[1..])
    ensures ms != [] && ReportsOnly(ms) ==> ReportsOnly(ms[1..])
    ensures Replying([])
  {
  }

  lemma ReportSent(ms: seq<Stamped>, m: Stamped)
    ensures RespsOnly(ms) && m.msg.Resp? ==> RespsOnly(ms + [m])
    ensures ReportsOnly(ms) && (m.msg.Resp? || m.msg.Trade?) ==> ReportsOnly(ms + [m])
    ensures ReportsOnly(ms) && m.msg == Token(MatchOrder) ==> TokenAmid(ms + [m])
    ensures TokenAmid(ms) && m.msg.Resp? ==> TokenAmid(ms + [m])
  {
    if ReportsOnly(ms) && m.msg == Token(MatchOrder) {
      assert (ms + [m])[..|ms|] == ms;
      assert TokenAt(ms + [m], |ms|);
    }
    if TokenAmid(ms) && m.msg.Resp? {
      var p :| 0 <= p < |ms| && TokenAt(ms, p);
      assert (ms + [m])[..p] == ms[..p];
      assert (ms + [m])[p + 1..] == ms[p + 1..] + [m];
      assert TokenAt(ms + [m], p);
    }
  }

  lemma MatchingRest(outs: seq<Out>)
    requires Matching(outs)
    ensures |outs| > 1 ==> Matching(outs[1..])
    ensures |outs| == 1 ==> outs[1..] == []
  {
  }

  lemma TdWriteTd(s: Sys, ph: Phase, dt: nat)
    requires TdShape(s, ph) && s.td.todo != []
    ensures TdShape(Step(s, TdWrite(dt)), NextPhase(s, ph, TdWrite(dt)))
  {
    hide HasRoom, Filled, Sent, Missed, RespsOnly, ReportsOnly, TokenAmid, Matching;
    TdOut(s, ph);
    ReportSent(s.js.tdResp, Stamped(s.clock + dt, s.td.todo[0].msg));
    RespsAreReports(s.js.tdResp);
    if ph == InTd {
      MatchingRest(s.td.todo);
    }
  }

  /** The engines other than TD write nothing to TD_RESPONSE. */
  lemma OtherWriteTd(s: Sys, ph: Phase, a: Action)
    requires Shape(s, ph) && TdShape(s, ph) && Enabled(s, a) && (a.CpWrite? || a.MdWrite?)
    ensures TdShape(Step(s, a), NextPhase(s, ph, a))
  {
    hide HasRoom, Filled, Sent, Missed, RespsOnly, ReportsOnly, TokenAmid, Matching, Replying;
    RespsAreReports(s.js.tdResp);
    OutsElsewhere(s, ph);
  }

  lemma OutsElsewhere(s: Sys, ph: Phase)
    requires Shape(s, ph)
    ensures s.cp.todo != [] ==> s.cp.todo[0].chan == MdReq || s.cp.todo[0].chan == TdReq || s.cp.todo[0].chan == Orders
    ensures s.md.todo != [] ==> s.md.todo[0].chan == Bars || s.md.todo[0].chan == MdResp
    ensures ph == InTd || ph == FromTd ==> s.md.todo == []
  {
  }

  lemma CpReadTd(s: Sys, ph: Phase, c: Chan, orders: seq<Req>)
    requires ph != Lost && Shape(s, ph) && TdShape(s, ph) && Enabled(s, CpRead(c, orders))
    ensures TdShape(Step(s, CpRead(c, orders)), NextPhase(s, ph, CpRead(c, orders)))
  {
    hide Shape, RespsOnly, ReportsOnly, TokenAmid, Matching, Replying, OrderOuts, Chosen;
    CpFront(s, ph, c, orders);
    ReadsSomething(s, CpRead(c, orders));
    RespsAreReports(s.js.tdResp);
    if ph == FromTd {
      AmidFront(s.js.tdResp);
    }
  }

  lemma LostReadTd(s: Sys, c: Chan, orders: seq<Req>)
    requires Silent(s) && TdShape(s, Lost) && Enabled(s, CpRead(c, orders))
    ensures TdShape(Step(s, CpRead(c, orders)), Lost)
  {
    hide RespsOnly, ReportsOnly, Replying, OrderOuts, Chosen;
    ReadsSomething(s, CpRead(c, orders));
    RespsAreReports(s.js.tdResp);
  }

  lemma RepliesTo(req: Req, trades: seq<nat>)
    ensures Replying(Reply(req)) && Matching(TradeOuts(trades) + [Out(TdResp, Token(MatchOrder))])
  {
  }

  lemma TdReadTd(s: Sys, ph: Phase, c: Chan, trades: seq<nat>)
    requires ph != Lost && Shape(s, ph) && TdShape(s, ph) && OnOrders(s.js.orders, ph) && Enabled(s, TdRead(c, trades))
    ensures TdShape(Step(s, TdRead(c, trades)), NextPhase(s, ph, TdRead(c, trades)))
  {
    hide Shape, RespsOnly, ReportsOnly, TokenAmid, Replying, TradeOuts, Reply, Chosen;
    TdFront(s, ph, c, trades);
    ReadsSomething(s, TdRead(c, trades));
    RespsAreReports(s.js.tdResp);
    if s.js.Get(c)[0].msg.Order? {
      RepliesTo(s.js.Get(c)[0].msg.req, trades);
    } else if s.js.Get(c)[0].msg.Token? {
      RepliesTo(Insert(0), trades);
    }
  }

  lemma LostTdReadTd(s: Sys, c: Chan, trades: seq<nat>)
    requires Silent(s) && OnOrders(s.js.orders, Lost) && TdShape(s, Lost) && Enabled(s, TdRead(c, trades))
    ensures TdShape(Step(s, TdRead(c, trades)), Lost)
  {
    hide RespsOnly, ReportsOnly, Replying, TradeOuts, Reply, Chosen, Take;
    ReadsSomething(s, TdRead(c, trades));
    SilentTake(s, c);
    if s.js.Get(c)[0].msg.Order? {
      RepliesTo(s.js.Get(c)[0].msg.req, trades);
    }
    assert Take(s.js, c).tdResp == s.js.tdResp by { TakenAside(s.js, c, TdResp); }
  }

  lemma MdReadTd(s: Sys, ph: Phase)
    requires TdShape(s, ph)
    ensures TdShape(Step(s, MdRead), NextPhase(s, ph, MdRead))
  {
    hide RespsOnly, ReportsOnly, TokenAmid, Matching, Replying, Answer, OutOfRows;
  }

  lemma TdShapeStep(s: Sys, ph: Phase, a: Action)
    requires Shape(s, ph) && TdShape(s, ph) && OnOrders(s.js.orders, ph)
    ensures TdShape(Step(s, a), NextPhase(s, ph, a))
  {
    hide Shape, TdShape, OnOrders, Post, CpHandle, MdHandle, TdHandle, Take;
    if ph == Lost {
      LostMeansSilent(s);
    }
    if Enabled(s, a) {
      match a {
        case TdWrite(dt) => TdWriteTd(s, ph, dt);
        case CpRead(c, orders) =>
          if ph == Lost {
            LostReadTd(s, c, orders);
          } else {
            CpReadTd(s, ph, c, orders);
          }
        case MdRead => MdReadTd(s, ph);
        case TdRead(c, trades) =>
          if ph == Lost {
            LostTdReadTd(s, c, trades);
          } else {
            TdReadTd(s, ph, c, trades);
          }
        case _ => OtherWriteTd(s, ph, a);
      }
    }
  }

  lemma {:induction false} CancelsAppend(reqs: seq<Req>, req: Req)
    ensures Cancels(reqs + [req]) == Cancels(reqs) + Pending(Reply(req))
  {
    assert (reqs + [req])[..|reqs|] == reqs;
  }

  lemma PostTallies(s: Sys, dt: nat, o: Out)
    ensures var t := Post(s, dt, o).t;
            && t.inserted == s.t.inserted && t.respsSeen == s.t.respsSeen
            && t.respsMade == s.t.respsMade + Pending([o])
            && t.written == (if o.msg.Order? then s.t.written + [o.msg.req] else s.t.written)
            && t.matched == s.t.matched + (if o.msg.Token? && o.chan == TdResp then 1 else 0)
            && t.left == (if !HasRoom(s.disk, o) && LeavesTdResp(s.disk, o) then s.t.matched else s.t.left)
            && t.lost.trades == s.t.lost.trades + (if o.msg.Trade? && !HasRoom(s.disk, o) then [o.msg.id] else [])
            && t.lost.orders == s.t.lost.orders + (if o.msg.Order? && !HasRoom(s.disk, o) then [o.msg.req] else [])
            && t.over == s.t.over
    ensures o.msg.Token? && o.chan == TdReq
            ==> Post(s, dt, o).t.asked == |s.t.written| && Post(s, dt, o).t.heard == |s.t.respsSeen|
    ensures !(o.msg.Token? && o.chan == TdReq)
            ==> Post(s, dt, o).t.asked == s.t.asked && Post(s, dt, o).t.heard == s.t.heard
  {
    hide HasRoom, Filled, Send;
  }

  lemma RepliedStep(s: Sys, ph: Phase, a: Action)
    requires Shape(s, ph) && TdShape(s, ph) && OnOrders(s.js.orders, ph) && Replied(s)
    ensures Replied(Step(s, a))
  {
    hide Shape, TdShape, OnOrders, Post, Take, Chosen, HasRoom, OrderOuts, TradeOuts, Answer, OutOfRows, Reply,
      Cancels, Pending;
    assert s.t.respsMade + [] == s.t.respsMade;
    if Enabled(s, a) {
      match a {
        case CpWrite(dt) =>
          PostTallies(s.(cp := Rest(s.cp)), dt, s.cp.todo[0]);
          PostStarted(s.(cp := Rest(s.cp)), dt, s.cp.todo[0]);
          NotPending(s, ph);
        case MdWrite(dt) =>
          PostTallies(s.(md := Rest(s.md)), dt, s.md.todo[0]);
          PostStarted(s.(md := Rest(s.md)), dt, s.md.todo[0]);
          NotPending(s, ph);
        case TdWrite(dt) =>
          PostTallies(s.(td := Rest(s.td)), dt, s.td.todo[0]);
          PostStarted(s.(td := Rest(s.td)), dt, s.td.todo[0]);
          PendingRest(s, ph);
        case TdRead(c, trades) =>
          ReadsSomething(s, a);
          NothingPending(trades);
          if s.js.Get(c)[0].msg.Order? {
            CancelsAppend(s.t.inserted, s.js.Get(c)[0].msg.req);
          }
        case _ =>
      }
    }
  }

  lemma NotPending(s: Sys, ph: Phase)
    requires Shape(s, ph)
    ensures s.cp.todo != [] ==> Pending([s.cp.todo[0]]) == []
    ensures s.md.todo != [] ==> Pending([s.md.todo[0]]) == []
  {
  }

  lemma PendingRest(s: Sys, ph: Phase)
    requires TdShape(s, ph) && s.td.todo != []
    ensures Pending(s.td.todo) == Pending([s.td.todo[0]]) && Pending(s.td.todo[1..]) == []
  {
  }

  lemma NothingPending(trades: seq<nat>)
    ensures Pending([]) == [] && forall flag :: Pending(TradeOuts(trades) + [Out(TdResp, Token(flag))]) == []
  {
    assert forall flag :: (TradeOuts(trades) + [Out(TdResp, Token(flag))])[0].msg
                          == if trades == [] then Token(flag) else Trade(trades[0]);
  }

  // ---------- What is stamped before the token for TD, and what after it ----------

  lemma PartedSent(ms: seq<Stamped>, n: int, t: nat, m: Stamped)
    requires PartedAt(ms, n, t) && m.msg.Order? && t < m.time
    ensures PartedAt(ms + [m], n, t)
  {
    assert (ms + [m])[..n] == ms[..n] && (ms + [m])[n..] == ms[n..] + [m];
  }

  lemma PartedTaken(ms: seq<Stamped>, n: int, t: nat)
    requires PartedAt(ms, n, t) && ms != [] && ms[0].time <= t
    ensures PartedAt(ms[1..], n - 1, t)
  {
    assert ms[0..] == ms;
    assert ms[1..][..n - 1] == ms[..n][1..] && ms[1..][n - 1..] == ms[n..];
  }

  lemma AskedStep(s: Sys, ph: Phase, a: Action)
    requires Parted(s, ph)
    ensures Step(s, a).t.asked <= |Step(s, a).t.written| && Step(s, a).t.heard <= |Step(s, a).t.respsSeen|
  {
    hide Post, Chosen, Take, OrderOuts, TradeOuts, Reply, Answer, OutOfRows, PartedAt;
    if Enabled(s, a) {
      match a {
        case CpWrite(dt) => PostTallies(s.(cp := Rest(s.cp)), dt, s.cp.todo[0]);
        case MdWrite(dt) => PostTallies(s.(md := Rest(s.md)), dt, s.md.todo[0]);
        case TdWrite(dt) => PostTallies(s.(td := Rest(s.td)), dt, s.td.todo[0]);
        case _ =>
      }
    }
  }

  lemma PartedByToken(s: Sys, dt: nat)
    requires Shape(s, CpToTd) && Parted(s, CpToTd) && JournalsFit(s.js, s.clock) && Timely(s, CpWrite(dt))
    requires HasRoom(s.disk, s.cp.todo[0])
    ensures Parted(Step(s, CpWrite(dt)), AtTd)
  {
    hide Filled, Missed, HasRoom;
    var t := Step(s, CpWrite(dt));
    assert Before(s.js.Get(TdReq), s.clock + 1);
    assert t.js.orders[..|t.js.orders|] == s.js.orders && t.js.orders[|t.js.orders|..] == [];
  }

  lemma PartedByOrder(s: Sys, dt: nat)
    requires Shape(s, AtTd) && Parted(s, AtTd) && Timely(s, CpWrite(dt)) && s.cp.todo != []
    requires s.t.lost.orders != [] ==> s.disk.pages.orders.rolled
    ensures Parted(Step(s, CpWrite(dt)), AtTd)
  {
    hide Filled, Idle, StartsOnly, PartedAt;
    var n := |s.js.orders| - Since(s.t);
    var last := s.js.tdReq[|s.js.tdReq| - 1];
    assert IsOrderOut(s.cp.todo[0]) && last.msg.Token?;
    if HasRoom(s.disk, s.cp.todo[0]) {
      PartedSent(s.js.orders, n, last.time, Stamped(s.clock + dt, s.cp.todo[0].msg));
    }
  }

  /** Only what TD takes of the two journals it reads is of concern. */
  lemma TdTakes(s: Sys, c: Chan, trades: seq<nat>)
    requires Enabled(s, TdRead(c, trades)) && s.js.Get(c) != []
    ensures var t := Step(s, TdRead(c, trades));
            && t.js == Take(s.js, c) && t.t.written == s.t.written && t.t.lost == s.t.lost && t.t.asked == s.t.asked
            && t.cp == s.cp && t.t.respsSeen == s.t.respsSeen && t.t.heard == s.t.heard
  {
    hide Take, TradeOuts, Reply, Chosen;
  }

  lemma PartedOrders(s: Sys, t: Sys)
    requires Parted(s, AtTd) && s.js.tdReq != [] && s.js.orders != [] && s.js.orders[0].time <= s.js.tdReq[0].time
    requires t.js == s.js.(orders := s.js.orders[1..]) && Since(t.t) == Since(s.t) && t.cp == s.cp
    requires t.t.asked == s.t.asked && t.t.written == s.t.written && t.t.respsSeen == s.t.respsSeen
             && t.t.heard == s.t.heard
    ensures Parted(t, AtTd)
  {
    hide PartedAt, Since, Before;
    var last := s.js.tdReq[|s.js.tdReq| - 1];
    FrontBefore(s.js.tdReq, last.time + 1);
    PartedTaken(s.js.orders, |s.js.orders| - Since(s.t), last.time);
  }

  lemma PartedStarts(s: Sys, t: Sys)
    requires Parted(s, AtTd) && |s.js.tdReq| > 1
    requires t.js == s.js.(tdReq := s.js.tdReq[1..]) && Since(t.t) == Since(s.t) && t.cp == s.cp
    requires t.t.asked == s.t.asked && t.t.written == s.t.written && t.t.respsSeen == s.t.respsSeen
             && t.t.heard == s.t.heard
    ensures Parted(t, AtTd)
  {
    hide PartedAt, Since, Before;
    BeforeRest(s.js.tdReq, s.js.tdReq[|s.js.tdReq| - 1].time + 1);
  }

  /** The earlier front is chosen; a message that is not the token has the token behind it. */
  lemma TdChoice(s: Sys, c: Chan, trades: seq<nat>)
    requires Shape(s, AtTd) && Enabled(s, TdRead(c, trades))
    ensures s.js.tdReq != []
    ensures c == Orders ==> s.js.orders != [] && s.js.orders[0].time <= s.js.tdReq[0].time
                            && Take(s.js, c) == s.js.(orders := s.js.orders[1..])
    ensures c != Orders ==> c == TdReq && Take(s.js, c) == s.js.(tdReq := s.js.tdReq[1..])
                            && (s.js.tdReq[0].msg.Token? || |s.js.tdReq| > 1)
  {
    hide Idle, OrderOutsOnly, StartsOnly;
    assert s.js.Get(TdReq) == s.js.tdReq && s.js.Get(Orders) == s.js.orders;
  }

  lemma PartedByRead(s: Sys, c: Chan, trades: seq<nat>)
    requires Shape(s, AtTd) && Parted(s, AtTd) && Enabled(s, TdRead(c, trades))
    requires c == TdReq ==> s.js.tdReq != [] && !s.js.tdReq[0].msg.Token?
    ensures Parted(Step(s, TdRead(c, trades)), AtTd)
  {
    hide Parted, Step, Enabled, Shape, Take, Journals.Get;
    ReadsSomething(s, TdRead(c, trades));
    TdChoice(s, c, trades);
    TdTakes(s, c, trades);
    if c == Orders {
      PartedOrders(s, Step(s, TdRead(c, trades)));
    } else {
      PartedStarts(s, Step(s, TdRead(c, trades)));
    }
  }

  lemma FrontBefore(ms: seq<Stamped>, t: nat)
    requires Before(ms, t) && ms != []
    ensures ms[0].time < t
  {
  }

  lemma BeforeRest(ms: seq<Stamped>, t: nat)
    requires Before(ms, t) && ms != []
    ensures Before(ms[1..], t)
  {
  }

  lemma PartedAside(s: Sys, t: Sys)
    requires Parted(s, AtTd) && t.js.tdReq == s.js.tdReq && t.js.orders == s.js.orders
    requires t.t.written == s.t.written && t.t.lost.orders == s.t.lost.orders && t.t.asked == s.t.asked
             && t.t.heard == s.t.heard
    requires (t.cp == s.cp && t.t.respsSeen == s.t.respsSeen) || |t.t.respsSeen| > |s.t.respsSeen|
    ensures Parted(t, AtTd)
  {
    hide PartedAt, Before;
  }

  lemma PartedStays(s: Sys, a: Action)
    requires Shape(s, AtTd) && TdShape(s, AtTd) && Parted(s, AtTd) && Enabled(s, a)
    requires a.TdWrite? || a.CpRead?
    ensures Parted(Step(s, a), AtTd)
  {
    hide Shape, TdShape, Parted, Take, OrderOuts, Sent, HasRoom, Filled, Missed, Chosen;
    if a.TdWrite? {
      TdOut(s, AtTd);
      PostTallies(s.(td := Rest(s.td)), a.dt, s.td.todo[0]);
      PostStarted(s.(td := Rest(s.td)), a.dt, s.td.todo[0]);
    } else {
      CpFront(s, AtTd, a.chan, a.orders);
      ReadsSomething(s, a);
      TakenAside(s.js, TdResp, TdReq);
      TakenAside(s.js, TdResp, Orders);
    }
    PartedAside(s, Step(s, a));
  }

  lemma PartedStep(s: Sys, ph: Phase, a: Action)
    requires Shape(s, ph) && TdShape(s, ph) && OnOrders(s.js.orders, ph) && Parted(s, ph) && Typed(s) && Timely(s, a)
    requires LossesOk(s.disk.pages, s.t.lost)
    ensures Parted(Step(s, a), NextPhase(s, ph, a))
  {
    hide Shape, TdShape, OnOrders, PartedAt, JournalsFit, OutsFit, Timely, Step, LossesOk, Enabled, HasRoom;
    AskedStep(s, ph, a);
    if ph == AtTd && Enabled(s, a) {
      PartedFurther(s, a);
    } else if ph == CpToTd && NextPhase(s, ph, a) == AtTd {
      TokenFirst(s, a);
      PartedByToken(s, a.dt);
    } else {
      AtTdOnly(s, ph, a);
    }
  }

  lemma PartedFurther(s: Sys, a: Action)
    requires Shape(s, AtTd) && TdShape(s, AtTd) && OnOrders(s.js.orders, AtTd) && Parted(s, AtTd) && Timely(s, a)
    requires LossesOk(s.disk.pages, s.t.lost) && Enabled(s, a)
    requires Step(s, a).t.asked <= |Step(s, a).t.written| && Step(s, a).t.heard <= |Step(s, a).t.respsSeen|
    ensures Parted(Step(s, a), NextPhase(s, AtTd, a))
  {
    hide TdShape, OnOrders, PartedAt, Timely, Step, Chosen, StartsOnly, OrderOutsOnly, TokenBehindStarts, Before;
    match a {
      case CpWrite(dt) => PartedByOrder(s, dt);
      case TdRead(c, trades) =>
        ReadsSomething(s, a);
        if !s.js.Get(c)[0].msg.Token? {
          PartedByRead(s, c, trades);
        }
      case MdWrite(_) =>
      case MdRead => ReadsSomething(s, a);
      case _ => PartedStays(s, a);
    }
  }

  lemma TokenFirst(s: Sys, a: Action)
    requires Shape(s, CpToTd) && NextPhase(s, CpToTd, a) == AtTd
    ensures Enabled(s, a) && a.CpWrite? && s.cp.todo != [] && HasRoom(s.disk, s.cp.todo[0])
  {
    hide Shape, HasRoom, OutOfRows;
  }

  /** The token comes to be in TD_REQ only when CP writes it there. */
  lemma AtTdOnly(s: Sys, ph: Phase, a: Action)
    ensures NextPhase(s, ph, a) == AtTd ==> ph == AtTd || ph == CpToTd
    ensures !Enabled(s, a) ==> NextPhase(s, ph, a) == ph && Step(s, a) == s
  {
    hide Enabled, HasRoom, OutOfRows;
  }

  // ---------- The counts and the pages ----------

  lemma OutsToCp(s: Sys, ph: Phase)
    requires Shape(s, ph) && TdShape(s, ph)
    ensures ToCp(s.md.todo) && ToCp(s.td.todo)
  {
  }

  lemma MdReadsAt(s: Sys, ph: Phase)
    requires Shape(s, ph) && StartComesFirst(s) && Enabled(s, MdRead)
    ensures s.js.mdReq[0].msg.Token? ==> ph == AtMd && s.md.started
    ensures s.js.mdReq[0].msg == End ==> ph == Ended
  {
    hide OrderOutsOnly, OneBar, Before, Launching, Answering;
  }

  lemma CpReadsAt(s: Sys, ph: Phase, c: Chan, orders: seq<Req>)
    requires Shape(s, ph) && TdShape(s, ph) && OnOrders(s.js.orders, ph) && Enabled(s, CpRead(c, orders))
    ensures s.js.Get(c)[0].msg == End ==> ph == EndForCp && c == Bars
    ensures ph == EndForCp && c == Bars ==> s.js.Get(c)[0].msg == End
    ensures ph == FromMd && c == MdResp ==> s.js.Get(c)[0].msg.Token?
  {
    hide Shape, TdShape, OnOrders, OrderOuts;
    if ph == Lost {
      LostMeansSilent(s);
      ReadsSomething(s, CpRead(c, orders));
      SilentTake(s, c);
    } else {
      CpFront(s, ph, c, orders);
      EndAtBars(s, ph);
    }
  }

  lemma EndAtBars(s: Sys, ph: Phase)
    requires Shape(s, ph)
    ensures ph == EndForCp ==> s.js.bars != [] && s.js.bars[0].msg == End
  {
  }

  lemma TdReadsAt(s: Sys, ph: Phase, c: Chan, trades: seq<nat>)
    requires Shape(s, ph) && TdShape(s, ph) && OnOrders(s.js.orders, ph) && Enabled(s, TdRead(c, trades))
    ensures s.js.Get(c)[0].msg.Token? <==> ph == AtTd && s.js.Get(c)[0].msg.Token?
    ensures s.js.Get(c)[0].msg == End ==> ph == Ended
  {
    hide Shape, TdShape, OnOrders, TradeOuts, Reply;
    if ph == Lost {
      LostMeansSilent(s);
      ReadsSomething(s, TdRead(c, trades));
      SilentTake(s, c);
    } else {
      TdFront(s, ph, c, trades);
    }
  }

  /** A write loses the token or the termination, or leaves the counts alone. */
  lemma PostCounts(s: Sys, dt: nat, o: Out)
    ensures var t := Post(s, dt, o);
            && t.rows == s.rows && t.cp == s.cp && t.md == s.md && t.td == s.td
            && t.t.answered == s.t.answered && t.t.passes == s.t.passes && t.t.over == s.t.over
            && (t.t.lost.signal <==> s.t.lost.signal || (!HasRoom(s.disk, o) && IsSignal(o)))
  {
    hide HasRoom, Filled, Send;
  }

  predicate IsSignal(o: Out) {
    o.msg.Token? || (o.msg == End && o.chan == Bars)
  }

  /** Where the token is written, and that nothing else the engines write is a signal. */
  lemma SignalsAt(s: Sys, ph: Phase)
    requires Shape(s, ph) && TdShape(s, ph)
    ensures s.cp.todo != [] ==> (IsSignal(s.cp.todo[0]) <==> (ph == CpToMd && |s.cp.todo| == 1) || ph == CpToTd)
    ensures s.md.todo != [] ==> (IsSignal(s.md.todo[0]) <==> (ph == InMd && |s.md.todo| == 1) || ph == Ending)
    ensures s.td.todo != [] ==> (IsSignal(s.td.todo[0]) <==> ph == InTd && |s.td.todo| == 1)
  {
    hide StartsOnly, TokenBehindStarts, RespsOnly, ReportsOnly, TokenAmid;
  }

  lemma CountedWrite(s: Sys, ph: Phase, a: Action, all: seq<Row>)
    requires Shape(s, ph) && TdShape(s, ph) && Counted(s, ph, all) && (a.CpWrite? || a.MdWrite? || a.TdWrite?)
    ensures Counted(Step(s, a), NextPhase(s, ph, a), all)
  {
    hide Post, HasRoom, OutOfRows, Shape, TdShape, IsSignal;
    SignalsAt(s, ph);
    if Enabled(s, a) {
      match a {
        case CpWrite(dt) => PostCounts(s.(cp := Rest(s.cp)), dt, s.cp.todo[0]);
        case MdWrite(dt) => PostCounts(s.(md := Rest(s.md)), dt, s.md.todo[0]);
        case TdWrite(dt) => PostCounts(s.(td := Rest(s.td)), dt, s.td.todo[0]);
      }
    }
  }

  lemma CountedMdRead(s: Sys, ph: Phase, all: seq<Row>)
    requires Shape(s, ph) && StartComesFirst(s) && Counted(s, ph, all)
    ensures Counted(Step(s, MdRead), NextPhase(s, ph, MdRead), all)
  {
    hide Answer, Take, Chosen, StartComesFirst, Shape;
    if Enabled(s, MdRead) {
      ReadsSomething(s, MdRead);
      MdReadsAt(s, ph);
    }
  }

  lemma CountedTdRead(s: Sys, ph: Phase, c: Chan, trades: seq<nat>, all: seq<Row>)
    requires Shape(s, ph) && TdShape(s, ph) && OnOrders(s.js.orders, ph) && Counted(s, ph, all)
    ensures Counted(Step(s, TdRead(c, trades)), NextPhase(s, ph, TdRead(c, trades)), all)
  {
    hide TradeOuts, Reply, Take, Chosen, OnOrders, Shape, TdShape, OutOfRows;
    if Enabled(s, TdRead(c, trades)) {
      ReadsSomething(s, TdRead(c, trades));
      TdReadsAt(s, ph, c, trades);
    }
  }

  /** CP counts no rows and no passes, and stops when it reads the termination. */
  lemma CpCounts(s: Sys, c: Chan, orders: seq<Req>)
    requires Enabled(s, CpRead(c, orders)) && s.js.Get(c) != []
    ensures var t := Step(s, CpRead(c, orders));
            && LikewiseCounted(s, t) && t.t.lost == s.t.lost && t.md == s.md && t.td == s.td
            && (s.js.Get(c)[0].msg != End ==> t.cp.live == s.cp.live)
  {
    hide OrderOuts, Take, Chosen, OutOfRows;
  }

  lemma CountedCpRead(s: Sys, ph: Phase, c: Chan, orders: seq<Req>, all: seq<Row>)
    requires Shape(s, ph) && TdShape(s, ph) && OnOrders(s.js.orders, ph) && Counted(s, ph, all)
    ensures Counted(Step(s, CpRead(c, orders)), NextPhase(s, ph, CpRead(c, orders)), all)
  {
    hide Enabled, Step, OnOrders, Shape, TdShape, OutOfRows;
    if Enabled(s, CpRead(c, orders)) {
      ReadsSomething(s, CpRead(c, orders));
      CpReadsAt(s, ph, c, orders);
      CpCounts(s, c, orders);
    } else {
      AtTdOnly(s, ph, CpRead(c, orders));
    }
  }

  lemma CountedStep(s: Sys, ph: Phase, a: Action, all: seq<Row>)
    requires Shape(s, ph) && TdShape(s, ph) && OnOrders(s.js.orders, ph) && StartComesFirst(s) && Counted(s, ph, all)
    ensures Counted(Step(s, a), NextPhase(s, ph, a), all)
  {
    hide Shape, TdShape, OnOrders, StartComesFirst, Counted, Step, NextPhase;
    match a {
      case CpRead(c, orders) => CountedCpRead(s, ph, c, orders, all);
      case MdRead => CountedMdRead(s, ph, all);
      case TdRead(c, trades) => CountedTdRead(s, ph, c, trades, all);
      case _ => CountedWrite(s, ph, a, all);
    }
  }

  /** Only the token counts as written by TD, and a page that has rolled stays so. */
  lemma TdRespWrite(s: Sys, ph: Phase, dt: nat)
    requires TdShape(s, ph) && TdRespOk(s, ph) && s.td.todo != []
    requires ph == InTd ==> !s.t.over
    requires s.t.lost.trades != [] ==> s.disk.pages.tdResp.rolled
    ensures TdRespOk(Step(s, TdWrite(dt)), NextPhase(s, ph, TdWrite(dt)))
  {
    hide TdShape, Post, HasRoom;
    TdOut(s, ph);
    var o := s.td.todo[0];
    PostTallies(s.(td := Rest(s.td)), dt, o);
    PostPages(s.(td := Rest(s.td)), dt, o);
    PagesGet(s.disk.pages);
    PagesGet(Step(s, TdWrite(dt)).disk.pages);
    if HasRoom(s.disk, o) {
      RoomThere(s.disk, o);
    }
  }

  lemma RoomThere(d: Disk, o: Out)
    requires HasRoom(d, o) && o.chan == TdResp
    ensures !d.pages.tdResp.rolled
  {
  }

  lemma TdRespAside(s: Sys, ph: Phase, a: Action)
    requires Shape(s, ph) && TdRespOk(s, ph) && Enabled(s, a) && (a.CpWrite? || a.MdWrite?)
    requires ph == InTd ==> !s.t.over
    ensures TdRespOk(Step(s, a), NextPhase(s, ph, a))
  {
    hide Shape, Post, HasRoom;
    OutsElsewhere(s, ph);
    NotTrades(s, ph);
    var u := if a.CpWrite? then s.(cp := Rest(s.cp)) else s.(md := Rest(s.md));
    var o := if a.CpWrite? then s.cp.todo[0] else s.md.todo[0];
    PostTallies(u, a.dt, o);
    PostPages(u, a.dt, o);
    PagesGet(s.disk.pages);
    PagesGet(Step(s, a).disk.pages);
  }

  lemma NotTrades(s: Sys, ph: Phase)
    requires Shape(s, ph)
    ensures s.cp.todo != [] ==> !s.cp.todo[0].msg.Trade?
    ensures s.md.todo != [] ==> !s.md.todo[0].msg.Trade?
    ensures s.cp.todo != [] ==> (ph == InTd ==> s.cp.todo[0].msg.Order?)
  {
  }

  lemma TdRespRead(s: Sys, ph: Phase, a: Action)
    requires TdRespOk(s, ph) && Enabled(s, a) && (a.CpRead? || a.MdRead? || a.TdRead?)
    requires ph == Lost ==> LikewiseCounted(s, Step(s, a))
    requires ph == InTd ==> s.td.todo != []
    ensures TdRespOk(Step(s, a), NextPhase(s, ph, a))
  {
    hide Take, Chosen, OrderOuts, TradeOuts, Reply, Answer, OutOfRows;
  }

  lemma InTdMatching(s: Sys, ph: Phase)
    requires TdShape(s, ph)
    ensures ph == InTd ==> s.td.todo != []
  {
  }

  /** What TD wrote to TD_RESPONSE since it has left the first page was no token, and it loses no trade without the
      token. */
  lemma TdRespStep(s: Sys, ph: Phase, a: Action, all: seq<Row>)
    requires Shape(s, ph) && TdShape(s, ph) && OnOrders(s.js.orders, ph) && TdRespOk(s, ph) && Counted(s, ph, all)
    requires LossesOk(s.disk.pages, s.t.lost)
    ensures TdRespOk(Step(s, a), NextPhase(s, ph, a))
  {
    hide Shape, TdShape, OnOrders, TdRespOk, Post, CpHandle, MdHandle, TdHandle, Take, OutOfRows, HasRoom;
    InTdMatching(s, ph);
    if Enabled(s, a) {
      if a.TdWrite? {
        TdRespWrite(s, ph, a.dt);
      } else if a.CpWrite? || a.MdWrite? {
        TdRespAside(s, ph, a);
      } else {
        if ph == Lost {
          LostStep(s, a);
        }
        TdRespRead(s, ph, a);
      }
    }
  }

  /** If MD has nothing to write and CP only requests, what is written is a request or comes from TD. */
  lemma EmptyStaysEmpty(s: Sys, a: Action)
    requires Shape(s, Lost) && TdShape(s, Lost) && EndedEmpty(s, Lost) && s.t.over && Enabled(s, a)
    ensures EndedEmpty(Step(s, a), Lost)
  {
    hide Sent, Missed, HasRoom, Filled, OrderOuts, TradeOuts, Reply, Answer, OutOfRows, AllSilent, ReportsOnly,
      Chosen;
    match a {
      case CpWrite(_) => assert IsOrderOut(s.cp.todo[0]);
      case CpRead(c, _) => ReadsSomething(s, a);
      case TdRead(c, _) => ReadsSomething(s, a);
      case _ =>
    }
  }

  /** Where the termination is lost, there is nothing from MD and no trade on the way. */
  lemma EndLost(s: Sys, dt: nat)
    requires Shape(s, Ending) && TdShape(s, Ending) && !HasRoom(s.disk, s.md.todo[0])
    ensures EndedEmpty(Step(s, MdWrite(dt)), Lost)
  {
    hide Sent, Missed, HasRoom, Filled, RespsOnly;
  }

  lemma EndedEmptyStep(s: Sys, ph: Phase, a: Action, all: seq<Row>)
    requires Shape(s, ph) && TdShape(s, ph) && OnOrders(s.js.orders, ph) && EndedEmpty(s, ph) && Counted(s, ph, all)
    ensures EndedEmpty(Step(s, a), NextPhase(s, ph, a))
  {
    hide Shape, TdShape, OnOrders, EndedEmpty, Step, OutOfRows, HasRoom, Enabled;
    AtTdOnly(s, ph, a);
    if Enabled(s, a) {
      if ph == Lost {
        LostStep(s, a);
        if s.t.over {
          EmptyStaysEmpty(s, a);
        } else {
          NotOver(Step(s, a), Lost);
        }
      } else if ph == Ending && NextPhase(s, ph, a) == Lost {
        LosesTheEnd(s, a);
        EndLost(s, a.dt);
      } else {
        if NextPhase(s, ph, a) == Lost {
          LosesTheToken(s, ph, a, all);
        }
        NotOver(Step(s, a), NextPhase(s, ph, a));
      }
    }
  }

  lemma NotOver(s: Sys, ph: Phase)
    requires ph != Lost || !s.t.over
    ensures EndedEmpty(s, ph)
  {
  }

  lemma LosesTheEnd(s: Sys, a: Action)
    requires Shape(s, Ending) && NextPhase(s, Ending, a) == Lost
    ensures a.MdWrite? && !HasRoom(s.disk, s.md.todo[0])
  {
    hide HasRoom, OutOfRows;
  }

  lemma LosesTheToken(s: Sys, ph: Phase, a: Action, all: seq<Row>)
    requires Shape(s, ph) && TdShape(s, ph) && Counted(s, ph, all) && Enabled(s, a) && ph != Lost && ph != Ending
    ensures NextPhase(s, ph, a) == Lost ==> !Step(s, a).t.over
  {
    hide Shape, TdShape, HasRoom, OutOfRows, Post, Take, Chosen;
    match a {
      case CpWrite(dt) => PostCounts(s.(cp := Rest(s.cp)), dt, s.cp.todo[0]);
      case MdWrite(dt) => PostCounts(s.(md := Rest(s.md)), dt, s.md.todo[0]);
      case TdWrite(dt) => PostCounts(s.(td := Rest(s.td)), dt, s.td.todo[0]);
      case _ =>
    }
  }

  lemma FilledAside(d: Disk, o: Out, c: Chan)
    requires o.chan != c
    ensures Filled(d, o).pages.Get(c) == d.pages.Get(c)
  {
    hide HasRoom;
  }

  lemma FreshWrite(s: Sys, dt: nat)
    requires StartsFresh(s) && s.cp.todo != []
    ensures StartsFresh(Step(s, CpWrite(dt)))
  {
    hide HasRoom, Filled, Send, Sent, Missed, Pages.Get;
    var t := Step(s, CpWrite(dt));
    forall i | 0 <= i < |t.cp.todo| && t.cp.todo[i].msg == Start
      ensures t.disk.pages.Get(t.cp.todo[i].chan) == FRESH
    {
      assert t.cp.todo[i] == s.cp.todo[i + 1] && s.cp.todo[0].chan != s.cp.todo[i + 1].chan;
      FilledAside(s.disk, s.cp.todo[0], s.cp.todo[i + 1].chan);
    }
  }

  lemma FreshReply(s: Sys, a: Action)
    requires StartsFresh(s) && ToCp(s.md.todo) && ToCp(s.td.todo) && Enabled(s, a) && (a.MdWrite? || a.TdWrite?)
    ensures StartsFresh(Step(s, a))
  {
    hide HasRoom, Filled, Send, Sent, Missed, Pages.Get;
    var t := Step(s, a);
    var o := if a.MdWrite? then s.md.todo[0] else s.td.todo[0];
    forall i | 0 <= i < |t.cp.todo| && t.cp.todo[i].msg == Start
      ensures t.disk.pages.Get(t.cp.todo[i].chan) == FRESH
    {
      FilledAside(s.disk, o, s.cp.todo[i].chan);
    }
  }

  lemma FreshStep(s: Sys, a: Action)
    requires StartsFresh(s) && ToCp(s.md.todo) && ToCp(s.td.todo)
    ensures StartsFresh(Step(s, a))
  {
    hide Post, Take, Chosen, TradeOuts, Reply, Answer, OutOfRows;
    if Enabled(s, a) {
      if a.CpWrite? {
        FreshWrite(s, a.dt);
      } else if a.MdWrite? || a.TdWrite? {
        FreshReply(s, a);
      }
    }
  }

  /** A write changes no page but that of its journal, which stays open if there was room and has rolled if not. */
  lemma PostPages(s: Sys, dt: nat, o: Out)
    ensures var t := Post(s, dt, o);
            && (forall c | c != o.chan :: t.disk.pages.Get(c) == s.disk.pages.Get(c))
            && t.disk.pages.Get(o.chan).rolled == !HasRoom(s.disk, o)
            && (s.disk.pages.Get(o.chan).rolled ==> t.disk.pages.Get(o.chan).rolled)
  {
    hide Send, Missed, Sent;
  }

  lemma StartHasRoom(s: Sys)
    requires StartsFresh(s) && ValidGeometry(s.disk.g) && s.cp.todo != [] && s.cp.todo[0].msg == Start
    ensures HasRoom(s.disk, s.cp.todo[0])
  {
    assert s.disk.g.size(Start) < s.disk.g.room(s.cp.todo[0].chan);
  }

  lemma PagesGet(ps: Pages)
    ensures ps.mdReq == ps.Get(MdReq) && ps.mdResp == ps.Get(MdResp) && ps.bars == ps.Get(Bars)
            && ps.tdReq == ps.Get(TdReq) && ps.orders == ps.Get(Orders) && ps.tdResp == ps.Get(TdResp)
  {
  }

  /** What CP is about to write at each station. */
  lemma CpOut(s: Sys, ph: Phase)
    requires Shape(s, ph) && s.cp.todo != []
    ensures var o := s.cp.todo[0];
            match ph
            case CpToMd =>
              if |s.cp.todo| == 1 then o == Out(MdReq, Token(MarketData)) else IsOrderOut(o) || IsStartOut(o)
            case CpToTd => |s.cp.todo| == 1 && o == Out(TdReq, Token(MatchOrder))
            case Ended => IsEndOut(o)
            case _ => IsOrderOut(o)
  {
    hide TokenBehindStarts, StartsOnly, OneBar, Before, AllSilent, Answering;
  }

  /** What rolls on the journal of orders does not matter. */
  lemma RolledBesideOrders(s: Sys, t: Sys, ph: Phase)
    requires RolledOk(s, ph) && t.t.over == s.t.over && t.t.left == s.t.left && t.t.matched == s.t.matched
    requires forall c | c != Orders :: t.disk.pages.Get(c).rolled == s.disk.pages.Get(c).rolled
    ensures RolledOk(t, ph)
  {
    PagesGet(s.disk.pages);
    PagesGet(t.disk.pages);
  }

  /** The one page that may have rolled is that of the token. */
  lemma RolledByToken(s: Sys, t: Sys, ph: Phase, c: Chan, ph': Phase)
    requires RolledOk(s, ph) && (ph == CpToMd || ph == CpToTd) && (c == MdReq || c == TdReq)
    requires forall d | d != c :: t.disk.pages.Get(d) == s.disk.pages.Get(d)
    requires if t.disk.pages.Get(c).rolled then ph' == Lost else ph' != Lost && ph' != EndForCp
    ensures RolledOk(t, ph')
  {
    PagesGet(s.disk.pages);
    PagesGet(t.disk.pages);
  }

  lemma RolledCpWrite(s: Sys, ph: Phase, dt: nat)
    requires Shape(s, ph) && RolledOk(s, ph) && StartsFresh(s) && ValidGeometry(s.disk.g) && s.cp.todo != []
    ensures RolledOk(Step(s, CpWrite(dt)), NextPhase(s, ph, CpWrite(dt)))
  {
    hide Post, HasRoom, StartsFresh, ValidGeometry, Shape, RolledOk, Pages.Get;
    var o := s.cp.todo[0];
    var t := Step(s, CpWrite(dt));
    var ph' := NextPhase(s, ph, CpWrite(dt));
    CpOut(s, ph);
    PostPages(s.(cp := Rest(s.cp)), dt, o);
    PostTallies(s.(cp := Rest(s.cp)), dt, o);
    if ph == Ended {
      RolledAtEnd(t);
    } else if o.chan == Orders {
      if o.msg == Start {
        StartHasRoom(s);
      }
      RolledBesideOrders(s, t, ph);
    } else {
      if o.msg == Start {
        StartHasRoom(s);
      }
      RolledByToken(s, t, ph, o.chan, ph');
    }
  }

  lemma RolledAtEnd(s: Sys)
    ensures RolledOk(s, Ended)
  {
  }

  lemma RolledMdWrite(s: Sys, ph: Phase, dt: nat)
    requires Shape(s, ph) && RolledOk(s, ph) && s.md.todo != []
    requires ph != Lost ==> s.t.over == After(ph)
    ensures RolledOk(Step(s, MdWrite(dt)), NextPhase(s, ph, MdWrite(dt)))
  {
    hide Post, HasRoom, TokenBehindStarts, StartsOnly, OneBar, Before, AllSilent, OrderOutsOnly, Launching;
    PostPages(s.(md := Rest(s.md)), dt, s.md.todo[0]);
    PostTallies(s.(md := Rest(s.md)), dt, s.md.todo[0]);
    PagesGet(s.disk.pages);
    PagesGet(Step(s, MdWrite(dt)).disk.pages);
  }

  lemma RolledTdWrite(s: Sys, ph: Phase, dt: nat)
    requires TdShape(s, ph) && RolledOk(s, ph) && TdRespOk(s, ph) && s.td.todo != []
    ensures RolledOk(Step(s, TdWrite(dt)), NextPhase(s, ph, TdWrite(dt)))
  {
    hide Post, HasRoom, TdShape;
    TdOut(s, ph);
    var o := s.td.todo[0];
    var t := Step(s, TdWrite(dt));
    PostPages(s.(td := Rest(s.td)), dt, o);
    PostTallies(s.(td := Rest(s.td)), dt, o);
    PagesGet(s.disk.pages);
    PagesGet(t.disk.pages);
  }

  lemma RolledRead(s: Sys, ph: Phase, a: Action)
    requires RolledOk(s, ph) && Enabled(s, a) && (a.CpRead? || a.MdRead? || a.TdRead?)
    ensures RolledOk(Step(s, a), NextPhase(s, ph, a))
  {
    hide Take, Chosen, OrderOuts, TradeOuts, Reply, Answer, OutOfRows;
    EndForCpOnly(s, ph, a);
  }

  lemma EndForCpOnly(s: Sys, ph: Phase, a: Action)
    requires a.CpRead? || a.MdRead? || a.TdRead?
    ensures NextPhase(s, ph, a) == EndForCp ==> ph == EndForCp
    ensures NextPhase(s, ph, a) == Lost ==> ph == Lost
    ensures ph == Lost || ph == Ended ==> NextPhase(s, ph, a) == ph
  {
    hide Enabled, OutOfRows;
  }

  lemma RolledStep(s: Sys, ph: Phase, a: Action, all: seq<Row>)
    requires Shape(s, ph) && TdShape(s, ph) && RolledOk(s, ph) && TdRespOk(s, ph) && StartsFresh(s)
    requires ValidGeometry(s.disk.g) && Counted(s, ph, all)
    ensures RolledOk(Step(s, a), NextPhase(s, ph, a))
  {
    hide Shape, TdShape, RolledOk, TdRespOk, StartsFresh, ValidGeometry, Post, CpHandle, MdHandle, TdHandle, Take,
      OutOfRows;
    if Enabled(s, a) {
      match a {
        case CpWrite(dt) => RolledCpWrite(s, ph, dt);
        case MdWrite(dt) => RolledMdWrite(s, ph, dt);
        case TdWrite(dt) => RolledTdWrite(s, ph, dt);
        case _ => RolledRead(s, ph, a);
      }
    }
  }
}
