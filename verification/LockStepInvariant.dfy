/** Where the one token can be, and what that says about everything else, until it is lost behind a page end. */
module LockStepInvariant {
  import opened LockStep

  /** The stations of the token, and the three stages after the data has run out. */
  datatype Phase =
    | CpToMd     // CP is about to write the token to MD_REQ
    | AtMd       // in MD_REQ
    | InMd       // MD is about to write the token to MD_RESPONSE
    | FromMd     // in MD_RESPONSE
    | CpToTd     // CP is about to write the token to TD_REQ
    | AtTd       // in TD_REQ
    | InTd       // TD is about to write the token to TD_RESPONSE
    | FromTd     // in TD_RESPONSE
    | Ending     // MD is about to write the termination
    | EndForCp   // the termination is in the journal of the bars
    | Ended      // CP has stopped
    | Lost       // the token or the termination was written behind a first page

  predicate IsOrderOut(o: Out) {
    o.chan == Orders && o.msg.Order?
  }

  predicate IsStartOut(o: Out) {
    (o.chan == MdReq || o.chan == TdReq || o.chan == Orders) && o.msg == Start
  }

  predicate OrderOutsOnly(outs: seq<Out>) {
    forall i | 0 <= i < |outs| :: IsOrderOut(outs[i])
  }

  predicate StartsOnly(ms: seq<Stamped>) {
    forall i | 0 <= i < |ms| :: ms[i].msg == Start
  }

  predicate OnOrders(ms: seq<Stamped>, ph: Phase) {
    forall i | 0 <= i < |ms| :: ms[i].msg == Start || ms[i].msg.Order? || (ms[i].msg == End && ph == Ended)
  }

  /** What CP may find on TD_RESPONSE beside the token. */
  predicate ReportsOnly(ms: seq<Stamped>) {
    forall i | 0 <= i < |ms| :: ms[i].msg.Trade? || ms[i].msg.Resp?
  }

  predicate RespsOnly(ms: seq<Stamped>) {
    forall i | 0 <= i < |ms| :: ms[i].msg.Resp?
  }

  predicate TokenLast(ms: seq<Stamped>, flag: Flag) {
    ms != [] && ms[|ms| - 1].msg == Token(flag)
  }

  /** The token at place `p`, reports in front of it and nothing but answers to cancels behind it. */
  predicate TokenAt(ms: seq<Stamped>, p: nat) {
    p < |ms| && ms[p].msg == Token(MatchOrder) && ReportsOnly(ms[..p]) && RespsOnly(ms[p + 1..])
  }

  predicate TokenAmid(ms: seq<Stamped>) {
    exists p | 0 <= p < |ms| :: TokenAt(ms, p)
  }

  predicate OneBar(ms: seq<Stamped>) {
    ms == [] || (|ms| == 1 && ms[0].msg.Bar?)
  }

  predicate IsTradeOut(o: Out) {
    o.chan == TdResp && o.msg.Trade?
  }

  /** The trades of a pass and the token behind them. */
  predicate Matching(outs: seq<Out>) {
    && outs != [] && outs[|outs| - 1] == Out(TdResp, Token(MatchOrder))
    && forall i | 0 <= i < |outs| - 1 :: IsTradeOut(outs[i])
  }

  /** At most the answer to one cancel. */
  predicate Replying(outs: seq<Out>) {
    outs == [] || (|outs| == 1 && outs[0].chan == TdResp && outs[0].msg.Resp?)
  }

  /** What TD has to write and what is unread from it. Whatever the station, it takes requests and answers cancels. */
  predicate TdShape(s: Sys, ph: Phase) {
    match ph
    case InTd => Matching(s.td.todo) && ReportsOnly(s.js.tdResp)
    case FromTd => Replying(s.td.todo) && TokenAmid(s.js.tdResp)
    case Lost => Replying(s.td.todo) && ReportsOnly(s.js.tdResp)
    case _ => Replying(s.td.todo) && RespsOnly(s.js.tdResp)
  }

  /** MD has nothing to write, and nothing from it is unread. */
  predicate Idle(s: Sys) {
    s.md.todo == [] && s.js.mdResp == [] && s.js.bars == []
  }

  /** MD has answered: the bar, if there is one, and the token still to come. */
  predicate Answering(s: Sys) {
    if |s.md.todo| == 2 then
      s.md.todo[0].chan == Bars && s.md.todo[0].msg.Bar? && s.md.todo[1] == Out(MdResp, Token(MarketData))
      && s.js.bars == []
    else s.md.todo == [Out(MdResp, Token(MarketData))] && OneBar(s.js.bars)
  }

  predicate TokenBehindStarts(ms: seq<Stamped>, flag: Flag) {
    TokenLast(ms, flag) && StartsOnly(ms[..|ms| - 1])
  }

  predicate IsEndOut(o: Out) {
    o.msg == End && (o.chan == MdReq || o.chan == TdReq || o.chan == Orders)
  }

  predicate EndsOnly(outs: seq<Out>) {
    forall i | 0 <= i < |outs| :: IsEndOut(outs[i])
  }

  /** Orders and start signals, and the token behind them. */
  predicate Launching(outs: seq<Out>) {
    && outs != [] && outs[|outs| - 1] == Out(MdReq, Token(MarketData))
    && forall i | 0 <= i < |outs| - 1 :: IsOrderOut(outs[i]) || IsStartOut(outs[i])
  }

  /** What the journals other than that of the orders and TD_RESPONSE hold, and what CP and MD have to write. */
  predicate Shape(s: Sys, ph: Phase) {
    var js := s.js;
    match ph
    case CpToMd => Idle(s) && Launching(s.cp.todo) && StartsOnly(js.mdReq) && StartsOnly(js.tdReq)
    case AtMd => Idle(s) && OrderOutsOnly(s.cp.todo) && TokenBehindStarts(js.mdReq, MarketData) && StartsOnly(js.tdReq)
    case InMd => js.mdResp == [] && js.mdReq == [] && StartsOnly(js.tdReq) && OrderOutsOnly(s.cp.todo) && Answering(s)
    case FromMd =>
      && s.md.todo == [] && js.mdReq == [] && StartsOnly(js.tdReq) && OrderOutsOnly(s.cp.todo)
      && |js.mdResp| == 1 && js.mdResp[0].msg == Token(MarketData)
      && OneBar(js.bars) && Before(js.bars, js.mdResp[0].time)
    case CpToTd => Idle(s) && js.mdReq == [] && StartsOnly(js.tdReq) && s.cp.todo == [Out(TdReq, Token(MatchOrder))]
    case AtTd => Idle(s) && js.mdReq == [] && OrderOutsOnly(s.cp.todo) && TokenBehindStarts(js.tdReq, MatchOrder)
    case InTd => Idle(s) && js.mdReq == [] && OrderOutsOnly(s.cp.todo) && js.tdReq == []
    case FromTd => Idle(s) && js.mdReq == [] && OrderOutsOnly(s.cp.todo) && js.tdReq == []
    case Ending =>
      && js.mdResp == [] && js.bars == [] && js.mdReq == [] && StartsOnly(js.tdReq)
      && OrderOutsOnly(s.cp.todo) && s.md.todo == [Out(Bars, End)]
    case EndForCp =>
      && s.md.todo == [] && js.mdResp == [] && js.mdReq == [] && StartsOnly(js.tdReq)
      && OrderOutsOnly(s.cp.todo) && |js.bars| == 1 && js.bars[0].msg == End
    case Ended =>
      && Idle(s) && !s.cp.live && EndsOnly(s.cp.todo)
      && (forall i | 0 <= i < |js.mdReq| :: js.mdReq[i].msg == End)
      && (forall i | 0 <= i < |js.tdReq| :: js.tdReq[i].msg == End || js.tdReq[i].msg == Start)
    case Lost => Silent(s)
  }

  predicate NoSignal(ms: seq<Stamped>) {
    forall i | 0 <= i < |ms| :: !ms[i].msg.Token? && ms[i].msg != End
  }

  predicate AllSilent(js: Journals) {
    && NoSignal(js.mdReq) && NoSignal(js.mdResp) && NoSignal(js.bars)
    && NoSignal(js.tdReq) && NoSignal(js.orders)
  }

  /** Nobody will read or write a token or a termination any more; requests are all that CP has to write. */
  predicate Silent(s: Sys) {
    AllSilent(s.js) && s.js.mdResp == [] && OrderOutsOnly(s.cp.todo) && s.md.todo == []
  }

  predicate After(ph: Phase) {
    ph == Ending || ph == EndForCp || ph == Ended
  }

  // ---------- Counting ----------

  /** The requests among the messages, in order; likewise the trades and the answers to cancels. */
  function Reqs(ms: seq<Stamped>): seq<Req> {
    if ms == [] then []
    else Reqs(ms[..|ms| - 1]) + if ms[|ms| - 1].msg.Order? then [ms[|ms| - 1].msg.req] else []
  }

  function TradeIds(ms: seq<Stamped>): seq<nat> {
    if ms == [] then []
    else TradeIds(ms[..|ms| - 1]) + if ms[|ms| - 1].msg.Trade? then [ms[|ms| - 1].msg.id] else []
  }

  function RespIds(ms: seq<Stamped>): seq<nat> {
    if ms == [] then []
    else RespIds(ms[..|ms| - 1]) + if ms[|ms| - 1].msg.Resp? then [ms[|ms| - 1].msg.id] else []
  }

  /** The rows the bars among the messages are of, in order. */
  function BarRows(ms: seq<Stamped>): seq<nat> {
    if ms == [] then []
    else BarRows(ms[..|ms| - 1]) + if ms[|ms| - 1].msg.Bar? then [ms[|ms| - 1].msg.nr] else []
  }

  predicate Balance<T(==)>(made: seq<T>, seen: seq<T>, unread: seq<T>, lost: seq<T>) {
    made == seen + unread + lost
  }

  /** What was sent has been received, is still in the journal, or was lost behind its page, in that order. */
  predicate Conserved(js: Journals, t: Tally) {
    && Balance(t.written, t.inserted, Reqs(js.orders), t.lost.orders)
    && Balance(t.tradesMade, t.tradesSeen, TradeIds(js.tdResp), t.lost.trades)
    && Balance(t.respsMade, t.respsSeen, RespIds(js.tdResp), t.lost.resps)
    && Balance(t.barsMade, t.barsSeen, BarRows(js.bars), t.lost.bars)
  }

  /** What is lost was written to a journal that had rolled. */
  predicate LossesOk(pages: Pages, l: Losses) {
    && (l.orders != [] ==> pages.orders.rolled)
    && (l.trades != [] ==> pages.tdResp.rolled)
    && (l.resps != [] ==> pages.tdResp.rolled)
    && (l.bars != [] ==> pages.bars.rolled)
    && (l.signal ==> pages.mdReq.rolled || pages.mdResp.rolled || pages.tdReq.rolled || pages.tdResp.rolled
                     || pages.bars.rolled)
  }

  /** The ids of the cancels among the requests. */
  function Cancels(reqs: seq<Req>): seq<nat> {
    if reqs == [] then []
    else Cancels(reqs[..|reqs| - 1]) + if reqs[|reqs| - 1].Cancel? then [reqs[|reqs| - 1].id] else []
  }

  /** The answer TD is about to write. */
  function Pending(outs: seq<Out>): seq<nat> {
    if outs != [] && outs[0].msg.Resp? then [outs[0].msg.id] else []
  }

  /** Every cancel that TD has taken is answered once, in their order. */
  predicate Replied(s: Sys) {
    Cancels(s.t.inserted) == s.t.respsMade + Pending(s.td.todo)
  }

  /** How many requests on the journal of orders were written after the token for TD: not counting those that
      did not fit the page, what was written since then. */
  function Since(t: Tally): nat {
    var kept := |t.written| - |t.lost.orders|;
    if kept > t.asked then kept - t.asked else 0
  }

  predicate RequestsAfter(ms: seq<Stamped>, t: nat) {
    forall i | 0 <= i < |ms| :: ms[i].msg.Order? && t < ms[i].time
  }

  /** The journal of orders in two parts: `n` messages stamped before `t`, and requests stamped after it. */
  predicate PartedAt(ms: seq<Stamped>, n: int, t: nat) {
    0 <= n <= |ms| && Before(ms[..n], t) && RequestsAfter(ms[n..], t)
  }

  /** While the token for TD is unread, what CP wrote to the orders before it is stamped before it, and what it
      wrote since, in answer to action responses, after it. */
  predicate Parted(s: Sys, ph: Phase) {
    && s.t.asked <= |s.t.written| && s.t.heard <= |s.t.respsSeen|
    && (ph == AtTd && s.js.tdReq != [] ==>
          var t := s.js.tdReq[|s.js.tdReq| - 1].time;
          && Before(s.js.tdReq, t + 1) && PartedAt(s.js.orders, |s.js.orders| - Since(s.t), t)
          && (|s.t.respsSeen| == s.t.heard ==> |s.t.written| == s.t.asked && s.cp.todo == []))
  }

  predicate FirstIsStart(ms: seq<Stamped>, outs: seq<Out>, c: Chan) {
    if ms != [] then ms[0].msg == Start
    else exists i | 0 <= i < |outs| :: outs[i] == Out(c, Start) && forall j | 0 <= j < i :: outs[j].chan != c
  }

  /** An engine that has not been started will read a start signal first, which has room on the page if it is still
      to come. */
  predicate StartAhead(s: Sys, c: Chan) {
    FirstIsStart(s.js.Get(c), s.cp.todo, c) && (s.js.Get(c) == [] ==> s.disk.pages.Get(c) == FRESH)
  }

  predicate StartComesFirst(s: Sys) {
    && (s.md.started || StartAhead(s, MdReq))
    && (s.td.started || (StartAhead(s, TdReq) && StartAhead(s, Orders)))
  }

  /** If TD has left the first page of TD_RESPONSE, it has not written the token since; it loses trades only
      where it is about to lose the token behind them. */
  predicate TdRespOk(s: Sys, ph: Phase) {
    && s.t.left <= s.t.matched
    && (s.disk.pages.tdResp.rolled && ph != Lost ==> s.t.left == s.t.matched)
    && (s.t.lost.trades != [] ==> ph == InTd || (ph == Lost && !s.t.over))
  }

  /** A start signal that CP still has to write goes on a fresh page. */
  predicate StartsFresh(s: Sys) {
    forall i | 0 <= i < |s.cp.todo| && s.cp.todo[i].msg == Start ::
      && s.disk.pages.Get(s.cp.todo[i].chan) == FRESH
      && (s.cp.todo[i].chan == MdReq || s.cp.todo[i].chan == TdReq || s.cp.todo[i].chan == Orders)
      && forall j | 0 <= j < i :: s.cp.todo[j].chan != s.cp.todo[i].chan
  }

  /** Which journals can have rolled where, and one that must have where the token is lost. */
  predicate RolledOk(s: Sys, ph: Phase) {
    var ps := s.disk.pages;
    && (ph != Lost && ph != Ended ==> !ps.mdReq.rolled && !ps.mdResp.rolled && !ps.tdReq.rolled)
    && (ph == EndForCp ==> !ps.bars.rolled)
    && (ph == Lost ==> ps.mdReq.rolled || ps.mdResp.rolled || ps.tdReq.rolled
                       || (ps.tdResp.rolled && s.t.left < s.t.matched) || (ps.bars.rolled && s.t.over))
  }

  /** If it was the termination that was lost, only answers to cancels are left for CP to read. */
  predicate EndedEmpty(s: Sys, ph: Phase) {
    ph == Lost && s.t.over ==> s.js.bars == [] && RespsOnly(s.js.tdResp)
  }

  /** The rows of the file `all` that are left, and how often each engine has answered. */
  predicate Counted(s: Sys, ph: Phase, all: seq<Row>) {
    && s.t.answered <= |all| && s.rows == all[s.t.answered..]
    && (forall i | 0 <= i < s.t.answered :: all[i] != Empty)
    && (if ph == Lost then s.t.passes <= s.t.answered <= s.t.passes + 1
        else s.t.passes + (if ph == InMd || ph == FromMd || ph == CpToTd || ph == AtTd then 1 else 0) == s.t.answered)
    && (ph != Lost ==> s.t.over == After(ph))
    && (s.t.over ==> OutOfRows(s.rows) && s.t.passes == s.t.answered)
    && (s.t.lost.signal <==> ph == Lost)
    && (ph != Ended ==> s.cp.live && s.md.live && s.td.live)
  }

  predicate Fits(c: Chan, m: Msg) {
    (m.Order? ==> c == Orders) && (m.Trade? || m.Resp? ==> c == TdResp) && (m.Bar? ==> c == Bars)
  }

  predicate AllFit(c: Chan, ms: seq<Stamped>) {
    forall i | 0 <= i < |ms| :: Fits(c, ms[i].msg)
  }

  predicate OutsFit(outs: seq<Out>) {
    forall i | 0 <= i < |outs| :: Fits(outs[i].chan, outs[i].msg)
  }

  /** Orders, trades and bars travel only on their own journals, and nothing is stamped later than now. */
  ghost predicate JournalsFit(js: Journals, clock: nat) {
    forall c: Chan :: AllFit(c, js.Get(c)) && Before(js.Get(c), clock + 1)
  }

  ghost predicate Typed(s: Sys) {
    JournalsFit(s.js, s.clock) && OutsFit(s.cp.todo) && OutsFit(s.md.todo) && OutsFit(s.td.todo)
  }

  /** Everything there is to say about a reachable state whose token is at station `ph`. */
  ghost predicate At(s: Sys, ph: Phase, all: seq<Row>) {
    && ValidGeometry(s.disk.g)
    && Shape(s, ph) && TdShape(s, ph) && OnOrders(s.js.orders, ph) && Parted(s, ph)
    && Counted(s, ph, all) && TdRespOk(s, ph) && EndedEmpty(s, ph) && StartsFresh(s) && RolledOk(s, ph)
    && Conserved(s.js, s.t) && Replied(s) && LossesOk(s.disk.pages, s.t.lost) && StartComesFirst(s) && Typed(s)
  }

  // ---------- Where the token goes ----------

  function IfRoom(s: Sys, o: Out, ph: Phase): Phase {
    if HasRoom(s.disk, o) then ph else Lost
  }

  function NextPhase(s: Sys, ph: Phase, a: Action): Phase {
    if !Enabled(s, a) then ph
    else
      match a
      case CpWrite(_) =>
        if ph == CpToMd && |s.cp.todo| == 1 then IfRoom(s, s.cp.todo[0], AtMd)
        else if ph == CpToTd then IfRoom(s, s.cp.todo[0], AtTd) else ph
      case MdWrite(_) =>
        if ph == InMd && |s.md.todo| == 1 then IfRoom(s, s.md.todo[0], FromMd)
        else if ph == Ending then IfRoom(s, s.md.todo[0], EndForCp) else ph
      case TdWrite(_) => if ph == InTd && |s.td.todo| == 1 then IfRoom(s, s.td.todo[0], FromTd) else ph
      case CpRead(c, _) =>
        if ph == FromMd && c == MdResp then CpToTd
        else if ph == FromTd && s.js.Get(c)[0].msg.Token? then CpToMd
        else if ph == EndForCp && c == Bars then Ended else ph
      case MdRead =>
        if ph == AtMd && s.js.mdReq[0].msg.Token? then (if OutOfRows(s.rows) then Ending else InMd) else ph
      case TdRead(c, _) => if ph == AtTd && s.js.Get(c)[0].msg.Token? then InTd else ph
  }

  // ---------- The parts of the invariant that do not depend on the station ----------

  lemma GetSet(js: Journals, c: Chan, ms: seq<Stamped>, d: Chan)
    ensures js.Set(c, ms).Get(d) == if c == d then ms else js.Get(d)
  {
  }

  lemma SendKeeps(js: Journals, clock: nat, dt: nat, o: Out)
    requires JournalsFit(js, clock) && Fits(o.chan, o.msg)
    ensures JournalsFit(Send(js, clock + dt, o), clock + dt)
  {
    hide Fits, Journals.Get, Journals.Set;
    var ms := js.Get(o.chan) + [Stamped(clock + dt, o.msg)];
    forall c: Chan
      ensures AllFit(c, js.Set(o.chan, ms).Get(c)) && Before(js.Set(o.chan, ms).Get(c), clock + dt + 1)
    {
      GetSet(js, o.chan, ms, c);
      assert AllFit(c, js.Get(c)) && Before(js.Get(c), clock + 1);
    }
  }

  lemma TakeKeeps(js: Journals, clock: nat, c: Chan)
    requires JournalsFit(js, clock) && js.Get(c) != []
    ensures JournalsFit(Take(js, c), clock)
    ensures Fits(c, js.Get(c)[0].msg)
  {
    hide Fits, Journals.Get, Journals.Set;
    assert AllFit(c, js.Get(c));
    forall d: Chan ensures AllFit(d, Take(js, c).Get(d)) && Before(Take(js, c).Get(d), clock + 1) {
      GetSet(js, c, js.Get(c)[1..], d);
      assert AllFit(d, js.Get(d)) && Before(js.Get(d), clock + 1);
    }
  }

  lemma PostFits(s: Sys, dt: nat, o: Out)
    requires JournalsFit(s.js, s.clock) && Fits(o.chan, o.msg)
    ensures JournalsFit(Post(s, dt, o).js, s.clock + dt)
  {
    hide Fits, HasRoom, Filled, Missed, Sent, Send, JournalsFit;
    SendKeeps(s.js, s.clock, dt, o);
    LaterFits(s.js, s.clock, dt);
  }

  lemma LaterFits(js: Journals, clock: nat, dt: nat)
    requires JournalsFit(js, clock)
    ensures JournalsFit(js, clock + dt)
  {
    hide Fits, AllFit, Journals.Get;
    forall c: Chan
      ensures AllFit(c, js.Get(c)) && Before(js.Get(c), clock + dt + 1)
    {
      assert AllFit(c, js.Get(c)) && Before(js.Get(c), clock + 1);
    }
  }

  lemma RestFits(outs: seq<Out>)
    requires OutsFit(outs) && outs != []
    ensures Fits(outs[0].chan, outs[0].msg) && OutsFit(outs[1..])
  {
  }

  lemma NewOutsFit(reqs: seq<Req>, ids: seq<nat>, n: nat)
    ensures OutsFit(OrderOuts(reqs)) && forall f: Flag :: OutsFit(TradeOuts(ids) + [Out(TdResp, Token(f))])
    ensures forall req: Req :: OutsFit(Reply(req))
    ensures forall row: Row, f: Flag :: OutsFit(Answer(row, n, f))
    ensures OutsFit([Out(TdReq, Token(MatchOrder))]) && OutsFit([Out(MdReq, Token(MarketData))])
    ensures OutsFit([Out(MdReq, End), Out(TdReq, End), Out(Orders, End)]) && OutsFit([Out(Bars, End)])
  {
  }

  lemma TypedStep(s: Sys, a: Action)
    requires Typed(s)
    ensures Typed(Step(s, a))
  {
    hide Send, Sent, Take, JournalsFit, OutsFit, Fits, OrderOuts, TradeOuts, Reply, Answer, HasRoom, Filled, Missed;
    if Enabled(s, a) {
      match a {
        case CpWrite(dt) =>
          RestFits(s.cp.todo);
          PostFits(s.(cp := Rest(s.cp)), dt, s.cp.todo[0]);
        case MdWrite(dt) =>
          RestFits(s.md.todo);
          PostFits(s.(md := Rest(s.md)), dt, s.md.todo[0]);
        case TdWrite(dt) =>
          RestFits(s.td.todo);
          PostFits(s.(td := Rest(s.td)), dt, s.td.todo[0]);
        case CpRead(c, orders) =>
          TakeKeeps(s.js, s.clock, c);
          NewOutsFit(orders, [], 0);
        case MdRead =>
          TakeKeeps(s.js, s.clock, MdReq);
          NewOutsFit([], [], s.t.answered);
        case TdRead(c, trades) =>
          TakeKeeps(s.js, s.clock, c);
          NewOutsFit([], trades, 0);
      }
    }
  }

  lemma {:induction false} ReqsFront(ms: seq<Stamped>)
    requires ms != []
    ensures Reqs(ms) == if ms[0].msg.Order? then [ms[0].msg.req] + Reqs(ms[1..]) else Reqs(ms[1..])
  {
    if |ms| > 1 {
      ReqsFront(ms[..|ms| - 1]);
      assert ms[..|ms| - 1][1..] == ms[1..][..|ms| - 2];
    }
  }

  lemma {:induction false} TradeIdsFront(ms: seq<Stamped>)
    requires ms != []
    ensures TradeIds(ms) == if ms[0].msg.Trade? then [ms[0].msg.id] + TradeIds(ms[1..]) else TradeIds(ms[1..])
  {
    if |ms| > 1 {
      TradeIdsFront(ms[..|ms| - 1]);
      assert ms[..|ms| - 1][1..] == ms[1..][..|ms| - 2];
    }
  }

  lemma {:induction false} RespIdsFront(ms: seq<Stamped>)
    requires ms != []
    ensures RespIds(ms) == if ms[0].msg.Resp? then [ms[0].msg.id] + RespIds(ms[1..]) else RespIds(ms[1..])
  {
    if |ms| > 1 {
      RespIdsFront(ms[..|ms| - 1]);
      assert ms[..|ms| - 1][1..] == ms[1..][..|ms| - 2];
    }
  }

  lemma {:induction false} BarRowsFront(ms: seq<Stamped>)
    requires ms != []
    ensures BarRows(ms) == if ms[0].msg.Bar? then [ms[0].msg.nr] + BarRows(ms[1..]) else BarRows(ms[1..])
  {
    if |ms| > 1 {
      BarRowsFront(ms[..|ms| - 1]);
      assert ms[..|ms| - 1][1..] == ms[1..][..|ms| - 2];
    }
  }

  lemma IdsAppend(ms: seq<Stamped>, m: Stamped)
    ensures Reqs(ms + [m]) == if m.msg.Order? then Reqs(ms) + [m.msg.req] else Reqs(ms)
    ensures RespIds(ms + [m]) == if m.msg.Resp? then RespIds(ms) + [m.msg.id] else RespIds(ms)
    ensures TradeIds(ms + [m]) == if m.msg.Trade? then TradeIds(ms) + [m.msg.id] else TradeIds(ms)
    ensures BarRows(ms + [m]) == if m.msg.Bar? then BarRows(ms) + [m.msg.nr] else BarRows(ms)
  {
    assert (ms + [m])[..|ms|] == ms;
  }

  lemma BalanceKept<T>(made: seq<T>, seen: seq<T>, unread: seq<T>, lost: seq<T>, x: T)
    ensures Balance(made, seen, unread, lost) ==> Balance(made + [x], seen, unread, lost + [x])
    ensures Balance(made, seen, unread, []) ==> Balance(made + [x], seen, unread + [x], [])
    ensures Balance(made, seen, [x] + unread, lost) ==> Balance(made, seen + [x], unread, lost)
  {
  }

  lemma SendConserves(js: Journals, t: Tally, time: nat, o: Out)
    requires Conserved(js, t) && Fits(o.chan, o.msg)
    requires (o.msg.Order? ==> t.lost.orders == []) && (o.msg.Trade? ==> t.lost.trades == [])
    requires (o.msg.Resp? ==> t.lost.resps == []) && (o.msg.Bar? ==> t.lost.bars == [])
    ensures Conserved(Send(js, time, o), Sent(t, o))
  {
    hide Reqs, TradeIds, RespIds, BarRows, Balance;
    IdsAppend(js.Get(o.chan), Stamped(time, o.msg));
    match o.msg {
      case Order(req) => BalanceKept(t.written, t.inserted, Reqs(js.orders), [], req);
      case Trade(id) => BalanceKept(t.tradesMade, t.tradesSeen, TradeIds(js.tdResp), [], id);
      case Resp(id) => BalanceKept(t.respsMade, t.respsSeen, RespIds(js.tdResp), [], id);
      case Bar(nr) => BalanceKept(t.barsMade, t.barsSeen, BarRows(js.bars), [], nr);
      case _ =>
    }
  }

  lemma DropConserves(js: Journals, d: Disk, t: Tally, o: Out)
    requires Conserved(js, t)
    ensures Conserved(js, Missed(d, t, o))
  {
    hide Reqs, TradeIds, RespIds, BarRows, Balance;
    match o.msg {
      case Order(req) => BalanceKept(t.written, t.inserted, Reqs(js.orders), t.lost.orders, req);
      case Trade(id) => BalanceKept(t.tradesMade, t.tradesSeen, TradeIds(js.tdResp), t.lost.trades, id);
      case Resp(id) => BalanceKept(t.respsMade, t.respsSeen, RespIds(js.tdResp), t.lost.resps, id);
      case Bar(nr) => BalanceKept(t.barsMade, t.barsSeen, BarRows(js.bars), t.lost.bars, nr);
      case _ =>
    }
  }

  /** The messages and the journals they may go on. */
  predicate Addressed(o: Out) {
    && (o.msg.Token? ==> o.chan == MdReq || o.chan == MdResp || o.chan == TdReq || o.chan == TdResp)
    && (o.msg == End ==> o.chan == Bars || o.chan == MdReq || o.chan == TdReq || o.chan == Orders)
  }

  lemma DropLosses(d: Disk, l: Losses, o: Out)
    requires LossesOk(d.pages, l) && Fits(o.chan, o.msg) && Addressed(o) && !HasRoom(d, o)
    ensures LossesOk(Filled(d, o).pages, Dropped(l, o))
  {
    hide HasRoom;
  }

  lemma KeepLosses(d: Disk, l: Losses, o: Out)
    requires LossesOk(d.pages, l) && HasRoom(d, o)
    ensures LossesOk(Filled(d, o).pages, l)
  {
  }

  lemma RoomMeansOpen(d: Disk, l: Losses, o: Out)
    requires LossesOk(d.pages, l) && Fits(o.chan, o.msg) && HasRoom(d, o)
    ensures (o.msg.Order? ==> l.orders == []) && (o.msg.Trade? ==> l.trades == []) && (o.msg.Resp? ==> l.resps == [])
    ensures o.msg.Bar? ==> l.bars == []
  {
  }

  lemma SentLosses(t: Tally, o: Out)
    ensures Sent(t, o).lost == t.lost
  {
  }

  lemma PostConserves(s: Sys, dt: nat, o: Out)
    requires Conserved(s.js, s.t) && LossesOk(s.disk.pages, s.t.lost) && Fits(o.chan, o.msg) && Addressed(o)
    ensures Conserved(Post(s, dt, o).js, Post(s, dt, o).t)
    ensures LossesOk(Post(s, dt, o).disk.pages, Post(s, dt, o).t.lost)
  {
    hide Conserved, LossesOk, HasRoom, Filled, Dropped, Fits, Addressed;
    SentLosses(s.t, o);
    if HasRoom(s.disk, o) {
      RoomMeansOpen(s.disk, s.t.lost, o);
      SendConserves(s.js, s.t, s.clock + dt, o);
      KeepLosses(s.disk, s.t.lost, o);
    } else {
      DropConserves(s.js, s.disk, s.t, o);
      DropLosses(s.disk, s.t.lost, o);
    }
  }

  /** What the receiver of `m` has to book for the accounts to balance again. */
  function Received(t: Tally, m: Msg): Tally {
    match m
    case Order(req) => t.(inserted := t.inserted + [req])
    case Resp(id) => t.(respsSeen := t.respsSeen + [id])
    case Bar(nr) => t.(barsSeen := t.barsSeen + [nr])
    case Trade(id) => t.(tradesSeen := t.tradesSeen + [id])
    case _ => t
  }

  lemma TakeConserves(js: Journals, t: Tally, c: Chan)
    requires Conserved(js, t) && js.Get(c) != [] && Fits(c, js.Get(c)[0].msg)
    ensures Conserved(Take(js, c), Received(t, js.Get(c)[0].msg))
  {
    hide Reqs, TradeIds, RespIds, BarRows, Balance;
    match js.Get(c)[0].msg {
      case Order(req) => BalanceKept(t.written, t.inserted, Reqs(js.orders[1..]), t.lost.orders, req);
      case Trade(id) => BalanceKept(t.tradesMade, t.tradesSeen, TradeIds(js.tdResp[1..]), t.lost.trades, id);
      case Resp(id) => BalanceKept(t.respsMade, t.respsSeen, RespIds(js.tdResp[1..]), t.lost.resps, id);
      case Bar(nr) => BalanceKept(t.barsMade, t.barsSeen, BarRows(js.bars[1..]), t.lost.bars, nr);
      case _ =>
    }
    match c {
      case Orders => ReqsFront(js.orders);
      case TdResp =>
        TradeIdsFront(js.tdResp);
        RespIdsFront(js.tdResp);
      case Bars => BarRowsFront(js.bars);
      case _ =>
    }
  }

  predicate AllAddressed(outs: seq<Out>) {
    forall i | 0 <= i < |outs| :: Addressed(outs[i])
  }

  lemma ShapeAddressed(s: Sys, ph: Phase)
    requires Shape(s, ph) && TdShape(s, ph)
    ensures AllAddressed(s.cp.todo) && AllAddressed(s.md.todo) && AllAddressed(s.td.todo)
  {
  }

  lemma ConservedWrite(s: Sys, a: Action)
    requires Typed(s) && Conserved(s.js, s.t) && LossesOk(s.disk.pages, s.t.lost)
    requires AllAddressed(s.cp.todo) && AllAddressed(s.md.todo) && AllAddressed(s.td.todo)
    requires Enabled(s, a) && (a.CpWrite? || a.MdWrite? || a.TdWrite?)
    ensures Conserved(Step(s, a).js, Step(s, a).t)
    ensures LossesOk(Step(s, a).disk.pages, Step(s, a).t.lost)
  {
    hide Post, JournalsFit, OutsFit, Conserved, LossesOk, Addressed, Fits;
    match a {
      case CpWrite(dt) =>
        RestFits(s.cp.todo);
        PostConserves(s.(cp := Rest(s.cp)), dt, s.cp.todo[0]);
      case MdWrite(dt) =>
        RestFits(s.md.todo);
        PostConserves(s.(md := Rest(s.md)), dt, s.md.todo[0]);
      case TdWrite(dt) =>
        RestFits(s.td.todo);
        PostConserves(s.(td := Rest(s.td)), dt, s.td.todo[0]);
    }
  }

  lemma ReadsSomething(s: Sys, a: Action)
    requires Enabled(s, a) && (a.CpRead? || a.MdRead? || a.TdRead?)
    ensures s.js.Get(if a.MdRead? then MdReq else a.chan) != []
    ensures a.CpRead? ==> a.chan == Bars || a.chan == MdResp || a.chan == TdResp
    ensures a.TdRead? ==> a.chan == TdReq || a.chan == Orders
  {
  }

  /** The same but for what is counted of tokens and rows. */
  predicate SameBooks(t: Tally, u: Tally) {
    && t.written == u.written && t.inserted == u.inserted && t.barsMade == u.barsMade && t.barsSeen == u.barsSeen
    && t.tradesMade == u.tradesMade && t.tradesSeen == u.tradesSeen
    && t.respsMade == u.respsMade && t.respsSeen == u.respsSeen && t.lost == u.lost
  }

  lemma SameBooksConserved(js: Journals, t: Tally, u: Tally)
    requires Conserved(js, t) && SameBooks(t, u)
    ensures Conserved(js, u)
  {
    hide Reqs, TradeIds, RespIds, BarRows, Balance;
  }

  /** A reader books what it takes. */
  lemma ReadBooks(s: Sys, a: Action)
    requires Enabled(s, a) && (a.CpRead? || a.MdRead? || a.TdRead?)
    requires var c := if a.MdRead? then MdReq else a.chan;
             s.js.Get(c) != [] && Fits(c, s.js.Get(c)[0].msg)
             && (c == Orders && s.js.orders[0].msg.Order? ==> s.td.started)
    ensures var c := if a.MdRead? then MdReq else a.chan; var t := Step(s, a);
            && t.js == Take(s.js, c) && t.disk == s.disk && SameBooks(Received(s.t, s.js.Get(c)[0].msg), t.t)
  {
    hide Take, OrderOuts, TradeOuts, Reply, Answer, OutOfRows;
  }

  lemma StartedReadsOrders(s: Sys)
    requires StartComesFirst(s) && s.js.orders != [] && s.js.orders[0].msg.Order?
    ensures s.td.started
  {
  }

  lemma ConservedRead(s: Sys, a: Action)
    requires Typed(s) && StartComesFirst(s) && Conserved(s.js, s.t) && LossesOk(s.disk.pages, s.t.lost)
    requires Enabled(s, a) && (a.CpRead? || a.MdRead? || a.TdRead?)
    ensures Conserved(Step(s, a).js, Step(s, a).t)
    ensures LossesOk(Step(s, a).disk.pages, Step(s, a).t.lost)
  {
    hide Take, JournalsFit, OutsFit, LossesOk, Conserved, Enabled, Step, StartComesFirst, Fits;
    var c := if a.MdRead? then MdReq else a.chan;
    ReadsSomething(s, a);
    TakeKeeps(s.js, s.clock, c);
    TakeConserves(s.js, s.t, c);
    if c == Orders && s.js.orders[0].msg.Order? {
      StartedReadsOrders(s);
    }
    ReadBooks(s, a);
    SameBooksConserved(Take(s.js, c), Received(s.t, s.js.Get(c)[0].msg), Step(s, a).t);
  }

  lemma ConservedStep(s: Sys, a: Action)
    requires Typed(s) && StartComesFirst(s) && Conserved(s.js, s.t) && LossesOk(s.disk.pages, s.t.lost)
    requires AllAddressed(s.cp.todo) && AllAddressed(s.md.todo) && AllAddressed(s.td.todo)
    ensures Conserved(Step(s, a).js, Step(s, a).t)
    ensures LossesOk(Step(s, a).disk.pages, Step(s, a).t.lost)
  {
    hide Post, CpHandle, MdHandle, TdHandle, Take, Typed, Conserved, LossesOk, StartComesFirst, AllAddressed;
    if Enabled(s, a) {
      if a.CpWrite? || a.MdWrite? || a.TdWrite? {
        ConservedWrite(s, a);
      } else {
        ConservedRead(s, a);
      }
    }
  }

  lemma FirstSent(ms: seq<Stamped>, outs: seq<Out>, c: Chan, time: nat)
    requires FirstIsStart(ms, outs, c) && outs != []
    ensures FirstIsStart(if outs[0].chan == c then ms + [Stamped(time, outs[0].msg)] else ms, outs[1..], c)
  {
    if ms == [] && outs[0].chan != c {
      var i :| 0 <= i < |outs| && outs[i] == Out(c, Start) && forall j | 0 <= j < i :: outs[j].chan != c;
      assert outs[1..][i - 1] == Out(c, Start) && forall j | 0 <= j < i - 1 :: outs[1..][j] == outs[j + 1];
    }
  }

  lemma StartSent(s: Sys, dt: nat, c: Chan)
    requires StartAhead(s, c) && s.cp.todo != [] && ValidGeometry(s.disk.g)
    ensures StartAhead(Post(s.(cp := Rest(s.cp)), dt, s.cp.todo[0]), c)
  {
    hide FirstIsStart, Sent, Missed;
    FirstSent(s.js.Get(c), s.cp.todo, c, s.clock + dt);
    FrontIsStart(s.js.Get(c), s.cp.todo, c);
    assert s.disk.g.size(s.cp.todo[0].msg) < s.disk.g.room(s.cp.todo[0].chan);
  }

  lemma CpWriteStart(s: Sys, dt: nat)
    requires StartComesFirst(s) && s.cp.todo != [] && ValidGeometry(s.disk.g)
    ensures StartComesFirst(Step(s, CpWrite(dt)))
  {
    hide StartAhead, Send, Sent, HasRoom, Filled, Missed;
    if !s.md.started {
      StartSent(s, dt, MdReq);
    }
    if !s.td.started {
      StartSent(s, dt, TdReq);
      StartSent(s, dt, Orders);
    }
  }

  /** Messages sent by MD and TD go to CP only. */
  predicate ToCp(outs: seq<Out>) {
    forall i | 0 <= i < |outs| :: outs[i].chan == Bars || outs[i].chan == MdResp || outs[i].chan == TdResp
  }

  lemma FrontIsStart(ms: seq<Stamped>, outs: seq<Out>, c: Chan)
    requires FirstIsStart(ms, outs, c)
    ensures ms == [] ==> outs != []
    ensures ms != [] ==> ms[0].msg == Start && forall outs' :: FirstIsStart(ms, outs', c)
  {
  }

  lemma StartStays(s: Sys, t: Sys, c: Chan)
    requires StartAhead(s, c) && t.js.Get(c) == s.js.Get(c) && t.disk.pages.Get(c) == s.disk.pages.Get(c)
    requires t.cp.todo == s.cp.todo || s.cp.todo == []
    ensures StartAhead(t, c)
  {
    hide FirstIsStart;
    FrontIsStart(s.js.Get(c), s.cp.todo, c);
  }

  lemma TakenAside(js: Journals, c: Chan, d: Chan)
    requires js.Get(c) != [] && c != d
    ensures Take(js, c).Get(d) == js.Get(d)
  {
  }

  /** A read touches one journal; a start signal it takes starts the engine. */
  lemma ReadsOne(s: Sys, a: Action)
    requires Enabled(s, a) && (a.CpRead? || a.MdRead? || a.TdRead?)
    ensures var t := Step(s, a); var c := if a.MdRead? then MdReq else a.chan;
            && s.js.Get(c) != [] && t.js == Take(s.js, c) && t.disk == s.disk
            && (t.cp.todo == s.cp.todo || s.cp.todo == [])
            && (s.md.started || (c == MdReq && s.js.Get(c)[0].msg == Start) ==> t.md.started)
            && (s.td.started || ((c == TdReq || c == Orders) && s.js.Get(c)[0].msg == Start) ==> t.td.started)
  {
    hide OrderOuts, TradeOuts, Reply, Answer, Take, OutOfRows;
  }

  lemma ReadStart(s: Sys, a: Action)
    requires StartComesFirst(s) && Enabled(s, a) && (a.CpRead? || a.MdRead? || a.TdRead?)
    ensures StartComesFirst(Step(s, a))
  {
    hide StartAhead, Take, Enabled, Step, Journals.Get;
    var t := Step(s, a);
    var c := if a.MdRead? then MdReq else a.chan;
    ReadsOne(s, a);
    if !t.md.started {
      StartFirst(s, MdReq);
      TakenAside(s.js, c, MdReq);
      StartStays(s, t, MdReq);
    }
    if !t.td.started {
      StartFirst(s, TdReq);
      StartFirst(s, Orders);
      TakenAside(s.js, c, TdReq);
      TakenAside(s.js, c, Orders);
      StartStays(s, t, TdReq);
      StartStays(s, t, Orders);
    }
  }

  lemma StartFirst(s: Sys, c: Chan)
    requires StartAhead(s, c)
    ensures s.js.Get(c) != [] ==> s.js.Get(c)[0].msg == Start
  {
  }

  lemma PostAside(s: Sys, dt: nat, o: Out, c: Chan)
    requires o.chan != c
    ensures var t := Post(s, dt, o); t.js.Get(c) == s.js.Get(c) && t.disk.pages.Get(c) == s.disk.pages.Get(c)
  {
    hide Sent, Missed, HasRoom;
  }

  lemma PostStarted(s: Sys, dt: nat, o: Out)
    ensures var t := Post(s, dt, o); t.cp == s.cp && t.md == s.md && t.td == s.td
  {
    hide Sent, Missed, HasRoom, Filled, Send;
  }

  lemma ReplyStart(s: Sys, a: Action)
    requires StartComesFirst(s) && ToCp(s.md.todo) && ToCp(s.td.todo) && (a.MdWrite? || a.TdWrite?)
    ensures StartComesFirst(Step(s, a))
  {
    hide StartAhead, Post, Journals.Get, Pages.Get;
    if Enabled(s, a) {
      var u := if a.MdWrite? then s.(md := Rest(s.md)) else s.(td := Rest(s.td));
      var o := if a.MdWrite? then s.md.todo[0] else s.td.todo[0];
      PostStarted(u, a.dt, o);
      PostAside(u, a.dt, o, MdReq);
      PostAside(u, a.dt, o, TdReq);
      PostAside(u, a.dt, o, Orders);
      if !s.md.started {
        StartStays(s, Step(s, a), MdReq);
      }
      if !s.td.started {
        StartStays(s, Step(s, a), TdReq);
        StartStays(s, Step(s, a), Orders);
      }
    }
  }

  lemma StartStep(s: Sys, a: Action)
    requires StartComesFirst(s) && ToCp(s.md.todo) && ToCp(s.td.todo) && ValidGeometry(s.disk.g)
    ensures StartComesFirst(Step(s, a))
  {
    hide StartComesFirst, ToCp, Post, CpHandle, MdHandle, TdHandle, Take;
    if Enabled(s, a) {
      if a.CpWrite? {
        CpWriteStart(s, a.dt);
      } else if a.MdWrite? || a.TdWrite? {
        ReplyStart(s, a);
      } else {
        ReadStart(s, a);
      }
    }
  }
}
