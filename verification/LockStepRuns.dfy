/** What the protocol guarantees over every run whose tokens are stamped in time and stay on the first
    pages of their journals, and what goes wrong exactly when they do not. */
module LockStepRuns {
  import opened LockStep
  import opened LockStepInvariant
  import opened LockStepSteps

  lemma AtStep(s: Sys, ph: Phase, a: Action, all: seq<Row>)
    requires At(s, ph, all) && Timely(s, a)
    ensures At(Step(s, a), NextPhase(s, ph, a), all)
  {
    hide Shape, TdShape, Typed, OnOrders, Parted, Conserved, LossesOk, StartComesFirst, Counted, Enabled, TdRespOk,
      EndedEmpty, StartsFresh, RolledOk, Replied, Timely;
    OutsToCp(s, ph);
    ShapeAddressed(s, ph);
    TypedStep(s, a);
    ConservedStep(s, a);
    RepliedStep(s, ph, a);
    StartStep(s, a);
    CountedStep(s, ph, a, all);
    ShapeStep(s, ph, a);
    TdShapeStep(s, ph, a);
    PartedStep(s, ph, a);
    TdRespStep(s, ph, a, all);
    EndedEmptyStep(s, ph, a, all);
    FreshStep(s, a);
    RolledStep(s, ph, a, all);
    SameGeometry(s, a);
  }

  lemma SameGeometry(s: Sys, a: Action)
    ensures Step(s, a).disk.g == s.disk.g
  {
    hide HasRoom, Send, Sent, Missed, Take, OrderOuts, TradeOuts, Reply, Answer;
  }

  lemma {:induction false} ExecAt(s: Sys, ph: Phase, acts: seq<Action>, all: seq<Row>) returns (ph': Phase)
    requires At(s, ph, all) && TimelyRun(s, acts)
    ensures At(Exec(s, acts), ph', all)
    decreases |acts|
  {
    hide At, Step, NextPhase, Timely;
    if acts == [] {
      ph' := ph;
    } else {
      AtStep(s, ph, acts[0], all);
      ph' := ExecAt(Step(s, acts[0]), NextPhase(s, ph, acts[0]), acts[1..], all);
    }
  }

  lemma InitialAt(g: Geometry, ordersFirst: bool, reqs: seq<Req>, rows: seq<Row>)
    requires ValidGeometry(g)
    ensures At(Initial(g, ordersFirst, reqs, rows), CpToMd, rows)
  {
    hide Shape, StartComesFirst, PreStart, Typed, ValidGeometry, StartsFresh, Conserved, LossesOk, Replied, Parted,
      RolledOk, Counted, TdShape;
    InitialBooks(g, ordersFirst, reqs, rows);
    InitialCounts(g, ordersFirst, reqs, rows);
    InitialPages(g, ordersFirst, reqs, rows);
    InitialStart(g, ordersFirst, reqs, rows);
    InitialShape(g, ordersFirst, reqs, rows);
    InitialTyped(g, ordersFirst, reqs, rows);
    InitialFresh(g, ordersFirst, reqs, rows);
  }

  lemma InitialBooks(g: Geometry, ordersFirst: bool, reqs: seq<Req>, rows: seq<Row>)
    ensures Conserved(Initial(g, ordersFirst, reqs, rows).js, Initial(g, ordersFirst, reqs, rows).t)
    ensures Replied(Initial(g, ordersFirst, reqs, rows))
  {
    hide PreStart;
    assert Reqs([]) == [] && TradeIds([]) == [] && RespIds([]) == [] && BarRows([]) == [] && Cancels([]) == [];
  }

  lemma InitialCounts(g: Geometry, ordersFirst: bool, reqs: seq<Req>, rows: seq<Row>)
    ensures Counted(Initial(g, ordersFirst, reqs, rows), CpToMd, rows)
    ensures TdShape(Initial(g, ordersFirst, reqs, rows), CpToMd)
  {
    hide PreStart;
    assert rows[0..] == rows;
  }

  lemma InitialPages(g: Geometry, ordersFirst: bool, reqs: seq<Req>, rows: seq<Row>)
    ensures var s := Initial(g, ordersFirst, reqs, rows);
            LossesOk(s.disk.pages, s.t.lost) && Parted(s, CpToMd) && RolledOk(s, CpToMd)
  {
    hide PreStart;
  }

  lemma InitialFresh(g: Geometry, ordersFirst: bool, reqs: seq<Req>, rows: seq<Row>)
    ensures StartsFresh(Initial(g, ordersFirst, reqs, rows))
  {
    var outs := PreStart(ordersFirst, reqs);
    assert forall i | 3 <= i < |outs| :: outs[i].msg != Start;
  }

  lemma InitialStart(g: Geometry, ordersFirst: bool, reqs: seq<Req>, rows: seq<Row>)
    ensures StartComesFirst(Initial(g, ordersFirst, reqs, rows))
  {
    var outs := PreStart(ordersFirst, reqs);
    assert outs[0] == Out(MdReq, Start);
    assert outs[1] == Out(if ordersFirst then Orders else TdReq, Start);
    assert outs[2] == Out(if ordersFirst then TdReq else Orders, Start);
  }

  lemma InitialShape(g: Geometry, ordersFirst: bool, reqs: seq<Req>, rows: seq<Row>)
    ensures Shape(Initial(g, ordersFirst, reqs, rows), CpToMd)
  {
  }

  lemma InitialTyped(g: Geometry, ordersFirst: bool, reqs: seq<Req>, rows: seq<Row>)
    ensures Typed(Initial(g, ordersFirst, reqs, rows))
  {
    assert forall c: Chan :: Journals([], [], [], [], [], []).Get(c) == [];
  }

  /** A state that some timely run can reach, on pages of whatever size. */
  ghost predicate Reachable(s: Sys, rows: seq<Row>) {
    exists g, ordersFirst, reqs, acts ::
      && ValidGeometry(g) && TimelyRun(Initial(g, ordersFirst, reqs, rows), acts)
      && s == Exec(Initial(g, ordersFirst, reqs, rows), acts)
  }

  lemma ReachableAt(s: Sys, rows: seq<Row>) returns (ph: Phase)
    requires Reachable(s, rows)
    ensures At(s, ph, rows)
  {
    hide At, Exec, Initial, TimelyRun, ValidGeometry;
    var g, ordersFirst, reqs, acts :|
      && ValidGeometry(g) && TimelyRun(Initial(g, ordersFirst, reqs, rows), acts)
      && s == Exec(Initial(g, ordersFirst, reqs, rows), acts);
    InitialAt(g, ordersFirst, reqs, rows);
    ph := ExecAt(Initial(g, ordersFirst, reqs, rows), CpToMd, acts, rows);
  }

  // ---------- The guarantees ----------

  function TokensIn(ms: seq<Stamped>): nat {
    if ms == [] then 0 else TokensIn(ms[..|ms| - 1]) + if ms[|ms| - 1].msg.Token? then 1 else 0
  }

  function TokensOut(outs: seq<Out>): nat {
    if outs == [] then 0 else TokensOut(outs[..|outs| - 1]) + if outs[|outs| - 1].msg.Token? then 1 else 0
  }

  /** Tokens in the journals and tokens that an engine is about to write. */
  function Tokens(s: Sys): nat {
    TokensIn(s.js.mdReq) + TokensIn(s.js.mdResp) + TokensIn(s.js.bars) + TokensIn(s.js.tdReq) + TokensIn(s.js.orders)
    + TokensIn(s.js.tdResp) + TokensOut(s.cp.todo) + TokensOut(s.md.todo) + TokensOut(s.td.todo)
  }

  lemma {:induction false} NoToken(ms: seq<Stamped>)
    requires forall i | 0 <= i < |ms| :: !ms[i].msg.Token?
    ensures TokensIn(ms) == 0
  {
    if ms != [] {
      NoToken(ms[..|ms| - 1]);
    }
  }

  lemma {:induction false} NoTokenOut(outs: seq<Out>)
    requires forall i | 0 <= i < |outs| :: !outs[i].msg.Token?
    ensures TokensOut(outs) == 0
  {
    if outs != [] {
      NoTokenOut(outs[..|outs| - 1]);
    }
  }

  lemma LastToken(ms: seq<Stamped>)
    requires QuietBut(ms)
    ensures TokensIn(ms) == Last(ms)
  {
    if ms != [] {
      NoToken(ms[..|ms| - 1]);
    }
  }

  lemma LastTokenOut(outs: seq<Out>)
    requires QuietOutBut(outs)
    ensures TokensOut(outs) == LastOut(outs)
  {
    if outs != [] {
      NoTokenOut(outs[..|outs| - 1]);
    }
  }

  lemma {:induction false} AmidToken(ms: seq<Stamped>)
    requires TokenAmid(ms)
    ensures TokensIn(ms) == 1
  {
    var p :| 0 <= p < |ms| && TokenAt(ms, p);
    var front := ms[..|ms| - 1];
    if p == |ms| - 1 {
      assert ms[..p] == front;
      NoToken(front);
    } else {
      assert front[..p] == ms[..p] && front[p + 1..] == ms[p + 1..][..|ms| - p - 2];
      assert TokenAt(front, p);
      assert ms[p + 1..][|ms| - p - 2] == ms[|ms| - 1];
      AmidToken(front);
    }
  }

  lemma TdRespTokens(s: Sys, ph: Phase)
    requires TdShape(s, ph)
    ensures TokensIn(s.js.tdResp) == if ph == FromTd then 1 else 0
  {
    if ph == FromTd {
      AmidToken(s.js.tdResp);
    } else {
      NoToken(s.js.tdResp);
    }
  }

  /** There is exactly one token, in a journal or about to be written, until the data has run out or the
      token was written behind a first page, and none after. */
  lemma OneToken(s: Sys, rows: seq<Row>)
    requires Reachable(s, rows)
    ensures Tokens(s) == if s.t.over || s.t.lost.signal then 0 else 1
  {
    hide Reachable, Typed, Conserved, LossesOk, StartComesFirst, Parted, Replied, TokensIn, TokensOut;
    var ph := ReachableAt(s, rows);
    OneTokenAt(s, ph, rows);
  }

  predicate QuietBut(ms: seq<Stamped>) {
    forall i | 0 <= i < |ms| - 1 :: !ms[i].msg.Token?
  }

  predicate QuietOutBut(outs: seq<Out>) {
    forall i | 0 <= i < |outs| - 1 :: !outs[i].msg.Token?
  }

  function Last(ms: seq<Stamped>): nat {
    if ms != [] && ms[|ms| - 1].msg.Token? then 1 else 0
  }

  function LastOut(outs: seq<Out>): nat {
    if outs != [] && outs[|outs| - 1].msg.Token? then 1 else 0
  }

  /** No message but the last of a journal is the token. */
  lemma Quiet(s: Sys, ph: Phase)
    requires Shape(s, ph) && TdShape(s, ph) && OnOrders(s.js.orders, ph)
    ensures QuietBut(s.js.mdReq) && QuietBut(s.js.mdResp) && QuietBut(s.js.bars) && QuietBut(s.js.tdReq)
            && QuietBut(s.js.orders)
            && QuietOutBut(s.cp.todo) && QuietOutBut(s.md.todo) && QuietOutBut(s.td.todo)
  {
  }

  lemma LastTokens(s: Sys, ph: Phase)
    requires Shape(s, ph) && TdShape(s, ph) && OnOrders(s.js.orders, ph)
    ensures Last(s.js.mdReq) + Last(s.js.mdResp) + Last(s.js.bars) + Last(s.js.tdReq) + Last(s.js.orders)
            + (if ph == FromTd then 1 else 0) + LastOut(s.cp.todo) + LastOut(s.md.todo) + LastOut(s.td.todo)
            == if After(ph) || ph == Lost then 0 else 1
  {
  }

  lemma OneTokenAt(s: Sys, ph: Phase, all: seq<Row>)
    requires Shape(s, ph) && TdShape(s, ph) && OnOrders(s.js.orders, ph) && Counted(s, ph, all)
    ensures Tokens(s) == if s.t.over || s.t.lost.signal then 0 else 1
  {
    hide TokensIn, TokensOut, Shape, TdShape, OnOrders, Last, LastOut, QuietBut, QuietOutBut;
    Quiet(s, ph);
    LastTokens(s, ph);
    LastToken(s.js.mdReq);
    LastToken(s.js.mdResp);
    LastToken(s.js.bars);
    LastToken(s.js.tdReq);
    LastToken(s.js.orders);
    TdRespTokens(s, ph);
    LastTokenOut(s.cp.todo);
    LastTokenOut(s.md.todo);
    LastTokenOut(s.td.todo);
  }

  lemma {:induction false} NoTrades(ms: seq<Stamped>)
    requires RespsOnly(ms)
    ensures TradeIds(ms) == []
  {
    if ms != [] {
      NoTrades(ms[..|ms| - 1]);
    }
  }

  lemma {:induction false} AllRequests(ms: seq<Stamped>, t: nat)
    requires RequestsAfter(ms, t)
    ensures |Reqs(ms)| == |ms|
  {
    if ms != [] {
      AllRequests(ms[..|ms| - 1], t);
    }
  }

  /** Of the requests that were put on the first page, those that were written before the token for TD. */
  function Asked(t: Tally): int {
    var kept := |t.written| - |t.lost.orders|;
    if t.asked <= kept then t.asked else kept
  }

  /** When TD is about to match, it has taken exactly the requests CP wrote before it wrote the token, among them
      every one the strategy made while it handled the last bar, up to those written behind the first page; what
      is unread are requests stamped after the token, and there are none exactly if none were written since, as
      is the case if CP has handled no answer to a cancel since. Every trade and every bar that was not lost
      has been handled. */
  lemma TakenAtToken(s: Sys, rows: seq<Row>, c: Chan, trades: seq<nat>)
    requires Reachable(s, rows)
    requires Enabled(s, TdRead(c, trades)) && s.js.Get(c)[0].msg.Token?
    ensures RequestsAfter(s.js.orders, s.js.Get(c)[0].time)
    ensures 0 <= Asked(s.t) <= |s.t.written| && s.t.inserted == s.t.written[..Asked(s.t)]
    ensures s.js.orders == [] <==> |s.t.written| - |s.t.lost.orders| <= s.t.asked
    ensures |s.t.respsSeen| == s.t.heard ==> s.js.orders == [] && s.cp.todo == []
    ensures s.td.started && s.t.passes + 1 == s.t.answered
    ensures s.t.tradesSeen == s.t.tradesMade && s.t.barsMade == s.t.barsSeen + s.t.lost.bars
  {
    hide Reachable, At, Enabled, RequestsAfter;
    var ph := ReachableAt(s, rows);
    TokenAtTd(s, ph, c, trades, rows);
    SeenAtTd(s, rows);
  }

  lemma TokenAtTd(s: Sys, ph: Phase, c: Chan, trades: seq<nat>, all: seq<Row>)
    requires At(s, ph, all) && Enabled(s, TdRead(c, trades)) && s.js.Get(c)[0].msg.Token?
    ensures ph == AtTd && c == TdReq && s.js.Get(c) == s.js.tdReq && |s.js.tdReq| == 1 && s.td.started
    ensures |s.js.orders| == Since(s.t) && RequestsAfter(s.js.orders, s.js.tdReq[0].time)
  {
    hide Shape, TdShape, OnOrders, Typed, Conserved, LossesOk, Counted, TdRespOk, EndedEmpty, FirstIsStart,
      ValidGeometry, Replied, StartsFresh, RolledOk, PartedAt;
    TokenLost(s, ph, c, trades);
    TdFront(s, ph, c, trades);
    if !s.td.started {
      FrontIsStart(s.js.tdReq, s.cp.todo, TdReq);
    }
    assert s.js.Get(TdReq) == s.js.tdReq && s.js.Get(Orders) == s.js.orders;
    NothingBefore(s.js.orders, |s.js.orders| - Since(s.t), s.js.tdReq[0].time);
  }

  lemma TokenLost(s: Sys, ph: Phase, c: Chan, trades: seq<nat>)
    requires Shape(s, ph) && TdShape(s, ph) && OnOrders(s.js.orders, ph) && Enabled(s, TdRead(c, trades))
    requires s.js.Get(c)[0].msg.Token?
    ensures ph != Lost
  {
    hide Shape, TdShape, OnOrders;
    TdReadsAt(s, ph, c, trades);
  }

  lemma NothingBefore(ms: seq<Stamped>, n: int, t: nat)
    requires PartedAt(ms, n, t) && (ms != [] ==> t <= ms[0].time)
    ensures n == 0 && RequestsAfter(ms, t)
  {
    if n > 0 {
      EarlyFront(ms, n, t);
    }
    assert ms[0..] == ms;
  }

  lemma EarlyFront(ms: seq<Stamped>, n: int, t: nat)
    requires PartedAt(ms, n, t) && n > 0
    ensures ms != [] && ms[0].time < t
  {
    assert ms[..n][0] == ms[0];
  }

  lemma SeenAtTd(s: Sys, all: seq<Row>)
    requires At(s, AtTd, all) && |s.js.tdReq| == 1
    requires |s.js.orders| == Since(s.t) && RequestsAfter(s.js.orders, s.js.tdReq[0].time)
    ensures 0 <= Asked(s.t) <= |s.t.written| && s.t.inserted == s.t.written[..Asked(s.t)]
    ensures s.js.orders == [] <==> |s.t.written| - |s.t.lost.orders| <= s.t.asked
    ensures |s.t.respsSeen| == s.t.heard ==> s.js.orders == [] && s.cp.todo == []
    ensures s.t.passes + 1 == s.t.answered
    ensures s.t.tradesSeen == s.t.tradesMade && s.t.barsMade == s.t.barsSeen + s.t.lost.bars
  {
    hide Typed, StartComesFirst, EndedEmpty, ValidGeometry, StartsFresh, RolledOk, OnOrders, PartedAt, RequestsAfter,
      Replied, LossesOk, Reqs;
    AllRequests(s.js.orders, s.js.tdReq[0].time);
    NoTrades(s.js.tdResp);
  }

  /** When MD is about to produce the next bar, every trade of every match pass has reached the strategy. */
  lemma SeenAtNextBar(s: Sys, rows: seq<Row>)
    requires Reachable(s, rows)
    requires Enabled(s, MdRead) && s.js.mdReq[0].msg.Token?
    ensures s.t.tradesSeen == s.t.tradesMade && s.t.barsMade == s.t.barsSeen + s.t.lost.bars
    ensures s.t.passes == s.t.answered && s.md.started
  {
    hide Reachable, Typed, Parted, Replied, StartsFresh, RolledOk, Enabled, TradeIds, BarRows, OnOrders, EndedEmpty,
      StartComesFirst, LossesOk, StartsOnly, OrderOutsOnly, Replying, RespsOnly, TokenBehindStarts;
    var ph := ReachableAt(s, rows);
    MdReadsAt(s, ph);
    NoTrades(s.js.tdResp);
    NoBars(s.js.bars);
  }

  /** Every cancel that TD has taken is answered once, and the answers reach CP in the order of the cancels, but
      for those that are under way and those written behind the first page. */
  lemma EveryCancelAnswered(s: Sys, rows: seq<Row>)
    requires Reachable(s, rows)
    ensures Cancels(s.t.inserted) == s.t.respsSeen + RespIds(s.js.tdResp) + s.t.lost.resps + Pending(s.td.todo)
  {
    hide Reachable, Typed, Parted, Shape, TdShape, StartsFresh, RolledOk, Counted, StartComesFirst, Cancels, RespIds,
      Pending, TdRespOk, EndedEmpty, LossesOk, OnOrders;
    var ph := ReachableAt(s, rows);
  }

  /** The number of rows in front of the first empty one. */
  function Readable(rows: seq<Row>): nat {
    if OutOfRows(rows) then 0 else 1 + Readable(rows[1..])
  }

  lemma {:induction false} ReadableIs(rows: seq<Row>, n: nat)
    requires n <= |rows| && (forall i | 0 <= i < n :: rows[i] != Empty) && OutOfRows(rows[n..])
    ensures Readable(rows) == n
    ensures n == |rows| <==> Empty !in rows
  {
    if n > 0 {
      assert rows[1..][n - 1..] == rows[n..];
      ReadableIs(rows[1..], n - 1);
      assert rows == [rows[0]] + rows[1..];
    } else {
      assert rows[0..] == rows;
    }
  }

  /** The termination comes only after every row in front of the first empty line has been answered and every
      answer has been matched; these are all the rows exactly if no line is empty. */
  lemma SeenAtEnd(s: Sys, rows: seq<Row>)
    requires Reachable(s, rows) && s.t.over
    ensures s.t.answered == s.t.passes == Readable(rows)
    ensures s.t.answered == |rows| <==> Empty !in rows
    ensures s.t.tradesSeen == s.t.tradesMade && s.t.barsMade == s.t.barsSeen + s.t.lost.bars
  {
    hide Reachable, Typed, StartComesFirst, Parted, Replied;
    var ph := ReachableAt(s, rows);
    ReadableIs(rows, s.t.answered);
    OverSees(s, ph, rows);
  }

  lemma {:induction false} NoBars(ms: seq<Stamped>)
    requires forall i | 0 <= i < |ms| :: !ms[i].msg.Bar?
    ensures BarRows(ms) == []
  {
    if ms != [] {
      NoBars(ms[..|ms| - 1]);
    }
  }

  /** With the data over, only answers to cancels and the termination can be unread by CP. */
  lemma OverLeaves(s: Sys, ph: Phase, all: seq<Row>)
    requires Shape(s, ph) && TdShape(s, ph) && EndedEmpty(s, ph) && Counted(s, ph, all) && s.t.over
    ensures RespsOnly(s.js.tdResp) && forall i | 0 <= i < |s.js.bars| :: !s.js.bars[i].msg.Bar?
    ensures After(ph) || ph == Lost
  {
    hide StartsOnly, OrderOutsOnly, EndsOnly, AllSilent, RespsOnly, ReportsOnly, OutOfRows, Replying;
  }

  lemma OverSees(s: Sys, ph: Phase, all: seq<Row>)
    requires At(s, ph, all) && s.t.over
    ensures s.t.tradesSeen == s.t.tradesMade && s.t.barsMade == s.t.barsSeen + s.t.lost.bars
  {
    hide Typed, StartComesFirst, Parted, Replied, StartsFresh, RolledOk, LossesOk, ValidGeometry, OnOrders, Shape,
      TdShape, EndedEmpty, Counted, TradeIds, BarRows, RespsOnly;
    OverLeaves(s, ph, all);
    NoTrades(s.js.tdResp);
    NoBars(s.js.bars);
  }

  /** Nothing is lost that was not written to a journal that has rolled. */
  lemma NothingLostUnlessRolled(s: Sys, rows: seq<Row>)
    requires Reachable(s, rows) && forall c :: !s.disk.pages.Get(c).rolled
    ensures s.t.lost == NOTHING_LOST
  {
    hide Reachable, Typed, StartComesFirst, Conserved, Shape, TdShape, Counted, Parted, Replied;
    var ph := ReachableAt(s, rows);
    assert forall c {:trigger s.disk.pages.Get(c)} :: !s.disk.pages.Get(c).rolled;
    PagesGet(s.disk.pages);
  }

  /** The token or the termination is lost, as long as CP has not stopped, exactly if MD_REQ, MD_RESPONSE or TD_REQ
      has rolled, or TD has written a token since TD_RESPONSE has, or the journal of the bars has and MD has
      written the termination. An answer to a cancel that rolls TD_RESPONSE loses no token by itself. */
  lemma SignalLostIff(s: Sys, rows: seq<Row>)
    requires Reachable(s, rows) && s.cp.live
    ensures var ps := s.disk.pages;
            s.t.lost.signal
            <==> ps.mdReq.rolled || ps.mdResp.rolled || ps.tdReq.rolled || (ps.tdResp.rolled && s.t.left < s.t.matched)
                 || (ps.bars.rolled && s.t.over && s.md.todo == [])
  {
    hide Reachable, At;
    var ph := ReachableAt(s, rows);
    SignalLostAt(s, ph, rows);
  }

  lemma SignalLostAt(s: Sys, ph: Phase, all: seq<Row>)
    requires At(s, ph, all) && s.cp.live
    ensures var ps := s.disk.pages;
            s.t.lost.signal
            <==> ps.mdReq.rolled || ps.mdResp.rolled || ps.tdReq.rolled || (ps.tdResp.rolled && s.t.left < s.t.matched)
                 || (ps.bars.rolled && s.t.over && s.md.todo == [])
  {
    hide Typed, Conserved, LossesOk, StartComesFirst, StartsFresh, ValidGeometry, OnOrders, EndedEmpty, OutOfRows,
      Parted, Replied, TdShape;
  }

  lemma LostIsLost(s: Sys, ph: Phase, all: seq<Row>)
    requires At(s, ph, all)
    ensures s.t.lost.signal <==> ph == Lost
  {
    hide Shape, TdShape, Typed, Conserved, StartComesFirst, Parted, Replied;
  }

}
