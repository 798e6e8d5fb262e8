/** The back-test protocol between the control engine (CP), the market-data engine (MD) and the
    trading engine (TD): six journals, each a FIFO of stamped messages on its first page, and engines
    that read the earliest message of the journals they have joined and write one message at a time.
    A reader never steps over a page end, so what no longer fits the first page is lost to it. */
module LockStep {

  datatype Flag = MarketData | MatchOrder

  /** What a strategy asks of the broker: to take an order, or to cancel one. */
  datatype Req = Insert(id: nat) | Cancel(id: nat)

  /** `Bar(nr)` is the bar of row `nr` of the data file, `Resp` the answer to a cancel, `End` the termination. */
  datatype Msg = Start | Token(flag: Flag) | Order(req: Req) | Bar(nr: nat) | Trade(id: nat) | Resp(id: nat) | End

  datatype Stamped = Stamped(time: nat, msg: Msg)

  /** MD_REQ, MD_RESPONSE, the journal of the bars, TD_REQ, the journal of the account's orders, TD_RESPONSE. */
  datatype Chan = MdReq | MdResp | Bars | TdReq | Orders | TdResp

  datatype Journals = Journals(mdReq: seq<Stamped>, mdResp: seq<Stamped>, bars: seq<Stamped>,
                               tdReq: seq<Stamped>, orders: seq<Stamped>, tdResp: seq<Stamped>)
  {
    function Get(c: Chan): seq<Stamped> {
      match c
      case MdReq => mdReq
      case MdResp => mdResp
      case Bars => bars
      case TdReq => tdReq
      case Orders => orders
      case TdResp => tdResp
    }

    function Set(c: Chan, ms: seq<Stamped>): Journals {
      match c
      case MdReq => this.(mdReq := ms)
      case MdResp => this.(mdResp := ms)
      case Bars => this.(bars := ms)
      case TdReq => this.(tdReq := ms)
      case Orders => this.(orders := ms)
      case TdResp => this.(tdResp := ms)
    }
  }

  /** What a message takes of a page, and what a page has for messages; both count frame headers. */
  datatype Geometry = Geometry(size: Msg -> nat, room: Chan -> nat)

  /** Every message fits an empty page, as a writer demands of its callers. */
  ghost predicate ValidGeometry(g: Geometry) {
    forall c, m :: g.size(m) < g.room(c)
  }

  /** How far the first page of a journal is filled, and whether the writer has left it. */
  datatype Page = Page(used: nat, rolled: bool)

  datatype Pages = Pages(mdReq: Page, mdResp: Page, bars: Page, tdReq: Page, orders: Page, tdResp: Page)
  {
    function Get(c: Chan): Page {
      match c
      case MdReq => mdReq
      case MdResp => mdResp
      case Bars => bars
      case TdReq => tdReq
      case Orders => orders
      case TdResp => tdResp
    }

    function Set(c: Chan, p: Page): Pages {
      match c
      case MdReq => this.(mdReq := p)
      case MdResp => this.(mdResp := p)
      case Bars => this.(bars := p)
      case TdReq => this.(tdReq := p)
      case Orders => this.(orders := p)
      case TdResp => this.(tdResp := p)
    }
  }

  datatype Disk = Disk(g: Geometry, pages: Pages)

  /** A write an engine still has to make before it reads its next message. */
  datatype Out = Out(chan: Chan, msg: Msg)

  /** A row of the data file. One that cannot be parsed yields no bar, but the signal is answered all the
      same; an empty line reads like the end of the file. */
  datatype Row = Good | Bad | Empty

  datatype Engine = Engine(todo: seq<Out>, live: bool, started: bool)

  /** What was written behind a first page: requests, bars, trades, answers to cancels; the token, or the
      termination meant for CP. */
  datatype Losses = Losses(orders: seq<Req>, bars: seq<nat>, trades: seq<nat>, resps: seq<nat>, signal: bool)

  /** What has happened so far: rows MD has answered and whether it has found no more; match tokens TD has
      taken, and those it has written; requests CP has written and TD has taken; bars, trades and answers to
      cancels that were written and that CP has handled. `asked` and `heard` are how many requests CP had
      written and how many answers it had handled when it last wrote the token for TD, `left` is how many
      tokens TD had written when it left the first page of TD_RESPONSE. */
  datatype Tally = Tally(answered: nat, over: bool, passes: nat, matched: nat, left: nat,
                         written: seq<Req>, asked: nat, heard: nat, inserted: seq<Req>,
                         barsMade: seq<nat>, barsSeen: seq<nat>, tradesMade: seq<nat>, tradesSeen: seq<nat>,
                         respsMade: seq<nat>, respsSeen: seq<nat>, lost: Losses)

  datatype Sys = Sys(clock: nat, js: Journals, disk: Disk, cp: Engine, md: Engine, td: Engine,
                     rows: seq<Row>, t: Tally)

  /** `dt` is how far the clock advances before the write; the lists are what the strategy or the
      matching comes up with. */
  datatype Action =
    | CpWrite(dt: nat)
    | MdWrite(dt: nat)
    | TdWrite(dt: nat)
    | CpRead(chan: Chan, orders: seq<Req>)
    | MdRead
    | TdRead(chan: Chan, trades: seq<nat>)

  // ---------- Starting ----------

  function OrderOuts(reqs: seq<Req>): seq<Out> {
    seq(|reqs|, i requires 0 <= i < |reqs| => Out(Orders, Order(reqs[i])))
  }

  function TradeOuts(ids: seq<nat>): seq<Out> {
    seq(|ids|, i requires 0 <= i < |ids| => Out(TdResp, Trade(ids[i])))
  }

  /** `pre_start`: the start signal to MD, then to the other journals in the order of the hash map,
      then what the strategies order, then the first token. */
  function PreStart(ordersFirst: bool, reqs: seq<Req>): seq<Out> {
    [Out(MdReq, Start)]
    + (if ordersFirst then [Out(Orders, Start), Out(TdReq, Start)] else [Out(TdReq, Start), Out(Orders, Start)])
    + OrderOuts(reqs) + [Out(MdReq, Token(MarketData))]
  }

  const FRESH := Page(0, false)
  const NOTHING_LOST := Losses([], [], [], [], false)
  const NOTHING_YET := Tally(0, false, 0, 0, 0, [], 0, 0, [], [], [], [], [], [], [], NOTHING_LOST)

  function Initial(g: Geometry, ordersFirst: bool, reqs: seq<Req>, rows: seq<Row>): Sys {
    Sys(0, Journals([], [], [], [], [], []), Disk(g, Pages(FRESH, FRESH, FRESH, FRESH, FRESH, FRESH)),
        Engine(PreStart(ordersFirst, reqs), true, true), Engine([], true, false), Engine([], true, false), rows,
        NOTHING_YET)
  }

  // ---------- Writing ----------

  function Send(js: Journals, time: nat, o: Out): Journals {
    js.Set(o.chan, js.Get(o.chan) + [Stamped(time, o.msg)])
  }

  function Sent(t: Tally, o: Out): Tally {
    match o.msg
    case Order(req) => t.(written := t.written + [req])
    case Bar(nr) => t.(barsMade := t.barsMade + [nr])
    case Trade(id) => t.(tradesMade := t.tradesMade + [id])
    case Resp(id) => t.(respsMade := t.respsMade + [id])
    case Token(_) =>
      if o.chan == TdReq then t.(asked := |t.written|, heard := |t.respsSeen|)
      else if o.chan == TdResp then t.(matched := t.matched + 1) else t
    case _ => t
  }

  /** The message still goes on the first page: the writer has not left it, and there is room. */
  predicate HasRoom(d: Disk, o: Out) {
    var p := d.pages.Get(o.chan);
    !p.rolled && p.used + d.g.size(o.msg) < d.g.room(o.chan)
  }

  function Filled(d: Disk, o: Out): Disk {
    var p := d.pages.Get(o.chan);
    var p' := if HasRoom(d, o) then Page(p.used + d.g.size(o.msg), false) else p.(rolled := true);
    d.(pages := d.pages.Set(o.chan, p'))
  }

  function Dropped(l: Losses, o: Out): Losses {
    match o.msg
    case Order(req) => l.(orders := l.orders + [req])
    case Bar(nr) => l.(bars := l.bars + [nr])
    case Trade(id) => l.(trades := l.trades + [id])
    case Resp(id) => l.(resps := l.resps + [id])
    case Token(_) => l.(signal := true)
    case End => l.(signal := l.signal || o.chan == Bars)
    case Start => l
  }

  /** `o` is what makes TD leave the first page of TD_RESPONSE, if there is no room for it. */
  predicate LeavesTdResp(d: Disk, o: Out) {
    o.chan == TdResp && !d.pages.tdResp.rolled
  }

  /** The tally after `o` was written behind the first page. */
  function Missed(d: Disk, t: Tally, o: Out): Tally {
    Sent(t, o).(lost := Dropped(t.lost, o), left := if LeavesTdResp(d, o) then t.matched else t.left)
  }

  /** Write `o`, stamped `dt` later than the last stamp. */
  function Post(s: Sys, dt: nat, o: Out): Sys {
    var d := Filled(s.disk, o);
    if HasRoom(s.disk, o) then
      s.(clock := s.clock + dt, js := Send(s.js, s.clock + dt, o), disk := d, t := Sent(s.t, o))
    else s.(clock := s.clock + dt, disk := d, t := Missed(s.disk, s.t, o))
  }

  function Rest(e: Engine): Engine
    requires e.todo != []
  {
    e.(todo := e.todo[1..])
  }

  // ---------- Reading ----------

  /** A reader that has joined the journals `joined` may take the front of `c` next. */
  predicate Chosen(js: Journals, joined: set<Chan>, c: Chan) {
    && c in joined && js.Get(c) != []
    && forall d | d in joined && js.Get(d) != [] :: js.Get(c)[0].time <= js.Get(d)[0].time
  }

  function Take(js: Journals, c: Chan): Journals
    requires js.Get(c) != []
  {
    js.Set(c, js.Get(c)[1..])
  }

  function CpHandle(s: Sys, m: Msg, orders: seq<Req>): Sys {
    match m
    case Bar(nr) => s.(t := s.t.(barsSeen := s.t.barsSeen + [nr]), cp := s.cp.(todo := OrderOuts(orders)))
    case Trade(id) => s.(t := s.t.(tradesSeen := s.t.tradesSeen + [id]), cp := s.cp.(todo := OrderOuts(orders)))
    case Resp(id) => s.(t := s.t.(respsSeen := s.t.respsSeen + [id]), cp := s.cp.(todo := OrderOuts(orders)))
    case Token(MarketData) => s.(cp := s.cp.(todo := [Out(TdReq, Token(MatchOrder))]))
    case Token(MatchOrder) => s.(cp := s.cp.(todo := [Out(MdReq, Token(MarketData))]))
    case End => s.(cp := s.cp.(todo := [Out(MdReq, End), Out(TdReq, End), Out(Orders, End)], live := false))
    case _ => s
  }

  /** The bar of row `nr` of the file, if it has one, and the token back. */
  function Answer(row: Row, nr: nat, flag: Flag): seq<Out> {
    match row
    case Good => [Out(Bars, Bar(nr)), Out(MdResp, Token(flag))]
    case _ => [Out(MdResp, Token(flag))]
  }

  /** No row can be read: the file is at its end or at an empty line. */
  predicate OutOfRows(rows: seq<Row>) {
    rows == [] || rows[0] == Empty
  }

  function MdHandle(s: Sys, m: Msg): Sys {
    match m
    case Start => s.(md := s.md.(started := true))
    case Token(flag) =>
      // the header has to be read before any row
      if !s.md.started || OutOfRows(s.rows) then s.(md := s.md.(todo := [Out(Bars, End)]), t := s.t.(over := true))
      else
        s.(rows := s.rows[1..], t := s.t.(answered := s.t.answered + 1),
           md := s.md.(todo := Answer(s.rows[0], s.t.answered, flag)))
    case End => s.(md := s.md.(live := false))
    case _ => s
  }

  /** What the broker writes at once for a request: every cancel is answered, whatever came of it. */
  function Reply(req: Req): seq<Out> {
    match req
    case Insert(_) => []
    case Cancel(id) => [Out(TdResp, Resp(id))]
  }

  function TdHandle(s: Sys, m: Msg, trades: seq<nat>): Sys {
    match m
    case Start => s.(td := s.td.(started := true))
    case Order(req) =>
      // a broker that is not ready is not asked
      if s.td.started then s.(t := s.t.(inserted := s.t.inserted + [req]), td := s.td.(todo := Reply(req))) else s
    case Token(flag) =>
      s.(t := s.t.(passes := s.t.passes + 1), td := s.td.(todo := TradeOuts(trades) + [Out(TdResp, Token(flag))]))
    case End => s.(td := s.td.(live := false))
    case _ => s
  }

  // ---------- One step; a step that is not enabled changes nothing ----------

  predicate MayRead(e: Engine, js: Journals, joined: set<Chan>, c: Chan) {
    e.todo == [] && e.live && Chosen(js, joined, c)
  }

  predicate Enabled(s: Sys, a: Action) {
    match a
    case CpWrite(_) => s.cp.todo != []
    case MdWrite(_) => s.md.todo != []
    case TdWrite(_) => s.td.todo != []
    case CpRead(c, _) => MayRead(s.cp, s.js, {Bars, MdResp, TdResp}, c)
    case MdRead => MayRead(s.md, s.js, {MdReq}, MdReq)
    case TdRead(c, _) => MayRead(s.td, s.js, {TdReq, Orders}, c)
  }

  function Step(s: Sys, a: Action): Sys {
    if !Enabled(s, a) then s
    else
      match a
      case CpWrite(dt) => Post(s.(cp := Rest(s.cp)), dt, s.cp.todo[0])
      case MdWrite(dt) => Post(s.(md := Rest(s.md)), dt, s.md.todo[0])
      case TdWrite(dt) => Post(s.(td := Rest(s.td)), dt, s.td.todo[0])
      case CpRead(c, orders) => CpHandle(s.(js := Take(s.js, c)), s.js.Get(c)[0].msg, orders)
      case MdRead => MdHandle(s.(js := Take(s.js, MdReq)), s.js.Get(MdReq)[0].msg)
      case TdRead(c, trades) => TdHandle(s.(js := Take(s.js, c)), s.js.Get(c)[0].msg, trades)
  }

  function Exec(s: Sys, acts: seq<Action>): Sys
    decreases |acts|
  {
    if acts == [] then s else Exec(Step(s, acts[0]), acts[1..])
  }

  /** A token and what its reader may read instead of it are stamped in the order in which they are written:
      the token MD writes, later than the bars that are unread; the one CP writes to TD, later than the
      requests that are unread; and a request, later than the token TD has not taken yet. */
  predicate Timely(s: Sys, a: Action) {
    match a
    case MdWrite(dt) =>
      s.md.todo != [] && s.md.todo[0].msg.Token? && HasRoom(s.disk, s.md.todo[0]) ==> Before(s.js.bars, s.clock + dt)
    case CpWrite(dt) =>
      s.cp.todo != [] && HasRoom(s.disk, s.cp.todo[0]) ==>
        && (s.cp.todo[0] == Out(TdReq, Token(MatchOrder)) ==> Before(s.js.orders, s.clock + dt))
        && (s.cp.todo[0].msg.Order? ==> TokensBefore(s.js.tdReq, s.clock + dt))
    case _ => true
  }

  predicate TokensBefore(ms: seq<Stamped>, t: nat) {
    forall i | 0 <= i < |ms| && ms[i].msg.Token? :: ms[i].time < t
  }

  predicate Before(ms: seq<Stamped>, t: nat) {
    forall i | 0 <= i < |ms| :: ms[i].time < t
  }

  predicate TimelyRun(s: Sys, acts: seq<Action>)
    decreases |acts|
  {
    acts == [] || (Timely(s, acts[0]) && TimelyRun(Step(s, acts[0]), acts[1..]))
  }
}
