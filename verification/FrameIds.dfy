/** Frame ids: the destination in the high half, page and place in the low half. */
module FrameIds {
  const PAGE_ID_MASK: bv32 := 0xFFFF_0000
  const FRAME_ID_MASK: bv64 := 0x0000_FFFF

  /** What a writer makes ids of: its location, its destination, the hash of its start time, and where it stands. */
  datatype Writer = Writer(location: bv32, dest: bv32, startHash: bv32, page: bv32, frameNb: bv64)

  /** `frame_id_base_`, and the low half put to it. */
  function Joined(high: bv32, low: bv32): bv64 {
    ((high as bv64) << 32) | (low as bv64)
  }

  function High(id: bv64): bv32 {
    (id >> 32) as bv32
  }

  function Low(id: bv64): bv32 {
    (id & 0xFFFF_FFFF) as bv32
  }

  function Place(page: bv32, frameNb: bv64): bv32 {
    ((page << 16) & PAGE_ID_MASK) | ((frameNb & FRAME_ID_MASK) as bv32)
  }

  function Xor(a: bv32, b: bv32): bv32 {
    a ^ b
  }

  /** `current_frame_uid` */
  function FrameId(w: Writer): bv64 {
    Joined(Xor(w.location, w.dest), Xor(Place(w.page, w.frameNb), w.startHash))
  }

  /** `to_account_uid` */
  function AccountOf(id: bv64, location: bv32): bv32 {
    Xor(High(id), location)
  }

  // ---------- The parts of an id ----------

  lemma Halves(high: bv32, low: bv32)
    ensures High(Joined(high, low)) == high
    ensures Low(Joined(high, low)) == low
  {
  }

  lemma XorSame(a: bv32, b: bv32, c: bv32)
    ensures Xor(a, c) == Xor(b, c) <==> a == b
  {
  }

  lemma XorTwice(a: bv32, b: bv32)
    ensures Xor(Xor(a, b), a) == b && Xor(a, b) == Xor(b, a)
  {
  }

  lemma XorBack(a: bv32, b: bv32, c: bv32)
    ensures Xor(Xor(a, b), c) == b <==> c == a
  {
    hide Xor;
    var x := Xor(a, b);
    XorTwice(a, b);
    XorTwice(c, x);
    XorTwice(a, x);
    XorSame(c, a, x);
  }

  function LowPage(page: bv32): bv32 {
    page & 0xFFFF
  }

  function LowFrame(frameNb: bv64): bv64 {
    frameNb & FRAME_ID_MASK
  }

  function PagePart(place: bv32): bv32 {
    place >> 16
  }

  function FramePart(place: bv32): bv64 {
    (place & 0xFFFF) as bv64
  }

  lemma PlaceParts(page: bv32, frameNb: bv64)
    ensures PagePart(Place(page, frameNb)) == LowPage(page)
    ensures FramePart(Place(page, frameNb)) == LowFrame(frameNb)
  {
  }

  lemma PlaceOfLowBits(page: bv32, frameNb: bv64)
    ensures Place(page, frameNb) == Place(LowPage(page), LowFrame(frameNb))
  {
  }

  lemma PlaceSameIff(p: bv32, m: bv64, q: bv32, n: bv64)
    ensures Place(p, m) == Place(q, n) <==> LowPage(p) == LowPage(q) && LowFrame(m) == LowFrame(n)
  {
    hide *;
    PlaceParts(p, m);
    PlaceParts(q, n);
    PlaceOfLowBits(p, m);
    PlaceOfLowBits(q, n);
  }

  /** Two frames of one writer get the same id exactly when their pages and their places in them agree in the low 16
      bits. */
  lemma SameFrameIdIff(w: Writer, page: bv32, frameNb: bv64)
    ensures FrameId(w) == FrameId(w.(page := page, frameNb := frameNb))
            <==> LowPage(w.page) == LowPage(page) && LowFrame(w.frameNb) == LowFrame(frameNb)
  {
    hide Place, Xor, Joined, High, Low, LowPage, LowFrame;
    var high := Xor(w.location, w.dest);
    Halves(high, Xor(Place(w.page, w.frameNb), w.startHash));
    Halves(high, Xor(Place(page, frameNb), w.startHash));
    XorSame(Place(w.page, w.frameNb), Place(page, frameNb), w.startHash);
    PlaceSameIff(w.page, w.frameNb, page, frameNb);
  }

  /** Decoding an id gives the destination exactly with the location of its writer, whatever page, place and start. */
  lemma RoutesBackIff(w: Writer, location: bv32)
    ensures AccountOf(FrameId(w), location) == w.dest <==> location == w.location
  {
    hide Place, Xor, Joined, High, Low;
    Halves(Xor(w.location, w.dest), Xor(Place(w.page, w.frameNb), w.startHash));
    XorBack(w.location, w.dest, location);
  }

  /** What an id is made of: the high half names location and destination; the low half, the hash of the start taken
      out, has the page in its upper and the place on the page in its lower 16 bits, each cut to them. */
  lemma IdParts(w: Writer)
    ensures High(FrameId(w)) == Xor(w.location, w.dest)
    ensures PagePart(Xor(Low(FrameId(w)), w.startHash)) == LowPage(w.page)
    ensures FramePart(Xor(Low(FrameId(w)), w.startHash)) == LowFrame(w.frameNb)
  {
    hide Place, Xor, Joined, High, Low, PagePart, FramePart, LowPage, LowFrame;
    var place := Place(w.page, w.frameNb);
    Halves(Xor(w.location, w.dest), Xor(place, w.startHash));
    XorTwice(place, w.startHash);
    XorTwice(w.startHash, place);
    PlaceParts(w.page, w.frameNb);
  }

  /** A writer that was started again gives the same frame another id, exactly if its start hashes differently. */
  lemma RestartsApartIff(w: Writer, startHash: bv32)
    ensures FrameId(w) == FrameId(w.(startHash := startHash)) <==> w.startHash == startHash
  {
    hide Place, Xor, Joined, High, Low;
    var high, place := Xor(w.location, w.dest), Place(w.page, w.frameNb);
    Halves(high, Xor(place, w.startHash));
    Halves(high, Xor(place, startHash));
    XorTwice(place, w.startHash);
    XorTwice(place, startHash);
    XorSame(w.startHash, startHash, place);
  }

  /** Writers of one location to different destinations never give out the same id. */
  lemma DestinationsApart(v: Writer, w: Writer)
    requires v.location == w.location && FrameId(v) == FrameId(w)
    ensures v.dest == w.dest
  {
    hide FrameId, AccountOf;
    RoutesBackIff(v, v.location);
    RoutesBackIff(w, w.location);
  }
}

/** Orders and cancellations on their way to the account they are for. */
module OrderRouting {
  import opened FrameIds

  datatype Uid = Uid(bits: bv32)
  datatype OrderId = OrderId(bits: bv64)

  /** What the strategy side writes on the journal of an account. */
  datatype Message = InsertMessage(order: OrderId) | CancelMessage(action: OrderId, target: OrderId)

  datatype Sent = Sent(account: Uid, message: Message)

  /** The frame a writer is at when it gives out an id, in whatever way its journal has moved on. */
  datatype Spot = Spot(page: bv32, frameNb: bv64)

  function Account(id: OrderId, location: Uid): Uid {
    Uid(AccountOf(id.bits, location.bits))
  }

  function IdAt(w: Writer, spot: Spot): OrderId {
    OrderId(FrameId(w.(page := spot.page, frameNb := spot.frameNb)))
  }

  lemma IdNamesAccount(w: Writer, spot: Spot, location: Uid)
    requires w.location == location.bits
    ensures Account(IdAt(w, spot), location) == Uid(w.dest)
  {
    hide FrameId, AccountOf;
    RoutesBackIff(w.(page := spot.page, frameNb := spot.frameNb), location.bits);
  }

  /** Orders for one account get the same id exactly if the writer gives it out at places with the same low bits. */
  lemma SameIdIff(w: Writer, spot: Spot, other: Spot)
    ensures IdAt(w, spot) == IdAt(w, other)
            <==> LowPage(spot.page) == LowPage(other.page) && LowFrame(spot.frameNb) == LowFrame(other.frameNb)
  {
    hide FrameId, LowPage, LowFrame;
    SameFrameIdIff(w.(page := spot.page, frameNb := spot.frameNb), other.page, other.frameNb);
  }

  class LiveExecutor {
    const location: Uid
    const writers: map<Uid, Writer>
    var sent: seq<Sent>
    ghost var inserted: map<OrderId, Uid>

    /** The writers are those of the trading location, filed under their destination; every id given out for
        an order names the account it was for. */
    ghost predicate Valid()
      reads this
    {
      && (forall dest | dest in writers :: writers[dest].location == location.bits && Uid(writers[dest].dest) == dest)
      && (forall id | id in inserted :: inserted[id] in writers && Account(id, location) == inserted[id])
    }

    constructor (location: Uid, dests: set<Uid>, startHash: bv32)
      ensures Valid() && writers.Keys == dests && this.location == location && sent == [] && inserted == map[]
    {
      this.location := location;
      writers := map dest | dest in dests :: Writer(location.bits, dest.bits, startHash, 1, 0);
      sent, inserted := [], map[];
    }

    /** Fails, as the lookup of the writer does, for an account that has no writer. */
    method InsertOrder(account: Uid, spot: Spot) returns (ok: bool, order: OrderId)
      requires Valid()
      modifies this
      ensures Valid() && ok == (account in writers)
      ensures ok ==> sent == old(sent) + [Sent(account, InsertMessage(order))] && Account(order, location) == account
      ensures ok ==> order == IdAt(writers[account], spot)
      ensures inserted == if ok then old(inserted)[order := account] else old(inserted)
      ensures !ok ==> sent == old(sent)
    {
      hide IdAt, Account;
      if account !in writers {
        return false, OrderId(0);
      }
      IdNamesAccount(writers[account], spot, location);
      order := IdAt(writers[account], spot);
      sent, inserted := sent + [Sent(account, InsertMessage(order))], inserted[order := account];
      ok := true;
    }

    /** A cancellation goes on the journal of the account that the id of its target names, the one the target
        was inserted on if it was; and the id of its own names the same account to the trading side. */
    method CancelOrder(target: OrderId, spot: Spot) returns (ok: bool, action: OrderId)
      requires Valid()
      modifies this
      ensures Valid() && inserted == old(inserted) && ok == (Account(target, location) in writers)
      ensures ok ==> sent == old(sent) + [Sent(Account(target, location), CancelMessage(action, target))]
      ensures ok ==> Account(action, location) == Account(target, location)
      ensures ok ==> action == IdAt(writers[Account(target, location)], spot)
      ensures target in inserted ==> ok && Account(action, location) == inserted[target]
      ensures !ok ==> sent == old(sent)
    {
      hide IdAt, Account;
      var account := Account(target, location);
      if account !in writers {
        return false, OrderId(0);
      }
      IdNamesAccount(writers[account], spot, location);
      action := IdAt(writers[account], spot);
      sent := sent + [Sent(account, CancelMessage(action, target))];
      ok := true;
    }
  }
}
