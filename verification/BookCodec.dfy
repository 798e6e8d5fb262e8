/** The binary form of a position book, whose maps are written in whatever order they are gone through. */
module BookCodec {
  import opened Words

  /** Positions by 32-bit key, every one a record of the same size. */
  type Positions = map<word, Bytes>

  datatype Book = Book(longs: Positions, shorts: Positions)

  datatype Entry = Entry(key: word, record: Bytes)

  predicate Sized(ps: Positions, k: nat) {
    forall key | key in ps :: |ps[key]| == k
  }

  predicate SizedBook(b: Book, k: nat) {
    Sized(b.longs, k) && Sized(b.shorts, k)
  }

  /** An order in which the positions may be gone through. */
  predicate Lists(order: seq<Entry>, ps: Positions) {
    && |order| == |ps|
    && (forall i | 0 <= i < |order| :: order[i].key in ps && order[i].record == ps[order[i].key])
    && (forall i, j | 0 <= i < j < |order| :: order[i].key != order[j].key)
  }

  function Entries(order: seq<Entry>): Bytes {
    if order == [] then [] else Word(order[0].key) + order[0].record + Entries(order[1..])
  }

  function BookSize(b: Book, k: nat): nat {
    8 + Span(|b.longs|, 4 + k) + Span(|b.shorts|, 4 + k)
  }

  function BookBytes(b: Book, longs: seq<Entry>, shorts: seq<Entry>): Bytes {
    Word(Wrapped(|b.longs|)) + Word(Wrapped(|b.shorts|)) + Entries(longs) + Entries(shorts)
  }

  datatype Cursor = Cursor(at: nat, positions: Positions)

  /** `n` entries from `at` on, put into the map one after the other. */
  function ReadEntries(data: Bytes, c: Cursor, n: nat, k: nat): Decoded<Cursor>
    decreases n
  {
    if n == 0 then Value(c)
    else if c.at + 4 + k > |data| then OutOfBounds
    else
      var at := c.at + 4;
      ReadEntries(data, Cursor(at + k, c.positions[WordAt(data, c.at) := data[at..at + k]]), n - 1, k)
  }

  function DecodeBook(data: Bytes, k: nat): Decoded<Book> {
    var len := Wrapped(|data|);
    if len < 8 || |data| < 8 then TooShort
    else
      var longs, shorts := WordAt(data, 0), WordAt(data, 4);
      if len < Wrapped(8 + Span(longs, 4 + k) + Span(shorts, 4 + k)) then Mismatch
      else
        match ReadEntries(data, Cursor(8, map[]), longs, k)
        case Value(c) =>
          (match ReadEntries(data, Cursor(c.at, map[]), shorts, k)
           case Value(e) => Value(Book(c.positions, e.positions))
           case _ => OutOfBounds)
        case _ => OutOfBounds
  }

  // ---------- The methods ----------

  lemma {:induction false} EntriesOn(order: seq<Entry>, e: Entry)
    ensures Entries(order + [e]) == Entries(order) + (Word(e.key) + e.record)
  {
    hide Word;
    if order == [] {
      assert [e][1..] == [];
    } else {
      EntriesOn(order[1..], e);
      assert (order + [e])[1..] == order[1..] + [e];
    }
  }

  lemma {:induction false} EntriesSize(order: seq<Entry>, k: nat)
    requires forall i | 0 <= i < |order| :: |order[i].record| == k
    ensures |Entries(order)| == Span(|order|, 4 + k)
  {
    hide Word, Span;
    SpanStep(if order == [] then 0 else |order| - 1, 4 + k);
    if order != [] {
      EntriesSize(order[1..], k);
    }
  }

  method StoreEntry(buf: array<byte>, at: nat, e: Entry)
    requires at + 4 + |e.record| <= buf.Length
    modifies buf
    ensures buf[..at + 4 + |e.record|] == old(buf[..at]) + (Word(e.key) + e.record)
  {
    hide Word;
    Store(buf, at, Word(e.key));
    Store(buf, at + 4, e.record);
  }

  /** The positions not yet gone through, and the order of the others. */
  ghost predicate Underway(order: seq<Entry>, rest: set<word>, ps: Positions) {
    && rest <= ps.Keys && |order| + |rest| == |ps|
    && (forall i | 0 <= i < |order| ::
          order[i].key in ps && order[i].key !in rest && order[i].record == ps[order[i].key])
    && (forall i, j | 0 <= i < j < |order| :: order[i].key != order[j].key)
  }

  lemma OneMore(order: seq<Entry>, rest: set<word>, ps: Positions, key: word)
    requires Underway(order, rest, ps) && key in rest
    ensures Underway(order + [Entry(key, ps[key])], rest - {key}, ps)
  {
  }

  /** The loop of `to_string` over one map. */
  method StoreEntries(buf: array<byte>, from: nat, ps: Positions, k: nat) returns (ptr: nat, ghost order: seq<Entry>)
    requires Sized(ps, k) && from + Span(|ps|, 4 + k) <= buf.Length
    modifies buf
    ensures Lists(order, ps) && ptr == from + Span(|ps|, 4 + k)
    ensures buf[..ptr] == old(buf[..from]) + Entries(order)
  {
    hide Word, Entries, Span, Underway;
    ptr, order := from, [];
    var rest := ps.Keys;
    SpanStep(0, 4 + k);
    EntriesSize([], k);
    assert Underway(order, rest, ps) by { Nothing(ps); }
    ghost var head := buf[..from];
    assert head + Entries([]) == head;
    while rest != {}
      invariant Underway(order, rest, ps) && |order| + |rest| == |ps| && rest <= ps.Keys
      invariant ptr == from + Span(|order|, 4 + k)
      invariant ptr <= buf.Length && buf[..ptr] == head + Entries(order)
    {
      var key :| key in rest;
      SpanGrows(|order|, |ps|, 4 + k);
      SpanStep(|order|, 4 + k);
      ghost var e := Entry(key, ps[key]);
      EntriesOn(order, e);
      OneMore(order, rest, ps, key);
      StoreEntry(buf, ptr, Entry(key, ps[key]));
      assert head + Entries(order) + (Word(key) + ps[key]) == head + Entries(order + [e]);
      ptr, order, rest := ptr + 4 + k, order + [e], rest - {key};
    }
    Finished(order, ps);
  }

  lemma Nothing(ps: Positions)
    ensures Underway([], ps.Keys, ps)
  {
  }

  lemma Finished(order: seq<Entry>, ps: Positions)
    requires Underway(order, {}, ps)
    ensures Lists(order, ps)
  {
  }

  method EncodeBook(b: Book, k: nat) returns (buf: array<byte>, ghost longs: seq<Entry>, ghost shorts: seq<Entry>)
    requires SizedBook(b, k)
    ensures fresh(buf) && Lists(longs, b.longs) && Lists(shorts, b.shorts)
    ensures buf[..] == BookBytes(b, longs, shorts)
  {
    hide Word, Sized, Lists, Entries, Wrapped, Span;
    buf := new byte[BookSize(b, k)];
    Store(buf, 0, Word(Wrapped(|b.longs|)));
    Store(buf, 4, Word(Wrapped(|b.shorts|)));
    var ptr;
    ptr, longs := StoreEntries(buf, 8, b.longs, k);
    ptr, shorts := StoreEntries(buf, ptr, b.shorts, k);
    assert buf[..] == buf[..ptr];
  }

  method LoadEntries(data: Bytes, from: nat, n: nat, k: nat) returns (ok: bool, ptr: nat, ps: Positions)
    ensures ReadEntries(data, Cursor(from, map[]), n, k) == if ok then Value(Cursor(ptr, ps)) else OutOfBounds
  {
    ok, ptr, ps := true, from, map[];
    for i := 0 to n
      invariant ReadEntries(data, Cursor(from, map[]), n, k) == ReadEntries(data, Cursor(ptr, ps), n - i, k)
    {
      if ptr + 4 + k > |data| {
        return false, ptr, ps;
      }
      var key := WordAt(data, ptr);
      ptr := ptr + 4;
      ps := ps[key := data[ptr..ptr + k]];
      ptr := ptr + k;
    }
  }

  /** The decoding constructor: the length it is given is a 32-bit one. */
  method LoadBook(data: Bytes, k: nat) returns (r: Decoded<Book>)
    ensures r == DecodeBook(data, k)
  {
    hide ReadEntries, WordAt, Wrapped, Span;
    var len := Wrapped(|data|);
    WrappedAtMost(|data|);
    if len < 8 {
      return TooShort;
    }
    var longSize, shortSize := WordAt(data, 0), WordAt(data, 4);
    var expected := Wrapped(8 + Span(longSize, 4 + k) + Span(shortSize, 4 + k));
    if len < expected {
      return Mismatch;
    }
    var ok, ptr, longs := LoadEntries(data, 8, longSize, k);
    if !ok {
      return OutOfBounds;
    }
    var also, end, shorts := LoadEntries(data, ptr, shortSize, k);
    if !also {
      return OutOfBounds;
    }
    return Value(Book(longs, shorts));
  }

  // ---------- The book comes back ----------

  function Put(ps: Positions, order: seq<Entry>): Positions
    decreases |order|
  {
    if order == [] then ps else Put(ps[order[0].key := order[0].record], order[1..])
  }

  lemma {:induction false} ReadBack(before: Bytes, order: seq<Entry>, after: Bytes, ps: Positions, k: nat)
    requires forall i | 0 <= i < |order| :: |order[i].record| == k
    ensures ReadEntries(before + Entries(order) + after, Cursor(|before|, ps), |order|, k)
            == Value(Cursor(|before + Entries(order)|, Put(ps, order)))
    decreases |order|
  {
    hide Word, WordAt;
    if order != [] {
      var e := order[0];
      var data := before + Entries(order) + after;
      var next := before + (Word(e.key) + e.record);
      assert data == next + Entries(order[1..]) + after;
      assert data[|before|..|before| + 4] == Word(e.key);
      WordAtBack(data, |before|, e.key);
      assert data[|before| + 4..|before| + 4 + k] == e.record;
      ReadBack(next, order[1..], after, ps[e.key := e.record], k);
    }
  }

  predicate Within(ps: Positions, all: Positions) {
    forall key | key in ps :: key in all && ps[key] == all[key]
  }

  lemma {:induction false} PutAll(ps: Positions, order: seq<Entry>, all: Positions)
    requires Within(ps, all)
    requires forall e | e in order :: e.key in all && e.record == all[e.key]
    requires forall key | key in all :: key in ps || Entry(key, all[key]) in order
    ensures Put(ps, order) == all
    decreases |order|
  {
    if order != [] {
      assert order == [order[0]] + order[1..];
      PutAll(ps[order[0].key := order[0].record], order[1..], all);
    } else {
      assert ps.Keys == all.Keys;
    }
  }

  lemma KeysFront(order: seq<Entry>)
    requires order != []
    ensures (set e | e in order :: e.key) == {order[0].key} + set e | e in order[1..] :: e.key
  {
    assert order == [order[0]] + order[1..];
  }

  lemma {:induction false} DistinctKeys(order: seq<Entry>)
    requires forall i, j | 0 <= i < j < |order| :: order[i].key != order[j].key
    ensures |set e | e in order :: e.key| == |order|
  {
    if order != [] {
      DistinctKeys(order[1..]);
      KeysFront(order);
    }
  }

  lemma SubsetOfSameSize<T>(a: set<T>, b: set<T>)
    requires a <= b && |a| == |b|
    ensures a == b
  {
    assert |b - a| == |b| - |a|;
  }

  lemma PutListed(ps: Positions, order: seq<Entry>)
    requires Lists(order, ps)
    ensures Put(map[], order) == ps
  {
    DistinctKeys(order);
    SubsetOfSameSize(set e | e in order :: e.key, ps.Keys);
    forall key | key in ps
      ensures Entry(key, ps[key]) in order
    {
      var e :| e in order && e.key == key;
    }
    PutAll(map[], order, ps);
  }

  lemma ReadListed(before: Bytes, order: seq<Entry>, after: Bytes, ps: Positions, k: nat)
    requires Sized(ps, k) && Lists(order, ps)
    ensures ReadEntries(before + Entries(order) + after, Cursor(|before|, map[]), |ps|, k)
            == Value(Cursor(|before + Entries(order)|, ps))
    ensures |Entries(order)| == Span(|ps|, 4 + k)
  {
    hide ReadEntries, Entries, Put, Span;
    ReadBack(before, order, after, map[], k);
    PutListed(ps, order);
    EntriesSize(order, k);
  }

  lemma PutOne(ps: Positions, key: word, record: Bytes)
    ensures |ps[key := record]| <= |ps| + 1
  {
    assert ps[key := record].Keys == ps.Keys + {key};
  }

  lemma {:induction false} ReadAtMost(data: Bytes, c: Cursor, n: nat, k: nat)
    ensures var r := ReadEntries(data, c, n, k); r.Value? ==> |r.value.positions| <= |c.positions| + n
    decreases n
  {
    hide WordAt;
    if n != 0 && c.at + 4 + k <= |data| {
      var key := WordAt(data, c.at);
      var next := c.positions[key := data[c.at + 4..c.at + 4 + k]];
      PutOne(c.positions, key, data[c.at + 4..c.at + 4 + k]);
      ReadAtMost(data, Cursor(c.at + 4 + k, next), n - 1, k);
    }
  }

  lemma BookParts(b: Book, k: nat, longs: seq<Entry>, shorts: seq<Entry>)
    requires SizedBook(b, k) && Lists(longs, b.longs) && Lists(shorts, b.shorts)
    ensures var data := BookBytes(b, longs, shorts); var at := 8 + Span(|b.longs|, 4 + k);
            && |data| == BookSize(b, k)
            && WordAt(data, 0) == Wrapped(|b.longs|) && WordAt(data, 4) == Wrapped(|b.shorts|)
            && ReadEntries(data, Cursor(8, map[]), |b.longs|, k) == Value(Cursor(at, b.longs))
            && ReadEntries(data, Cursor(at, map[]), |b.shorts|, k) == Value(Cursor(|data|, b.shorts))
  {
    hide Word, WordAt, Entries, ReadEntries, Wrapped, Span, Lists, Sized;
    var data := BookBytes(b, longs, shorts);
    var head := Word(Wrapped(|b.longs|)) + Word(Wrapped(|b.shorts|));
    assert data == head + Entries(longs) + Entries(shorts);
    assert data == head + Entries(longs) + Entries(shorts) + [];
    ReadListed(head, longs, Entries(shorts), b.longs, k);
    ReadListed(head + Entries(longs), shorts, [], b.shorts, k);
    assert data[0..4] == Word(Wrapped(|b.longs|)) && data[4..8] == Word(Wrapped(|b.shorts|));
    WordAtBack(data, 0, Wrapped(|b.longs|));
    WordAtBack(data, 4, Wrapped(|b.shorts|));
  }

  /** Whatever the order in which the maps are gone through, decoding gives the book back exactly when both
      counts fit a word and the size, cut to a word, still covers the two counts. */
  lemma BookRoundTripIff(b: Book, k: nat, longs: seq<Entry>, shorts: seq<Entry>)
    requires SizedBook(b, k) && Lists(longs, b.longs) && Lists(shorts, b.shorts)
    ensures DecodeBook(BookBytes(b, longs, shorts), k) == Value(b)
            <==> |b.longs| < WORD_LIMIT && |b.shorts| < WORD_LIMIT && Wrapped(BookSize(b, k)) >= 8
  {
    hide Word, WordAt, Entries, ReadEntries, BookBytes, Sized, Lists, Span, Wrapped;
    BookParts(b, k, longs, shorts);
    var data := BookBytes(b, longs, shorts);
    var n, m := Wrapped(|b.longs|), Wrapped(|b.shorts|);
    WrappedAtMost(|b.longs|);
    WrappedAtMost(|b.shorts|);
    ReadAtMost(data, Cursor(8, map[]), n, k);
    var first := ReadEntries(data, Cursor(8, map[]), n, k);
    if first.Value? {
      ReadAtMost(data, Cursor(first.value.at, map[]), m, k);
    }
  }

  /** In particular every book does whose encoding is no longer than a 32-bit length can tell. */
  lemma BookRoundTrip(b: Book, k: nat, longs: seq<Entry>, shorts: seq<Entry>)
    requires SizedBook(b, k) && Lists(longs, b.longs) && Lists(shorts, b.shorts) && BookSize(b, k) < WORD_LIMIT
    ensures DecodeBook(BookBytes(b, longs, shorts), k) == Value(b)
  {
    hide DecodeBook, BookBytes, Sized, Lists, Wrapped;
    BookRoundTripIff(b, k, longs, shorts);
    WrappedAtMost(BookSize(b, k));
    assert Span(|b.longs|, 4 + k) >= |b.longs| && Span(|b.shorts|, 4 + k) >= |b.shorts|;
  }
}
