/** Where what lies in the encoded messages, byte by byte, and which data the decoders refuse. */
module CodecLayouts {
  import opened Words
  import opened MessageCodec
  import opened BookCodec

  /** The four bytes at `at` are this number, least byte first. */
  predicate Little(data: Bytes, at: nat, n: int) {
    at + 4 <= |data| && n == (data[at] as int) + 0x100 * (data[at + 1] as int) + 0x1_0000 * (data[at + 2] as int)
                            + 0x100_0000 * (data[at + 3] as int)
  }

  lemma WordIsLittle(data: Bytes, at: nat, n: word)
    requires at + 4 <= |data| && data[at..at + 4] == Word(n)
    ensures Little(data, at, n)
  {
    WordBack(n);
    var w := Word(n);
    assert data[at] == w[0] && data[at + 1] == w[1] && data[at + 2] == w[2] && data[at + 3] == w[3];
  }

  lemma WordAtIsLittle(data: Bytes, at: nat)
    requires at + 4 <= |data|
    ensures Little(data, at, WordAt(data, at))
  {
  }

  // ---------- Registrations ----------

  /** A length, cut to 32 bits, and behind it the bytes. */
  predicate PrefixedIn(data: Bytes, at: nat, s: Bytes) {
    at + 4 + |s| <= |data| && Little(data, at, |s| % 0x1_0000_0000) && data[at + 4..at + 4 + |s|] == s
  }

  lemma PrefixedLies(before: Bytes, s: Bytes, after: Bytes)
    ensures PrefixedIn(before + Prefixed(s) + after, |before|, s)
  {
    hide Word;
    var data := before + Prefixed(s) + after;
    assert data[|before|..|before| + 4] == Word(Wrapped(|s|));
    WordIsLittle(data, |before|, Wrapped(|s|));
    assert data[|before| + 4..|before| + 4 + |s|] == s;
  }

  /** A registration lies in its buffer in the order of the fields: location, category, mode, group and name, each of
      these two behind its length, process id, last activity and check-in. */
  lemma RegisterLayout(r: Register)
    requires ValidRegister(r)
    ensures var data := RegisterBytes(r); var name := 10 + |r.who.group|; var end := name + 4 + |r.who.name|;
            && |data| == end + 20
            && data[..4] == r.who.uid && data[4] == r.who.category && data[5] == r.who.mode
            && PrefixedIn(data, 6, r.who.group) && PrefixedIn(data, name, r.who.name)
            && data[end..end + 4] == r.pid && data[end + 4..end + 12] == r.lastActive && data[end + 12..] == r.checkin
  {
    hide Prefixed, PrefixedIn;
    var data := RegisterBytes(r);
    var head, tail := r.who.uid + [r.who.category, r.who.mode], r.pid + r.lastActive + r.checkin;
    PrefixedSize(r.who.group);
    PrefixedSize(r.who.name);
    assert data == head + Prefixed(r.who.group) + (Prefixed(r.who.name) + tail);
    PrefixedLies(head, r.who.group, Prefixed(r.who.name) + tail);
    assert data == (head + Prefixed(r.who.group)) + Prefixed(r.who.name) + tail;
    PrefixedLies(head + Prefixed(r.who.group), r.who.name, tail);
  }

  lemma PrefixedSize(s: Bytes)
    ensures |Prefixed(s)| == 4 + |s|
  {
  }

  /** A deregistration is the same without what follows the name. */
  lemma DeregisterLayout(d: Deregister)
    requires |d.uid| == 4
    ensures var data := DeregisterBytes(d); var name := 10 + |d.group|;
            && |data| == name + 4 + |d.name|
            && data[..4] == d.uid && data[4] == d.category && data[5] == d.mode
            && PrefixedIn(data, 6, d.group) && PrefixedIn(data, name, d.name)
  {
    hide Prefixed, PrefixedIn;
    var data := DeregisterBytes(d);
    var head := d.uid + [d.category, d.mode];
    PrefixedSize(d.group);
    PrefixedSize(d.name);
    assert data == head + Prefixed(d.group) + Prefixed(d.name);
    PrefixedLies(head, d.group, Prefixed(d.name));
    assert data == (head + Prefixed(d.group)) + Prefixed(d.name) + [];
    PrefixedLies(head + Prefixed(d.group), d.name, []);
  }

  /** The decoder stays inside the data exactly if both lengths it finds lead to a place that leaves room for the
      rest. */
  lemma RegisterInsideIff(data: Bytes)
    ensures DecodeRegister(data).Value?
            <==> |data| >= 10
                 && var name := 10 + WordAt(data, 6);
                    |data| >= name + 4 && |data| >= name + 4 + WordAt(data, name) + 20
    ensures !DecodeRegister(data).Value? ==> DecodeRegister(data) == OutOfBounds
  {
    hide WordAt;
  }

  // ---------- Subscriptions ----------

  lemma {:induction false} FlatAt(keys: seq<Bytes>, k: nat, i: nat)
    requires i < |keys| && forall j | 0 <= j < |keys| :: |keys[j]| == k
    ensures |Flat(keys)| == Span(|keys|, k) && Span(i, k) + k <= |Flat(keys)|
    ensures Flat(keys)[Span(i, k)..Span(i, k) + k] == keys[i]
  {
    hide Span;
    FlatSize(keys, k);
    SpanGrows(i, |keys|, k);
    if i == 0 {
      SpanStep(0, k);
      assert Flat(keys) == keys[0] + Flat(keys[1..]);
    } else {
      FlatAt(keys[1..], k, i - 1);
      SpanStep(i - 1, k);
      assert Flat(keys) == keys[0] + Flat(keys[1..]);
      assert Flat(keys)[Span(i, k)..Span(i, k) + k] == Flat(keys[1..])[Span(i - 1, k)..Span(i - 1, k) + k];
    }
  }

  /** A subscription is its id and then its keys, one after the other. */
  lemma SubscribeLayout(s: Subscribe, k: nat, i: nat)
    requires ValidSubscribe(s, k)
    ensures var data := SubscribeBytes(s);
            && |data| == 4 + Span(|s.keys|, k) && data[..4] == s.id
            && (i < |s.keys| ==> 4 + Span(i, k) + k <= |data| && data[4 + Span(i, k)..4 + Span(i, k) + k] == s.keys[i])
  {
    hide Span, Flat;
    FlatSize(s.keys, k);
    if i < |s.keys| {
      FlatAt(s.keys, k, i);
    }
  }

  // ---------- Position books ----------

  /** The key and then the record of an entry. */
  predicate EntryIn(data: Bytes, at: nat, e: Entry, k: nat) {
    at + 4 + k <= |data| && Little(data, at, e.key) && data[at + 4..at + 4 + k] == e.record
  }

  lemma {:induction false} EntryLies(before: Bytes, order: seq<Entry>, after: Bytes, k: nat, i: nat)
    requires i < |order| && forall j | 0 <= j < |order| :: |order[j].record| == k
    ensures EntryIn(before + Entries(order) + after, |before| + Span(i, 4 + k), order[i], k)
    decreases |order|
  {
    hide Word, Span, Little;
    var data := before + Entries(order) + after;
    SpanStep(0, 4 + k);
    EntriesSize(order, k);
    SpanGrows(i, |order|, 4 + k);
    var e := order[0];
    if i == 0 {
      assert data[|before|..|before| + 4] == Word(e.key);
      WordIsLittle(data, |before|, e.key);
      assert data[|before| + 4..|before| + 4 + k] == e.record;
    } else {
      var next := before + (Word(e.key) + e.record);
      assert data == next + Entries(order[1..]) + after;
      SpanStep(i - 1, 4 + k);
      EntryLies(next, order[1..], after, k, i - 1);
    }
  }

  /** A position book is two counts, the entries of the long positions and those of the short ones, each in the order in
      which the maps were gone through. */
  lemma BookLayout(b: Book, k: nat, longs: seq<Entry>, shorts: seq<Entry>, i: nat)
    requires SizedBook(b, k) && Lists(longs, b.longs) && Lists(shorts, b.shorts)
    ensures var data := BookBytes(b, longs, shorts); var behind := 8 + Span(|b.longs|, 4 + k);
            && |data| == behind + Span(|b.shorts|, 4 + k)
            && Little(data, 0, |b.longs| % 0x1_0000_0000) && Little(data, 4, |b.shorts| % 0x1_0000_0000)
            && (i < |longs| ==> EntryIn(data, 8 + Span(i, 4 + k), longs[i], k))
            && (i < |shorts| ==> EntryIn(data, behind + Span(i, 4 + k), shorts[i], k))
  {
    hide Word, Span, Little, Entries, EntryIn;
    var data := BookBytes(b, longs, shorts);
    var head := Word(Wrapped(|b.longs|)) + Word(Wrapped(|b.shorts|));
    EntriesSize(longs, k);
    EntriesSize(shorts, k);
    assert data == head + Entries(longs) + Entries(shorts);
    assert data == (head + Entries(longs)) + Entries(shorts) + [];
    assert data[0..4] == Word(Wrapped(|b.longs|)) && data[4..8] == Word(Wrapped(|b.shorts|));
    WordIsLittle(data, 0, Wrapped(|b.longs|));
    WordIsLittle(data, 4, Wrapped(|b.shorts|));
    if i < |longs| {
      EntryLies(head, longs, Entries(shorts), k, i);
    }
    if i < |shorts| {
      EntryLies(head + Entries(longs), shorts, [], k, i);
    }
  }

  /** Which data is refused as too short or as not matching its counts: by its length and by the size the counts call
      for, both cut to 32 bits. */
  lemma BookRefusedIff(data: Bytes, k: nat)
    requires |data| < 0x1_0000_0000
    ensures DecodeBook(data, k) == TooShort <==> |data| < 8
    ensures DecodeBook(data, k) == Mismatch
            <==> |data| >= 8
                 && |data| < (8 + Span(WordAt(data, 0), 4 + k) + Span(WordAt(data, 4), 4 + k)) % 0x1_0000_0000
  {
    hide WordAt, Span, ReadEntries;
    WrappedAtMost(|data|);
    ReadsOrNot(data, k);
  }

  lemma ReadsOrNot(data: Bytes, k: nat)
    ensures forall c, n: nat :: ReadEntries(data, c, n, k).Value? || ReadEntries(data, c, n, k) == OutOfBounds
  {
    forall c, n: nat
      ensures ReadEntries(data, c, n, k).Value? || ReadEntries(data, c, n, k) == OutOfBounds
    {
      ReadOrNot(data, c, n, k);
    }
  }

  lemma {:induction false} ReadOrNot(data: Bytes, c: Cursor, n: nat, k: nat)
    ensures ReadEntries(data, c, n, k).Value? || ReadEntries(data, c, n, k) == OutOfBounds
    decreases n
  {
    hide WordAt;
    if n != 0 && c.at + 4 + k <= |data| {
      var at := c.at + 4;
      ReadOrNot(data, Cursor(at + k, c.positions[WordAt(data, c.at) := data[at..at + k]]), n - 1, k);
    }
  }
}
