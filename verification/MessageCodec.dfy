/** The binary forms of the registration and subscription messages. */
module MessageCodec {
  import opened Words

  // ---------- Registration ----------

  datatype Deregister = Deregister(uid: Bytes, category: byte, mode: byte, group: Bytes, name: Bytes)

  datatype Register = Register(who: Deregister, pid: Bytes, lastActive: Bytes, checkin: Bytes)

  predicate ValidRegister(r: Register) {
    |r.who.uid| == 4 && |r.pid| == 4 && |r.lastActive| == 8 && |r.checkin| == 8
  }

  /** A length word and as many bytes. */
  function Prefixed(s: Bytes): Bytes {
    Word(Wrapped(|s|)) + s
  }

  function DeregisterBytes(d: Deregister): Bytes {
    d.uid + [d.category, d.mode] + Prefixed(d.group) + Prefixed(d.name)
  }

  function RegisterBytes(r: Register): Bytes {
    DeregisterBytes(r.who) + (r.pid + r.lastActive + r.checkin)
  }

  /** What was read, and the place behind it. */
  datatype Read<T> = Read(what: T, next: nat)

  function ReadPrefixed(data: Bytes, at: nat): Decoded<Read<Bytes>> {
    if |data| < at + 4 then OutOfBounds
    else
      var next := at + 4 + WordAt(data, at);
      if |data| < next then OutOfBounds else Value(Read(data[at + 4..next], next))
  }

  function ReadDeregister(data: Bytes): Decoded<Read<Deregister>> {
    match ReadPrefixed(data, 6)
    case Value(group) =>
      (match ReadPrefixed(data, group.next)
       case Value(name) => Value(Read(Deregister(data[..4], data[4], data[5], group.what, name.what), name.next))
       case _ => OutOfBounds)
    case _ => OutOfBounds
  }

  function DecodeDeregister(data: Bytes): Decoded<Deregister> {
    match ReadDeregister(data)
    case Value(v) => Value(v.what)
    case _ => OutOfBounds
  }

  function DecodeRegister(data: Bytes): Decoded<Register> {
    match ReadDeregister(data)
    case Value(v) =>
      var at := v.next;
      if |data| < at + 20 then OutOfBounds
      else Value(Register(v.what, data[at..at + 4], data[at + 4..at + 12], data[at + 12..at + 20]))
    case _ => OutOfBounds
  }

  /** Encoding into a buffer of the exact size, the pointer moving on field by field. */
  method EncodeRegister(r: Register) returns (buf: array<byte>)
    requires ValidRegister(r)
    ensures fresh(buf) && buf[..] == RegisterBytes(r)
  {
    hide DeregisterBytes;
    buf := new byte[34 + |r.who.group| + |r.who.name|];
    var ptr := StoreDeregister(buf, r.who);
    Store(buf, ptr, r.pid);
    ptr := ptr + 4;
    Store(buf, ptr, r.lastActive);
    ptr := ptr + 8;
    Store(buf, ptr, r.checkin);
    assert buf[..ptr + 8] == buf[..];
  }

  method EncodeDeregister(d: Deregister) returns (buf: array<byte>)
    requires |d.uid| == 4
    ensures fresh(buf) && buf[..] == DeregisterBytes(d)
  {
    hide Word, Wrapped;
    buf := new byte[14 + |d.group| + |d.name|];
    var ptr := StoreDeregister(buf, d);
    assert buf[..ptr] == buf[..];
  }

  method StorePrefixed(buf: array<byte>, at: nat, s: Bytes) returns (ptr: nat)
    requires at + 4 + |s| <= buf.Length
    modifies buf
    ensures ptr == at + 4 + |s| && buf[..ptr] == old(buf[..at]) + Prefixed(s)
  {
    hide Word, Wrapped;
    Store(buf, at, Word(Wrapped(|s|)));
    Store(buf, at + 4, s);
    ptr := at + 4 + |s|;
  }

  method StoreDeregister(buf: array<byte>, d: Deregister) returns (ptr: nat)
    requires |d.uid| == 4 && buf.Length >= 14 + |d.group| + |d.name|
    modifies buf
    ensures ptr == 14 + |d.group| + |d.name| && buf[..ptr] == DeregisterBytes(d)
  {
    hide Prefixed;
    Store(buf, 0, d.uid);
    Store(buf, 4, [d.category]);
    Store(buf, 5, [d.mode]);
    assert buf[..6] == d.uid + [d.category, d.mode];
    ptr := StorePrefixed(buf, 6, d.group);
    ptr := StorePrefixed(buf, ptr, d.name);
  }

  method LoadPrefixed(data: Bytes, at: nat) returns (ok: bool, s: Bytes, ptr: nat)
    ensures ReadPrefixed(data, at) == if ok then Value(Read(s, ptr)) else OutOfBounds
  {
    hide WordAt;
    ptr := at;
    if |data| < ptr + 4 {
      return false, [], ptr;
    }
    var len := WordAt(data, ptr);
    ptr := ptr + 4;
    if |data| < ptr + len {
      return false, [], ptr;
    }
    s := data[ptr..ptr + len];
    ptr := ptr + len;
    ok := true;
  }

  /** The decoding constructor, which takes the fields off one after the other. */
  method LoadRegister(data: Bytes) returns (r: Decoded<Register>)
    ensures r == DecodeRegister(data)
  {
    hide ReadPrefixed;
    var inside, group, ptr := LoadPrefixed(data, 6);
    if !inside {
      return OutOfBounds;
    }
    var also, name, end := LoadPrefixed(data, ptr);
    if !also || |data| < end + 20 {
      return OutOfBounds;
    }
    assert |data| >= 6;
    var who := Deregister(data[..4], data[4], data[5], group, name);
    ptr := end;
    var pid := data[ptr..ptr + 4];
    ptr := ptr + 4;
    var lastActive := data[ptr..ptr + 8];
    ptr := ptr + 8;
    return Value(Register(who, pid, lastActive, data[ptr..ptr + 8]));
  }

  predicate Short(d: Deregister) {
    |d.group| < WORD_LIMIT && |d.name| < WORD_LIMIT
  }

  lemma PrefixedAt(before: Bytes, s: Bytes, after: Bytes)
    ensures var data := before + Prefixed(s) + after; var r := ReadPrefixed(data, |before|);
            if |s| < WORD_LIMIT then r == Value(Read(s, |before + Prefixed(s)|)) else r.Value? ==> r.value.what != s
  {
    hide Word, WordAt, Wrapped;
    var data := before + Prefixed(s) + after;
    assert data[|before|..|before| + 4] == Word(Wrapped(|s|));
    WordAtBack(data, |before|, Wrapped(|s|));
    WrappedAtMost(|s|);
    if |s| < WORD_LIMIT {
      assert data[|before| + 4..|before| + 4 + |s|] == s;
    }
  }

  /** Group and name are read back if they are short; one of four gibibytes or more never is, its length having been
      cut. */
  lemma ReadBackDeregister(d: Deregister, tail: Bytes)
    requires |d.uid| == 4
    ensures var r := ReadDeregister(DeregisterBytes(d) + tail);
            if Short(d) then r == Value(Read(d, |DeregisterBytes(d)|)) else r.Value? ==> r.value.what != d
  {
    hide Prefixed, ReadPrefixed;
    var data := DeregisterBytes(d) + tail;
    var head := d.uid + [d.category, d.mode];
    assert data == head + Prefixed(d.group) + (Prefixed(d.name) + tail);
    PrefixedAt(head, d.group, Prefixed(d.name) + tail);
    assert data == (head + Prefixed(d.group)) + Prefixed(d.name) + tail;
    PrefixedAt(head + Prefixed(d.group), d.name, tail);
    if |data| >= 6 {
      assert data[..4] == d.uid && data[4] == d.category && data[5] == d.mode;
    }
  }

  lemma DeregisterRoundTripIff(d: Deregister)
    requires |d.uid| == 4
    ensures DecodeDeregister(DeregisterBytes(d)) == Value(d) <==> Short(d)
  {
    hide ReadDeregister, DeregisterBytes, Short;
    assert DeregisterBytes(d) + [] == DeregisterBytes(d);
    ReadBackDeregister(d, []);
  }

  lemma RegisterRoundTripIff(r: Register)
    requires ValidRegister(r)
    ensures DecodeRegister(RegisterBytes(r)) == Value(r) <==> Short(r.who)
  {
    hide ReadDeregister, DeregisterBytes, Short;
    var data, at := RegisterBytes(r), |DeregisterBytes(r.who)|;
    ReadBackDeregister(r.who, r.pid + r.lastActive + r.checkin);
    assert data[at..at + 4] == r.pid && data[at + 4..at + 12] == r.lastActive && data[at + 12..at + 20] == r.checkin;
  }

  // ---------- Subscriptions ----------

  datatype Subscribe = Subscribe(id: Bytes, keys: seq<Bytes>)

  predicate ValidSubscribe(s: Subscribe, k: nat) {
    |s.id| == 4 && forall i | 0 <= i < |s.keys| :: |s.keys[i]| == k
  }

  function Flat(keys: seq<Bytes>): Bytes {
    if keys == [] then [] else keys[0] + Flat(keys[1..])
  }

  function SubscribeBytes(s: Subscribe): Bytes {
    s.id + Flat(s.keys)
  }

  /** `n` records of `k` bytes each. */
  function ReadRecords(data: Bytes, at: nat, n: nat, k: nat): Decoded<seq<Bytes>>
    decreases n
  {
    if n == 0 then Value([])
    else if |data| < at + k then OutOfBounds
    else
      match ReadRecords(data, at + k, n - 1, k)
      case Value(rest) => Value([data[at..at + k]] + rest)
      case _ => OutOfBounds
  }

  /** As many keys as the 32-bit length has room for behind the id. */
  function KeysCount(size: nat, k: nat): nat
    requires k > 0
  {
    Wrapped(Wrapped(size) - 4) / k
  }

  function DecodeSubscribe(data: Bytes, k: nat): Decoded<Subscribe>
    requires k > 0
  {
    if |data| < 4 then OutOfBounds
    else
      match ReadRecords(data, 4, KeysCount(|data|, k), k)
      case Value(keys) => Value(Subscribe(data[..4], keys))
      case _ => OutOfBounds
  }

  lemma {:induction false} FlatOn(keys: seq<Bytes>, key: Bytes)
    ensures Flat(keys + [key]) == Flat(keys) + key
  {
    if keys == [] {
      assert [key][1..] == [];
    } else {
      FlatOn(keys[1..], key);
      assert (keys + [key])[1..] == keys[1..] + [key];
    }
  }

  lemma {:induction false} FlatSize(keys: seq<Bytes>, k: nat)
    requires forall i | 0 <= i < |keys| :: |keys[i]| == k
    ensures |Flat(keys)| == Span(|keys|, k)
  {
    hide Span;
    SpanStep(if keys == [] then 0 else |keys| - 1, k);
    if keys != [] {
      FlatSize(keys[1..], k);
    }
  }

  method EncodeSubscribe(s: Subscribe, k: nat) returns (buf: array<byte>)
    requires ValidSubscribe(s, k)
    ensures fresh(buf) && buf[..] == SubscribeBytes(s)
  {
    hide Flat, Span;
    buf := new byte[4 + Span(|s.keys|, k)];
    Store(buf, 0, s.id);
    var header := 4;
    SpanStep(0, k);
    FlatSize([], k);
    for i := 0 to |s.keys|
      invariant header == 4 + Span(i, k) <= buf.Length && buf[..header] == s.id + Flat(s.keys[..i])
    {
      SpanGrows(i, |s.keys|, k);
      SpanStep(i, k);
      FlatOn(s.keys[..i], s.keys[i]);
      assert s.keys[..i + 1] == s.keys[..i] + [s.keys[i]];
      Store(buf, header, s.keys[i]);
      header := header + k;
    }
    assert s.keys[..|s.keys|] == s.keys;
    assert buf[..header] == buf[..];
  }

  lemma NoRecords(data: Bytes, at: nat, k: nat)
    ensures ReadRecords(data, at, 0, k) == Value([])
  {
  }

  lemma OneRecord(data: Bytes, at: nat, keys: seq<Bytes>, k: nat)
    requires keys != [] && at + k <= |data| && data[at..at + k] == keys[0]
    requires ReadRecords(data, at + k, |keys| - 1, k) == Value(keys[1..])
    ensures ReadRecords(data, at, |keys|, k) == Value(keys)
  {
    assert [keys[0]] + keys[1..] == keys;
  }

  lemma {:induction false} ReadBackKeys(before: Bytes, keys: seq<Bytes>, k: nat)
    requires forall i | 0 <= i < |keys| :: |keys[i]| == k
    ensures ReadRecords(before + Flat(keys), |before|, |keys|, k) == Value(keys)
    decreases |keys|
  {
    hide ReadRecords;
    var data := before + Flat(keys);
    if keys == [] {
      NoRecords(data, |before|, k);
    } else {
      assert data == (before + keys[0]) + Flat(keys[1..]);
      ReadBackKeys(before + keys[0], keys[1..], k);
      assert data[|before|..|before| + k] == keys[0];
      OneRecord(data, |before|, keys, k);
    }
  }

  lemma {:induction false} RecordsCount(data: Bytes, at: nat, n: nat, k: nat)
    ensures var r := ReadRecords(data, at, n, k); r.Value? ==> |r.value| == n
    decreases n
  {
    if n != 0 && |data| >= at + k {
      RecordsCount(data, at + k, n - 1, k);
    }
  }

  lemma Quotient(w: nat, k: nat, n: nat)
    requires k > 0
    ensures w / k == n <==> n * k <= w < n * k + k
  {
    var q, r := w / k, w % k;
    assert w == q * k + r && 0 <= r < k;
    if q < n {
      assert (q + 1) * k <= n * k;
    } else if q > n {
      assert (n + 1) * k <= q * k;
    }
  }

  lemma KeysCountIff(n: nat, k: nat)
    requires k > 0
    ensures KeysCount(4 + Span(n, k), k) == n <==> Span(n, k) < WORD_LIMIT
  {
    var size := Span(n, k);
    var w := Wrapped(Wrapped(4 + size) - 4);
    assert w == Wrapped(size);
    WrappedAtMost(size);
    Quotient(w, k, n);
  }

  /** Decoding gives the subscription back exactly when its keys take less than a 32-bit length can tell. */
  lemma SubscribeRoundTripIff(s: Subscribe, k: nat)
    requires k > 0 && ValidSubscribe(s, k)
    ensures DecodeSubscribe(SubscribeBytes(s), k) == Value(s) <==> Span(|s.keys|, k) < WORD_LIMIT
  {
    hide Flat, ReadRecords, Wrapped, Span, KeysCount;
    FlatSize(s.keys, k);
    KeysCountIff(|s.keys|, k);
    ReadBackKeys(s.id, s.keys, k);
    var data := SubscribeBytes(s);
    assert data[..4] == s.id;
    RecordsCount(data, 4, KeysCount(|data|, k), k);
  }
}
