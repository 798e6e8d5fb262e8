/** Memory as bytes. What is copied as one block (a number, an enumeration, a fixed record) is the block
    of its bytes; lengths and counts are 32-bit words, least byte first. */
module Words {
  type byte = n: int | 0 <= n < 256

  type Bytes = seq<byte>

  const WORD_LIMIT := 0x1_0000_0000

  type word = n: int | 0 <= n < WORD_LIMIT

  /** `OutOfBounds`: the decoder, which does not look at the length here, would read behind the data. */
  datatype Decoded<T> = Value(value: T) | TooShort | Mismatch | OutOfBounds

  function Word(n: word): (w: Bytes)
    ensures |w| == 4
  {
    [n % 256, n / 256 % 256, n / 65536 % 256, n / 16777216]
  }

  function FromWord(w: Bytes): word
    requires |w| == 4
  {
    (w[0] as int) + 256 * (w[1] as int) + 65536 * (w[2] as int) + 16777216 * (w[3] as int)
  }

  lemma WordBack(n: word)
    ensures FromWord(Word(n)) == n
  {
    var a, b := n as int / 256, n as int / 65536;
    assert a / 256 == b && b / 256 == n as int / 16777216;
  }

  function WordAt(data: Bytes, at: nat): word
    requires at + 4 <= |data|
  {
    FromWord(data[at..at + 4])
  }

  lemma WordAtBack(data: Bytes, at: nat, n: word)
    requires at + 4 <= |data| && data[at..at + 4] == Word(n)
    ensures WordAt(data, at) == n
  {
    WordBack(n);
  }

  /** What a 32-bit word keeps of a size. */
  function Wrapped(n: int): word {
    n % WORD_LIMIT
  }

  lemma WrappedAtMost(n: nat)
    ensures Wrapped(n) <= n
    ensures n < WORD_LIMIT ==> Wrapped(n) == n
    ensures n >= WORD_LIMIT ==> Wrapped(n) < n
  {
  }

  /** `n` records of one size. */
  function Span(n: nat, size: nat): nat {
    n * size
  }

  lemma SpanStep(n: nat, size: nat)
    ensures Span(0, size) == 0 && Span(n + 1, size) == Span(n, size) + size
  {
  }

  lemma SpanGrows(n: nat, m: nat, size: nat)
    requires n < m
    ensures Span(n, size) + size <= Span(m, size)
  {
    assert (m - n - 1) * size >= 0;
  }

  method Store(buf: array<byte>, at: nat, bytes: Bytes)
    requires at + |bytes| <= buf.Length
    modifies buf
    ensures buf[..at + |bytes|] == old(buf[..at]) + bytes
    ensures buf[at + |bytes|..] == old(buf[at + |bytes|..])
  {
    for i := 0 to |bytes|
      invariant buf[..at] == old(buf[..at]) && buf[at + i..] == old(buf[at + i..])
      invariant buf[at..at + i] == bytes[..i]
    {
      buf[at + i] := bytes[i];
      assert buf[at..at + i + 1] == buf[at..at + i] + [bytes[i]];
    }
    assert buf[..at + |bytes|] == buf[..at] + buf[at..at + |bytes|];
  }
}
