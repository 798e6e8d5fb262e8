/** The market-data engine with any number of data services: every token goes to all of them, each has its own
    file and its own journal, and the engine answers the token only if none has come to its end. */
module DataServices {
  import opened LockStep
  import opened LockStepRuns

  /** What is left of the files, what is on the journals of the bars, and how many tokens were answered. */
  datatype Market = Market(files: seq<seq<Row>>, journals: seq<seq<Msg>>, replies: nat)

  predicate ValidMarket(m: Market) {
    m.files != [] && |m.journals| == |m.files|
  }

  /** What a service writes for a token: a bar, nothing for a row that cannot be parsed, or the termination. */
  function Written(rows: seq<Row>, nr: nat): seq<Msg> {
    if OutOfRows(rows) then [End] else if rows[0] == Good then [Bar(nr)] else []
  }

  function Behind(rows: seq<Row>): seq<Row> {
    if OutOfRows(rows) then rows else rows[1..]
  }

  predicate AllReadable(files: seq<seq<Row>>) {
    forall i | 0 <= i < |files| :: !OutOfRows(files[i])
  }

  /** One token for all services. */
  function Signalled(m: Market): Market
    requires ValidMarket(m)
  {
    var n := |m.files|;
    Market(seq(n, i requires 0 <= i < n => Behind(m.files[i])),
           seq(n, i requires 0 <= i < n => m.journals[i] + Written(m.files[i], |m.journals[i]|)),
           if AllReadable(m.files) then m.replies + 1 else m.replies)
  }

  class MdEngine {
    var files: seq<seq<Row>>
    var journals: seq<seq<Msg>>
    var replies: nat

    ghost function State(): Market
      reads this
    {
      Market(files, journals, replies)
    }

    constructor (files: seq<seq<Row>>)
      requires files != []
      ensures State() == Opened(files)
    {
      this.files := files;
      journals := seq(|files|, i => []);
      replies := 0;
    }

    /** One service reads the next row of its file; whether it found one. */
    method Handle(i: nat) returns (success: bool)
      requires ValidMarket(State()) && i < |files|
      modifies this
      ensures success == !OutOfRows(old(files[i]))
      ensures files == old(files)[i := Behind(old(files[i]))] && replies == old(replies)
      ensures journals == old(journals)[i := old(journals[i]) + Written(old(files[i]), |old(journals[i])|)]
    {
      if OutOfRows(files[i]) {
        journals := journals[i := journals[i] + [End]];
        return false;
      }
      if files[i][0] == Good {
        journals := journals[i := journals[i] + [Bar(|journals[i]|)]];
      } else {
        assert journals[i] + [] == journals[i];
      }
      files := files[i := files[i][1..]];
      return true;
    }

    /** Every service handles the token, also behind one that has come to its end. */
    method OnSyncSignal()
      requires ValidMarket(State())
      modifies this
      ensures State() == Signalled(old(State()))
    {
      var success := true;
      for i := 0 to |files|
        invariant |files| == |old(files)| && |journals| == |old(files)| && replies == old(replies)
        invariant forall k | 0 <= k < |files| ::
                    files[k] == if k < i then Behind(old(files)[k]) else old(files)[k]
        invariant forall k | 0 <= k < |files| ::
                    journals[k] == if k < i then old(journals)[k] + Written(old(files)[k], |old(journals)[k]|)
                                   else old(journals)[k]
        invariant success <==> forall k | 0 <= k < i :: !OutOfRows(old(files)[k])
      {
        var handled := Handle(i);
        success := success && handled;
      }
      if success {
        replies := replies + 1;
      }
    }
  }

  // ---------- A whole back-test ----------

  function Opened(files: seq<seq<Row>>): Market {
    Market(files, seq(|files|, i => []), 0)
  }

  /** The fewest rows any file has in front of its first empty one. */
  function Fewest(files: seq<seq<Row>>): nat
    requires files != []
  {
    var n := Readable(files[|files| - 1]);
    if |files| == 1 then n
    else
      var m := Fewest(files[..|files| - 1]);
      if m < n then m else n
  }

  lemma {:induction false} FewestIs(files: seq<seq<Row>>)
    requires files != []
    ensures forall i | 0 <= i < |files| :: Fewest(files) <= Readable(files[i])
    ensures exists i | 0 <= i < |files| :: Fewest(files) == Readable(files[i])
  {
    if |files| > 1 {
      var front := files[..|files| - 1];
      FewestIs(front);
      var i :| 0 <= i < |front| && Fewest(front) == Readable(front[i]);
      assert files[i] == front[i];
      forall k | 0 <= k < |files|
        ensures Fewest(files) <= Readable(files[k])
      {
        assert k < |files| - 1 ==> files[k] == front[k];
      }
    }
  }

  lemma FewestIff(files: seq<seq<Row>>, n: nat)
    requires files != [] && (forall i | 0 <= i < |files| :: n <= Readable(files[i]))
    requires exists i | 0 <= i < |files| :: n == Readable(files[i])
    ensures Fewest(files) == n
  {
    FewestIs(files);
  }

  /** CP sends the next token only for an answer; without any service every token would be answered for ever. */
  function Driven(m: Market): Market
    requires ValidMarket(m)
    decreases Fewest(m.files)
  {
    if AllReadable(m.files) then
      FewerLeft(m);
      Driven(Signalled(m))
    else Signalled(m)
  }

  lemma FewerLeft(m: Market)
    requires ValidMarket(m) && AllReadable(m.files)
    ensures Fewest(m.files) > 0 && Fewest(Signalled(m).files) == Fewest(m.files) - 1
  {
    FewestIs(m.files);
    var next := Signalled(m).files;
    var k :| 0 <= k < |m.files| && Fewest(m.files) == Readable(m.files[k]);
    forall i | 0 <= i < |next|
      ensures Readable(m.files[i]) == Readable(next[i]) + 1
    {
      assert !OutOfRows(m.files[i]);
    }
    assert Readable(next[k]) == Fewest(m.files) - 1;
    FewestIff(next, Fewest(m.files) - 1);
  }

  /** The bars of these rows, numbered from `nr` on. */
  function BarsOf(rows: seq<Row>, nr: nat): seq<Msg> {
    if rows == [] then []
    else if rows[0] == Good then [Bar(nr)] + BarsOf(rows[1..], nr + 1)
    else BarsOf(rows[1..], nr)
  }

  /** How many rows of a file are read, when `n` is the fewest of all: one more if it has more. */
  function Taken(rows: seq<Row>, n: nat): nat {
    if Readable(rows) > n then n + 1 else n
  }

  lemma {:induction false} ReadableBound(rows: seq<Row>)
    ensures Readable(rows) <= |rows|
  {
    if !OutOfRows(rows) {
      ReadableBound(rows[1..]);
    }
  }

  lemma TakenBound(rows: seq<Row>, n: nat)
    requires n <= Readable(rows)
    ensures Taken(rows, n) <= |rows|
  {
    ReadableBound(rows);
  }

  /** What becomes of the file and the journal of service `i`. */
  ghost predicate Ends(m: Market, e: Market, i: nat, n: nat)
    requires i < |m.files| == |m.journals|
  {
    var rows, before := m.files[i], m.journals[i];
    && |e.files| == |e.journals| == |m.files| && n <= Readable(rows) && Taken(rows, n) <= |rows|
    && e.files[i] == rows[Taken(rows, n)..]
    && e.journals[i] == before + BarsOf(rows[..Taken(rows, n)], |before|) + if Readable(rows) == n then [End] else []
  }

  lemma EndsAtOnce(m: Market, i: nat)
    requires ValidMarket(m) && i < |m.files|
    ensures Ends(m, Signalled(m), i, 0)
  {
    var rows := m.files[i];
    if OutOfRows(rows) {
      assert rows[..0] == [] && rows[0..] == rows;
    } else {
      assert rows[..1] == [rows[0]] && rows[..1][1..] == [];
    }
  }

  lemma EndsLater(m: Market, e: Market, i: nat, n: nat)
    requires ValidMarket(m) && i < |m.files| && !OutOfRows(m.files[i]) && Ends(Signalled(m), e, i, n)
    ensures Ends(m, e, i, n + 1)
  {
    var rows, t := m.files[i], Taken(m.files[i][1..], n);
    assert Signalled(m).files[i] == rows[1..];
    assert rows[1..][t..] == rows[t + 1..];
    assert rows[..t + 1][0] == rows[0] && rows[..t + 1][1..] == rows[1..][..t];
    assert Signalled(m).journals[i] == m.journals[i] + Written(rows, |m.journals[i]|);
    assert BarsOf(rows[..t + 1], |m.journals[i]|)
           == Written(rows, |m.journals[i]|) + BarsOf(rows[1..][..t], |Signalled(m).journals[i]|);
  }

  lemma {:induction false} DrivenEnds(m: Market)
    requires ValidMarket(m)
    ensures Driven(m).replies == m.replies + Fewest(m.files)
    ensures forall i | 0 <= i < |m.files| :: Ends(m, Driven(m), i, Fewest(m.files))
    decreases Fewest(m.files)
  {
    hide Ends, Fewest, Written, Behind, OutOfRows;
    if AllReadable(m.files) {
      FewerLeft(m);
      var m', n := Signalled(m), Fewest(m.files);
      var e := Driven(m');
      DrivenEnds(m');
      forall i | 0 <= i < |m.files|
        ensures Ends(m, e, i, n)
      {
        assert |m'.files| == |m.files| && Ends(m', e, i, Fewest(m'.files));
        assert !OutOfRows(m.files[i]);
        EndsLater(m, e, i, n - 1);
      }
    } else {
      NoneFewer(m.files);
      forall i | 0 <= i < |m.files|
        ensures Ends(m, Driven(m), i, 0)
      {
        EndsAtOnce(m, i);
      }
    }
  }

  lemma NoneFewer(files: seq<seq<Row>>)
    requires files != [] && !AllReadable(files)
    ensures Fewest(files) == 0
  {
    var k :| 0 <= k < |files| && OutOfRows(files[k]);
    FewestIs(files);
  }

  /** A back-test over any files answers as many tokens as the file that ends first has rows in front of its first
      empty one.  So every such row of every file has been answered, and with it matched, exactly if all files
      have as many. */
  lemma AllFilesAnsweredIff(files: seq<seq<Row>>)
    requires files != []
    ensures Driven(Opened(files)).replies == Fewest(files)
    ensures (forall i | 0 <= i < |files| :: Readable(files[i]) == Fewest(files))
            <==> forall i, k | 0 <= i < k < |files| :: Readable(files[i]) == Readable(files[k])
  {
    hide Fewest, Readable, Driven, Ends;
    DrivenEnds(Opened(files));
    FewestIs(files);
  }

  /** Of a file that has more rows than the one that ends first, one more row was read, with no pass behind its bar;
      the termination is on the journals of those that have no more. */
  lemma FilesRead(files: seq<seq<Row>>, i: nat)
    requires i < |files|
    ensures var e, n := Driven(Opened(files)), Fewest(files);
            && Taken(files[i], n) <= |files[i]| && |e.journals| == |e.files| == |files|
            && e.files[i] == files[i][Taken(files[i], n)..]
            && e.journals[i] == BarsOf(files[i][..Taken(files[i], n)], 0) + if Readable(files[i])
              == n then [End] else []
  {
    hide Fewest, Readable, BarsOf, Taken, Driven;
    var m := Opened(files);
    DrivenEnds(m);
    assert Ends(m, Driven(m), i, Fewest(m.files)) && m.journals[i] == [];
  }
}
