/** The depth board: slots in shared memory, found by scanning once and through a cache of each process after that. */
module CallBoard {
  import opened Trading
  import opened Matching

  /** A slot is known by the hash of the instrument in it. */
  datatype Slot = Slot(id: nat, depth: Depth)

  datatype Found = Absent | Present(depth: Depth)

  type Cache = map<nat, nat>

  /** The shared slots, of which `used` are taken, and the cache of every process; process 0 is the one that writes. */
  datatype Board = Board(slots: seq<Slot>, used: nat, caches: map<nat, Cache>)

  const WRITER: nat := 0

  predicate Sound(b: Board) {
    b.used <= |b.slots|
  }

  function CacheOf(b: Board, process: nat): Cache {
    if process in b.caches then b.caches[process] else map[]
  }

  // ---------- Looking up and setting ----------

  /** The first taken slot from `i` on that holds the instrument, or `used`. */
  function Scan(b: Board, id: nat, i: nat): (at: nat)
    requires Sound(b) && i <= b.used
    ensures i <= at <= b.used
    ensures at < b.used ==> b.slots[at].id == id
    ensures forall j | i <= j < at :: b.slots[j].id != id
    decreases b.used - i
  {
    if i == b.used || b.slots[i].id == id then i else Scan(b, id, i + 1)
  }

  function SlotAt(b: Board, at: nat): Found {
    if at < |b.slots| then Present(b.slots[at].depth) else Absent
  }

  /** By scanning alone. */
  function Lookup(b: Board, id: nat): Found
    requires Sound(b)
  {
    var at := Scan(b, id, 0);
    if at < b.used then SlotAt(b, at) else Absent
  }

  /** `get`: from the cached slot, if there is one. */
  function CachedLookup(b: Board, process: nat, id: nat): Found
    requires Sound(b)
  {
    if id in CacheOf(b, process) then SlotAt(b, CacheOf(b, process)[id]) else Lookup(b, id)
  }

  function Remembered(b: Board, process: nat, id: nat, at: nat): Board {
    b.(caches := b.caches[process := CacheOf(b, process)[id := at]])
  }

  function AfterGet(b: Board, process: nat, id: nat): Board
    requires Sound(b)
  {
    var at := Scan(b, id, 0);
    if id in CacheOf(b, process) || at == b.used then b else Remembered(b, process, id, at)
  }

  /** Whether there is a slot for the instrument or room for one more; the code does not look. */
  predicate Room(b: Board, id: nat) {
    if id in CacheOf(b, WRITER) then CacheOf(b, WRITER)[id] < |b.slots| else b.used < |b.slots|
  }

  function Stored(slots: seq<Slot>, at: nat, slot: Slot): seq<Slot> {
    if at < |slots| then slots[at := slot] else slots
  }

  /** `set`: does nothing in a process that does not write. Without room the store goes outside the buffer,
      and what is behind it is no part of this model. */
  function AfterSet(b: Board, process: nat, id: nat, depth: Depth): Board {
    if process != WRITER then b
    else if id in CacheOf(b, WRITER) then b.(slots := Stored(b.slots, CacheOf(b, WRITER)[id], Slot(id, depth)))
    else Remembered(b.(slots := Stored(b.slots, b.used, Slot(id, depth)), used := b.used + 1), WRITER, id, b.used)
  }

  /** `init` by any process: everything is zeroed, and no cache knows. */
  function AfterInit(b: Board): Board {
    var none := seq(MAX_DEPTH_LEVELS, _ => 0.0);
    Board(seq(|b.slots|, _ => Slot(0, Depth(0, none, none, none, none))), 0, b.caches)
  }

  // ---------- Any interleaving ----------

  datatype Op = GetOp(process: nat, id: nat) | SetOp(process: nat, id: nat, depth: Depth) | InitOp(process: nat)

  /** A set that does something. */
  predicate Effective(op: Op) {
    op.SetOp? && op.process == WRITER
  }

  predicate CanDo(b: Board, op: Op) {
    Sound(b) && (Effective(op) ==> Room(b, op.id))
  }

  function After(b: Board, op: Op): Board
    requires CanDo(b, op)
  {
    match op
    case GetOp(process, id) => AfterGet(b, process, id)
    case SetOp(process, id, depth) => AfterSet(b, process, id, depth)
    case InitOp(_) => AfterInit(b)
  }

  /** The board a run of operations leads to, as long as the capacity is respected. */
  predicate Leads(b: Board, ops: seq<Op>, end: Board)
    decreases |ops|
  {
    if ops == [] then b == end else CanDo(b, ops[0]) && Leads(After(b, ops[0]), ops[1..], end)
  }

  /** The value last set for an instrument, beginning with one known before. */
  function LastSet(ops: seq<Op>, id: nat, before: Found): Found
    decreases |ops|
  {
    if ops == [] then before
    else
      var op := ops[0];
      LastSet(ops[1..], id, if Effective(op) && op.id == id then Present(op.depth) else before)
  }

  function SetBy(op: Op): set<nat> {
    if Effective(op) then {op.id} else {}
  }

  function SetIds(ops: seq<Op>): set<nat> {
    if ops == [] then {} else SetBy(ops[0]) + SetIds(ops[1..])
  }

  /** An init follows an effective set, or one that came before if there was one. */
  predicate LateInit(ops: seq<Op>, started: bool)
    decreases |ops|
  {
    ops != [] && ((ops[0].InitOp? && started) || LateInit(ops[1..], started || Effective(ops[0])))
  }

  /** No instrument has two slots, the writer knows every slot, and what any process remembers is right. */
  predicate Consistent(b: Board) {
    && Sound(b)
    && (forall i, j | 0 <= i < j < b.used :: b.slots[i].id != b.slots[j].id)
    && (forall i | 0 <= i < b.used :: b.slots[i].id in CacheOf(b, WRITER))
    && (forall process, id | process in b.caches && id in b.caches[process] ::
          b.caches[process][id] < b.used && b.slots[b.caches[process][id]].id == id)
  }

  lemma CachedSlot(b: Board, process: nat, id: nat)
    requires Consistent(b) && id in CacheOf(b, process)
    ensures CacheOf(b, process)[id] == Scan(b, id, 0) < b.used
  {
    var at := CacheOf(b, process)[id];
    var first := Scan(b, id, 0);
    assert b.slots[at].id == id;
  }

  lemma GetKeeps(b: Board, process: nat, id: nat)
    requires Consistent(b)
    ensures Consistent(AfterGet(b, process, id))
    ensures forall x :: Lookup(AfterGet(b, process, id), x) == Lookup(b, x)
  {
    var c := AfterGet(b, process, id);
    forall x
      ensures Lookup(c, x) == Lookup(b, x)
    {
      SameScan(b, c, x, 0);
    }
  }

  lemma {:induction false} SameScan(b: Board, c: Board, id: nat, i: nat)
    requires Sound(b) && b.slots == c.slots && b.used == c.used && i <= b.used
    ensures Scan(b, id, i) == Scan(c, id, i)
    decreases b.used - i
  {
    if i < b.used {
      SameScan(b, c, id, i + 1);
    }
  }

  /** Setting writes the slot that scanning finds, or the first free one. */
  lemma SetKeeps(b: Board, id: nat, depth: Depth)
    requires Consistent(b) && Room(b, id)
    ensures Consistent(AfterSet(b, WRITER, id, depth))
    ensures Scan(b, id, 0) < |b.slots|
    ensures AfterSet(b, WRITER, id, depth).slots == b.slots[Scan(b, id, 0) := Slot(id, depth)]
    ensures AfterSet(b, WRITER, id, depth).used == if Scan(b, id, 0) == b.used then b.used + 1 else b.used
  {
    if id in CacheOf(b, WRITER) {
      CachedSlot(b, WRITER, id);
    } else {
      assert Scan(b, id, 0) == b.used;
    }
  }

  lemma WrittenFound(b: Board, c: Board, id: nat, depth: Depth, x: nat)
    requires Sound(b) && Sound(c)
    requires var at := Scan(b, id, 0);
             at < |b.slots| && c.slots == b.slots[at := Slot(id, depth)]
             && c.used == if at == b.used then b.used + 1 else b.used
    ensures Lookup(c, x) == if x == id then Present(depth) else Lookup(b, x)
  {
    var at, here, there := Scan(b, id, 0), Scan(b, x, 0), Scan(c, x, 0);
    assert forall j | 0 <= j < c.used && j != at :: c.slots[j] == b.slots[j];
    if x == id {
      assert c.slots[at].id == id;
      assert forall j | 0 <= j < at :: c.slots[j].id != id;
    } else if here < b.used {
      assert c.slots[here].id == x;
      assert there == here;
    } else {
      assert there == c.used;
    }
  }

  lemma SetFound(b: Board, id: nat, depth: Depth, x: nat)
    requires Consistent(b) && Room(b, id)
    ensures Sound(AfterSet(b, WRITER, id, depth))
    ensures Lookup(AfterSet(b, WRITER, id, depth), x) == if x == id then Present(depth) else Lookup(b, x)
  {
    hide AfterSet, Consistent, Lookup, Room;
    ConsistentSound(b);
    SetKeeps(b, id, depth);
    ConsistentSound(AfterSet(b, WRITER, id, depth));
    WrittenFound(b, AfterSet(b, WRITER, id, depth), id, depth, x);
  }

  lemma ConsistentSound(b: Board)
    requires Consistent(b)
    ensures Sound(b)
  {
  }

  /** Nothing has been set yet, and nothing found. */
  predicate Pristine(b: Board) {
    b.used == 0 && forall process | process in b.caches :: b.caches[process] == map[]
  }

  lemma PristineOn(b: Board, op: Op)
    requires Pristine(b) && CanDo(b, op) && !Effective(op)
    ensures Pristine(After(b, op)) && Consistent(After(b, op))
  {
  }

  lemma PristineLookup(b: Board, id: nat)
    requires Pristine(b)
    ensures Lookup(b, id) == Absent
  {
  }

  lemma {:induction false} LookupIsLast(b: Board, ops: seq<Op>, end: Board, id: nat, started: bool)
    requires Consistent(b) && (started || Pristine(b)) && Leads(b, ops, end) && !LateInit(ops, started)
    ensures Consistent(end) && Lookup(end, id) == LastSet(ops, id, Lookup(b, id))
    decreases |ops|
  {
    hide Consistent, AfterSet, AfterGet, AfterInit, Lookup, Room, Pristine;
    ConsistentSound(b);
    if ops != [] {
      var op := ops[0];
      if !started && !Effective(op) {
        PristineOn(b, op);
        PristineLookup(b, id);
        PristineLookup(After(b, op), id);
      } else if op.GetOp? {
        GetKeeps(b, op.process, op.id);
      } else if op.process == WRITER {
        SetKeeps(b, op.id, op.depth);
        SetFound(b, op.id, op.depth, id);
      } else {
        NotWriting(b, op.process, op.id, op.depth);
      }
      LookupIsLast(After(b, op), ops[1..], end, id, started || Effective(op));
    }
  }

  lemma NotWriting(b: Board, process: nat, id: nat, depth: Depth)
    requires process != WRITER
    ensures AfterSet(b, process, id, depth) == b
  {
  }

  lemma {:induction false} SetIsPresent(ops: seq<Op>, id: nat, before: Found)
    requires id in SetIds(ops) || before.Present?
    ensures LastSet(ops, id, before).Present?
    decreases |ops|
  {
    if ops != [] {
      var op := ops[0];
      SetIsPresent(ops[1..], id, if Effective(op) && op.id == id then Present(op.depth) else before);
    }
  }

  // ---------- An init that comes late ----------

  /** What the writer has ever set. */
  function Instruments(b: Board): set<nat> {
    CacheOf(b, WRITER).Keys
  }

  /** The writer knows the instrument of every slot, and has at least as many instruments as there are slots taken. */
  predicate Known(b: Board) {
    && Sound(b)
    && (forall i | 0 <= i < b.used :: b.slots[i].id in Instruments(b))
    && b.used <= |Instruments(b)|
  }

  lemma KnownGet(b: Board, process: nat, id: nat)
    requires Known(b)
    ensures var c := AfterGet(b, process, id); Known(c) && c.used == b.used && Instruments(c) == Instruments(b)
  {
  }

  lemma KnownSet(b: Board, id: nat, depth: Depth)
    requires Known(b) && Room(b, id)
    ensures var c := AfterSet(b, WRITER, id, depth);
            Known(c) && Instruments(c) == Instruments(b) + {id}
            && (b.used < |Instruments(b)| ==> c.used < |Instruments(c)|)
  {
    assert Instruments(AfterSet(b, WRITER, id, depth)) == Instruments(b) + {id};
  }

  lemma KnownInit(b: Board)
    requires Known(b)
    ensures var c := AfterInit(b); Known(c) && Instruments(c) == Instruments(b) && c.used == 0
  {
  }

  lemma KnownStep(b: Board, op: Op)
    requires Known(b) && CanDo(b, op)
    ensures var c := After(b, op);
            && Known(c) && Instruments(c) == Instruments(b) + SetBy(op)
            && (b.used < |Instruments(b)| ==> c.used < |Instruments(c)|)
            && (op.InitOp? && Instruments(b) != {} ==> c.used < |Instruments(c)|)
            && (Instruments(b) != {} || Effective(op) ==> Instruments(c) != {})
  {
    hide Known, AfterGet, AfterSet, AfterInit, Room, Instruments;
    match op {
      case GetOp(process, id) => KnownGet(b, process, id);
      case SetOp(process, id, depth) =>
        if process == WRITER {
          KnownSet(b, id, depth);
        } else {
          NotWriting(b, process, id, depth);
        }
      case InitOp(_) => KnownInit(b);
    }
  }

  lemma SetIdsFront(ids: set<nat>, ops: seq<Op>)
    requires ops != []
    ensures ids + SetIds(ops) == ids + SetBy(ops[0]) + SetIds(ops[1..])
  {
  }

  lemma SetIdsNone(ids: set<nat>)
    ensures ids + SetIds([]) == ids
  {
  }

  /** After an init that comes late there are never again as many slots taken as instruments set. */
  lemma {:induction false} FewerSlots(b: Board, ops: seq<Op>, end: Board, started: bool)
    requires Known(b) && Leads(b, ops, end) && (started ==> Instruments(b) != {})
    ensures Known(end) && Instruments(end) == Instruments(b) + SetIds(ops)
    ensures b.used < |Instruments(b)| || LateInit(ops, started) ==> end.used < |Instruments(end)|
    decreases |ops|
  {
    hide Known, CanDo, After, Instruments, Effective, SetBy, SetIds;
    if ops == [] {
      SetIdsNone(Instruments(b));
    } else {
      KnownStep(b, ops[0]);
      FewerSlots(After(b, ops[0]), ops[1..], end, started || Effective(ops[0]));
      SetIdsFront(Instruments(b), ops);
    }
  }

  lemma {:induction false} SlotIds(slots: seq<Slot>, n: nat)
    requires n <= |slots|
    ensures |set i | 0 <= i < n :: slots[i].id| <= n
  {
    if n > 0 {
      SlotIds(slots, n - 1);
      assert (set i | 0 <= i < n :: slots[i].id) == (set i | 0 <= i < n - 1 :: slots[i].id) + {slots[n - 1].id};
    }
  }

  lemma SomeoneLost(b: Board) returns (id: nat)
    requires Known(b) && b.used < |Instruments(b)|
    ensures id in Instruments(b) && Lookup(b, id) == Absent
  {
    var ids := set i | 0 <= i < b.used :: b.slots[i].id;
    var keys := Instruments(b);
    SlotIds(b.slots, b.used);
    assert !(keys <= ids) by {
      if keys <= ids {
        Smaller(keys, ids);
      }
    }
    id :| id in keys && id !in ids;
    assert forall i | 0 <= i < b.used :: b.slots[i].id in ids;
  }

  lemma Smaller(a: set<nat>, b: set<nat>)
    requires a <= b
    ensures |a| <= |b|
  {
    assert |b| == |a| + |b - a| by {
      assert b == a + (b - a);
    }
  }

  /** From a fresh board, over any interleaving of inits, of sets and of gets within the capacity: every
      instrument that was set is found by scanning with the value last set for it exactly if no init
      followed an effective set. */
  lemma FoundIff(slots: seq<Slot>, ops: seq<Op>, end: Board)
    requires Leads(Board(slots, 0, map[]), ops, end)
    ensures Sound(end)
    ensures (forall id | id in SetIds(ops) :: Lookup(end, id) == LastSet(ops, id, Absent)) <==> !LateInit(ops, false)
  {
    hide Leads, LastSet, LateInit, Lookup;
    var b := Board(slots, 0, map[]);
    FewerSlots(b, ops, end, false);
    if LateInit(ops, false) {
      var id := SomeoneLost(end);
      SetIsPresent(ops, id, Absent);
    } else {
      PristineLookup(b, 0);
      forall id | id in SetIds(ops)
        ensures Lookup(end, id) == LastSet(ops, id, Absent)
      {
        PristineLookup(b, id);
        LookupIsLast(b, ops, end, id, false);
      }
    }
  }

  /** And then the cached lookup of every process is what scanning finds, for every instrument, set or not. */
  lemma CachedLookupIsLastSet(slots: seq<Slot>, ops: seq<Op>, end: Board, process: nat, id: nat)
    requires Leads(Board(slots, 0, map[]), ops, end) && !LateInit(ops, false)
    ensures Sound(end) && CachedLookup(end, process, id) == Lookup(end, id) == LastSet(ops, id, Absent)
  {
    hide Leads, LastSet, LateInit;
    PristineLookup(Board(slots, 0, map[]), id);
    LookupIsLast(Board(slots, 0, map[]), ops, end, id, false);
    if id in CacheOf(end, process) {
      CachedSlot(end, process, id);
    }
  }

  /** What a late init does to the caches: a process that has found the instrument in the first slot gets, as
      soon as the writer sets an instrument new to it, the depth of that one under the name of the other. */
  lemma LateInitMisleads(b: Board, process: nat, id: nat, other: nat, depth: Depth)
    requires Consistent(b) && id in CacheOf(b, process) && CacheOf(b, process)[id] == 0 && process != WRITER
    requires other != id && other !in CacheOf(b, WRITER)
    ensures var c := AfterSet(AfterInit(b), WRITER, other, depth);
            && Sound(c) && CachedLookup(c, process, id) == Present(depth) && Lookup(c, id) == Absent
  {
    CachedSlot(b, process, id);
    var c := AfterSet(AfterInit(b), WRITER, other, depth);
    assert c.used == 1 && c.slots[0].id == other;
  }

  predicate IsBlank(d: Depth) {
    && d.size == 0 && ValidDepth(d)
    && forall i | 0 <= i < MAX_DEPTH_LEVELS ::
         d.askPrice[i] == 0.0 && d.askVolume[i] == 0.0 && d.bidPrice[i] == 0.0 && d.bidVolume[i] == 0.0
  }

  /** An init empties the board: nothing is found by scanning, and a process that remembers the slot of an instrument is
      given a depth without any level, until that slot is set again. */
  lemma InitEmpties(b: Board, process: nat, id: nat)
    ensures Sound(AfterInit(b)) && Lookup(AfterInit(b), id) == Absent
    ensures var found := CachedLookup(AfterInit(b), process, id);
            if id in CacheOf(b, process) && CacheOf(b, process)[id] < |b.slots|
            then found.Present? && IsBlank(found.depth) else found == Absent
  {
  }

  // ---------- The objects ----------

  /** The mapped buffer. */
  class Buffer {
    const slots: array<Slot>
    var used: nat

    constructor (slots: array<Slot>)
      ensures this.slots == slots && used == 0
    {
      this.slots, used := slots, 0;
    }

    predicate Valid()
      reads this
    {
      used <= slots.Length
    }
  }

  /** One process' handle on the buffer. */
  class DepthCallBoard {
    const isWriting: bool
    const buffer: Buffer
    var positions: Cache

    constructor (buffer: Buffer, isWriting: bool)
      ensures this.buffer == buffer && this.isWriting == isWriting && positions == map[]
    {
      this.buffer, this.isWriting, positions := buffer, isWriting, map[];
    }

    /** The board with this process alone beside it; process 0 if it writes. */
    ghost function State(): Board
      reads this, buffer, buffer.slots
    {
      var others: map<nat, Cache> := map[];
      Board(buffer.slots[..], buffer.used, others[Process() := positions])
    }

    ghost function Process(): nat {
      if isWriting then WRITER else 1
    }

    /** What is cached lies inside the buffer. */
    ghost predicate Valid()
      reads this, buffer
    {
      buffer.Valid() && forall id | id in positions :: positions[id] < buffer.slots.Length
    }

    /** Maps the buffer afresh: everything in it is zeroed, what the process remembers is not. */
    method Init()
      requires Valid()
      modifies buffer, buffer.slots
      ensures Valid() && State() == AfterInit(old(State()))
    {
      var none := seq(MAX_DEPTH_LEVELS, _ => 0.0);
      for i := 0 to buffer.slots.Length
        invariant forall k | 0 <= k < i :: buffer.slots[k] == Slot(0, Depth(0, none, none, none, none))
      {
        buffer.slots[i] := Slot(0, Depth(0, none, none, none, none));
      }
      buffer.used := 0;
      assert buffer.slots[..] == AfterInit(old(State())).slots;
    }

    method Get(id: nat) returns (ok: bool, depth: Found)
      requires Valid()
      modifies this
      ensures Valid() && ok == depth.Present?
      ensures depth == CachedLookup(old(State()), Process(), id)
      ensures State() == AfterGet(old(State()), Process(), id)
    {
      var at := 0;
      if id in positions {
        at := positions[id];
      } else {
        ghost var before := State();
        while at < buffer.used
          invariant at <= buffer.used && positions == old(positions)
          invariant Scan(before, id, at) == Scan(before, id, 0)
        {
          if buffer.slots[at].id == id {
            positions := positions[id := at];
            break;
          }
          at := at + 1;
        }
        if at >= buffer.used {
          return false, Absent;
        }
      }
      return true, Present(buffer.slots[at].depth);
    }

    /** Sets without looking for room, and stays inside the buffer only if there is some. */
    method Set(id: nat, depth: Depth)
      requires Valid()
      modifies this, buffer, buffer.slots
      ensures State() == AfterSet(old(State()), Process(), id, depth)
      ensures Valid() <==> !isWriting || Room(old(State()), id)
    {
      if !isWriting {
        return;
      }
      var at;
      if id in positions {
        at := positions[id];
      } else {
        at := buffer.used;
        buffer.used := buffer.used + 1;
        positions := positions[id := at];
      }
      if at < buffer.slots.Length {
        buffer.slots[at] := Slot(id, depth);
      }
    }
  }
}
