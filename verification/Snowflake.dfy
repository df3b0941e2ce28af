/** Unique ids: a timestamp, a machine id and a sequence number packed into 63 bits. Clock
    readings are inputs, in any order; each locked section of GenId is one attempt. */
module Snowflake {
  import opened Wrappers
  import opened Bytes
  import opened Bits

  const TOTAL_BITS: nat := 63
  const NANOS_PER_MILLI: int := 1_000_000
  const MAX_INT64: int := 0x7FFF_FFFF_FFFF_FFFF

  /** Bit lengths, this machine, and the start of time in milliseconds. */
  datatype Layout = Layout(timestampBits: nat, machineBits: nat, sequenceBits: nat, machine: nat, offset: int) {
    predicate Valid() {
      && timestampBits > 0 && machineBits > 0 && sequenceBits > 0
      && timestampBits + machineBits + sequenceBits == TOTAL_BITS
      && machine < Pow2(machineBits)
    }

    function MaxSequence(): nat { Pow2(sequenceBits) - 1 }

    function MaxTimestamp(): nat { Pow2(timestampBits) - 1 }

    predicate InRange(time: int) { 0 <= time - offset <= MaxTimestamp() }
  }

  /** The last time and sequence number given out. */
  datatype Mark = Mark(time: int, sequence: nat)

  /** A mark before any id was given out, or one that was; and readings in range. */
  predicate Usable(c: Layout, last: Mark, readings: seq<int>) {
    && ((last == Mark(0, 0) && 0 < c.offset) || c.InRange(last.time))
    && forall x :: x in readings ==> c.InRange(x)
  }

  predicate Before(a: Mark, b: Mark) {
    a.time < b.time || (a.time == b.time && a.sequence < b.sequence)
  }

  function Id(c: Layout, m: Mark): nat
    requires c.InRange(m.time)
  {
    Or(Or(Shl(m.time - c.offset, c.sequenceBits + c.machineBits), Shl(c.machine, c.sequenceBits)), m.sequence)
  }

  /** Reading n - 1 is the first one past `last`. */
  predicate FirstPast(last: int, readings: seq<int>, n: nat) {
    0 < n <= |readings| && readings[n - 1] > last && forall k :: 0 <= k < n - 1 ==> readings[k] <= last
  }

  const WORD: nat := 0x1_0000_0000_0000_0000

  /** A 64-bit word as a signed integer. */
  function Int64(word: nat): int
    requires word < WORD
  {
    if word <= MAX_INT64 then word else word - WORD
  }

  /** The id as the code packs it, in 64-bit words that wrap around, whatever the time. */
  function Packed(c: Layout, m: Mark): int {
    var time := Shl((m.time - c.offset) % WORD, c.sequenceBits + c.machineBits) % WORD;
    Int64(Or(Or(time, Shl(c.machine, c.sequenceBits) % WORD), m.sequence % WORD) % WORD)
  }

  /** One locked section of GenId: the next mark, unless the millisecond is used up. */
  function Attempt(c: Layout, last: Mark, reading: int): Option<Mark> {
    var now := Max(reading, last.time);
    if now == last.time then
      if last.sequence >= c.MaxSequence() then None else Some(Mark(now, last.sequence + 1))
    else Some(Mark(now, 0))
  }

  /** The readings left after waiting for one past `last`. */
  function AfterWait(last: int, readings: seq<int>): (rest: Option<seq<int>>)
    ensures rest.Some? ==> |rest.value| < |readings|
  {
    if readings == [] then None
    else if readings[0] > last then Some(readings[1..])
    else AfterWait(last, readings[1..])
  }

  /** What a call arrives at: the first attempt that succeeds, a wait after each that does
      not; None if the readings end first. */
  function Generated(c: Layout, last: Mark, readings: seq<int>): Option<Mark>
    decreases |readings|
  {
    if readings == [] then None
    else
      var m := Attempt(c, last, readings[0]);
      if m.Some? then m
      else
        var rest := AfterWait(last.time, readings[1..]);
        if rest.None? then None else Generated(c, last, rest.value)
  }

  /** The marks given out by any interleaving of callers whose locked sections read the
      clock in this order. */
  function Marks(c: Layout, last: Mark, readings: seq<int>): seq<Mark>
    decreases |readings|
  {
    if readings == [] then []
    else
      match Attempt(c, last, readings[0])
      case None => Marks(c, last, readings[1..])
      case Some(m) => [m] + Marks(c, m, readings[1..])
  }

  /** A later millisecond starts at sequence 0. The same one, or a clock that went back,
      goes on with the next number, and is refused exactly when there is none left. */
  lemma AttemptDecides(c: Layout, last: Mark, reading: int)
    ensures Attempt(c, last, reading) ==
      if reading > last.time then Some(Mark(reading, 0))
      else if last.sequence + 1 < Pow2(c.sequenceBits) then Some(Mark(last.time, last.sequence + 1))
      else None
  {
  }

  /** The wait ends at the first later reading and leaves what comes after it. */
  lemma {:induction false} AfterWaitIs(last: int, readings: seq<int>, n: nat)
    ensures FirstPast(last, readings, n) ==> AfterWait(last, readings) == Some(readings[n..])
    ensures (forall i :: 0 <= i < |readings| ==> readings[i] <= last) ==> AfterWait(last, readings).None?
  {
    if readings != [] && readings[0] <= last {
      assert forall i :: 0 <= i < |readings| - 1 ==> readings[1..][i] == readings[i + 1];
      AfterWaitIs(last, readings[1..], if n > 0 then n - 1 else 0);
      if FirstPast(last, readings, n) {
        assert FirstPast(last, readings[1..], n - 1) && readings[1..][n - 1..] == readings[n..];
      }
    }
  }

  /** A call gives the mark of its first reading if that reading allows one, and otherwise
      what a call would that began after the wait for a later millisecond. */
  lemma GenerateDecides(c: Layout, last: Mark, readings: seq<int>, n: nat)
    ensures readings == [] ==> Generated(c, last, readings).None?
    ensures readings != [] && readings[0] > last.time ==> Generated(c, last, readings) == Some(Mark(readings[0], 0))
    ensures readings != [] && readings[0] <= last.time && last.sequence + 1 < Pow2(c.sequenceBits) ==>
      Generated(c, last, readings) == Some(Mark(last.time, last.sequence + 1))
    ensures readings != [] && readings[0] <= last.time && last.sequence + 1 >= Pow2(c.sequenceBits) ==>
      && (FirstPast(last.time, readings[1..], n) ==>
            Generated(c, last, readings) == Generated(c, last, readings[1..][n..]))
      && ((forall i :: 1 <= i < |readings| ==> readings[i] <= last.time) ==> Generated(c, last, readings).None?)
  {
    if readings != [] {
      AttemptDecides(c, last, readings[0]);
      AfterWaitIs(last.time, readings[1..], n);
    }
  }

  /** A word as a signed integer is the number in that range which it is modulo 2^64. */
  lemma SignedWord(word: nat)
    requires word < WORD
    ensures -0x8000_0000_0000_0000 <= Int64(word) < 0x8000_0000_0000_0000 && (word - Int64(word)) % WORD == 0
  {
  }

  /** The marks of one millisecond with these sequence numbers. */
  function Numbered(time: int, from: nat, n: nat): seq<Mark> {
    seq(n, k requires 0 <= k < n => Mark(time, from + k))
  }

  /** A millisecond gives exactly 2^sequenceBits ids, numbered from 0, however often it is
      read. */
  lemma MillisecondGives(c: Layout, last: Mark, time: int, n: nat)
    requires time > last.time
    ensures Marks(c, last, seq(n, _ => time)) == Numbered(time, 0, Min(n, Pow2(c.sequenceBits)))
  {
    if n > 0 {
      var readings := seq(n, _ => time);
      assert readings[1..] == seq(n - 1, _ => time);
      AttemptDecides(c, last, time);
      MillisecondGoesOn(c, Mark(time, 0), n - 1);
    }
  }

  lemma {:induction false} MillisecondGoesOn(c: Layout, last: Mark, n: nat)
    requires last.sequence < Pow2(c.sequenceBits)
    ensures Marks(c, last, seq(n, _ => last.time)) == Numbered(last.time, last.sequence + 1,
              Min(n, Pow2(c.sequenceBits) - 1 - last.sequence))
    decreases n
  {
    if n > 0 {
      var readings := seq(n, _ => last.time);
      assert readings[1..] == seq(n - 1, _ => last.time);
      AttemptDecides(c, last, last.time);
      if last.sequence + 1 < Pow2(c.sequenceBits) {
        MillisecondGoesOn(c, Mark(last.time, last.sequence + 1), n - 1);
      } else {
        MillisecondGoesOn(c, last, n - 1);
      }
    }
  }

  // ---- The instance ----

  datatype NewError = NotPositive | WrongTotal | ZeroStart | FutureStart | BadMachine | StartTooOld

  function Millis(nanos: int): int { nanos / NANOS_PER_MILLI }

  /** Checks a configuration; times in nanoseconds, each clock reading a parameter. The
      machine id and bit lengths are given as the caller wrote them. */
  function New(timestampBits: int, machineBits: int, sequenceBits: int, machine: int, start: Option<int>,
        now: int, later: int): Result<Layout, NewError> {
    if timestampBits <= 0 || machineBits <= 0 || sequenceBits <= 0 then Err(NotPositive)
    else if timestampBits + machineBits + sequenceBits != TOTAL_BITS then Err(WrongTotal)
    else if start.None? then Err(ZeroStart)
    else if start.value > now then Err(FutureStart)
    else if machine < 0 || machine > Pow2(machineBits) - 1 then Err(BadMachine)
    else if Millis(Min(later - start.value, MAX_INT64)) > Pow2(timestampBits) - 1 then Err(StartTooOld)
    else Ok(Layout(timestampBits, machineBits, sequenceBits, machine, Millis(start.value)))
  }

  class SnowFlake {
    const layout: Layout
    var lastTime: int
    var lastSeq: nat

    constructor (layout: Layout)
      ensures this.layout == layout && Last() == Mark(0, 0)
    {
      this.layout := layout;
      lastTime, lastSeq := 0, 0;
    }

    function Last(): Mark
      reads this
    {
      Mark(lastTime, lastSeq)
    }

    /** Reads the clock up to the first reading past `last`; None if the readings end first. */
    method WaitForMillis(last: int, readings: seq<int>) returns (rest: Option<seq<int>>)
      ensures rest == AfterWait(last, readings)
      ensures rest.None? <==> forall i :: 0 <= i < |readings| ==> readings[i] <= last
      ensures rest.Some? ==> exists n: nat :: FirstPast(last, readings, n) && rest.value == readings[n..]
    {
      for i := 0 to |readings|
        invariant forall k :: 0 <= k < i ==> readings[k] <= last
        invariant AfterWait(last, readings) == AfterWait(last, readings[i..])
      {
        if readings[i] > last {
          assert FirstPast(last, readings, i + 1) && readings[i..][1..] == readings[i + 1..];
          return Some(readings[i + 1..]);
        }
        assert readings[i..][1..] == readings[i + 1..];
      }
      return None;
    }

    /** The clock's readings during the call; None exactly if they end before an attempt
        succeeds. That attempt moves the last mark; the others leave it. */
    method GenId(readings: seq<int>) returns (id: Option<int>)
      modifies this
      ensures id.Some? <==> Generated(layout, old(Last()), readings).Some?
      ensures Last() == if id.Some? then Generated(layout, old(Last()), readings).value else old(Last())
      ensures id.Some? ==> id.value == Packed(layout, Last())
      ensures id.Some? ==> exists now :: now in readings && Attempt(layout, old(Last()), now) == Some(Last())
    {
      var rest := readings;
      while rest != []
        invariant Last() == old(Last())
        invariant forall x :: x in rest ==> x in readings
        invariant Generated(layout, Last(), rest) == Generated(layout, old(Last()), readings)
        decreases |rest|
      {
        var now := rest[0];
        if now < lastTime {
          now := lastTime;
        }
        var sequence := 0;
        if now == lastTime {
          if lastSeq >= layout.MaxSequence() {
            var after := WaitForMillis(lastTime, rest[1..]);
            if after.None? {
              return None;
            }
            rest := after.value;
            continue;
          }
          sequence := lastSeq + 1;
        }
        assert rest[0] in readings;
        assert Attempt(layout, old(Last()), rest[0]) == Some(Mark(now, sequence));
        lastTime, lastSeq := now, sequence;
        return Some(Packed(layout, Mark(now, sequence)));
      }
      return None;
    }
  }

  // ---- Parsing ----

  /** The language's conversion to a 32-bit signed integer. */
  function Int32(x: int): int { (x + 0x8000_0000) % 0x1_0000_0000 - 0x8000_0000 }

  function ParseTimestamp(c: Layout, id: nat): int {
    Shr(id, c.sequenceBits + c.machineBits) + c.offset
  }

  function ParseMachine(c: Layout, id: nat): int {
    Int32(And(Shr(id, c.sequenceBits), Pow2(c.machineBits) - 1))
  }

  function ParseSequence(c: Layout, id: nat): int {
    Int32(And(id, c.MaxSequence()))
  }

  // ---- The fields of an id ----

  predicate Fields(c: Layout, m: Mark) {
    c.Valid() && c.InRange(m.time) && m.sequence <= c.MaxSequence()
  }

  /** Time and machine, above the sequence number. */
  function Upper(c: Layout, m: Mark): nat
    requires c.InRange(m.time)
  {
    Shl(m.time - c.offset, c.machineBits) + c.machine
  }

  lemma {:induction false} Pow2Add(i: nat, k: nat)
    ensures Pow2(i + k) == Shl(Pow2(i), k)
  {
    if k > 0 {
      Pow2Add(i, k - 1);
    }
  }

  lemma MachineBelow(c: Layout)
    requires c.Valid()
    ensures Shl(c.machine, c.sequenceBits) < Pow2(c.sequenceBits + c.machineBits)
  {
    ShlOrder(c.machine, Pow2(c.machineBits), c.sequenceBits);
    Pow2Add(c.machineBits, c.sequenceBits);
  }

  lemma IdIsSum(c: Layout, m: Mark)
    requires Fields(c, m)
    ensures Id(c, m) == Shl(Upper(c, m), c.sequenceBits) + m.sequence
  {
    var t, both := m.time - c.offset, c.sequenceBits + c.machineBits;
    var high := Shl(Upper(c, m), c.sequenceBits);
    assert high == Shl(t, both) + Shl(c.machine, c.sequenceBits) by {
      ShlShl(t, c.machineBits, c.sequenceBits);
      ShlAdd(Shl(t, c.machineBits), c.machine, c.sequenceBits);
    }
    assert Or(Shl(t, both), Shl(c.machine, c.sequenceBits)) == high by {
      MachineBelow(c);
      OrIsSum(t, Shl(c.machine, c.sequenceBits), both);
    }
    OrIsSum(Upper(c, m), m.sequence, c.sequenceBits);
  }

  lemma UpperBound(c: Layout, m: Mark)
    requires Fields(c, m)
    ensures Upper(c, m) < Pow2(c.timestampBits + c.machineBits)
  {
    ShlOrder(m.time - c.offset, Pow2(c.timestampBits), c.machineBits);
    Pow2Add(c.timestampBits, c.machineBits);
  }

  /** An id fits in 63 bits, so it is never negative as a 64-bit integer. */
  lemma IdFits(c: Layout, m: Mark)
    requires Fields(c, m)
    ensures Id(c, m) <= MAX_INT64
  {
    IdIsSum(c, m);
    UpperBound(c, m);
    ShlOrder(Upper(c, m), Pow2(c.timestampBits + c.machineBits), c.sequenceBits);
    Pow2Add(c.timestampBits + c.machineBits, c.sequenceBits);
    AllBits();
  }

  lemma Small(x: nat)
    requires x <= MAX_INT64
    ensures x % WORD == x && Int64(x) == x
  {
  }

  /** The three fields of an id in place, and that none is above the id. */
  lemma FieldsBelow(c: Layout, m: Mark)
    requires Fields(c, m)
    ensures var t := m.time - c.offset;
      && t <= Shl(t, c.sequenceBits + c.machineBits)
      && Shl(t, c.sequenceBits + c.machineBits) + Shl(c.machine, c.sequenceBits) + m.sequence == Id(c, m)
  {
    var t := m.time - c.offset;
    IdIsSum(c, m);
    ShlShl(t, c.machineBits, c.sequenceBits);
    ShlAdd(Shl(t, c.machineBits), c.machine, c.sequenceBits);
    ShlGrows(t, c.sequenceBits + c.machineBits);
  }

  /** In range nothing wraps: the packed word is the id. */
  lemma PackedInRange(c: Layout, m: Mark)
    requires Fields(c, m)
    ensures Packed(c, m) == Id(c, m)
  {
    var t, both := m.time - c.offset, c.sequenceBits + c.machineBits;
    IdFits(c, m);
    FieldsBelow(c, m);
    Small(t);
    Small(Shl(t, both));
    Small(Shl(c.machine, c.sequenceBits));
    Small(m.sequence);
    Small(Id(c, m));
  }

  lemma {:induction false} ShlGrows(x: nat, k: nat)
    ensures x <= Shl(x, k)
  {
    if k > 0 {
      ShlGrows(x, k - 1);
    }
  }

  lemma AllBits()
    ensures Pow2(TOTAL_BITS) == MAX_INT64 + 1
  {
    assert Pow2(9) == 0x200 && Pow2(18) == 0x4_0000 && Pow2(27) == 0x800_0000 && Pow2(36) == 0x10_0000_0000;
    assert Pow2(45) == 0x2000_0000_0000 && Pow2(54) == 0x40_0000_0000_0000;
  }

  lemma Int32Exact(x: nat)
    ensures Int32(x) == x <==> x < 0x8000_0000
  {
  }

  /** Parsing an id gives back its time, and its machine and sequence number exactly when
      those are below 2^31. */
  lemma ParseOfId(c: Layout, m: Mark)
    requires Fields(c, m)
    ensures ParseTimestamp(c, Id(c, m)) == m.time
    ensures ParseMachine(c, Id(c, m)) == Int32(c.machine)
    ensures Int32(c.machine) == c.machine <==> c.machine < 0x8000_0000
    ensures ParseSequence(c, Id(c, m)) == Int32(m.sequence)
    ensures Int32(m.sequence) == m.sequence <==> m.sequence < 0x8000_0000
  {
    var t := m.time - c.offset;
    Int32Exact(c.machine);
    Int32Exact(m.sequence);
    IdIsSum(c, m);
    ShrOfSum(Upper(c, m), m.sequence, c.sequenceBits);
    AndMask(t, c.machine, c.machineBits);
    AndMask(Upper(c, m), m.sequence, c.sequenceBits);
    ShrShr(Id(c, m), c.sequenceBits, c.machineBits);
    ShrOfSum(t, c.machine, c.machineBits);
  }

  lemma {:induction false} ShrShr(x: nat, i: nat, k: nat)
    ensures Shr(Shr(x, i), k) == Shr(x, i + k)
    decreases i
  {
    if i > 0 {
      ShrShr(x / 2, i - 1, k);
    }
  }

  // ---- Order and uniqueness ----

  lemma IdOrder(c: Layout, a: Mark, b: Mark)
    requires Fields(c, a) && Fields(c, b) && Before(a, b)
    ensures Id(c, a) < Id(c, b)
  {
    IdIsSum(c, a);
    IdIsSum(c, b);
    if a.time < b.time {
      ShlOrder(a.time - c.offset, b.time - c.offset, c.machineBits);
      ShlOrder(Upper(c, a), Upper(c, b), c.sequenceBits);
    }
  }

  predicate Rising(c: Layout, last: Mark, marks: seq<Mark>) {
    && (forall i :: 0 <= i < |marks| ==> Fields(c, marks[i]))
    && (forall i :: 0 <= i < |marks| ==> Before(last, marks[i]))
    && (forall i, j :: 0 <= i < j < |marks| ==> Before(marks[i], marks[j]))
  }

  lemma RisingStep(c: Layout, last: Mark, m: Mark, rest: seq<Mark>)
    requires Fields(c, m) && Before(last, m) && Rising(c, m, rest)
    ensures Rising(c, last, [m] + rest)
  {
  }

  lemma {:induction false} MarksRise(c: Layout, last: Mark, readings: seq<int>)
    requires c.Valid() && Usable(c, last, readings)
    ensures Rising(c, last, Marks(c, last, readings))
    decreases |readings|
  {
    if readings != [] {
      var m := Attempt(c, last, readings[0]);
      assert readings[0] in readings;
      if m.Some? {
        MarksRise(c, m.value, readings[1..]);
        RisingStep(c, last, m.value, Marks(c, m.value, readings[1..]));
      } else {
        MarksRise(c, last, readings[1..]);
      }
    }
  }

  /** Whatever the clock does within the timestamp range, and however many callers there
      are, ids rise strictly, fit in 63 bits and parse back to their times. */
  lemma IdsRise(c: Layout, readings: seq<int>)
    requires c.Valid() && Usable(c, Mark(0, 0), readings)
    ensures var marks := Marks(c, Mark(0, 0), readings);
      && (forall i :: 0 <= i < |marks| ==>
            && c.InRange(marks[i].time) && 0 <= Packed(c, marks[i]) == Id(c, marks[i])
            && ParseTimestamp(c, Id(c, marks[i])) == marks[i].time)
      && (forall i, j :: 0 <= i < j < |marks| ==> Packed(c, marks[i]) < Packed(c, marks[j]))
  {
    var marks := Marks(c, Mark(0, 0), readings);
    MarksRise(c, Mark(0, 0), readings);
    forall i | 0 <= i < |marks|
      ensures Packed(c, marks[i]) == Id(c, marks[i]) && ParseTimestamp(c, Id(c, marks[i])) == marks[i].time
    {
      PackedInRange(c, marks[i]);
      ParseOfId(c, marks[i]);
    }
    forall i, j | 0 <= i < j < |marks|
      ensures Id(c, marks[i]) < Id(c, marks[j])
    {
      IdOrder(c, marks[i], marks[j]);
    }
  }

  /** Two machines with the same bit lengths never give out the same id, whatever their
      clocks and starts of time. */
  lemma MachinesDiffer(c: Layout, d: Layout, a: Mark, b: Mark)
    requires Fields(c, a) && Fields(d, b)
    requires c.machineBits == d.machineBits && c.sequenceBits == d.sequenceBits && c.machine != d.machine
    ensures Id(c, a) != Id(d, b)
  {
    IdIsSum(c, a);
    IdIsSum(d, b);
    ShrOfSum(Upper(c, a), a.sequence, c.sequenceBits);
    ShrOfSum(Upper(d, b), b.sequence, d.sequenceBits);
    AndMask(a.time - c.offset, c.machine, c.machineBits);
    AndMask(b.time - d.offset, d.machine, d.machineBits);
  }

  // ---- What New accepts ----

  /** Accepted exactly if the bit lengths are positive and make 63, the start is set and not
      in the future, the machine fits its bits, and the whole milliseconds since the start,
      a difference that stops at 2^63 - 1 nanoseconds, fit theirs. */
  lemma NewDecides(timestampBits: int, machineBits: int, sequenceBits: int, machine: int, start: Option<int>,
      now: int, later: int)
    ensures var r := New(timestampBits, machineBits, sequenceBits, machine, start, now, later);
      && (r.Ok? <==>
            && timestampBits > 0 && machineBits > 0 && sequenceBits > 0
            && timestampBits + machineBits + sequenceBits == 63
            && start.Some? && start.value <= now
            && 0 <= machine < Pow2(machineBits)
            && Min(later - start.value, 0x7FFF_FFFF_FFFF_FFFF) / 1_000_000 < Pow2(timestampBits))
      && (r.Ok? ==> r.value == Layout(timestampBits, machineBits, sequenceBits, machine, start.value / 1_000_000))
  {
  }

  /** An accepted start has the present in range exactly when it is young enough, which the
      check, rounding the age and not the two times, can miss by one millisecond. */
  lemma NewInRange(timestampBits: int, machineBits: int, sequenceBits: int, machine: int, start: int,
      now: int, later: int)
    requires New(timestampBits, machineBits, sequenceBits, machine, Some(start), now, later).Ok?
    ensures var c := New(timestampBits, machineBits, sequenceBits, machine, Some(start), now, later).value;
      && c.Valid()
      && (now <= later ==> 0 <= Millis(later) - c.offset)
      && (later - start <= MAX_INT64 ==> Millis(later) - c.offset <= c.MaxTimestamp() + 1)
      && (now <= later ==> (c.InRange(Millis(later)) <==>
            later - start < (c.MaxTimestamp() + 1) * NANOS_PER_MILLI - start % NANOS_PER_MILLI))
  {
  }

  /** It does miss: a start just before a millisecond, with the default layout. */
  lemma NewOutOfRange()
    ensures var start, bits := 999_999, 41;
      var now := start + Pow2(bits) * NANOS_PER_MILLI - 1;
      var r := New(bits, 12, 10, 0, Some(start), now, now);
      r.Ok? && Millis(now) - r.value.offset == r.value.MaxTimestamp() + 1
  {
    assert Pow2(12) == 4096 && Pow2(10) == 1024;
    assert Pow2(21) == 0x20_0000 && Pow2(31) == 0x8000_0000 && Pow2(41) == 0x200_0000_0000;
  }

  /** Nor does it notice a start too old for the language's time difference, which stops at
      2^63 - 1 nanoseconds. */
  lemma NewSaturates()
    ensures var start, bits := 0, 44;
      var now := Pow2(bits) * NANOS_PER_MILLI;
      var r := New(bits, 12, 7, 0, Some(start), now, now);
      r.Ok? && !r.value.InRange(Millis(now)) && now - start > MAX_INT64
  {
    assert Pow2(12) == 4096 && Pow2(7) == 128;
    assert Pow2(22) == 0x40_0000 && Pow2(33) == 0x2_0000_0000 && Pow2(44) == 0x1000_0000_0000;
  }
}
