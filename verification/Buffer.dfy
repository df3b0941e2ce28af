/** The compacting and growing network buffer, refining a queue of bytes. */
module Buffer {
  import opened Wrappers
  import opened Bytes

  const DEFAULT_INITIAL_CAP: nat := 4096
  const GROWTH: nat := 2
  const MAX_BUFFER_CAP: nat := 16 * 1024 * 1024

  datatype Error = OverLimit | InsufficientData | EndOfData | ReaderFailed

  function NormalMax(maxCap: int): (m: nat)
    ensures m > 0
  {
    if maxCap > 0 then maxCap else MAX_BUFFER_CAP
  }

  /** The language's copy, with the source read before anything is written. */
  method CopyBytes(dst: array<byte>, at: nat, src: seq<byte>)
    requires at + |src| <= dst.Length
    modifies dst
    ensures dst[..at] == old(dst[..at]) && dst[at..at + |src|] == src && dst[at + |src|..] == old(dst[at + |src|..])
  {
    for i := 0 to |src|
      invariant dst[..at] == old(dst[..at]) && dst[at..at + i] == src[..i]
      invariant dst[at + |src|..] == old(dst[at + |src|..])
    {
      dst[at + i] := src[i];
    }
  }

  class Buffer {
    var buf: array<byte>
    var r: nat
    var w: nat
    var cap: nat
    const maxCap: nat

    ghost predicate Valid()
      reads this
    {
      r <= w <= cap <= maxCap && 0 < cap == buf.Length
    }

    /** The unread bytes, oldest first. */
    function Contents(): (c: seq<byte>)
      requires Valid()
      reads this, buf
      ensures |c| == w - r
    {
      buf[r..w]
    }

    /** `maxCap` 0 stands for the call that leaves it out. */
    constructor (initialCap: int, maxCap: int)
      ensures Valid() && fresh(buf) && Contents() == []
      ensures this.maxCap == NormalMax(maxCap)
      ensures this.maxCap == (if maxCap > 0 then maxCap else 16 * 1024 * 1024)
      ensures initialCap > this.maxCap ==> cap == this.maxCap
      ensures 0 < initialCap <= this.maxCap ==> cap == initialCap
      ensures cap == Min(if initialCap <= 0 then DEFAULT_INITIAL_CAP else initialCap, NormalMax(maxCap))
    {
      var limit := NormalMax(maxCap);
      var initial := if initialCap <= 0 then DEFAULT_INITIAL_CAP else initialCap;
      if initial > limit {
        initial := limit;
      }
      buf := new byte[initial](_ => 0);
      r, w, cap := 0, 0, initial;
      this.maxCap := limit;
    }

    method Reset()
      requires Valid()
      modifies this`r, this`w
      ensures Valid() && Contents() == []
    {
      r, w := 0, 0;
    }

    /** Moves the unread bytes to the front. */
    method Compact()
      requires Valid()
      modifies this`r, this`w, buf
      ensures Valid() && r == 0 && Contents() == old(Contents())
    {
      CopyBytes(buf, 0, buf[r..w]);
      w := w - r;
      r := 0;
    }

    /** The capacity that growing to `required` bytes ends at. */
    method GrownCap(required: nat) returns (newCap: nat)
      requires Valid() && required <= maxCap
      ensures required <= newCap <= maxCap || newCap == cap >= required
    {
      newCap := cap;
      while newCap < required && newCap < maxCap
        invariant 0 < newCap
        invariant newCap == cap || newCap < GROWTH * required
        decreases required - newCap
      {
        newCap := newCap * GROWTH;
      }
      if newCap > maxCap {
        newCap := maxCap;
      }
      if newCap < required {
        newCap := required;
      }
    }

    /** Succeeds exactly when the unread bytes and n more fit the maximum; the unread
        bytes are the same either way. */
    method EnsureSpace(n: nat) returns (ok: bool)
      requires Valid()
      modifies this`buf, this`r, this`w, this`cap, buf
      ensures Valid() && (buf == old(buf) || fresh(buf))
      ensures ok <==> |old(Contents())| + n <= maxCap
      ensures ok ==> n <= cap - w
      ensures !ok ==> cap == old(cap)
      ensures Contents() == old(Contents())
    {
      if cap - w >= n {
        return true;
      }
      if r > 0 {
        Compact();
      }
      if cap - w < n {
        var required := w + n;
        if required > maxCap {
          return false;
        }
        var newCap := GrownCap(required);
        var bigger := new byte[newCap](_ => 0);
        CopyBytes(bigger, 0, buf[..w]);
        buf, cap := bigger, newCap;
      }
      return true;
    }

    /** Stores bytes for which there is room. */
    method Append(data: seq<byte>)
      requires Valid() && |data| <= cap - w
      modifies this`w, buf
      ensures Valid() && Contents() == old(Contents()) + data
    {
      CopyBytes(buf, w, data);
      w := w + |data|;
      assert buf[r..w] == buf[..w - |data|][r..] + buf[w - |data|..w];
    }

    method Write(data: seq<byte>) returns (e: Option<Error>)
      requires Valid()
      modifies this`buf, this`r, this`w, this`cap, buf
      ensures Valid() && (buf == old(buf) || fresh(buf))
      ensures e == if |old(Contents())| + |data| <= maxCap then None else Some(OverLimit)
      ensures Contents() == if e.None? then old(Contents()) + data else old(Contents())
    {
      if |data| == 0 {
        return None;
      }
      var ok := EnsureSpace(|data|);
      if !ok {
        return Some(OverLimit);
      }
      Append(data);
      return None;
    }

    method WriteByte(c: byte) returns (e: Option<Error>)
      requires Valid()
      modifies this`buf, this`r, this`w, this`cap, buf
      ensures Valid() && (buf == old(buf) || fresh(buf))
      ensures e == if |old(Contents())| < maxCap then None else Some(OverLimit)
      ensures Contents() == if e.None? then old(Contents()) + [c] else old(Contents())
    {
      var ok := EnsureSpace(1);
      if !ok {
        return Some(OverLimit);
      }
      buf[w] := c;
      w := w + 1;
      return None;
    }

    /** Reads into the caller's array as much as both sides hold. */
    method Read(p: array<byte>) returns (n: nat, e: Option<Error>)
      requires Valid() && p != buf
      modifies this`r, p
      ensures Valid()
      ensures e == if p.Length > 0 && old(Contents()) == [] then Some(EndOfData) else None
      ensures n == Min(p.Length, |old(Contents())|)
      ensures p[..n] == old(Contents())[..n] && p[n..] == old(p[n..])
      ensures Contents() == old(Contents())[n..]
    {
      if p.Length == 0 {
        return 0, None;
      }
      if w - r == 0 {
        return 0, Some(EndOfData);
      }
      n := Min(p.Length, w - r);
      assert buf[r..r + n] == Contents()[..n];
      CopyBytes(p, 0, buf[r..r + n]);
      assert p[..n] == p[0..0 + n];
      r := r + n;
      e := None;
    }

    method ReadByte() returns (b: Result<byte, Error>)
      requires Valid()
      modifies this`r
      ensures Valid()
      ensures if old(Contents()) == [] then b == Err(EndOfData) && Contents() == []
              else b.Ok? && old(Contents()) == [b.value] + Contents()
    {
      if w - r == 0 {
        return Err(EndOfData);
      }
      var c := buf[r];
      r := r + 1;
      return Ok(c);
    }

    method Peek(n: int) returns (p: Result<seq<byte>, Error>)
      requires Valid()
      ensures p == if n <= 0 then Ok([]) else if |Contents()| < n then Err(InsufficientData) else Ok(Contents()[..n])
    {
      if n <= 0 {
        return Ok([]);
      }
      if w - r < n {
        return Err(InsufficientData);
      }
      p := Ok(buf[r..r + n]);
      assert Contents() == buf[r..w];
      assert p.value == buf[r..w][..n];
    }

    method Skip(n: int) returns (e: Option<Error>)
      requires Valid()
      modifies this`r
      ensures Valid()
      ensures e == if n > |old(Contents())| && n > 0 then Some(InsufficientData) else None
      ensures Contents() == if n <= 0 || e.Some? then old(Contents()) else old(Contents())[n..]
    {
      if n <= 0 {
        return None;
      }
      if w - r < n {
        return Some(InsufficientData);
      }
      r := r + n;
      return None;
    }

    /** One round of WriteReader: grow if full, then read into the free space. */
    method ReadOnce(reader: Reader) returns (ok: bool, chunk: seq<byte>, status: ReadStatus)
      requires Valid()
      modifies this`buf, this`r, this`w, this`cap, buf, reader
      ensures Valid() && (buf == old(buf) || fresh(buf))
      ensures old(reader.rest) == chunk + reader.rest
      ensures reader.given == old(reader.given) + (if ok then [Given(chunk, status)] else [])
      ensures Contents() == old(Contents()) + chunk
      ensures ok <==> old(w < cap) || |old(Contents())| + Max(DEFAULT_INITIAL_CAP, old(cap)) <= maxCap
      ensures !ok ==> chunk == [] && cap == old(cap)
    {
      chunk, status := [], More;
      if cap - w == 0 {
        ok := EnsureSpace(Max(DEFAULT_INITIAL_CAP, cap));
        if !ok {
          return;
        }
      }
      ok := true;
      chunk, status := reader.Next(cap - w);
      Append(chunk);
    }

    /** Takes from the reader until it is at its end, fails, has nothing for now, or the
        next growth would pass the maximum, and says which; it never stops earlier.
        Whatever was taken is in the buffer. */
    method WriteReader(reader: Reader)
      returns (total: nat, e: Option<Error>, ghost taken: seq<byte>, ghost answers: seq<Given>)
      requires Valid()
      modifies this`buf, this`r, this`w, this`cap, buf, reader
      ensures Valid() && (buf == old(buf) || fresh(buf))
      ensures |taken| == total && old(reader.rest) == taken + reader.rest
      ensures Contents() == old(Contents()) + taken
      ensures e == Some(OverLimit) ==> |Contents()| + Max(DEFAULT_INITIAL_CAP, cap) > maxCap
      ensures reader.given == old(reader.given) + answers
      ensures StopReason(answers) == e
      ensures e == Some(OverLimit) ==>
        forall i :: 0 <= i < |answers| ==> answers[i].status.More? && answers[i].chunk != []
      ensures e == Some(ReaderFailed) ==> answers != [] && answers[|answers| - 1].status.Broken?
      ensures e == None ==> answers != [] && var last := answers[|answers| - 1];
        last.status.AtEnd? || (last.status.More? && last.chunk == [])
      ensures forall i :: 0 <= i < |answers| - 1 ==> GoesOn(answers[i])
    {
      ghost var rest, contents, given := reader.rest, Contents(), reader.given;
      total, e, taken, answers := 0, None, [], [];
      while true
        invariant Valid() && (buf == old(buf) || fresh(buf))
        invariant |taken| == total && rest == taken + reader.rest
        invariant Contents() == contents + taken
        invariant reader.given == given + answers && forall i :: 0 <= i < |answers| ==> GoesOn(answers[i])
        decreases |reader.rest|
      {
        var ok, chunk, status := ReadOnce(reader);
        answers := if ok then answers + [Given(chunk, status)] else answers;
        total, taken := total + |chunk|, taken + chunk;
        if !ok {
          e := Some(OverLimit);
          return;
        }
        if status == Broken {
          e := Some(ReaderFailed);
          return;
        }
        if status == AtEnd || |chunk| == 0 {
          return;
        }
      }
    }
  }

  datatype ReadStatus = More | AtEnd | Broken

  datatype Given = Given(chunk: seq<byte>, status: ReadStatus)

  predicate GoesOn(g: Given) {
    g.status.More? && g.chunk != []
  }

  /** Why reading stops after these answers, the last of which may end it; while the reader
      goes on only a full buffer can. */
  function StopReason(answers: seq<Given>): Option<Error> {
    if answers == [] || GoesOn(answers[|answers| - 1]) then Some(OverLimit)
    else if answers[|answers| - 1].status.Broken? then Some(ReaderFailed)
    else None
  }

  /** A reader that still has `rest` to give, in pieces of its own choosing. */
  class Reader {
    var rest: seq<byte>
    var given: seq<Given>  // its answers so far

    constructor (data: seq<byte>)
      ensures rest == data && given == []
    {
      rest, given := data, [];
    }

    method Next(space: nat) returns (chunk: seq<byte>, status: ReadStatus)
      modifies this
      ensures |chunk| <= space && old(rest) == chunk + rest
      ensures given == old(given) + [Given(chunk, status)]
    {
      var n: nat :| n <= space && n <= |rest|;
      chunk, rest := rest[..n], rest[n..];
      status := *;
      given := given + [Given(chunk, status)];
    }
  }

  // ---- Any sequence of operations ----

  datatype Op =
    | DoWrite(data: seq<byte>) | DoWriteByte(c: byte)
    | DoRead(n: nat) | DoReadByte | DoSkip(k: int) | DoPeek(k: int) | DoReset

  /** One operation on a queue of bytes: what is left, and what left it; Reset puts out
      everything. */
  function QueueStep(q: seq<byte>, op: Op, maxCap: nat): (r: (seq<byte>, seq<byte>)) {
    match op
    case DoWrite(data) => (if |q| + |data| <= maxCap then q + data else q, [])
    case DoWriteByte(c) => (if |q| < maxCap then q + [c] else q, [])
    case DoRead(n) => (q[Min(n, |q|)..], q[..Min(n, |q|)])
    case DoReadByte => (q[Min(1, |q|)..], q[..Min(1, |q|)])
    case DoSkip(k) => if 0 < k <= |q| then (q[k..], q[..k]) else (q, [])
    case DoPeek(_) => (q, [])
    case DoReset => ([], q)
  }

  /** What the operation put in, if it was not refused. */
  function Entered(q: seq<byte>, op: Op, maxCap: nat): seq<byte> {
    match op
    case DoWrite(data) => if |q| + |data| <= maxCap then data else []
    case DoWriteByte(c) => if |q| < maxCap then [c] else []
    case _ => []
  }

  /** What the operation shows its caller of the queue. */
  function Shown(q: seq<byte>, op: Op): seq<byte> {
    match op
    case DoRead(n) => q[..Min(n, |q|)]
    case DoReadByte => q[..Min(1, |q|)]
    case DoPeek(k) => if 0 < k <= |q| then q[..k] else []
    case _ => []
  }

  datatype Trace = Trace(left: seq<byte>, out: seq<byte>, entered: seq<byte>, shown: seq<seq<byte>>)

  function RunQueue(q: seq<byte>, ops: seq<Op>, maxCap: nat): Trace {
    if ops == [] then Trace(q, [], [], [])
    else
      var t := RunQueue(q, ops[..|ops| - 1], maxCap);
      var op := ops[|ops| - 1];
      var (left, out) := QueueStep(t.left, op, maxCap);
      Trace(left, t.out + out, t.entered + Entered(t.left, op, maxCap), t.shown + [Shown(t.left, op)])
  }

  lemma StepConserves(q: seq<byte>, op: Op, maxCap: nat)
    requires |q| <= maxCap
    ensures var (left, out) := QueueStep(q, op, maxCap);
      out + left == q + Entered(q, op, maxCap) && |left| <= maxCap
  {
  }

  /** First in, first out, nothing lost and nothing made up, over any operations. */
  lemma {:induction false} QueueConserves(q: seq<byte>, ops: seq<Op>, maxCap: nat)
    requires |q| <= maxCap
    ensures var t := RunQueue(q, ops, maxCap);
      t.out + t.left == q + t.entered && |t.left| <= maxCap
  {
    if ops != [] {
      var t := RunQueue(q, ops[..|ops| - 1], maxCap);
      QueueConserves(q, ops[..|ops| - 1], maxCap);
      var op := ops[|ops| - 1];
      StepConserves(t.left, op, maxCap);
      Chain(t.out, t.left, q, t.entered, QueueStep(t.left, op, maxCap).1, QueueStep(t.left, op, maxCap).0,
        Entered(t.left, op, maxCap));
    }
  }

  lemma Chain(out: seq<byte>, left: seq<byte>, q: seq<byte>,
        entered: seq<byte>, out': seq<byte>, left': seq<byte>, entered': seq<byte>)
    requires out + left == q + entered && out' + left' == left + entered'
    ensures out + out' + left' == q + (entered + entered')
  {
    assert out + out' + left' == out + (out' + left') == (out + left) + entered';
  }

  method ReadSome(b: Buffer, n: nat) returns (data: seq<byte>)
    requires b.Valid()
    modifies b`r
    ensures b.Valid() && data == old(b.Contents())[..Min(n, |old(b.Contents())|)]
    ensures b.Contents() == old(b.Contents())[Min(n, |old(b.Contents())|)..]
  {
    var p := new byte[n](_ => 0);
    var k, _ := b.Read(p);
    data := p[..k];
  }

  /** What left the buffer, in `out`, is what the operation gave its caller or dropped. */
  method Perform(b: Buffer, op: Op) returns (shown: seq<byte>, ghost out: seq<byte>)
    requires b.Valid()
    modifies b, b.buf
    ensures b.Valid() && (b.buf == old(b.buf) || fresh(b.buf))
    ensures (b.Contents(), out) == QueueStep(old(b.Contents()), op, b.maxCap)
    ensures shown == Shown(old(b.Contents()), op)
  {
    ghost var before := b.Contents();
    shown, out := [], [];
    match op
    case DoWrite(data) => var _ := b.Write(data);
    case DoWriteByte(c) => var _ := b.WriteByte(c);
    case DoRead(n) =>
      shown := ReadSome(b, n);
      out := shown;
    case DoReadByte =>
      var c := b.ReadByte();
      if c.Ok? {
        shown, out := [c.value], [c.value];
      }
    case DoSkip(k) =>
      var _ := b.Skip(k);
      out := before[..|before| - |b.Contents()|];
    case DoPeek(k) =>
      var p := b.Peek(k);
      shown := if p.Ok? then p.value else [];
    case DoReset =>
      out := before;
      b.Reset();
  }

  /** The buffer does what the byte queue does, through every compaction and growth: what
      it shows after each operation, what leaves it, and what is left. */
  method PerformAll(b: Buffer, ops: seq<Op>) returns (shown: seq<seq<byte>>, ghost out: seq<byte>)
    requires b.Valid()
    modifies b, b.buf
    ensures b.Valid()
    ensures var t := RunQueue(old(b.Contents()), ops, b.maxCap);
      b.Contents() == t.left && out == t.out && shown == t.shown
  {
    shown, out := [], [];
    for i := 0 to |ops|
      invariant b.Valid() && (b.buf == old(b.buf) || fresh(b.buf))
      invariant var t := RunQueue(old(b.Contents()), ops[..i], b.maxCap);
        b.Contents() == t.left && out == t.out && shown == t.shown
    {
      assert ops[..i + 1][..i] == ops[..i];
      var seen;
      ghost var gone;
      seen, gone := Perform(b, ops[i]);
      shown, out := shown + [seen], out + gone;
    }
    assert ops[..|ops|] == ops;
  }
}
