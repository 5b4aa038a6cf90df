/** NDJSON framing of the OANDA price and transaction streams
    (crates/oanda/src/streaming.rs): bytes arrive in arbitrary chunks, and each
    complete line is taken off the front of the buffer and turned into messages.

    A line's decoding (UTF-8, trimming, JSON, conversion; nothing for a blank,
    malformed or heartbeat line) is an arbitrary function from its bytes to the
    messages sent for it.
 */
module LineFraming {
  import opened Sequences

  newtype byte = b: int | 0 <= b < 256

  const NEWLINE: byte := 10

  type Bytes = seq<byte>

  // ----- Splitting a whole byte string

  /** The index of the first newline, or the length when there is none. */
  function FirstNewline(s: Bytes): (n: nat)
    ensures n <= |s|
    ensures n < |s| ==> s[n] == NEWLINE
    ensures forall i | 0 <= i < n :: s[i] != NEWLINE
  {
    if s == [] || s[0] == NEWLINE then 0 else 1 + FirstNewline(s[1..])
  }

  /** The complete lines of a byte string, each with its newline. */
  function Lines(s: Bytes): seq<Bytes>
    decreases |s|
  {
    var n := FirstNewline(s);
    if n == |s| then [] else [s[..n + 1]] + Lines(s[n + 1..])
  }

  /** What follows the last newline. */
  function Tail(s: Bytes): Bytes
    decreases |s|
  {
    var n := FirstNewline(s);
    if n == |s| then s else Tail(s[n + 1..])
  }

  function Join(parts: seq<Bytes>): Bytes {
    if parts == [] then [] else parts[0] + Join(parts[1..])
  }

  predicate IsLine(l: Bytes) {
    l != [] && FirstNewline(l) == |l| - 1
  }

  predicate Unterminated(s: Bytes) {
    FirstNewline(s) == |s|
  }

  /** A line is what ends in a line feed, byte 10, and holds no other; a remainder holds none. */
  lemma LineExact(l: Bytes)
    ensures IsLine(l) <==> l != [] && l[|l| - 1] == 10 && forall i | 0 <= i < |l| - 1 :: l[i] != 10
    ensures Unterminated(l) <==> forall i | 0 <= i < |l| :: l[i] != 10
  {
    if l != [] && l[|l| - 1] == 10 && (forall i | 0 <= i < |l| - 1 :: l[i] != 10) {
      FirstNewlineUnique(l, |l| - 1);
    }
  }

  /** Splitting loses nothing, cuts at every newline and nowhere else. */
  lemma {:induction false} SplitSound(s: Bytes)
    ensures Join(Lines(s)) + Tail(s) == s
    ensures forall l | l in Lines(s) :: IsLine(l)
    ensures Unterminated(Tail(s))
    decreases |s|
  {
    var n := FirstNewline(s);
    if n < |s| {
      var head, rest := s[..n + 1], s[n + 1..];
      SplitSound(rest);
      FirstNewlineUnique(head, n);
      assert ([head] + Lines(rest))[1..] == Lines(rest);
      Assoc(head, Join(Lines(rest)), Tail(rest));
    }
  }

  lemma FirstNewlineUnique(s: Bytes, n: nat)
    requires n < |s| && s[n] == NEWLINE && forall i | 0 <= i < n :: s[i] != NEWLINE
    ensures FirstNewline(s) == n
  {
  }

  /** Splitting is the only way to cut a byte string into lines and a remainder without newlines. */
  lemma {:induction false} SplitUnique(ls: seq<Bytes>, t: Bytes)
    requires forall l | l in ls :: IsLine(l)
    requires Unterminated(t)
    ensures Lines(Join(ls) + t) == ls && Tail(Join(ls) + t) == t
    decreases ls
  {
    if ls == [] {
      assert [] + t == t;
    } else {
      var l, rest := ls[0], Join(ls[1..]) + t;
      assert Join(ls) + t == l + rest;
      LineFirst(l, rest);
      SplitUnique(ls[1..], t);
    }
  }

  lemma LineFirst(l: Bytes, rest: Bytes)
    requires IsLine(l)
    ensures FirstNewline(l + rest) == |l| - 1
    ensures Lines(l + rest) == [l] + Lines(rest) && Tail(l + rest) == Tail(rest)
  {
    FirstNewlineUnique(l + rest, |l| - 1);
    assert (l + rest)[..|l|] == l && (l + rest)[|l|..] == rest;
  }

  /** A later chunk only sees the unterminated tail of what came before it. */
  lemma {:induction false} SplitAppend(a: Bytes, b: Bytes)
    ensures Lines(a + b) == Lines(a) + Lines(Tail(a) + b)
    ensures Tail(a + b) == Tail(Tail(a) + b)
    decreases |a|
  {
    var n := FirstNewline(a);
    if n < |a| {
      var l, rest := a[..n + 1], a[n + 1..];
      assert a == l + rest;
      Assoc(l, rest, b);
      FirstNewlineUnique(l, n);
      LineFirst(l, rest + b);
      SplitAppend(rest, b);
      Assoc([l], Lines(rest), Lines(Tail(rest) + b));
    }
  }

  // ----- The buffer loops

  function Decoded<M>(lines: seq<Bytes>, decode: Bytes -> seq<M>): seq<M> {
    if lines == [] then [] else decode(lines[0]) + Decoded(lines[1..], decode)
  }

  lemma {:induction false} DecodedAppend<M>(a: seq<Bytes>, b: seq<Bytes>, decode: Bytes -> seq<M>)
    ensures Decoded(a + b, decode) == Decoded(a, decode) + Decoded(b, decode)
    decreases a
  {
    if a == [] {
      assert a + b == b;
    } else {
      assert (a + b)[1..] == a[1..] + b;
      DecodedAppend(a[1..], b, decode);
    }
  }

  /** What the buffer loops have sent after `done`, starting from `sent`. */
  function After<M>(sent: seq<M>, done: seq<Bytes>, decode: Bytes -> seq<M>): seq<M> {
    sent + Decoded(done, decode)
  }

  lemma {:induction false} AfterSnoc<M>(sent: seq<M>, done: seq<Bytes>, line: Bytes, decode: Bytes -> seq<M>)
    ensures After(sent, done + [line], decode) == After(sent, done, decode) + decode(line)
  {
    DecodedAppend(done, [line], decode);
    assert [line][1..] == [];
    Assoc(sent, Decoded(done, decode), decode(line));
  }

  /** Taking `done` off the front of `whole` leaves `buffer`. */
  ghost predicate Consumed(whole: Bytes, done: seq<Bytes>, buffer: Bytes) {
    Lines(whole) == done + Lines(buffer) && Tail(whole) == Tail(buffer)
  }

  lemma ConsumeLine(whole: Bytes, done: seq<Bytes>, line: Bytes, buffer: Bytes)
    requires Consumed(whole, done, line + buffer) && IsLine(line)
    ensures Consumed(whole, done + [line], buffer)
  {
    LineFirst(line, buffer);
    Assoc(done, [line], Lines(buffer));
  }

  lemma ConsumedAll(whole: Bytes, done: seq<Bytes>, buffer: Bytes)
    requires Consumed(whole, done, buffer) && FirstNewline(buffer) == |buffer|
    ensures Lines(whole) == done && Tail(whole) == buffer
  {
    assert done + [] == done;
  }

  lemma {:induction false} ConsumeMore(whole: Bytes, done: seq<Bytes>, buffer: Bytes, chunk: Bytes)
    requires Consumed(whole, done, buffer)
    ensures Consumed(whole + chunk, done, buffer + chunk)
  {
    SplitAppend(whole, chunk);
    SplitAppend(buffer, chunk);
    Assoc(done, Lines(buffer), Lines(Tail(buffer) + chunk));
  }

  lemma {:induction false} ConsumeThen(whole: Bytes, a: seq<Bytes>, middle: Bytes, b: seq<Bytes>, buffer: Bytes)
    requires Consumed(whole, a, middle) && Consumed(middle, b, buffer)
    ensures Consumed(whole, a + b, buffer)
  {
    Assoc(a, b, Lines(buffer));
  }

  /** Processing lines `from` on stops ahead of line `n` of `total`: the first whose
      token check reads cancelled, where `cancelled(k)` is what the check ahead of
      the connection's line number k reads, or the end when none does. */
  ghost predicate StopsAt(total: nat, cancelled: nat -> bool, from: nat, n: nat) {
    from <= n <= total && (n < total ==> cancelled(n)) && AllLive(cancelled, from, n)
  }

  ghost predicate AllLive(cancelled: nat -> bool, from: nat, n: nat) {
    forall i | from <= i < n :: !cancelled(i)
  }

  lemma OneMoreLive(cancelled: nat -> bool, from: nat, n: nat)
    requires AllLive(cancelled, from, n) && !cancelled(n)
    ensures AllLive(cancelled, from, n + 1)
  {}

  /** One connection's reader: its buffer, everything it has sent, and how many
      lines it has taken off the buffer. */
  class StreamReader<M> {
    var buffer: Bytes
    var sent: seq<M>
    var taken: nat

    constructor ()
      ensures buffer == [] && sent == [] && taken == 0
    {
      buffer, sent, taken := [], [], 0;
    }

    method FindNewline() returns (n: nat)
      ensures n == FirstNewline(buffer)
    {
      n := 0;
      while n < |buffer| && buffer[n] != NEWLINE
        invariant n <= |buffer|
        invariant forall i | 0 <= i < n :: buffer[i] != NEWLINE
      {
        n := n + 1;
      }
    }

    /** Drains the first line off the buffer. */
    method TakeLine(n: nat) returns (line: Bytes)
      requires n == FirstNewline(buffer) < |buffer|
      modifies `buffer
      ensures IsLine(line) && old(buffer) == line + buffer
    {
      line := buffer[..n + 1];
      FirstNewlineUnique(line, n);
      buffer := buffer[n + 1..];
    }

    /** The price loop: sends for every complete line and keeps the rest. */
    method ProcessPriceBuffer(decode: Bytes -> seq<M>)
      modifies `buffer, `sent
      ensures buffer == Tail(old(buffer))
      ensures sent == After(old(sent), Lines(old(buffer)), decode)
    {
      ghost var whole, before := buffer, sent;
      ghost var done: seq<Bytes> := [];
      var n := FindNewline();
      while n < |buffer|
        invariant n == FirstNewline(buffer)
        invariant Consumed(whole, done, buffer)
        invariant sent == After(before, done, decode)
        decreases |buffer|
      {
        var line := TakeLine(n);
        ConsumeLine(whole, done, line, buffer);
        AfterSnoc(before, done, line, decode);
        done, sent := done + [line], sent + decode(line);
        n := FindNewline();
      }
      ConsumedAll(whole, done, buffer);
    }

    /** The transaction loop: as the price loop, but it stops ahead of the first line
        whose token check reads cancelled, leaving that line and the rest in the
        buffer. `done` is the lines it processed. */
    method ProcessTransactionBuffer(decode: Bytes -> seq<M>, cancelled: nat -> bool) returns (ghost done: seq<Bytes>)
      modifies this
      ensures Consumed(old(buffer), done, buffer) && taken == old(taken) + |done|
      ensures StopsAt(old(taken) + |Lines(old(buffer))|, cancelled, old(taken), taken)
      ensures sent == After(old(sent), done, decode)
    {
      ghost var whole, before, from := buffer, sent, taken;
      done := [];
      var n := FindNewline();
      while n < |buffer| && !cancelled(taken)
        invariant n == FirstNewline(buffer)
        invariant Consumed(whole, done, buffer) && taken == from + |done|
        invariant AllLive(cancelled, from, taken)
        invariant sent == After(before, done, decode)
        decreases |buffer|
      {
        var line := TakeLine(n);
        ConsumeLine(whole, done, line, buffer);
        AfterSnoc(before, done, line, decode);
        OneMoreLive(cancelled, from, taken);
        done, sent, taken := done + [line], sent + decode(line), taken + 1;
        n := FindNewline();
      }
    }

    /** A price connection read to its end, chunk by chunk. */
    method ReadPrices(chunks: seq<Bytes>, decode: Bytes -> seq<M>)
      requires buffer == [] && sent == []
      modifies `buffer, `sent
      ensures buffer == Tail(Join(chunks))
      ensures sent == Decoded(Lines(Join(chunks)), decode)
    {
      assert chunks[..0] == [];
      for i := 0 to |chunks|
        invariant (buffer, sent) == Fed(chunks[..i], decode)
      {
        buffer := buffer + chunks[i];
        ProcessPriceBuffer(decode);
        assert chunks[..i + 1][..i] == chunks[..i];
      }
      assert chunks[..|chunks|] == chunks;
      ChunkInvariant(chunks, decode);
    }

    /** A transaction connection read to its end: whatever the chunks and wherever
        the cancellation falls, it sends exactly the whole string's lines ahead of
        the first cancelled check, and keeps the others. */
    method ReadTransactions(chunks: seq<Bytes>, decode: Bytes -> seq<M>, cancelled: nat -> bool)
      requires buffer == [] && sent == [] && taken == 0
      modifies this
      ensures var all := Lines(Join(chunks));
              && StopsAt(|all|, cancelled, 0, taken)
              && sent == Decoded(all[..taken], decode)
              && Lines(buffer) == all[taken..] && Tail(buffer) == Tail(Join(chunks))
    {
      ghost var whole, done: seq<Bytes> := [], [];
      for i := 0 to |chunks|
        invariant whole == Join(chunks[..i])
        invariant Consumed(whole, done, buffer) && taken == |done|
        invariant StopsAt(|Lines(whole)|, cancelled, 0, taken)
        invariant sent == Decoded(done, decode)
      {
        ghost var grown := whole + chunks[i];
        assert chunks[..i + 1] == chunks[..i] + [chunks[i]];
        JoinSplit(chunks[..i], chunks[i]);
        ConsumeMore(whole, done, buffer, chunks[i]);
        buffer := buffer + chunks[i];
        ghost var middle := buffer;
        ghost var more := ProcessTransactionBuffer(decode, cancelled);
        ConsumeThen(grown, done, middle, more, buffer);
        DecodedAppend(done, more, decode);
        done, whole := done + more, grown;
      }
      assert chunks[..|chunks|] == chunks;
      assert (done + Lines(buffer))[..|done|] == done && (done + Lines(buffer))[|done|..] == Lines(buffer);
    }
  }

  /** Buffer and messages after feeding chunks one at a time. */
  function Fed<M>(chunks: seq<Bytes>, decode: Bytes -> seq<M>): (Bytes, seq<M>)
    decreases |chunks|
  {
    if chunks == [] then ([], [])
    else
      var n := |chunks| - 1;
      var (buffer, sent) := Fed(chunks[..n], decode);
      (Tail(buffer + chunks[n]), sent + Decoded(Lines(buffer + chunks[n]), decode))
  }

  lemma {:induction false} JoinSplit(a: seq<Bytes>, b: Bytes)
    ensures Join(a + [b]) == Join(a) + b
    decreases a
  {
    if a == [] {
      assert [b][1..] == [];
    } else {
      assert (a + [b])[1..] == a[1..] + [b];
      JoinSplit(a[1..], b);
    }
  }

  /** Framing does not depend on where the network cut the bytes: any chunks leave
      the messages of, and the unterminated tail of, the whole byte string. */
  lemma {:induction false} ChunkInvariant<M>(chunks: seq<Bytes>, decode: Bytes -> seq<M>)
    ensures Fed(chunks, decode) == (Tail(Join(chunks)), Decoded(Lines(Join(chunks)), decode))
    decreases |chunks|
  {
    if chunks != [] {
      var n := |chunks| - 1;
      ChunkInvariant(chunks[..n], decode);
      assert chunks == chunks[..n] + [chunks[n]];
      JoinSplit(chunks[..n], chunks[n]);
      var a, b := Join(chunks[..n]), chunks[n];
      SplitAppend(a, b);
      DecodedAppend(Lines(a), Lines(Tail(a) + b), decode);
    }
  }
}
