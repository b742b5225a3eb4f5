/**
 The outgoing side of fe-misc.c: messages are built in place behind the bytes that wait to be
 sent, and partial, refused and interrupted writes shift the buffer. The ghost `wire` is every
 byte the lower level accepted, in order.
 */
module OutBuffer {
  import opened Basics

  /** A message and its type byte; 0 for the startup messages that have none. */
  datatype Message = Message(typ: byte, payload: seq<byte>)

  // ------------------------------------------------------------ the protocol's framing

  /** A 4-byte big-endian word. */
  function Word(n: int): (w: seq<byte>)
    requires 0 <= n < 0x1_0000_0000
    ensures |w| == 4
  {
    var three := n % 0x100_0000;
    var two := three % 0x1_0000;
    [n / 0x100_0000, three / 0x1_0000, two / 0x100, two % 0x100]
  }

  function WordValue(w: seq<byte>): (n: int)
    requires |w| == 4
    ensures 0 <= n < 0x1_0000_0000
  {
    var a: int, b: int, c: int, d: int := w[0], w[1], w[2], w[3];
    a * 0x100_0000 + b * 0x1_0000 + c * 0x100 + d
  }

  lemma WordReadsBack(n: int)
    requires 0 <= n < 0x1_0000_0000
    ensures WordValue(Word(n)) == n
  {
  }

  /** The highest byte goes first. */
  lemma NetworkOrder()
    ensures Word(0x0102_0304) == [1, 2, 3, 4] && Word(0xFFFE_FDFC) == [255, 254, 253, 252]
  {
  }

  function Tag(m: Message): (t: seq<byte>)
    ensures |t| == if m.typ != 0 then 1 else 0
  {
    if m.typ != 0 then [m.typ] else []
  }

  predicate Fits(m: Message) {
    |Tag(m)| + 4 + |m.payload| <= INT_MAX
  }

  /** Type byte if any, a length that counts itself, and the payload. */
  function Frame(m: Message): seq<byte>
    requires Fits(m)
  {
    Tag(m) + Word(|m.payload| + 4) + m.payload
  }

  predicate AllFit(ms: seq<Message>) {
    forall i :: 0 <= i < |ms| ==> Fits(ms[i])
  }

  function Stream(ms: seq<Message>): seq<byte>
    requires AllFit(ms)
  {
    if ms == [] then [] else Stream(ms[..|ms| - 1]) + Frame(ms[|ms| - 1])
  }

  lemma StreamGrows(ms: seq<Message>, m: Message)
    requires AllFit(ms) && Fits(m)
    ensures AllFit(ms + [m]) && Stream(ms + [m]) == Stream(ms) + Frame(m)
  {
    assert (ms + [m])[..|ms|] == ms;
  }

  lemma Kept(c: seq<byte>, d: seq<byte>, count: nat, at: nat)
    requires count <= at <= |c| <= |d| && d[..|c|] == c
    ensures d[..at] == c[..at] && d[..count] == c[..count] && d[count..at] == c[count..at]
  {
    assert forall i :: 0 <= i < |c| ==> d[i] == d[..|c|][i];
  }

  lemma Appended(c: seq<byte>, d: seq<byte>, count: nat, at: nat, buf: seq<byte>)
    requires count <= at <= |c| && at + |buf| <= |d| && d[..at] == c[..at] && d[at..at + |buf|] == buf
    ensures d[..count] == c[..count] && d[count..at + |buf|] == c[count..at] + buf
  {
    assert d[..at][..count] == d[..count] && c[..at][..count] == c[..count];
    assert d[..at][count..] == d[count..at] && c[..at][count..] == c[count..at];
    assert d[count..at + |buf|] == d[count..at] + d[at..at + |buf|];
  }

  lemma SubSlice(s: seq<byte>, a: nat, b: nat, i: nat, j: nat)
    requires a <= b <= |s| && i <= j <= b - a
    ensures s[a..b][i..j] == s[a + i..a + j]
  {
    var t := s[a..b];
    forall k | 0 <= k < j - i
      ensures t[i..j][k] == s[a + i..a + j][k]
    {
      assert t[i + k] == s[a + (i + k)];
    }
  }

  lemma SameTag(m: Message, payload: seq<byte>)
    ensures Tag(Message(m.typ, payload)) == Tag(m)
  {
  }

  /** A message with its length word in place of the hole is its frame. */
  lemma FilledIn(c: seq<byte>, d: seq<byte>, count: nat, end: nat, m: Message, hole: seq<byte>)
    requires Fits(m) && |hole| == 4 && count <= end <= |c| == |d|
    requires c[count..end] == Tag(m) + hole + m.payload
    requires var at := count + |Tag(m)|;
             d[..at] == c[..at] && d[at..at + 4] == Word(|m.payload| + 4) && d[at + 4..] == c[at + 4..]
    ensures d[..count] == c[..count] && d[count..end] == Frame(m)
  {
    hide Word, Tag;
    var at := count + |Tag(m)|;
    assert d[..at][..count] == d[..count] && c[..at][..count] == c[..count];
    var before, after := c[count..end], d[count..end];
    SubSlice(d, count, end, 0, |Tag(m)|);
    SubSlice(d, count, end, |Tag(m)|, |Tag(m)| + 4);
    assert after[..|Tag(m)|] == d[..at][count..] == c[..at][count..] == before[..|Tag(m)|] == Tag(m);
    assert after[|Tag(m)| + 4..] == d[at + 4..][..end - at - 4] == c[at + 4..][..end - at - 4];
    assert c[at + 4..][..end - at - 4] == before[|Tag(m)| + 4..] == m.payload;
    assert after == after[..|Tag(m)|] + after[|Tag(m)|..|Tag(m)| + 4] + after[|Tag(m)| + 4..];
  }

  /** How the server takes typed messages off a byte stream. */
  function Unframe(s: seq<byte>): (r: Option<seq<Message>>)
    decreases |s|
  {
    if s == [] then Some([])
    else if |s| < 5 then None
    else
      var len := WordValue(s[1..5]);
      if len < 4 || 1 + len > |s| then None
      else
        var rest := Unframe(s[1 + len..]);
        if rest.None? then None else Some([Message(s[0], s[5..1 + len])] + rest.value)
  }

  lemma UnframeFirst(m: Message, rest: seq<byte>)
    requires Fits(m) && m.typ != 0
    ensures Unframe(Frame(m) + rest) ==
            var r := Unframe(rest); if r.None? then None else Some([m] + r.value)
  {
    hide Word;
    var s, len := Frame(m) + rest, |m.payload| + 4;
    WordReadsBack(len);
    assert s[1..5] == Word(len);
    assert s[1 + len..] == rest;
    assert s[5..1 + len] == m.payload;
  }

  lemma {:induction false} StreamStarts(m: Message, ms: seq<Message>)
    requires Fits(m) && AllFit(ms)
    ensures AllFit([m] + ms) && Stream([m] + ms) == Frame(m) + Stream(ms)
  {
    hide Frame;
    var all := [m] + ms;
    if ms == [] {
      assert all[..0] == [];
      assert Stream([]) == [];
    } else {
      var n := |ms| - 1;
      assert all[..|all| - 1] == [m] + ms[..n];
      StreamStarts(m, ms[..n]);
      assert Frame(m) + (Stream(ms[..n]) + Frame(ms[n])) == Frame(m) + Stream(ms[..n]) + Frame(ms[n]);
    }
  }

  /** Typed messages come out of the byte stream as they went in. */
  lemma {:induction false} StreamReadsBack(ms: seq<Message>)
    requires AllFit(ms) && forall i :: 0 <= i < |ms| ==> ms[i].typ != 0
    ensures Unframe(Stream(ms)) == Some(ms)
  {
    if ms != [] {
      hide Frame, Stream;
      StreamReadsBack(ms[1..]);
      StreamStarts(ms[0], ms[1..]);
      assert ms == [ms[0]] + ms[1..];
      UnframeFirst(ms[0], Stream(ms[1..]));
    }
  }

  // ------------------------------------------------------------ what the system can answer

  datatype Write = Wrote(n: nat) | WouldBlock | Interrupted | Failed(marksFailure: bool)

  datatype Read = ReadOk | ReadFailed(drops: bool)

  /** One turn of the send loop. */
  datatype Turn = Turn(write: Write, read: Read, waitOk: bool)

  /** The system refuses nothing for good: writes may be partial or put off, reads and waits succeed. */
  predicate Smooth(script: seq<Turn>) {
    forall i :: 0 <= i < |script| ==> !script[i].write.Failed? && script[i].read.ReadOk? && script[i].waitOk
  }

  /** More is needed than there is, and memory or the range of an int ends. */
  predicate MayRefuse(size: int, needed: int, second: bool) {
    needed > size && (!second || needed > INT_MAX - 8191)
  }

  predicate MustRefuse(size: int, needed: int, first: bool, second: bool) {
    needed > size && ((!first && !second) || needed > INT_MAX)
  }

  /** What was sent and what is left of a queue are the queue. */
  lemma Rejoined(start: seq<byte>, queue: seq<byte>, n: nat)
    requires n <= |queue|
    ensures start + queue[..n] + queue[n..] == start + queue
  {
    assert queue == queue[..n] + queue[n..];
  }

  // ------------------------------------------------------------ the connection's output side

  class PGconn {
    var outBuffer: array<byte>
    var outBufSize: int
    var outCount: int
    var outMsgStart: int
    var outMsgEnd: int
    var sock: bool
    var nonblocking: bool
    var write_failed: bool
    /** Bytes `pqsecure_write` took, in order. */
    ghost var wire: seq<byte>
    /** Messages that were finished, and the one being built. */
    ghost var messages: seq<Message>
    ghost var building: Option<Message>
    /** What stands where the length of the message being built will go. */
    ghost var hole: seq<byte>
    /** Some queued bytes were discarded. */
    ghost var lost: bool

    ghost predicate Sized()
      reads this, outBuffer
    {
      && outBuffer.Length == outBufSize <= INT_MAX
      && 0 <= outCount <= outBufSize
      && AllFit(messages)
    }

    /** No byte is dropped, doubled or moved between the messages and the wire. */
    ghost predicate Conserved()
      reads this, outBuffer
      requires Sized()
    {
      !lost ==> wire + outBuffer[..outCount] == Stream(messages)
    }

    ghost predicate Building()
      reads this, outBuffer
      requires Sized()
    {
      match building
      case None => true
      case Some(m) =>
        && outMsgStart == outCount + |Tag(m)|
        && outMsgEnd == outMsgStart + 4 + |m.payload| <= outBufSize
        && |hole| == 4
        && outBuffer[outCount..outMsgEnd] == Tag(m) + hole + m.payload
    }

    ghost predicate Valid()
      reads this, outBuffer
    {
      Sized() && Conserved() && Building()
    }

    constructor (size: int)
      requires 0 < size <= INT_MAX
      ensures Valid() && fresh(outBuffer) && !write_failed && !lost && messages == [] && wire == [] && building.None?
    {
      outBuffer := new byte[size];
      outBufSize, outCount, outMsgStart, outMsgEnd := size, 0, 0, 0;
      sock, nonblocking, write_failed := true, false, false;
      wire, messages, building, hole, lost := [], [], None, [], false;
    }

    /** `realloc`: the old bytes, and more room. */
    method Enlarge(newsize: int)
      requires outBuffer.Length == outBufSize <= newsize <= INT_MAX
      modifies this`outBuffer, this`outBufSize
      ensures fresh(outBuffer) && outBuffer.Length == outBufSize == newsize
      ensures outBuffer[..old(outBufSize)] == old(outBuffer[..])
    {
      var newbuf := new byte[newsize];
      forall i | 0 <= i < outBufSize {
        newbuf[i] := outBuffer[i];
      }
      outBuffer, outBufSize := newbuf, newsize;
    }

    /**
     `pqCheckOutBufferSpace`: double until it is enough, or add 8K until it is enough; sizes wrap as
     32-bit ints, and a wrapped size ends the search. `first` and `second` say whether memory is there.
     */
    method CheckOutBufferSpace(needed: nat, first: bool, second: bool) returns (eof: bool)
      requires outBuffer.Length == outBufSize && 0 <= outBufSize <= INT_MAX
      modifies this`outBuffer, this`outBufSize
      ensures outBuffer == old(outBuffer) || fresh(outBuffer)
      ensures outBuffer.Length == outBufSize <= INT_MAX && old(outBufSize) <= outBufSize
      ensures outBuffer[..old(outBufSize)] == old(outBuffer[..])
      ensures eof ==> outBuffer == old(outBuffer) && outBufSize == old(outBufSize)
      ensures !eof ==> needed <= outBufSize
      ensures eof ==> MayRefuse(old(outBufSize), needed, second)
      ensures MustRefuse(old(outBufSize), needed, first, second) ==> eof
    {
      var newsize := outBufSize;
      if needed <= newsize {
        return false;
      }
      newsize := Wrapped(newsize * 2);
      while newsize > 0 && needed > newsize
        invariant newsize <= 0 || outBufSize <= newsize <= INT_MAX
        invariant 0 < newsize ==> needed > newsize / 2
        decreases if newsize <= 0 then 0 else needed - newsize
      {
        newsize := Wrapped(newsize * 2);
      }
      if newsize > 0 && needed <= newsize && first {
        Enlarge(newsize);
        return false;
      }
      newsize := Wrapped(outBufSize + 8192);
      while newsize > 0 && needed > newsize
        invariant newsize <= 0 || outBufSize <= newsize <= INT_MAX
        invariant newsize <= 0 ==> needed > INT_MAX - 8191
        decreases if newsize <= 0 then 0 else needed - newsize
      {
        newsize := Wrapped(newsize + 8192);
      }
      if newsize > 0 && needed <= newsize && second {
        Enlarge(newsize);
        return false;
      }
      return true;
    }

    /** `pqPutMsgStart`. A message that was being built is given up. */
    method PutMsgStart(typ: byte, first: bool, second: bool) returns (eof: bool)
      requires Valid()
      modifies this, outBuffer
      ensures Valid() && (outBuffer == old(outBuffer) || fresh(outBuffer))
      ensures messages == old(messages) && wire == old(wire) && outCount == old(outCount)
      ensures lost == old(lost) && write_failed == old(write_failed)
      ensures building == if eof then old(building) else Some(Message(typ, []))
      ensures var needed := outCount + (if typ != 0 then 5 else 4);
              && (eof ==> MayRefuse(old(outBufSize), needed, second))
              && (MustRefuse(old(outBufSize), needed, first, second) ==> eof)
    {
      hide Stream, Frame, Fits, AllFit;
      var endPos := if typ != 0 then outCount + 1 else outCount;
      var lenPos := endPos;
      endPos := endPos + 4;
      ghost var c, count := outBuffer[..], outCount;
      eof := CheckOutBufferSpace(endPos, first, second);
      assert outBuffer[..count] == c[..count] by {
        Kept(c, outBuffer[..], count, count);
      }
      if eof {
        return true;
      }
      if typ != 0 {
        outBuffer[outCount] := typ;
      }
      outMsgStart, outMsgEnd := lenPos, endPos;
      building, hole := Some(Message(typ, [])), outBuffer[lenPos..endPos];
      assert outBuffer[..count] == c[..count];
      assert outBuffer[count..endPos] == Tag(building.value) + hole + [];
      return false;
    }

    /** `pqPutMsgBytes`. */
    method PutMsgBytes(buf: seq<byte>, first: bool, second: bool) returns (eof: bool)
      requires Valid() && building.Some?
      modifies this, outBuffer
      ensures Valid() && (outBuffer == old(outBuffer) || fresh(outBuffer))
      ensures messages == old(messages) && wire == old(wire) && outCount == old(outCount)
      ensures lost == old(lost) && write_failed == old(write_failed)
      ensures building == if eof then old(building)
                          else Some(Message(old(building).value.typ, old(building).value.payload + buf))
      ensures var needed := old(outMsgEnd) + |buf|;
              && (eof ==> MayRefuse(old(outBufSize), needed, second))
              && (MustRefuse(old(outBufSize), needed, first, second) ==> eof)
    {
      hide Stream, Frame, Fits, AllFit, Tag, MayRefuse, MustRefuse, Word;
      ghost var c, m, count := outBuffer[..], building.value, outCount;
      eof := CheckOutBufferSpace(outMsgEnd + |buf|, first, second);
      assert outBuffer[..count] == c[..count] && outBuffer[..outMsgEnd] == c[..outMsgEnd]
          && outBuffer[count..outMsgEnd] == c[count..outMsgEnd] by {
        Kept(c, outBuffer[..], count, outMsgEnd);
      }
      if eof {
        return true;
      }
      var at := outMsgEnd;
      Copy(at, buf);
      outMsgEnd := outMsgEnd + |buf|;
      building := Some(Message(m.typ, m.payload + buf));
      ghost var d := outBuffer[..];
      Appended(c, d, count, at, buf);
      assert outBuffer[..count] == d[..count] && outBuffer[count..outMsgEnd] == d[count..outMsgEnd];
      SameTag(m, m.payload + buf);
      assert Tag(m) + hole + m.payload + buf == Tag(building.value) + hole + building.value.payload;
      return false;
    }

    /**
     `pqPutMsgEnd`: the length word is filled in, the message is queued, and whole 8K blocks are sent.
     */
    method PutMsgEnd(script: seq<Turn>) returns (eof: bool)
      requires Valid() && building.Some?
      modifies this, outBuffer
      ensures Valid() && outBuffer == old(outBuffer) && building.None?
      ensures messages == old(messages) + [old(building).value]
      ensures old(wire) <= wire && (old(write_failed) ==> wire == old(wire))
      ensures lost ==> old(lost) || write_failed || eof
      ensures !lost && !eof && !nonblocking ==> outCount == old(outMsgEnd) % 8192
      ensures old(outMsgEnd) < 8192 ==> wire == old(wire) && outCount == old(outMsgEnd)
      ensures |wire| <= |old(wire)| + old(outMsgEnd) - old(outMsgEnd) % 8192
      ensures eof ==> old(outMsgEnd) >= 8192 && !Smooth(script)
    {
      FinishMessage();
      if outCount >= 8192 {
        var toSend := outCount - outCount % 8192;
        var r := SendSome(toSend, script);
        if r < 0 {
          return true;
        }
      }
      return false;
    }

    method FinishMessage()
      requires Valid() && building.Some?
      modifies this`building, this`messages, this`outCount, outBuffer
      ensures Valid() && building.None? && messages == old(messages) + [old(building).value]
      ensures outCount == old(outMsgEnd)
    {
      hide Stream, Word, Tag;
      ghost var m, c, count := building.value, outBuffer[..], outCount;
      assert Fits(m) && c[count..outMsgEnd] == Tag(m) + hole + m.payload;
      Copy(outMsgStart, Word(outMsgEnd - outMsgStart));
      FilledIn(c, outBuffer[..], count, outMsgEnd, m, hole);
      ghost var pending := outBuffer[..count];
      assert pending == c[..count] && outBuffer[count..outMsgEnd] == Frame(m);
      assert outBuffer[..outMsgEnd] == pending + Frame(m);
      StreamGrows(messages, m);
      assert !lost ==> wire + (pending + Frame(m)) == wire + pending + Frame(m);
      outCount := outMsgEnd;
      messages, building := messages + [m], None;
    }

    /**
     The send loop of `pqSendSome`: how far it got, its result, and whether a hard error made it give
     the queued bytes up. When the script runs out, the system takes whatever it is offered.
     */
    method SendLoop(upTo: int, script: seq<Turn>) returns (ptr: int, result: int, gaveUp: bool)
      requires 0 <= upTo <= outBuffer.Length && !write_failed
      modifies this`wire, this`write_failed, this`sock
      ensures 0 <= ptr <= upTo && wire == old(wire) + outBuffer[..ptr] && -1 <= result <= 1
      ensures !gaveUp ==> !write_failed && (result == 0 ==> ptr == upTo)
      ensures gaveUp ==> write_failed || result == -1
      ensures result == 1 ==> nonblocking && !gaveUp
      ensures Smooth(script) ==> result >= 0 && !gaveUp
    {
      var len, rest := upTo, script;
      ptr, result, gaveUp := 0, 0, false;
      assert outBuffer[..0] == [];
      while len > 0
        invariant 0 <= ptr <= upTo && len == upTo - ptr && result == 0 && !gaveUp
        invariant wire == old(wire) + outBuffer[..ptr] && !write_failed
        invariant Smooth(script) ==> Smooth(rest)
        decreases |rest|, len
      {
        var turn := if rest == [] then Turn(Wrote(len), ReadOk, true) else rest[0];
        rest := if rest == [] then [] else rest[1..];
        if turn.write.Interrupted? {
          continue;
        }
        if turn.write.Failed? {
          write_failed := turn.write.marksFailure;
          if turn.read.ReadFailed? {
            sock := !turn.read.drops;
            return ptr, -1, true;
          }
          return ptr, if write_failed then 0 else -1, true;
        }
        if turn.write.Wrote? {
          var sent := if turn.write.n <= len then turn.write.n else len;
          assert outBuffer[..ptr + sent] == outBuffer[..ptr] + outBuffer[ptr..ptr + sent];
          wire := wire + outBuffer[ptr..ptr + sent];
          ptr, len := ptr + sent, len - sent;
        }
        if len > 0 {
          if turn.read.ReadFailed? {
            sock := !turn.read.drops;
            return ptr, -1, false;
          }
          if nonblocking {
            return ptr, 1, false;
          }
          if !turn.waitOk {
            return ptr, -1, false;
          }
        }
      }
    }

    /** The `memmove` of what is left to the front of the buffer. */
    method Shift(ptr: int)
      requires 0 <= ptr <= outCount <= outBuffer.Length
      modifies this`outCount, outBuffer
      ensures outCount == old(outCount) - ptr
      ensures outBuffer[..outCount] == old(outBuffer[ptr..outCount])
    {
      var remaining := outCount - ptr;
      forall i | 0 <= i < remaining {
        outBuffer[i] := outBuffer[ptr + i];
      }
      outCount := remaining;
    }

    /** `pqSendSome`. */
    method SendSome(upTo: int, script: seq<Turn>) returns (result: int)
      requires Valid() && building.None? && 0 <= upTo <= outCount
      modifies this, outBuffer
      ensures Valid() && outBuffer == old(outBuffer) && building.None? && messages == old(messages)
      ensures nonblocking == old(nonblocking) && -1 <= result <= 1
      ensures old(wire) <= wire && (old(write_failed) ==> wire == old(wire) && write_failed)
      ensures lost ==> old(lost) || write_failed || result == -1
      ensures result == 0 && !lost ==> wire == old(wire) + old(outBuffer[..upTo]) && outCount == old(outCount) - upTo
      ensures |wire| <= |old(wire)| + upTo
      ensures result == 1 ==> nonblocking
      ensures Smooth(script) ==> result >= 0
      ensures !lost ==> !old(lost) && wire + outBuffer[..outCount] == old(wire + outBuffer[..outCount])
    {
      hide Stream, Frame, Fits, AllFit, Tag, Word;
      if write_failed {
        outCount, lost := 0, true;
        if sock {
          var read := if script == [] then ReadOk else script[0].read;
          if read.ReadFailed? {
            sock := !read.drops;
            return -1;
          }
        }
        return 0;
      }
      if !sock {
        write_failed := true;
        outCount, lost := 0, true;
        return 0;
      }
      ghost var start, queue := wire, outBuffer[..outCount];
      var ptr, r, gaveUp := SendLoop(upTo, script);
      if gaveUp {
        outCount, lost := 0, true;
        return r;
      }
      assert outBuffer[ptr..outCount] == outBuffer[..outCount][ptr..] == queue[ptr..];
      Shift(ptr);
      Rejoined(start, queue, ptr);
      return r;
    }

    /** `pqFlush`. */
    method Flush(script: seq<Turn>) returns (result: int)
      requires Valid() && building.None?
      modifies this, outBuffer
      ensures Valid() && outBuffer == old(outBuffer) && building.None? && messages == old(messages)
      ensures old(wire) <= wire && (old(write_failed) ==> wire == old(wire))
      ensures lost ==> old(lost) || write_failed || result == -1
      ensures result == 0 && !lost && !old(lost) ==> wire == Stream(messages) && outCount == 0
      ensures Smooth(script) ==> result >= 0 && (result == 0 || nonblocking)
    {
      if outCount > 0 {
        result := SendSome(outCount, script);
        return;
      }
      return 0;
    }

    /** `memcpy` into the output buffer. */
    method Copy(at: int, buf: seq<byte>)
      requires 0 <= at && at + |buf| <= outBuffer.Length
      modifies outBuffer
      ensures outBuffer[at..at + |buf|] == buf && outBuffer[..at] == old(outBuffer[..at])
      ensures outBuffer[at + |buf|..] == old(outBuffer[at + |buf|..])
    {
      forall i | 0 <= i < |buf| {
        outBuffer[at + i] := buf[i];
      }
    }
  }

  function Wrapped(n: int): (w: int)
    requires 0 <= n < 0x1_0000_0000
    ensures -0x8000_0000 <= w <= INT_MAX
  {
    if n <= INT_MAX then n else n - 0x1_0000_0000
  }
}
