/** Reassembly of single-segment Cap'n Proto frames from a byte stream: a buffer that grows,
    is parsed after every read and shifted in place. */
module Transport {
  import opened Bytes

  const MAX_MESSAGE: nat := 0x400_0000
  const READ_BUF: nat := 0x1_0000

  /** An allocator that gives just what is asked. */
  const NO_SLACK: nat -> nat := n => 0

  /** The segment count less one, and the segment's size in bytes, of a frame. */
  function SegmentsOf(s: seq<Byte>): nat
    requires |s| >= 8
  {
    FromLE(s[..4])
  }

  function SizeOf(s: seq<Byte>): nat
    requires |s| >= 8
  {
    8 * FromLE(s[4..8])
  }

  predicate HeaderOk(s: seq<Byte>)
    requires |s| >= 8
  {
    SegmentsOf(s) == 0 && SizeOf(s) <= MAX_MESSAGE
  }

  /** The segments at the front of a stream, what is left after them, and whether the next
      header is one that closes the connection. */
  datatype Parsed = Parsed(messages: seq<seq<Byte>>, rest: seq<Byte>, bad: bool)

  function Parse(s: seq<Byte>): (p: Parsed)
    decreases |s|
  {
    if |s| < 8 then Parsed([], s, false)
    else if !HeaderOk(s) then Parsed([], s, true)
    else if |s| < 8 + SizeOf(s) then Parsed([], s, false)
    else Prepend([s[8..8 + SizeOf(s)]], Parse(s[8 + SizeOf(s)..]))
  }

  function Prepend(messages: seq<seq<Byte>>, p: Parsed): Parsed {
    p.(messages := messages + p.messages)
  }

  // ---- Cutting the stream --------------------------------------------------------------------------

  lemma HeaderKept(a: seq<Byte>, b: seq<Byte>)
    requires |a| >= 8
    ensures SegmentsOf(a + b) == SegmentsOf(a) && SizeOf(a + b) == SizeOf(a)
  {
    assert (a + b)[..4] == a[..4] && (a + b)[4..8] == a[4..8];
  }

  lemma SliceKept(a: seq<Byte>, b: seq<Byte>, i: nat, n: nat)
    requires i <= n <= |a|
    ensures (a + b)[i..n] == a[i..n] && (a + b)[n..] == a[n..] + b
  {
  }

  lemma PrependTwice(a: seq<seq<Byte>>, b: seq<seq<Byte>>, p: Parsed)
    ensures Prepend(a, Prepend(b, p)) == Prepend(a + b, p)
  {
    assert a + (b + p.messages) == (a + b) + p.messages;
  }

  /** Parsing what has arrived and then the rest with what follows is parsing the whole. */
  lemma {:induction false} ParseInTwo(a: seq<Byte>, b: seq<Byte>)
    requires !Parse(a).bad
    ensures Parse(a + b) == Prepend(Parse(a).messages, Parse(Parse(a).rest + b))
    decreases |a|
  {
    if |a| >= 8 && |a| >= 8 + SizeOf(a) {
      var n := 8 + SizeOf(a);
      HeaderKept(a, b);
      SliceKept(a, b, 8, n);
      ParseInTwo(a[n..], b);
      PrependTwice([a[8..n]], Parse(a[n..]).messages, Parse(Parse(a[n..]).rest + b));
    }
  }

  /** After a header that closes the connection nothing more is handed on. */
  lemma {:induction false} BadStays(a: seq<Byte>, b: seq<Byte>)
    requires Parse(a).bad
    ensures Parse(a + b).bad && Parse(a + b).messages == Parse(a).messages
    decreases |a|
  {
    HeaderKept(a, b);
    if HeaderOk(a) {
      var n := 8 + SizeOf(a);
      SliceKept(a, b, 8, n);
      BadStays(a[n..], b);
    }
  }

  /** What is left is less than a frame. */
  lemma {:induction false} RestSettled(s: seq<Byte>)
    requires !Parse(s).bad
    ensures Settled(Parse(s).rest)
    decreases |s|
  {
    if |s| >= 8 && |s| >= 8 + SizeOf(s) {
      RestSettled(s[8 + SizeOf(s)..]);
    }
  }

  predicate Settled(s: seq<Byte>) {
    |s| < 8 || (HeaderOk(s) && |s| < 8 + SizeOf(s))
  }

  lemma SettledParses(s: seq<Byte>)
    requires Settled(s)
    ensures Parse(s) == Parsed([], s, false)
  {
  }

  /** Every header met has a frame of at most `limit` bytes. */
  predicate FramesWithin(s: seq<Byte>, limit: nat)
    decreases |s|
  {
    |s| >= 8 && HeaderOk(s) ==>
      8 + SizeOf(s) <= limit && (|s| >= 8 + SizeOf(s) ==> FramesWithin(s[8 + SizeOf(s)..], limit))
  }

  // ---- Frames that outgrow the buffer -------------------------------------------------------------

  /** The size a buffer can reach: it doubles, the allocator may give more than was asked, and
      it stays when doubling would pass the limit of a message. */
  function Limit(cap: nat, slack: nat -> nat): (limit: nat)
    requires cap > 0
    ensures cap <= limit && MAX_MESSAGE < 2 * limit
    decreases MAX_MESSAGE - cap
  {
    if 2 * cap > MAX_MESSAGE then cap else Limit(2 * cap + slack(2 * cap), slack)
  }

  /** Before any bad header comes a frame longer than `limit`, and `limit` bytes of it are there. */
  predicate Overlong(s: seq<Byte>, limit: nat)
    decreases |s|
  {
    && |s| >= 8 && HeaderOk(s)
    && if 8 + SizeOf(s) > limit then |s| >= limit
       else |s| >= 8 + SizeOf(s) && Overlong(s[8 + SizeOf(s)..], limit)
  }

  /** The segments of the whole frames before the first one longer than `limit`. */
  function Delivered(s: seq<Byte>, limit: nat): seq<seq<Byte>>
    decreases |s|
  {
    if |s| < 8 || !HeaderOk(s) || 8 + SizeOf(s) > limit || |s| < 8 + SizeOf(s) then []
    else [s[8..8 + SizeOf(s)]] + Delivered(s[8 + SizeOf(s)..], limit)
  }

  /** What fits a buffer of the limit is parsed without meeting a frame that is too long. */
  lemma {:induction false} OverlongRest(a: seq<Byte>, b: seq<Byte>, limit: nat)
    requires |a| <= limit && !Parse(a).bad
    ensures Overlong(a + b, limit) <==> Overlong(Parse(a).rest + b, limit)
    decreases |a|
  {
    if |a| >= 8 && |a| >= 8 + SizeOf(a) {
      var n := 8 + SizeOf(a);
      HeaderKept(a, b);
      SliceKept(a, b, 8, n);
      OverlongRest(a[n..], b, limit);
    }
  }

  lemma DeliveredNext(a: seq<Byte>, b: seq<Byte>, n: nat, limit: nat)
    requires 8 <= |a| && n == 8 + SizeOf(a) <= |a| <= limit && HeaderOk(a)
    ensures Delivered(a + b, limit) == [a[8..n]] + Delivered(a[n..] + b, limit)
  {
    HeaderKept(a, b);
    SliceKept(a, b, 8, n);
  }

  lemma {:induction false} DeliveredRest(a: seq<Byte>, b: seq<Byte>, limit: nat)
    requires |a| <= limit && !Parse(a).bad
    ensures Delivered(a + b, limit) == Parse(a).messages + Delivered(Parse(a).rest + b, limit)
    decreases |a|
  {
    if |a| >= 8 && |a| >= 8 + SizeOf(a) {
      var n := 8 + SizeOf(a);
      DeliveredNext(a, b, n, limit);
      DeliveredRest(a[n..], b, limit);
      Regroup([a[8..n]], Parse(a[n..]).messages, Delivered(Parse(a[n..]).rest + b, limit));
    }
  }

  lemma Regroup<T>(x: seq<T>, y: seq<T>, z: seq<T>)
    ensures x + (y + z) == (x + y) + z
  {
  }

  lemma {:induction false} BadNotOverlong(a: seq<Byte>, b: seq<Byte>, limit: nat)
    requires |a| <= limit && Parse(a).bad
    ensures !Overlong(a + b, limit) && Delivered(a + b, limit) == Parse(a).messages
    decreases |a|
  {
    HeaderKept(a, b);
    if HeaderOk(a) {
      var n := 8 + SizeOf(a);
      SliceKept(a, b, 8, n);
      BadNotOverlong(a[n..], b, limit);
    }
  }

  /** A buffer that is full at the limit and holds no whole frame holds part of one that is
      too long; one that is not full does not. */
  lemma FullIsOverlong(content: seq<Byte>, left: seq<Byte>, limit: nat)
    requires Settled(content) && |content| >= limit >= 8
    ensures Overlong(content + left, limit) && Delivered(content + left, limit) == []
  {
    HeaderKept(content, left);
  }

  lemma RoomNotOverlong(content: seq<Byte>, limit: nat)
    requires Settled(content) && |content| < limit
    ensures !Overlong(content, limit) && Delivered(content, limit) == []
  {
  }

  /** No frame of a stream that has only frames within the limit is too long. */
  lemma {:induction false} WithinNotOverlong(s: seq<Byte>, most: nat, limit: nat)
    requires FramesWithin(s, most) && most <= limit
    ensures !Overlong(s, limit)
    decreases |s|
  {
    if |s| >= 8 && HeaderOk(s) && |s| >= 8 + SizeOf(s) {
      WithinNotOverlong(s[8 + SizeOf(s)..], most, limit);
    }
  }

  /** Whatever the allocator gives, frames of at most half the limit of a message pass. */
  lemma HalfNotOverlong(s: seq<Byte>, cap: nat, slack: nat -> nat)
    requires cap > 0 && FramesWithin(s, MAX_MESSAGE / 2)
    ensures !Overlong(s, Limit(cap, slack))
  {
    WithinNotOverlong(s, MAX_MESSAGE / 2, Limit(cap, slack));
  }

  /** A buffer of the initial size that the allocator never rounds up reaches the limit of a
      message exactly. */
  lemma ExactLimit(slack: nat -> nat)
    requires forall n :: slack(n) == 0
    ensures Limit(READ_BUF, slack) == MAX_MESSAGE
  {
    assert Limit(0x80_0000, slack) == MAX_MESSAGE;
    assert Limit(0x10_0000, slack) == MAX_MESSAGE;
    assert Limit(0x2_0000, slack) == MAX_MESSAGE;
  }

  // ---- The receiver ---------------------------------------------------------------------------------

  /** Of the stream, `found` has been handed on, `content` is in the buffer, `left` is to come. */
  predicate Tracks(all: seq<Byte>, found: seq<seq<Byte>>, content: seq<Byte>, left: seq<Byte>) {
    Parse(all) == Prepend(found, Parse(content + left))
  }

  lemma TracksStart(content: seq<Byte>, incoming: seq<Byte>)
    ensures Tracks(content + incoming, [], content, incoming)
  {
    assert [] + Parse(content + incoming).messages == Parse(content + incoming).messages;
  }

  lemma TracksRead(all: seq<Byte>, found: seq<seq<Byte>>, content: seq<Byte>, incoming: seq<Byte>, pos: nat, next: nat)
    requires pos <= next <= |incoming| && Tracks(all, found, content, incoming[pos..])
    ensures Tracks(all, found, content + incoming[pos..next], incoming[next..])
    ensures content + incoming[pos..] == (content + incoming[pos..next]) + incoming[next..]
  {
    assert incoming[pos..] == incoming[pos..next] + incoming[next..];
    assert content + incoming[pos..] == (content + incoming[pos..next]) + incoming[next..];
  }

  lemma TracksParse(all: seq<Byte>, found: seq<seq<Byte>>, got: seq<Byte>, left: seq<Byte>)
    requires Tracks(all, found, got, left)
    ensures !Parse(got).bad ==> Tracks(all, found + Parse(got).messages, Parse(got).rest, left) && Settled(Parse(got).rest)
    ensures Parse(got).bad ==> Parse(all).bad && Parse(all).messages == found + Parse(got).messages
  {
    if Parse(got).bad {
      BadStays(got, left);
    } else {
      ParseInTwo(got, left);
      PrependTwice(found, Parse(got).messages, Parse(Parse(got).rest + left));
      RestSettled(got);
    }
  }

  lemma TracksEnd(all: seq<Byte>, found: seq<seq<Byte>>, content: seq<Byte>)
    requires Tracks(all, found, content, []) && Settled(content)
    ensures Parse(all) == Parsed(found, content, false)
  {
    assert content + [] == content && found + [] == found;
    SettledParses(content);
  }

  /** Where the receiver stands in the stream. */
  predicate Receiving(all: seq<Byte>, found: seq<seq<Byte>>, content: seq<Byte>, left: seq<Byte>, open: bool, limit: nat) {
    && (open ==> Settled(content) && Tracks(all, found, content, left)
                 && (Overlong(all, limit) <==> Overlong(content + left, limit))
                 && Delivered(all, limit) == found + Delivered(content + left, limit))
    && (!open ==> Parse(all).bad && Parse(all).messages == found == Delivered(all, limit) && !Overlong(all, limit))
  }

  lemma ReceivingNext(
    all: seq<Byte>, found: seq<seq<Byte>>, content: seq<Byte>, incoming: seq<Byte>, pos: nat, next: nat,
    got: seq<Byte>, limit: nat)
    requires pos <= next <= |incoming| && Receiving(all, found, content, incoming[pos..], true, limit)
    requires got == content + incoming[pos..next] && |got| <= limit
    ensures Receiving(all, found + Parse(got).messages, Parse(got).rest, incoming[next..], !Parse(got).bad, limit)
  {
    var left := incoming[next..];
    TracksRead(all, found, content, incoming, pos, next);
    TracksParse(all, found, got, left);
    if Parse(got).bad {
      BadNotOverlong(got, left, limit);
    } else {
      OverlongRest(got, left, limit);
      DeliveredRest(got, left, limit);
      Regroup(found, Parse(got).messages, Delivered(Parse(got).rest + left, limit));
    }
  }

  lemma ReceivingTrip(all: seq<Byte>, found: seq<seq<Byte>>, content: seq<Byte>, left: seq<Byte>, limit: nat)
    requires Receiving(all, found, content, left, true, limit) && |content| >= limit >= 8
    ensures Overlong(all, limit) && found == Delivered(all, limit)
  {
    FullIsOverlong(content, left, limit);
    assert found + [] == found;
  }

  lemma ReceivingStart(content: seq<Byte>, incoming: seq<Byte>, limit: nat)
    requires Settled(content)
    ensures Receiving(content + incoming, [], content, incoming[0..], true, limit)
  {
    assert incoming[0..] == incoming;
    TracksStart(content, incoming);
    assert [] + Delivered(content + incoming, limit) == Delivered(content + incoming, limit);
  }

  lemma ReceivingEnd(all: seq<Byte>, found: seq<seq<Byte>>, content: seq<Byte>, left: seq<Byte>, limit: nat)
    requires Receiving(all, found, content, left, true, limit) && left == [] && |content| < limit
    ensures Parse(all) == Parsed(found, content, false) && !Overlong(all, limit) && found == Delivered(all, limit)
  {
    TracksEnd(all, found, content);
    RoomNotOverlong(content, limit);
    assert content + [] == content && found + [] == found;
  }

  /** What a drained connection has done with the stream: it handed on the whole frames before
      the first that is too long; its growth closed it exactly when such a frame was met; and
      otherwise it handed on everything, up to a bad header if there was one, which closed it. */
  predicate Outcome(all: seq<Byte>, found: seq<seq<Byte>>, content: seq<Byte>, open: bool, tripped: bool, limit: nat) {
    var p := Parse(all);
    && found == Delivered(all, limit)
    && (tripped <==> Overlong(all, limit))
    && (tripped ==> !open)
    && (!tripped ==> open == !p.bad && found == p.messages)
    && (open ==> content == p.rest)
  }

  lemma Tripped(all: seq<Byte>, found: seq<seq<Byte>>, content: seq<Byte>, left: seq<Byte>, limit: nat)
    requires Receiving(all, found, content, left, true, limit) && |content| >= limit >= 8
    ensures Outcome(all, found, content, false, true, limit)
  {
    ReceivingTrip(all, found, content, left, limit);
  }

  lemma ReceivedAll(all: seq<Byte>, found: seq<seq<Byte>>, content: seq<Byte>, left: seq<Byte>, open: bool, limit: nat)
    requires Receiving(all, found, content, left, open, limit) && (open ==> left == [] && |content| < limit)
    ensures Outcome(all, found, content, open, false, limit) && (open ==> Settled(content))
  {
    if open {
      ReceivingEnd(all, found, content, left, limit);
    }
  }

  // ---- The connection ------------------------------------------------------------------------------------

  class Connection {
    var buf: array<Byte>
    var bufLen: nat
    var open: bool
    /** The segments handed to the handler. */
    var delivered: seq<seq<Byte>>

    ghost predicate Valid()
      reads this, buf
    {
      bufLen <= buf.Length && READ_BUF <= buf.Length && (open ==> Settled(buf[..bufLen]))
    }

    constructor (usable: nat)
      requires READ_BUF <= usable
      ensures Valid() && open && bufLen == 0 && delivered == [] && fresh(buf) && buf.Length == usable
    {
      buf := new Byte[usable];
      bufLen, open, delivered := 0, true, [];
    }

    /** Shifts what is not consumed to the front. */
    method AdvanceBuffer(consumed: nat)
      requires 0 < consumed <= bufLen <= buf.Length
      modifies this`bufLen, buf
      ensures bufLen == old(bufLen) - consumed && buf[..bufLen] == old(buf[consumed..bufLen])
    {
      var remaining := bufLen - consumed;
      for i := 0 to remaining
        invariant buf[..i] == old(buf[consumed..consumed + i])
        invariant buf[i..] == old(buf[i..])
      {
        assert buf[consumed + i] == buf[i..][consumed] == old(buf[i..])[consumed];
        buf[i] := buf[consumed + i];
      }
      bufLen := remaining;
    }

    /** The first whole message in the buffer, if there is one, is handed on and consumed; a
        bad header closes the connection. */
    method TakeMessage() returns (taken: bool)
      requires 8 <= bufLen <= buf.Length && open
      modifies this`bufLen, this`open, this`delivered, buf
      ensures bufLen <= buf.Length && (taken ==> open && bufLen < old(bufLen))
      ensures taken ==> exists m :: delivered == old(delivered) + [m] && Parse(old(buf[..bufLen])) == Prepend([m], Parse(buf[..bufLen]))
      ensures !taken ==> delivered == old(delivered) && buf[..bufLen] == old(buf[..bufLen])
      ensures !taken ==> Parse(buf[..bufLen]) == Parsed([], buf[..bufLen], !open)
    {
      ghost var s := buf[..bufLen];
      assert buf[0..4] == s[..4] && buf[4..8] == s[4..8];
      var segments, size := FromLE(buf[0..4]), 8 * FromLE(buf[4..8]);
      if segments != 0 || size > MAX_MESSAGE {
        open := false;
        return false;
      }
      var total := 8 + size;
      if bufLen < total {
        return false;
      }
      assert buf[8..total] == s[8..total] && buf[total..bufLen] == s[total..];
      delivered := delivered + [buf[8..total]];
      AdvanceBuffer(total);
      assert delivered == old(delivered) + [s[8..total]];
      return true;
    }

    /** Hands on every whole message in the buffer. */
    method ParseMessages()
      requires bufLen <= buf.Length && open
      modifies this`bufLen, this`open, this`delivered, buf
      ensures bufLen <= buf.Length && delivered == old(delivered) + Parse(old(buf[..bufLen])).messages
      ensures open == !Parse(old(buf[..bufLen])).bad && buf[..bufLen] == Parse(old(buf[..bufLen])).rest
    {
      ghost var whole := buf[..bufLen];
      ghost var found: seq<seq<Byte>> := [];
      assert Prepend([], Parse(whole)) == Parse(whole);
      while bufLen >= 8
        invariant bufLen <= buf.Length && open && delivered == old(delivered) + found
        invariant Parse(whole) == Prepend(found, Parse(buf[..bufLen]))
        decreases bufLen
      {
        ghost var s, had := buf[..bufLen], delivered;
        var taken := TakeMessage();
        if !taken {
          assert found + [] == found;
          return;
        }
        ghost var m :| delivered == had + [m] && Parse(s) == Prepend([m], Parse(buf[..bufLen]));
        PrependTwice(found, [m], Parse(buf[..bufLen]));
        found := found + [m];
      }
      assert found + [] == found;
    }

    /** Doubles a full buffer; the allocator may give more than was asked. At the limit the
        connection is closed instead. */
    method EnsureRoom(slack: nat -> nat) returns (tripped: bool)
      requires bufLen <= buf.Length && READ_BUF <= buf.Length
      modifies this`buf, this`open
      ensures tripped == (bufLen >= old(buf.Length) && 2 * old(buf.Length) > MAX_MESSAGE)
      ensures open == (old(open) && !tripped) && bufLen <= buf.Length && READ_BUF <= buf.Length
      ensures buf[..bufLen] == old(buf[..bufLen]) && (!tripped ==> bufLen < buf.Length)
      ensures buf == old(buf) || fresh(buf)
      ensures Limit(buf.Length, slack) == Limit(old(buf.Length), slack)
      ensures tripped ==> bufLen >= Limit(buf.Length, slack)
    {
      if bufLen < buf.Length {
        return false;
      }
      var newCap := buf.Length * 2;
      if newCap > MAX_MESSAGE {
        open := false;
        return true;
      }
      var bigger := new Byte[newCap + slack(newCap)];
      for i := 0 to bufLen
        invariant buf == old(buf) && bufLen == old(bufLen) && open == old(open) && buf[..bufLen] == old(buf[..bufLen])
        invariant bigger[..i] == buf[..i]
      {
        bigger[i] := buf[i];
      }
      buf := bigger;
      return false;
    }

    /** One read: as much as the system gives and the buffer takes, at least a byte. */
    method Read(incoming: seq<Byte>, pos: nat, hint: nat) returns (next: nat)
      requires pos < |incoming| && bufLen < buf.Length
      modifies this`bufLen, buf
      ensures pos < next <= |incoming| && bufLen <= buf.Length
      ensures buf[..bufLen] == old(buf[..bufLen]) + incoming[pos..next]
    {
      var n := if hint == 0 then 1 else hint;
      if n > |incoming| - pos {
        n := |incoming| - pos;
      }
      if n > buf.Length - bufLen {
        n := buf.Length - bufLen;
      }
      next := pos + n;
      for i := 0 to n
        invariant bufLen == old(bufLen) && buf[..bufLen + i] == old(buf[..bufLen]) + incoming[pos..pos + i]
      {
        buf[bufLen + i] := incoming[pos + i];
      }
      bufLen := bufLen + n;
    }

    /** Room for the next read, or the end of the connection. */
    method RoomTurn(slack: nat -> nat, ghost all: seq<Byte>, ghost found: seq<seq<Byte>>, ghost left: seq<Byte>, ghost limit: nat)
      returns (tripped: bool)
      requires open && bufLen <= buf.Length && READ_BUF <= buf.Length && Limit(buf.Length, slack) == limit
      requires Receiving(all, found, buf[..bufLen], left, true, limit)
      modifies this`buf, this`open
      ensures buf == old(buf) || fresh(buf)
      ensures bufLen <= buf.Length && READ_BUF <= buf.Length && buf[..bufLen] == old(buf[..bufLen]) && open == !tripped
      ensures tripped ==> Outcome(all, found, buf[..bufLen], false, true, limit)
      ensures !tripped ==> bufLen < buf.Length <= limit && Limit(buf.Length, slack) == limit
    {
      tripped := EnsureRoom(slack);
      if tripped {
        Tripped(all, found, buf[..bufLen], left, limit);
      }
    }

    /** One turn of the read loop that finds data. */
    method ReadTurn(
      incoming: seq<Byte>, pos: nat, hint: nat, slack: nat -> nat, ghost all: seq<Byte>, ghost found: seq<seq<Byte>>, ghost limit: nat)
      returns (tripped: bool, next: nat, ghost more: seq<seq<Byte>>)
      requires pos < |incoming| && open && bufLen <= buf.Length && READ_BUF <= buf.Length && Limit(buf.Length, slack) == limit
      requires Receiving(all, found, buf[..bufLen], incoming[pos..], true, limit)
      modifies this, buf
      ensures buf == old(buf) || fresh(buf)
      ensures bufLen <= buf.Length && READ_BUF <= buf.Length && pos <= next <= |incoming| && delivered == old(delivered) + more
      ensures tripped ==> !open && more == [] && Outcome(all, found, buf[..bufLen], false, true, limit)
      ensures !tripped ==> next > pos && Limit(buf.Length, slack) == limit
      ensures !tripped ==> Receiving(all, found + more, buf[..bufLen], incoming[next..], open, limit)
    {
      ghost var content := buf[..bufLen];
      more, next := [], pos;
      tripped := RoomTurn(slack, all, found, incoming[pos..], limit);
      if tripped {
        return;
      }
      next := Read(incoming, pos, hint);
      ghost var got := buf[..bufLen];
      ReceivingNext(all, found, content, incoming, pos, next, got, limit);
      ParseMessages();
      more := Parse(got).messages;
    }

    /** Drains what has arrived, in reads of any sizes; the last turn makes room and finds
        nothing more. The messages handed on are those of the whole stream and the buffer
        holds exactly what no message has consumed, unless a frame outgrows the limit of the
        buffer's growth, which closes the connection. */
    method HandleRead(incoming: seq<Byte>, hints: nat -> nat, slack: nat -> nat) returns (tripped: bool)
      requires Valid() && open
      modifies this, buf
      ensures Valid() && (open ==> Limit(buf.Length, slack) == Limit(old(buf.Length), slack))
      ensures exists found :: delivered == old(delivered) + found
                && Outcome(old(buf[..bufLen]) + incoming, found, buf[..bufLen], open, tripped, Limit(old(buf.Length), slack))
    {
      ghost var all := buf[..bufLen] + incoming;
      ghost var limit := Limit(buf.Length, slack);
      ghost var found: seq<seq<Byte>> := [];
      var pos := 0;
      tripped := false;
      ReceivingStart(buf[..bufLen], incoming, limit);
      while pos < |incoming| && open
        invariant pos <= |incoming| && bufLen <= buf.Length && READ_BUF <= buf.Length && (buf == old(buf) || fresh(buf))
        invariant delivered == old(delivered) + found && !tripped && Limit(buf.Length, slack) == limit
        invariant Receiving(all, found, buf[..bufLen], incoming[pos..], open, limit)
        decreases |incoming| - pos, open
      {
        ghost var more;
        tripped, pos, more := ReadTurn(incoming, pos, hints(pos), slack, all, found, limit);
        if tripped {
          return;
        }
        found := found + more;
      }
      if open {
        tripped := RoomTurn(slack, all, found, incoming[pos..], limit);
      }
      if !tripped {
        ReceivedAll(all, found, buf[..bufLen], incoming[pos..], open, limit);
      }
    }
  }

  // ---- Frames ----------------------------------------------------------------------------------------------

  predicate SegmentOk(segment: seq<Byte>) {
    |segment| % 8 == 0 && |segment| <= MAX_MESSAGE
  }

  /** A single-segment frame: the count less one, the size in words, the segment. */
  function Frame(segment: seq<Byte>): seq<Byte> {
    LE(0, 4) + LE(|segment| / 8, 4) + segment
  }

  function Stream(segments: seq<seq<Byte>>): seq<Byte> {
    if segments == [] then [] else Frame(segments[0]) + Stream(segments[1..])
  }

  lemma FrameHeader(segment: seq<Byte>, rest: seq<Byte>)
    requires SegmentOk(segment)
    ensures var s := Frame(segment) + rest;
            && |s| >= 8 + |segment| && HeaderOk(s) && SizeOf(s) == |segment|
            && s[8..8 + |segment|] == segment && s[8 + |segment|..] == rest
  {
    FrameFields(LE(0, 4), LE(|segment| / 8, 4), segment, rest);
    WordFour(0);
    WordFour(|segment| / 8);
  }

  lemma FrameFields(a: seq<Byte>, b: seq<Byte>, segment: seq<Byte>, rest: seq<Byte>)
    requires |a| == |b| == 4
    ensures var s := a + b + segment + rest;
            s[..4] == a && s[4..8] == b && s[8..8 + |segment|] == segment && s[8 + |segment|..] == rest
  {
  }

  lemma WordFour(n: nat)
    requires n < U32
    ensures FromLE(LE(n, 4)) == n
  {
    Widths();
    LERoundTrip(n, 4);
  }

  /** A stream of frames parses to its segments, whatever is cut off after them. */
  lemma {:induction false} StreamParses(segments: seq<seq<Byte>>, rest: seq<Byte>)
    requires forall i :: 0 <= i < |segments| ==> SegmentOk(segments[i])
    ensures Parse(Stream(segments) + rest) == Prepend(segments, Parse(rest))
  {
    if segments == [] {
      assert Stream(segments) + rest == rest && segments + Parse(rest).messages == Parse(rest).messages;
    } else {
      var more := Stream(segments[1..]) + rest;
      assert Stream(segments) + rest == Frame(segments[0]) + more;
      FrameHeader(segments[0], more);
      StreamParses(segments[1..], rest);
      PrependTwice([segments[0]], segments[1..], Parse(rest));
      assert [segments[0]] + segments[1..] == segments;
    }
  }

  predicate Fits(segment: seq<Byte>, limit: nat) {
    SegmentOk(segment) && 8 + |segment| <= limit
  }

  lemma FrameThen(segment: seq<Byte>, more: seq<Byte>, limit: nat)
    requires Fits(segment, limit)
    ensures Overlong(Frame(segment) + more, limit) <==> Overlong(more, limit)
    ensures Delivered(Frame(segment) + more, limit) == [segment] + Delivered(more, limit)
  {
    FrameHeader(segment, more);
  }

  /** Frames that fit do not matter to what comes after them. */
  lemma {:induction false} StreamThen(segments: seq<seq<Byte>>, rest: seq<Byte>, limit: nat)
    requires forall i :: 0 <= i < |segments| ==> Fits(segments[i], limit)
    ensures Overlong(Stream(segments) + rest, limit) <==> Overlong(rest, limit)
    ensures Delivered(Stream(segments) + rest, limit) == segments + Delivered(rest, limit)
  {
    if segments == [] {
      assert Stream(segments) + rest == rest && segments + Delivered(rest, limit) == Delivered(rest, limit);
    } else {
      var more := Stream(segments[1..]) + rest;
      assert Stream(segments) + rest == Frame(segments[0]) + more;
      FrameThen(segments[0], more, limit);
      StreamThen(segments[1..], rest, limit);
      Regroup([segments[0]], segments[1..], Delivered(rest, limit));
      assert [segments[0]] + segments[1..] == segments;
    }
  }

  /** The first bytes of a frame, eight or more, have its header. */
  lemma FrameStart(segment: seq<Byte>, n: nat)
    requires SegmentOk(segment) && 8 <= n <= 8 + |segment|
    ensures |Frame(segment)| == 8 + |segment|
    ensures var s := Frame(segment)[..n]; HeaderOk(s) && SizeOf(s) == |segment|
  {
    FrameHeader(segment, []);
    assert Frame(segment) + [] == Frame(segment);
    var s := Frame(segment);
    HeaderKept(s[..n], s[n..]);
    assert s[..n] + s[n..] == s;
  }

  /** A part of a frame that does not fit is too long exactly when it fills the buffer. */
  lemma OverlongPart(segment: seq<Byte>, n: nat, limit: nat)
    requires SegmentOk(segment) && 8 + |segment| > limit >= 8 && n <= 8 + |segment|
    ensures |Frame(segment)| == 8 + |segment|
    ensures Overlong(Frame(segment)[..n], limit) <==> n >= limit
    ensures Delivered(Frame(segment)[..n], limit) == []
  {
    FrameStart(segment, 8 + |segment|);
    if n >= 8 {
      FrameStart(segment, n);
    }
  }

  lemma LargestStream(segments: seq<seq<Byte>>, segment: seq<Byte>, n: nat)
    requires |segment| == MAX_MESSAGE && MAX_MESSAGE <= n <= MAX_MESSAGE + 8
    requires forall i :: 0 <= i < |segments| ==> SegmentOk(segments[i]) && |segments[i]| < MAX_MESSAGE
    ensures n <= |Frame(segment)|
    ensures Overlong(Stream(segments) + Frame(segment)[..n], MAX_MESSAGE)
    ensures Delivered(Stream(segments) + Frame(segment)[..n], MAX_MESSAGE) == segments
  {
    OverlongPart(segment, n, MAX_MESSAGE);
    StreamThen(segments, Frame(segment)[..n], MAX_MESSAGE);
    assert segments + [] == segments;
  }

  /** A new connection drains a stream. */
  method Receive(usable: nat, incoming: seq<Byte>, hints: nat -> nat, slack: nat -> nat) returns (c: Connection, tripped: bool)
    requires READ_BUF <= usable
    ensures c.bufLen <= c.buf.Length
    ensures Outcome(incoming, c.delivered, c.buf[..c.bufLen], c.open, tripped, Limit(usable, slack))
  {
    ghost var limit := Limit(usable, slack);
    c := new Connection(usable);
    assert c.buf[..0] + incoming == incoming;
    tripped := c.HandleRead(incoming, hints, slack);
    ghost var found :| c.delivered == [] + found && Outcome(incoming, found, c.buf[..c.bufLen], c.open, tripped, limit);
    assert [] + found == found;
  }

  /** The size test lets a segment of the full limit pass. Over a buffer that the allocator
      never rounds up, its frame closes the connection once as many bytes as the limit have
      arrived, after all smaller ones before it were handed on. */
  method LargestFrameCloses(segments: seq<seq<Byte>>, segment: seq<Byte>, n: nat, hints: nat -> nat)
    returns (c: Connection, tripped: bool)
    requires |segment| == MAX_MESSAGE && MAX_MESSAGE <= n <= MAX_MESSAGE + 8
    requires forall i :: 0 <= i < |segments| ==> SegmentOk(segments[i]) && |segments[i]| < MAX_MESSAGE
    ensures tripped && !c.open && c.delivered == segments
  {
    LargestStream(segments, segment, n);
    ExactLimit(NO_SLACK);
    c, tripped := Receive(READ_BUF, Stream(segments) + Frame(segment)[..n], hints, NO_SLACK);
  }

  /** Any stream of smaller frames is handed on whole. */
  method SmallerFramesPass(segments: seq<seq<Byte>>, hints: nat -> nat) returns (c: Connection, tripped: bool)
    requires forall i :: 0 <= i < |segments| ==> SegmentOk(segments[i]) && |segments[i]| < MAX_MESSAGE
    ensures !tripped && c.open && c.delivered == segments && c.bufLen == 0
  {
    StreamThen(segments, [], MAX_MESSAGE);
    StreamParses(segments, []);
    assert segments + [] == segments && Stream(segments) + [] == Stream(segments);
    ExactLimit(NO_SLACK);
    c, tripped := Receive(READ_BUF, Stream(segments), hints, NO_SLACK);
    assert |c.buf[..c.bufLen]| == 0;
  }
}
