/**
 * Line framing between libephmem and ephemerald: a message ends at the first newline, however
 * the kernel cuts the byte stream into reads and writes.
 */
module Framing {
  import opened Granularity

  newtype byte = x: int | 0 <= x < 256

  const NEWLINE: byte := 10
  const NUL: byte := 0

  // ---------------------------------------------------------------- what a stream says

  /** `n` is the position of the first newline. */
  ghost predicate EndsAt(stream: seq<byte>, n: nat) {
    n < |stream| && stream[n] == NEWLINE && NEWLINE !in stream[..n]
  }

  /** The message that a buffer of `size` bytes gets from a stream, if it gets one. */
  ghost predicate Message(stream: seq<byte>, size: nat, m: seq<byte>) {
    EndsAt(stream, |m|) && m == stream[..|m|] && |m| + 1 < size
  }

  /** A stream gives at most one message. */
  lemma MessageIsUnique(stream: seq<byte>, size: nat, m: seq<byte>, other: seq<byte>)
    requires Message(stream, size, m) && Message(stream, size, other)
    ensures m == other
  {
    NoneBefore(stream, |m|);
    NoneBefore(stream, |other|);
  }

  lemma NoneBefore(stream: seq<byte>, n: nat)
    requires n <= |stream| && NEWLINE !in stream[..n]
    ensures forall k :: 0 <= k < n ==> stream[k] != NEWLINE
  {
    assert forall k :: 0 <= k < n ==> stream[k] == stream[..n][k];
  }

  /**
   * Sent and received. A message without a newline that fits with its terminator is what the
   * other side reads, whatever follows it; one that does not fit is refused.
   */
  lemma SentIsReceived(m: seq<byte>, rest: seq<byte>, size: nat)
    requires NEWLINE !in m
    ensures Message(m + [NEWLINE] + rest, size, m) <==> |m| + 1 < size
    ensures |m| + 1 >= size ==> forall other :: !Message(m + [NEWLINE] + rest, size, other)
  {
    var stream := m + [NEWLINE] + rest;
    assert stream[..|m|] == m;
    assert EndsAt(stream, |m|);
    forall other | |m| + 1 >= size ensures !Message(stream, size, other) {
      if |other| + 1 < size {
        assert stream[|other|] == m[|other|];
        assert m[|other|] in m;
      }
    }
  }

  // ---------------------------------------------------------------- sockets

  /**
   * The receiving end. `incoming` is what arrives before the peer closes, a poll times out or the
   * socket fails; `interrupts` bounds how often a signal interrupts a call.
   */
  class Source {
    var incoming: seq<byte>
    var interrupts: nat

    constructor (incoming: seq<byte>, interrupts: nat)
      ensures this.incoming == incoming && this.interrupts == interrupts
    {
      this.incoming, this.interrupts := incoming, interrupts;
    }

    /** `poll`, then `recv` of at most `max` bytes to `buf[at..]`: -1 is an interrupt, 0 the end. */
    method Recv(buf: array<byte>, at: nat, max: nat) returns (n: int)
      requires 0 < max && at + max <= buf.Length
      modifies this, buf
      ensures -1 <= n <= max && n <= |old(incoming)|
      ensures n == -1 ==> interrupts < old(interrupts) && incoming == old(incoming)
      ensures n == 0 <==> old(incoming) == [] && n != -1
      ensures n > 0 ==> interrupts == old(interrupts) && incoming == old(incoming)[n..]
      ensures n > 0 ==> buf[at..at + n] == old(incoming)[..n]
      ensures forall i :: 0 <= i < buf.Length && !(at <= i < at + n) ==> buf[i] == old(buf[i])
    {
      var again :| again ==> interrupts > 0;
      if again {
        interrupts := interrupts - 1;
        return -1;
      }
      if incoming == [] {
        return 0;
      }
      n :| 1 <= n <= max && n <= |incoming|;
      for i := 0 to n
        invariant incoming == old(incoming) && buf[at..at + i] == incoming[..i] && interrupts == old(interrupts)
        invariant forall j :: 0 <= j < buf.Length && !(at <= j < at + i) ==> buf[j] == old(buf[j])
      {
        buf[at + i] := incoming[i];
      }
      incoming := incoming[n..];
    }
  }

  /** The sending end: what has been written, and how much it takes before it breaks, if ever. */
  class Sink {
    var written: seq<byte>
    var room: Option<nat>
    var interrupts: nat

    constructor (room: Option<nat>, interrupts: nat)
      ensures written == [] && this.room == room && this.interrupts == interrupts
    {
      written, this.room, this.interrupts := [], room, interrupts;
    }

    /** `send`: some nonempty part of the data is taken; -1 is an interrupt, -2 a failure. */
    method Send(data: seq<byte>) returns (n: int)
      requires data != []
      modifies this
      ensures -2 <= n <= |data| && n != 0 && (n == -2 ==> old(room) == Some(0))
      ensures n < 0 ==> written == old(written) && room == old(room)
      ensures n == -1 ==> interrupts < old(interrupts)
      ensures n > 0 ==> written == old(written) + data[..n] && interrupts == old(interrupts)
      ensures n > 0 && old(room) == None ==> room == None
      ensures n > 0 && old(room).Some? ==> n <= old(room).value && room == Some(old(room).value - n)
    {
      var again :| again ==> interrupts > 0;
      if again {
        interrupts := interrupts - 1;
        return -1;
      }
      if room == Some(0) {
        return -2;
      }
      n :| 1 <= n <= |data| && (room.Some? ==> n <= room.value);
      written := written + data[..n];
      room := if room.Some? then Some(room.value - n) else None;
    }
  }

  // ---------------------------------------------------------------- libephmem

  /** How much of a request a socket takes. */
  function Taken(room: Option<nat>, size: nat): nat {
    if room.Some? then Min(size, room.value) else size
  }

  /** `libephmem_send`: everything is written, in order and once, unless the socket breaks first. */
  method LibephmemSend(sock: Sink, req: seq<byte>) returns (result: int)
    modifies sock
    ensures sock.written == old(sock.written) + req[..Taken(old(sock.room), |req|)]
    ensures result == if Taken(old(sock.room), |req|) == |req| then 0 else -1
    ensures result == 0 <==> old(sock.room).None? || |req| <= old(sock.room).value
    ensures result == 0 ==> sock.written == old(sock.written) + req
    ensures result != 0 ==> sock.written == old(sock.written) + req[..old(sock.room).value]
  {
    var left, total := |req|, 0;
    while left > 0
      invariant 0 <= left && 0 <= total && total + left == |req| && sock.written == old(sock.written) + req[..total]
      invariant Taken(old(sock.room), |req|) == total + Taken(sock.room, left)
      decreases left, sock.interrupts
    {
      var sent := sock.Send(req[total..]);
      if sent == -2 {
        return -1;
      }
      if sent > 0 {
        Joined(req, total, sent);
        left, total := left - sent, total + sent;
      }
    }
    return 0;
  }

  lemma Joined(s: seq<byte>, k: nat, n: nat)
    requires k + n <= |s|
    ensures s[..k] + s[k..][..n] == s[..k + n]
  {
  }

  /** What has been received so far is the start of the stream, without a newline. */
  ghost predicate Received(stream: seq<byte>, buf: seq<byte>, rest: seq<byte>, total: nat) {
    && total <= |stream| && total < |buf| && rest == stream[total..]
    && buf[..total] == stream[..total] && NEWLINE !in stream[..total]
  }

  lemma ReceivedMore(stream: seq<byte>, was: seq<byte>, buf: seq<byte>, rest: seq<byte>, total: nat, n: nat)
    requires Received(stream, was, rest, total) && n <= |rest| && |buf| == |was| && total + n < |buf|
    requires buf[..total] == was[..total] && buf[total..total + n] == rest[..n] && NEWLINE !in rest[..n]
    ensures Received(stream, buf, rest[n..], total + n)
  {
    assert stream[..total + n] == stream[..total] + rest[..n];
    assert buf[..total + n] == buf[..total] + buf[total..total + n];
  }

  /**
   * The message `m` and a terminator are in the buffer, and `n` bytes are gone from the stream:
   * the message, its newline, and whatever else came with the same read.
   */
  ghost predicate TakenOff(stream: seq<byte>, buf: seq<byte>, rest: seq<byte>, m: seq<byte>, n: nat) {
    Message(stream, |buf|, m) && m + [NUL] <= buf && |m| < n <= |stream| && n < |buf| && rest == stream[n..]
  }

  /** The newline is found at `i` of a read. */
  lemma ReceivedAll(stream: seq<byte>, was: seq<byte>, buf: seq<byte>, rest: seq<byte>, total: nat, n: nat, i: nat)
    requires Received(stream, was, rest, total) && i < n <= |rest| && |buf| == |was| && total + n < |buf|
    requires buf[..total] == was[..total] && buf[total..total + n] == rest[..n]
    requires rest[i] == NEWLINE && NEWLINE !in rest[..i]
    ensures Message(stream, |buf|, buf[..total + i])
  {
    assert stream[..total + i] == stream[..total] + rest[..i];
    assert buf[total..total + i] == buf[total..total + n][..i];
    assert buf[..total + i] == buf[..total] + buf[total..total + i];
  }

  lemma NoMessage(stream: seq<byte>, buf: seq<byte>, rest: seq<byte>, total: nat)
    requires Received(stream, buf, rest, total) && (rest == [] || total + 1 == |buf|)
    ensures forall m :: !Message(stream, |buf|, m)
  {
    NoneBefore(stream, total);
  }

  /** One turn of the loop of `libephmem_recv`. */
  method RecvOnce(sock: Source, buf: array<byte>, total: nat, ghost stream: seq<byte>) returns (done: bool, result: int,
                  total': nat)
    requires total + 1 < buf.Length && Received(stream, buf[..], sock.incoming, total)
    modifies sock, buf
    ensures buf[buf.Length - 1] == old(buf[buf.Length - 1])
    ensures done ==> result == 0 || result == -1
    ensures done && result == 0 ==> exists m, n :: TakenOff(stream, buf[..], sock.incoming, m, n)
    ensures done && result == -1 ==> forall m :: !Message(stream, buf.Length, m)
    ensures !done ==> total' < buf.Length && Received(stream, buf[..], sock.incoming, total')
    ensures !done ==> total' > total || (total' == total && sock.interrupts < old(sock.interrupts))
  {
    hide Received, Message;
    ghost var was, rest := buf[..], sock.incoming;
    Bounds(stream, was, rest, total);
    var n := sock.Recv(buf, total, buf.Length - 1 - total);
    total' := total;
    assert buf[..][..total] == was[..total];
    if n == -1 {
      Retold(stream, was, buf[..], rest, total);
      return false, 0, total;
    }
    if n == 0 {
      NoMessage(stream, was, rest, total);
      return true, -1, total;
    }
    assert buf[..][total..total + n] == rest[..n];
    for i := 0 to n
      invariant buf[..][..total] == was[..total] && buf[..][total..total + n] == rest[..n]
      invariant NEWLINE !in rest[..i] && sock.incoming == rest[n..] && buf[buf.Length - 1] == old(buf[buf.Length - 1])
    {
      assert buf[total + i] == buf[..][total..total + n][i];
      if buf[total + i] == NEWLINE {
        ReceivedAll(stream, was, buf[..], rest, total, n, i);
        ghost var m := buf[..total + i];
        buf[total + i] := NUL;
        assert m + [NUL] == buf[..total + i + 1];
        assert buf[..total + i + 1] <= buf[..];
        assert TakenOff(stream, buf[..], sock.incoming, m, total + n) by {
          Rest(stream, total, n);
        }
        return true, 0, total + i;
      }
      assert rest[..i + 1] == rest[..i] + [rest[i]];
    }
    ReceivedMore(stream, was, buf[..], rest, total, n);
    return false, 0, total + n;
  }

  lemma Rest(stream: seq<byte>, total: nat, n: nat)
    requires total + n <= |stream|
    ensures stream[total..][n..] == stream[total + n..]
  {
  }

  lemma Bounds(stream: seq<byte>, buf: seq<byte>, rest: seq<byte>, total: nat)
    requires Received(stream, buf, rest, total)
    ensures total < |buf| && total <= |stream| && rest == stream[total..]
  {
  }

  lemma Retold(stream: seq<byte>, was: seq<byte>, buf: seq<byte>, rest: seq<byte>, total: nat)
    requires Received(stream, was, rest, total) && |buf| == |was| && buf[..total] == was[..total]
    ensures Received(stream, buf, rest, total)
  {
  }

  /**
   * `libephmem_recv`. However the stream is cut into reads, the call succeeds exactly if the
   * stream has a first newline that fits, leaves the message and a terminator in the buffer, and
   * never touches the buffer's last byte. Bytes behind the newline may be lost with the read.
   */
  method LibephmemRecv(sock: Source, buf: array<byte>) returns (result: int)
    requires 0 < buf.Length
    modifies sock, buf
    ensures result == 0 || result == -1
    ensures result == 0 ==> exists m, n :: TakenOff(old(sock.incoming), buf[..], sock.incoming, m, n)
    ensures result == -1 ==> forall m :: !Message(old(sock.incoming), buf.Length, m)
    ensures buf[buf.Length - 1] == old(buf[buf.Length - 1])
  {
    hide Received, Message, TakenOff;
    ghost var stream := sock.incoming;
    var total := 0;
    Nothing(stream, buf[..]);
    while total < buf.Length - 1
      invariant 0 <= total < buf.Length && Received(stream, buf[..], sock.incoming, total)
      invariant buf[buf.Length - 1] == old(buf[buf.Length - 1])
      decreases buf.Length - total, sock.interrupts
    {
      var done;
      done, result, total := RecvOnce(sock, buf, total, stream);
      if done {
        return;
      }
    }
    NoMessage(stream, buf[..], sock.incoming, total);
    return -1;
  }

  lemma Nothing(stream: seq<byte>, buf: seq<byte>)
    requires 0 < |buf|
    ensures Received(stream, buf, stream, 0)
  {
  }
}
