/** The client connection the HTTP stack reads from and writes to
    (`embedded_io_async::Read + Write`).

    Writing: a connection accepts a certain number of further `write_all` calls
    and then fails every later one: a peer that has gone away does not come back
    within one response. `budget` is that number. A failed call puts nothing on
    the wire.

    Reading: the peer's behaviour is a script of read results, consumed in order.
    A delivery larger than the caller's buffer is cut to fit and the rest is kept
    for the next call; an exhausted script is the end of the stream. */
module Io {
  import opened Common

  function Min(a: nat, b: nat): nat {
    if a <= b then a else b
  }

  /** Calls still allowed after `n` more calls. */
  function Left(budget: nat, n: nat): (r: nat)
    ensures r <= budget
    ensures budget >= n ==> r == budget - n
    ensures budget < n ==> r == 0
  {
    if budget >= n then budget - n else 0
  }

  /** The bytes that reach the peer when the writes `chunks` are issued in order
      and the first `budget` of them succeed. */
  function Sent(chunks: seq<seq<byte>>, budget: nat): seq<byte> {
    Concat(chunks[..Min(|chunks|, budget)])
  }

  lemma SentAppend(a: seq<seq<byte>>, b: seq<seq<byte>>, budget: nat)
    ensures Sent(a + b, budget) == Sent(a, budget) + Sent(b, Left(budget, |a|))
  {
    if budget >= |a| {
      var k := Min(|b|, budget - |a|);
      assert (a + b)[..Min(|a + b|, budget)] == a + b[..k];
      assert a[..Min(|a|, budget)] == a;
      ConcatAppend(a, b[..k]);
    } else {
      assert (a + b)[..Min(|a + b|, budget)] == a[..budget];
      assert b[..Min(|b|, 0)] == [];
    }
  }

  /** When every write succeeds the peer receives all chunks. */
  lemma {:induction false} SentAll(chunks: seq<seq<byte>>, budget: nat)
    requires budget >= |chunks|
    ensures Sent(chunks, budget) == Concat(chunks)
  {
    assert chunks[..Min(|chunks|, budget)] == chunks;
  }

  /** What is sent is always a prefix of the full message, and nothing at all
      when no call succeeds. */
  lemma {:induction false} SentIsPrefix(chunks: seq<seq<byte>>, budget: nat)
    ensures Sent(chunks, budget) <= Concat(chunks)
    ensures budget == 0 ==> Sent(chunks, budget) == []
  {
    var k := Min(|chunks|, budget);
    assert chunks == chunks[..k] + chunks[k..];
    ConcatAppend(chunks[..k], chunks[k..]);
  }

  lemma SentNothing(budget: nat)
    ensures Sent([], budget) == []
  {
  }

  /** The output and the calls left after the writes `chunks` are issued in
      order on a connection that has written `out` and has `budget` calls left. */
  function After(out: seq<byte>, budget: nat, chunks: seq<seq<byte>>): (seq<byte>, nat) {
    (out + Sent(chunks, budget), Left(budget, |chunks|))
  }

  /** Issuing nothing changes nothing. */
  lemma AfterNothing(out: seq<byte>, budget: nat)
    ensures After(out, budget, []) == (out, budget)
  {
    assert out + [] == out;
  }

  /** Issuing `a` and then `b` is issuing `a + b`; all of them succeed when
      both parts do. */
  lemma AfterThen(out: seq<byte>, budget: nat, a: seq<seq<byte>>, b: seq<seq<byte>>)
    ensures After(After(out, budget, a).0, After(out, budget, a).1, b) == After(out, budget, a + b)
    ensures budget >= |a + b| <==> budget >= |a| && After(out, budget, a).1 >= |b|
  {
    SentAppend(a, b, budget);
    assert out + Sent(a, budget) + Sent(b, Left(budget, |a|)) == out + (Sent(a, budget) + Sent(b, Left(budget, |a|)));
  }

  /** Once a write has failed, the writes after it add nothing. */
  lemma AfterStop(out: seq<byte>, budget: nat, a: seq<seq<byte>>, b: seq<seq<byte>>)
    requires budget < |a|
    ensures After(out, budget, a + b) == After(out, budget, a)
  {
    SentAppend(a, b, budget);
    SentIsPrefix(b, 0);
    assert Sent(a, budget) + [] == Sent(a, budget);
  }

  /** One write, then the rest with the calls it left. */
  lemma SentFront(x: seq<byte>, rest: seq<seq<byte>>, budget: nat)
    ensures Sent([x] + rest, budget) == Sent([x], budget) + Sent(rest, Left(budget, 1))
    ensures Left(Left(budget, 1), |rest|) == Left(budget, 1 + |rest|)
    ensures budget >= 1 + |rest| <==> budget > 0 && Left(budget, 1) >= |rest|
  {
    SentAppend([x], rest, budget);
  }

  /** Three writes in a row: each gets the calls the previous ones left. */
  lemma SentThree(x: seq<byte>, y: seq<byte>, z: seq<byte>, budget: nat)
    ensures Sent([x, y, z], budget)
            == Sent([x], budget) + Sent([y], Left(budget, 1)) + Sent([z], Left(Left(budget, 1), 1))
    ensures Left(Left(Left(budget, 1), 1), 1) == Left(budget, 3)
    ensures budget >= 3 <==> budget > 0 && Left(budget, 1) > 0 && Left(Left(budget, 1), 1) > 0
  {
    SentAppend([x], [y], budget);
    assert [x] + [y] == [x, y];
    SentAppend([x, y], [z], budget);
    assert [x, y] + [z] == [x, y, z];
  }

  // ---------------------------------------------------------------------------
  // Reading

  datatype ErrorKind = ConnectionReset | OtherError

  /** What one `read` call returns: some bytes (none at all means the end of
      the stream) or an error. */
  datatype ReadResult = Data(bytes: seq<byte>) | Failed(kind: ErrorKind)

  /** One `read` into a buffer of `room` bytes, and the script left after it. */
  function Take(input: seq<ReadResult>, room: nat): (r: (ReadResult, seq<ReadResult>))
    ensures r.0.Data? ==> |r.0.bytes| <= room
  {
    if input == [] then (Data([]), [])
    else match input[0]
      case Failed(k) => (Failed(k), input[1..])
      case Data(b) =>
        if |b| <= room then (Data(b), input[1..])
        else (Data(b[..room]), [Data(b[room..])] + input[1..])
  }

  /** The bytes the peer sends before the stream ends or fails. */
  function Stream(input: seq<ReadResult>): seq<byte> {
    if input == [] then []
    else match input[0]
      case Failed(_) => []
      case Data(b) => if b == [] then [] else b + Stream(input[1..])
  }

  /** How much the script still holds: one for each read result and one for
      each byte. Every read that delivers bytes makes it smaller. */
  function Remaining(input: seq<ReadResult>): nat {
    if input == [] then 0
    else 1 + (if input[0].Data? then |input[0].bytes| else 0) + Remaining(input[1..])
  }

  lemma TakeRemaining(input: seq<ReadResult>, room: nat)
    ensures Remaining(Take(input, room).1) <= Remaining(input)
    ensures Take(input, room).0.Data? && Take(input, room).0.bytes != [] ==>
              Remaining(Take(input, room).1) < Remaining(input)
  {
    if input != [] && input[0].Data? && |input[0].bytes| > room {
      var b := input[0].bytes;
      var rest := [Data(b[room..])] + input[1..];
      assert rest[0] == Data(b[room..]) && rest[1..] == input[1..];
    }
  }

  /** A read delivers the front of the stream and leaves the rest of it; it
      reports the end or an error only when the stream has nothing more. */
  lemma TakeStream(input: seq<ReadResult>, room: nat)
    requires room > 0
    ensures Take(input, room).0.Data? && Take(input, room).0.bytes != [] ==>
              Take(input, room).0.bytes + Stream(Take(input, room).1) == Stream(input)
    ensures Take(input, room).0 == Data([]) || Take(input, room).0.Failed? <==> Stream(input) == []
  {
    if input != [] && input[0].Data? && |input[0].bytes| > room {
      var b := input[0].bytes;
      var rest := [Data(b[room..])] + input[1..];
      assert rest[0] == Data(b[room..]) && rest[1..] == input[1..];
      assert Stream(rest) == b[room..] + Stream(input[1..]);
      assert b[..room] + b[room..] == b;
    }
  }

  /** `b` in front of a `read_exact` outcome. */
  function Prepend(b: seq<byte>, r: (Option<seq<byte>>, seq<ReadResult>)): (Option<seq<byte>>, seq<ReadResult>) {
    (if r.0.Some? then Some(b + r.0.value) else None, r.1)
  }

  /** `read_exact`: reads until `n` bytes have arrived; the end of the stream
      or an error before that is a failure. */
  function ReadExactSpec(input: seq<ReadResult>, n: nat): (r: (Option<seq<byte>>, seq<ReadResult>))
    ensures r.0.Some? ==> |r.0.value| == n
    decreases n
  {
    if n == 0 then (Some([]), input)
    else
      var t := Take(input, n);
      if t.0.Failed? || t.0.bytes == [] then (None, t.1)
      else Prepend(t.0.bytes, ReadExactSpec(t.1, n - |t.0.bytes|))
  }

  /** `read_exact` succeeds exactly when the stream holds `n` more bytes, and
      then returns the first `n` of them and leaves the rest. */
  lemma {:induction false} ReadExactStream(input: seq<ReadResult>, n: nat)
    ensures ReadExactSpec(input, n).0.Some? <==> |Stream(input)| >= n
    ensures ReadExactSpec(input, n).0.Some? ==>
              ReadExactSpec(input, n).0.value == Stream(input)[..n]
              && Stream(ReadExactSpec(input, n).1) == Stream(input)[n..]
    decreases n
  {
    if n > 0 {
      TakeStream(input, n);
      var (res, rest) := Take(input, n);
      if res.Data? && res.bytes != [] {
        var b := res.bytes;
        ReadExactStream(rest, n - |b|);
        var s := Stream(input);
        assert s == b + Stream(rest);
        if |Stream(rest)| >= n - |b| {
          assert s[..n] == b + Stream(rest)[..n - |b|];
          assert s[n..] == Stream(rest)[n - |b|..];
        }
      }
    }
  }

  /** `read_exact` never adds input, and one that delivers at least one
      byte uses some up. */
  lemma {:induction false} ReadExactShrinks(input: seq<ReadResult>, n: nat)
    ensures Remaining(ReadExactSpec(input, n).1) <= Remaining(input)
    ensures n > 0 && ReadExactSpec(input, n).0.Some? ==> Remaining(ReadExactSpec(input, n).1) < Remaining(input)
    decreases n
  {
    if n > 0 {
      TakeRemaining(input, n);
      var t := Take(input, n);
      if !(t.0.Failed? || t.0.bytes == []) {
        ReadExactShrinks(t.1, n - |t.0.bytes|);
      }
    }
  }

  /** `read_exact` after one successful read. */
  lemma ReadExactStep(input: seq<ReadResult>, n: nat, b: seq<byte>, rest: seq<ReadResult>)
    requires n > 0 && Take(input, n).0 == Data(b) && Take(input, n).1 == rest && b != []
    ensures |b| <= n
    ensures ReadExactSpec(input, n) == Prepend(b, ReadExactSpec(rest, n - |b|))
  {
  }

  /** `read_exact` after a read that reports the end or an error. */
  lemma ReadExactStop(input: seq<ReadResult>, n: nat, rest: seq<ReadResult>)
    requires n > 0 && (Take(input, n).0.Failed? || Take(input, n).0 == Data([])) && Take(input, n).1 == rest
    ensures ReadExactSpec(input, n) == (None, rest)
  {
  }

  lemma PrependNothing(r: (Option<seq<byte>>, seq<ReadResult>))
    ensures Prepend([], r) == r
  {
    if r.0.Some? {
      assert [] + r.0.value == r.0.value;
    }
  }

  lemma PrependTwice(a: seq<byte>, b: seq<byte>, r: (Option<seq<byte>>, seq<ReadResult>))
    ensures Prepend(a, Prepend(b, r)) == Prepend(a + b, r)
  {
    if r.0.Some? {
      assert a + (b + r.0.value) == a + b + r.0.value;
    }
  }

  class Client {
    var out: seq<byte>
    var budget: nat
    var input: seq<ReadResult>

    constructor (budget: nat, input: seq<ReadResult>)
      ensures out == [] && this.budget == budget && this.input == input
    {
      out := [];
      this.budget := budget;
      this.input := input;
    }

    /** `write_all`: all of `data` or, once the connection is gone, nothing. */
    method WriteAll(data: seq<byte>) returns (ok: bool)
      modifies this
      ensures ok == (old(budget) > 0)
      ensures out == old(out) + Sent([data], old(budget))
      ensures budget == Left(old(budget), 1) && input == old(input)
    {
      ok := budget > 0;
      if ok {
        out := out + data;
        budget := budget - 1;
        assert [data][..1] == [data];
        assert Concat([data]) == Concat([]) + data;
      } else {
        assert [data][..0] == [];
      }
    }

    /** `read` into `a[from..from + room]`: the bytes delivered land at the
        front of that range; nothing else in the buffer changes. */
    method ReadInto(a: array<byte>, from: nat, room: nat) returns (r: ReadResult)
      requires from + room <= a.Length
      modifies this, a
      ensures r == Take(old(input), room).0 && input == Take(old(input), room).1
      ensures out == old(out) && budget == old(budget)
      ensures r.Data? ==> |r.bytes| <= room && forall k :: 0 <= k < |r.bytes| ==> a[from + k] == r.bytes[k]
      ensures forall k :: 0 <= k < a.Length && !(r.Data? && from <= k < from + |r.bytes|) ==> a[k] == old(a[k])
    {
      var next := Take(input, room);
      r, input := next.0, next.1;
      if r.Data? {
        var b := r.bytes;
        forall k | 0 <= k < |b| {
          a[from + k] := b[k];
        }
      }
    }

    /** `read_exact` into `a[from..from + n]`: one read into the range, then
        the rest of it; what a failure leaves in the range is left open. */
    method ReadExactInto(a: array<byte>, from: nat, n: nat) returns (ok: bool)
      requires from + n <= a.Length
      modifies this, a
      ensures ok == ReadExactSpec(old(input), n).0.Some?
      ensures input == ReadExactSpec(old(input), n).1
      ensures out == old(out) && budget == old(budget)
      ensures ok ==> a[from..from + n] == ReadExactSpec(old(input), n).0.value
      ensures forall k :: 0 <= k < a.Length && !(from <= k < from + n) ==> a[k] == old(a[k])
      decreases n
    {
      if n == 0 {
        return true;
      }
      ghost var in0 := input;
      var r := ReadInto(a, from, n);
      if r.Failed? || r.bytes == [] {
        ReadExactStop(in0, n, input);
        return false;
      }
      var b := r.bytes;
      ReadExactStep(in0, n, b, input);
      ghost var later := ReadExactSpec(input, n - |b|);
      assert a[from..from + |b|] == b;
      ok := ReadExactInto(a, from + |b|, n - |b|);
      if ok {
        assert a[from..from + |b|] == b;
        assert ReadExactSpec(in0, n).0.value == b + later.0.value;
        assert a[from..from + n] == a[from..from + |b|] + a[from + |b|..from + n];
      }
    }
  }
}
