/**
 The result pipe between shr_sandbox_begin() and its child (shared/sandbox-util.c), over the
 read and write loops of shared/io-util.h.  The child sends a marker once it is in the sandbox,
 then a length and a payload, and may stop at any byte; reads and writes may be short,
 interrupted or fail at any point.
 */
module SandboxPipe {
  import opened Wrappers
  import opened Arith

  const MARKER: Byte := 83  // 'S'
  const UNAVAILABLE: nat := 125
  const MAX_OUTPUT: nat := 64 * 1024 * 1024

  // ----- a 64-bit length in memory -----

  function Encode(v: nat, n: nat): (b: seq<Byte>)
    ensures |b| == n
  {
    if n == 0 then [] else [v % 256] + Encode(v / 256, n - 1)
  }

  function Decode(b: seq<Byte>): (v: nat)
  {
    if b == [] then 0 else b[0] + 256 * Decode(b[1..])
  }

  function Limit(n: nat): (l: nat)
    ensures l > 0
  {
    if n == 0 then 1 else 256 * Limit(n - 1)
  }

  lemma {:induction false} DecodeEncode(v: nat, n: nat)
    requires v < Limit(n)
    ensures Decode(Encode(v, n)) == v
  {
    if n > 0 {
      DecodeEncode(v / 256, n - 1);
      assert Encode(v, n)[1..] == Encode(v / 256, n - 1);
    }
  }

  lemma {:induction false} EncodeDecode(b: seq<Byte>)
    ensures Decode(b) < Limit(|b|) && Encode(Decode(b), |b|) == b
    decreases |b|
  {
    if b != [] {
      EncodeDecode(b[1..]);
      assert Decode(b) / 256 == Decode(b[1..]) && Decode(b) % 256 == b[0];
    }
  }

  lemma LimitIs64()
    ensures Limit(8) == TWO64
  {
    assert Limit(2) == 0x1_0000;
    assert Limit(4) == 0x1_0000_0000;
    assert Limit(6) == 0x1_0000_0000_0000;
  }

  function Length(n: nat): (b: seq<Byte>)
    ensures |b| == 8
  {
    Encode(n, 8)
  }

  lemma LengthInjective(m: nat, n: nat)
    requires m < TWO64 && n < TWO64 && Length(m) == Length(n)
    ensures m == n
  {
    LimitIs64();
    DecodeEncode(m, 8);
    DecodeEncode(n, 8);
  }

  // ----- the reading end -----

  /** What the next read() does: at most `n` bytes, a signal, or an error. */
  datatype ReadEvent = Upto(n: nat) | Signal | Failure

  datatype ReadResult = Bytes(data: seq<Byte>) | Interrupted | Error

  /** `used` holds no failure, or only one, at its end. */
  predicate ReadsBy(used: seq<ReadEvent>, ok: bool)
  {
    if ok then Failure !in used
    else used != [] && used[|used| - 1] == Failure && Failure !in used[..|used| - 1]
  }

  /** The events in front of `after` are gone. */
  ghost predicate ReadsTo(before: seq<ReadEvent>, after: seq<ReadEvent>, ok: bool)
  {
    exists used :: ReadsBy(used, ok) && before == used + after
  }

  lemma ReadsNothing(events: seq<ReadEvent>)
    ensures ReadsTo(events, events, true)
  {
    assert ReadsBy([], true) && events == [] + events;
  }

  lemma ReadsNext(before: seq<ReadEvent>, after: seq<ReadEvent>)
    requires ReadsTo(before, after, true)
    ensures after != [] ==> ReadsTo(before, after[1..], after[0] != Failure)
  {
    if after != [] {
      var used :| ReadsBy(used, true) && before == used + after;
      OneMoreRead(used, after[0]);
      hide ReadsBy;
      assert before == used + [after[0]] + after[1..];
    }
  }

  lemma OneMoreRead(used: seq<ReadEvent>, e: ReadEvent)
    requires ReadsBy(used, true)
    ensures ReadsBy(used + [e], e != Failure)
  {
    assert (used + [e])[..|used|] == used;
  }

  lemma ReadsFacts(before: seq<ReadEvent>, after: seq<ReadEvent>, ok: bool)
    requires ReadsTo(before, after, ok)
    ensures !ok ==> Failure in before
    ensures forall e :: e in after ==> e in before
  {
  }

  class ReadEnd {
    const stream: seq<Byte>    // all that the other end wrote before it was closed
    var pos: nat
    var events: seq<ReadEvent>

    ghost predicate Valid()
      reads this
    {
      pos <= |stream|
    }

    constructor (stream: seq<Byte>, events: seq<ReadEvent>)
      ensures Valid() && this.stream == stream && pos == 0 && this.events == events
    {
      this.stream := stream;
      this.pos := 0;
      this.events := events;
    }

    /** read(): some of the next bytes, none only at the end of the stream. */
    method Read(len: nat) returns (r: ReadResult)
      requires Valid() && len > 0
      modifies this
      ensures Valid() && pos >= old(pos)
      ensures |events| <= |old(events)| && (!r.Bytes? ==> |events| < |old(events)| && pos == old(pos))
      ensures r.Bytes? ==> r.data == stream[old(pos)..pos] && pos <= old(pos) + len
      ensures r.Bytes? && r.data == [] ==> pos == |stream|
      ensures old(events) == [] ==> r.Bytes? && events == []
      ensures old(events) != [] ==> events == old(events)[1..] && (r.Error? <==> old(events)[0] == Failure)
    {
      var n := len;
      if events != [] {
        var e := events[0];
        events := events[1..];
        match e {
          case Signal => return Interrupted;
          case Failure => return Error;
          case Upto(m) => n := if 0 < m < len then m else len;
        }
      }
      var stop := if |stream| - pos < n then |stream| else pos + n;
      r := Bytes(stream[pos..stop]);
      pos := stop;
    }

    /** shr_read_full(): stops early only at the end of the stream, or with an error. */
    method ReadFull(len: nat) returns (ok: bool, data: seq<Byte>)
      requires Valid()
      modifies this
      ensures Valid() && pos >= old(pos)
      ensures ok ==> data == stream[old(pos)..pos] && |data| <= len && (|data| < len ==> pos == |stream|)
      ensures ReadsTo(old(events), events, ok)
    {
      hide ReadsTo;
      data := [];
      ReadsNothing(events);
      while |data| < len
        invariant Valid() && pos >= old(pos) && |data| <= len && data == stream[old(pos)..pos]
        invariant ReadsTo(old(events), events, true)
        decreases |events|, len - |data|
      {
        ReadsNext(old(events), events);
        ghost var from := pos;
        var n := Read(len - |data|);
        match n {
          case Interrupted =>
          case Error => return false, [];
          case Bytes(b) =>
            if b == [] {
              return true, data;
            }
            assert stream[old(pos)..from] + b == stream[old(pos)..pos];
            data := data + b;
        }
      }
      ok := true;
    }
  }

  // ----- the frame -----

  /** The stream of a child that handed over `buf`. */
  function Frame(buf: seq<Byte>): (s: seq<Byte>)
  {
    [MARKER] + Length(|buf|) + buf
  }

  /** The payload behind a length that announces it exactly, at most 64 MiB. */
  function Unpack(rest: seq<Byte>): (r: Option<seq<Byte>>)
  {
    if |rest| < 8 then None
    else
      var len := Decode(rest[..8]);
      if len > MAX_OUTPUT || |rest| != 8 + len then None else Some(rest[8..])
  }

  lemma UnpackIff(rest: seq<Byte>, buf: seq<Byte>)
    ensures Unpack(rest) == Some(buf) <==> |buf| <= MAX_OUTPUT && rest == Length(|buf|) + buf
  {
    LimitIs64();
    if |buf| <= MAX_OUTPUT && rest == Length(|buf|) + buf {
      assert rest[..8] == Length(|buf|) && rest[8..] == buf;
      DecodeEncode(|buf|, 8);
    }
    if Unpack(rest) == Some(buf) {
      EncodeDecode(rest[..8]);
      assert rest == rest[..8] + rest[8..];
    }
  }

  /** What the parent makes of a stream that it could read to its end. */
  function Received(stream: seq<Byte>): (r: Option<seq<Byte>>)
  {
    if stream == [] || stream[0] != MARKER then None else Unpack(stream[1..])
  }

  lemma ReceivedIff(stream: seq<Byte>, buf: seq<Byte>)
    ensures Received(stream) == Some(buf) <==> |buf| <= MAX_OUTPUT && stream == Frame(buf)
  {
    if stream != [] {
      UnpackIff(stream[1..], buf);
      assert stream == [stream[0]] + stream[1..];
    }
    if stream == Frame(buf) {
      assert stream[1..] == Length(|buf|) + buf;
    }
  }

  // ----- the parent -----

  datatype Status = Exited(code: nat) | Signalled

  datatype Where = Done(buf: seq<Byte>) | Off | Fails

  /** sandbox_read_output(): the length, the payload, and nothing after it. */
  method ReadOutput(p: ReadEnd, mallocOk: bool) returns (ok: bool, buf: seq<Byte>)
    requires p.Valid()
    modifies p
    ensures p.Valid()
    ensures ok ==> mallocOk && Unpack(p.stream[old(p.pos)..]) == Some(buf)
    ensures !ok && Failure !in old(p.events) ==> !mallocOk || Unpack(p.stream[old(p.pos)..]) == None
  {
    hide ReadsTo;
    ghost var rest := p.stream[p.pos..];
    ok, buf := false, [];
    ghost var readOkAt := p.events;
    var readOk, header := p.ReadFull(8);
    ReadsFacts(readOkAt, p.events, readOk);
    if !readOk || |header| != 8 {
      return;
    }
    assert rest[..8] == header;
    var len := Decode(header);
    if len > MAX_OUTPUT || !mallocOk {
      return;
    }
    ghost var bodyOkAt := p.events;
    var bodyOk, body := p.ReadFull(len);
    ReadsFacts(bodyOkAt, p.events, bodyOk);
    if !bodyOk || |body| != len {
      return;
    }
    assert rest[8..8 + len] == body;
    ghost var endOkAt := p.events;
    var endOk, extra := p.ReadFull(1);
    ReadsFacts(endOkAt, p.events, endOk);
    if !endOk || extra != [] {
      return;
    }
    assert rest[8..] == body;
    return true, body;
  }

  /**
   The parent's part of shr_sandbox_begin() after the fork.  `waited` tells whether waitpid() gave a
   status; without one, `status` is whatever the variable holds.
   */
  method Parent(p: ReadEnd, mallocOk: bool, waited: bool, status: Status) returns (r: Where)
    requires p.Valid() && p.pos == 0
    modifies p
    ensures r.Done? ==> Received(p.stream) == Some(r.buf) && waited && status == Exited(0)
    ensures r.Off? ==> p.stream == [] && status == Exited(UNAVAILABLE)
    ensures Failure !in old(p.events) ==>
      r == if p.stream == [] then (if status == Exited(UNAVAILABLE) then Off else Fails)
           else if Received(p.stream).Some? && status == Exited(0) && mallocOk && waited
             then Done(Received(p.stream).value)
           else Fails
  {
    hide ReadsTo;
    var err, buf := true, [];
    var ok, m := p.ReadFull(1);
    ReadsFacts(old(p.events), p.events, ok);
    assert ok && |m| == 1 ==> m[0] == p.stream[0] && p.pos == 1;
    if ok && |m| == 1 && m[0] == MARKER {
      var outOk, b := ReadOutput(p, mallocOk);
      err, buf := !outOk, b;
    }
    if !waited {
      err := true;
    }
    if ok && m == [] {
      return if status == Exited(UNAVAILABLE) then Off else Fails;
    }
    if !err && status != Exited(0) {
      err := true;
    }
    r := if err then Fails else Done(buf);
  }

  // ----- the writing end -----

  /** What the next write() does: at most `n` bytes, a signal or a full pipe, an error, or the process is killed. */
  datatype WriteEvent = Takes(n: nat) | Retry | WriteError | Killed

  /** How far shr_write_all() got. */
  datatype Written = AllWritten | WriteFailed | ProcessKilled

  /** Writes that may be short or retried, but neither fail nor stop. */
  ghost predicate Harmless(events: seq<WriteEvent>)
  {
    forall i :: 0 <= i < |events| ==> events[i] == Retry || (events[i].Takes? && events[i].n > 0)
  }

  /** What an event makes of shr_write_all(). */
  function EndedBy(e: WriteEvent): (r: Written)
  {
    if e == Killed then ProcessKilled
    else if e == WriteError || e == Takes(0) then WriteFailed
    else AllWritten
  }

  /** `used` is harmless, but for its last event if that ended the writing. */
  ghost predicate WritesBy(used: seq<WriteEvent>, r: Written)
  {
    if r == AllWritten then Harmless(used)
    else used != [] && EndedBy(used[|used| - 1]) == r && Harmless(used[..|used| - 1])
  }

  /** The events in front of `after` are gone. */
  ghost predicate WritesTo(before: seq<WriteEvent>, after: seq<WriteEvent>, r: Written)
  {
    exists used :: WritesBy(used, r) && before == used + after
  }

  lemma WritesNothing(events: seq<WriteEvent>)
    ensures WritesTo(events, events, AllWritten)
  {
    assert WritesBy([], AllWritten) && events == [] + events;
  }

  lemma WritesNext(before: seq<WriteEvent>, after: seq<WriteEvent>)
    requires WritesTo(before, after, AllWritten)
    ensures after != [] ==> WritesTo(before, after[1..], EndedBy(after[0]))
  {
    if after != [] {
      var used :| WritesBy(used, AllWritten) && before == used + after;
      OneMoreWrite(used, after[0]);
      hide WritesBy, EndedBy;
      assert before == used + [after[0]] + after[1..];
    }
  }

  lemma OneMoreWrite(used: seq<WriteEvent>, e: WriteEvent)
    requires WritesBy(used, AllWritten)
    ensures WritesBy(used + [e], EndedBy(e))
  {
    assert (used + [e])[..|used|] == used;
  }

  lemma HarmlessParts(used: seq<WriteEvent>, after: seq<WriteEvent>)
    requires Harmless(used + after)
    ensures Harmless(used) && Harmless(after)
  {
    forall i | 0 <= i < |used| ensures used[i] == Retry || (used[i].Takes? && used[i].n > 0) {
      assert (used + after)[i] == used[i];
    }
    forall i | 0 <= i < |after| ensures after[i] == Retry || (after[i].Takes? && after[i].n > 0) {
      assert (used + after)[|used| + i] == after[i];
    }
  }

  lemma WritesFacts(before: seq<WriteEvent>, after: seq<WriteEvent>, r: Written)
    requires WritesTo(before, after, r) && Harmless(before)
    ensures r == AllWritten && Harmless(after)
  {
    var used :| WritesBy(used, r) && before == used + after;
    HarmlessParts(used, after);
  }

  class WriteEnd {
    var written: seq<Byte>
    var events: seq<WriteEvent>

    constructor (events: seq<WriteEvent>)
      ensures written == [] && this.events == events
    {
      written := [];
      this.events := events;
    }

    /** shr_write_all(): the whole buffer, or a part of it from its start. */
    method WriteAll(data: seq<Byte>) returns (r: Written)
      modifies this
      ensures r == AllWritten ==> written == old(written) + data
      ensures old(written) <= written <= old(written) + data
      ensures Harmless(old(events)) ==> r == AllWritten && Harmless(events)
      ensures WritesTo(old(events), events, r)
    {
      hide WritesTo, Harmless;
      var n := 0;
      WritesNothing(events);
      while n < |data|
        invariant 0 <= n <= |data| && written == old(written) + data[..n]
        invariant WritesTo(old(events), events, AllWritten)
        decreases |events|, |data| - n
      {
        var w := |data| - n;
        WritesNext(old(events), events);
        if events != [] {
          var e := events[0];
          events := events[1..];
          if Harmless(old(events)) { WritesFacts(old(events), events, EndedBy(e)); }
          match e {
            case Retry => continue;
            case Killed => return ProcessKilled;
            case WriteError => return WriteFailed;
            case Takes(m) =>
              if m == 0 {
                return WriteFailed;  // EIO
              }
              w := if m < w then m else w;
          }
        }
        written := written + data[n..n + w];
        n := n + w;
      }
      if Harmless(old(events)) { WritesFacts(old(events), events, AllWritten); }
      r := AllWritten;
    }

    /**
     The child from the fork to its end: keep_fds() and sandbox_enter() may fail, the marker is sent,
     the decoder runs and may end the process itself with any status (`quits`), and
     shr_sandbox_end() hands over `buf`.  The process may be killed before its first write
     (`killedAtStart`), at any write (see WriteEvent), and after the last one (`killedAtEnd`).
     */
    method Child(killedAtStart: bool, entered: bool, unavailable: bool, quits: Option<Status>, buf: seq<Byte>,
        killedAtEnd: bool)
      returns (status: Status)
      requires written == [] && |buf| < TWO64
      modifies this
      ensures written <= Frame(buf)
      ensures written == [] || entered
      ensures status == Exited(0) && quits == None ==> written == Frame(buf)
      ensures entered && quits == None && Harmless(old(events)) && !killedAtStart && !killedAtEnd ==>
          status == Exited(0)
      ensures quits == None && (killedAtStart || killedAtEnd) ==> status != Exited(0)
      ensures killedAtStart ==> status == Signalled && written == []
      ensures !killedAtStart && !entered ==> status == Exited(if unavailable then UNAVAILABLE else 1) && written == []
      ensures !killedAtStart && entered && quits.Some? && Harmless(old(events)) ==>
          status == quits.value && written == [MARKER]
    {
      hide WritesTo, Harmless, Length;
      if killedAtStart {
        return Signalled;
      }
      if !entered {
        return Exited(if unavailable then UNAVAILABLE else 1);
      }
      var m := WriteAll([MARKER]);
      assert [MARKER] <= Frame(buf);
      if m != AllWritten {
        return if m == WriteFailed then Exited(1) else Signalled;
      }
      if quits.Some? {
        return quits.value;
      }
      var l := WriteAll(Length(|buf|));
      assert [MARKER] + Length(|buf|) <= Frame(buf);
      if l != AllWritten {
        return if l == WriteFailed then Exited(1) else Signalled;
      }
      var b := WriteAll(buf);
      if b != AllWritten {
        return if b == WriteFailed then Exited(1) else Signalled;
      }
      status := if killedAtEnd then Signalled else Exited(0);
    }
  }

  // ----- both ends together -----

  /** A stream that stops anywhere inside a frame is taken for no other frame. */
  lemma PrefixOfFrame(stream: seq<Byte>, buf: seq<Byte>, got: seq<Byte>)
    requires stream <= Frame(buf) && |buf| < TWO64 && Received(stream) == Some(got)
    ensures got == buf && stream == Frame(buf)
  {
    ReceivedIff(stream, got);
    assert stream[1..9] == Length(|got|) && Frame(buf)[1..9] == Length(|buf|);
    LengthInjective(|got|, |buf|);
    assert Frame(got)[9..] == got && Frame(buf)[9..] == buf;
  }

  /**
   A whole run: wherever the child stops and however the reads and writes are cut, the parent
   reports `Done` only with the child's buffer after a zero exit, and `Off` only if no byte came.
   Without a status from waitpid(), the variable holds `garbage`.
   */
  method RunSandboxed(buf: seq<Byte>, killedAtStart: bool, entered: bool, unavailable: bool, quits: Option<Status>,
                      killedAtEnd: bool, writeEvents: seq<WriteEvent>, readEvents: seq<ReadEvent>,
                      mallocOk: bool, waited: bool, garbage: Status)
    returns (r: Where, sent: seq<Byte>, status: Status)
    requires |buf| < TWO64
    ensures r.Done? ==> r.buf == buf && |buf| <= MAX_OUTPUT && entered && status == Exited(0)
    ensures r.Done? && quits == None ==> !killedAtStart && !killedAtEnd
    ensures r.Off? ==> sent == []
    ensures (&& entered && quits == None && Harmless(writeEvents) && !killedAtStart && !killedAtEnd
             && mallocOk && waited && Failure !in readEvents && |buf| <= MAX_OUTPUT) ==> r == Done(buf)
    ensures !entered && unavailable && !killedAtStart && waited && Failure !in readEvents ==> r == Off
  {
    var w := new WriteEnd(writeEvents);
    status := w.Child(killedAtStart, entered, unavailable, quits, buf, killedAtEnd);
    sent := w.written;
    var p := new ReadEnd(sent, readEvents);
    r := Parent(p, mallocOk, waited, if waited then status else garbage);
    if r.Done? {
      PrefixOfFrame(sent, buf, r.buf);
      ReceivedIff(sent, buf);
    }
    ReceivedIff(Frame(buf), buf);
  }
}
