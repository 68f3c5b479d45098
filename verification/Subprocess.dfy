/** The non-blocking subprocess loop of benches/m1/d10_collect.rs, for every
    interleaving of partial writes, partial reads, would-block, interruption,
    child exit and time-out. */
module Subprocess {
  import opened Octets
  import opened Outcomes

  const MAX_SUBPROCESS_BYTES: nat := 1024 * 1024
  const CHUNK: nat := 16 * 1024

  datatype Stream = Stdout | Stderr

  /** What happens to the process, in order. */
  datatype Event = Spawned | GroupSignalled | LeaderSignalled | Reaped

  datatype Sent = Accepted(n: nat) | SendInterrupted | SendWouldBlock | SendFailed
  datatype Received = Data(chunk: Bytes) | ReceiveInterrupted | ReceiveWouldBlock | ReceiveFailed
  datatype Polled = Exited | Running | PollFailed

  // ---- the child and the kernel, which answer as they like

  class Child {
    /** How often a system call may still be interrupted, and the clock. */
    var interrupts: nat
    var now: nat
    ghost var delivered: Bytes
    ghost var fromStdout: Bytes
    ghost var fromStderr: Bytes
    ghost var ended: set<Stream>
    ghost var log: seq<Event>
    ghost var status: Option<int>
    /** The clock reading of the last pass that touched the child, and the pauses so far. */
    ghost var touched: Option<nat>
    ghost var pauses: nat
    /** How many calls failed, and how many would have blocked. */
    ghost var failures: nat
    ghost var blocks: nat

    constructor (interrupts: nat, now: nat)
      ensures delivered == [] && fromStdout == [] && fromStderr == [] && ended == {} && log == []
      ensures this.now == now && touched == None && pauses == 0 && failures == 0 && blocks == 0
    {
      this.interrupts, this.now := interrupts, now;
      delivered, fromStdout, fromStderr, ended, log, status := [], [], [], {}, [], None;
      touched, pauses, failures, blocks := None, 0, 0, 0;
    }

    ghost function ReadFrom(stream: Stream): Bytes
      reads this
    {
      match stream case Stdout => fromStdout case Stderr => fromStderr
    }

    method Spawn() returns (ok: bool)
      modifies `log, `failures
      ensures log == if ok then old(log) + [Spawned] else old(log)
      ensures failures == if ok then old(failures) else old(failures) + 1
    {
      ok := *;
      if ok { log := log + [Spawned]; } else { failures := failures + 1; }
    }

    /** A check of the executable, a digest or a descriptor, which may fail. */
    method Prepare() returns (ok: bool)
      modifies `failures
      ensures failures == if ok then old(failures) else old(failures) + 1
    {
      ok := *;
      if !ok { failures := failures + 1; }
    }

    /** `write`: a prefix, possibly empty, reaches the child's standard input. */
    method Send(bytes: Bytes) returns (r: Sent)
      modifies `interrupts, `delivered, `touched, `failures, `blocks
      ensures failures == if r.SendFailed? || r == Accepted(0) then old(failures) + 1 else old(failures)
      ensures blocks == if r.SendWouldBlock? then old(blocks) + 1 else old(blocks)
      ensures touched == Some(now)
      ensures interrupts <= old(interrupts) && (r.SendInterrupted? ==> interrupts < old(interrupts))
      ensures r.Accepted? ==> r.n <= |bytes| && delivered == old(delivered) + bytes[..r.n]
      ensures !r.Accepted? ==> delivered == old(delivered)
    {
      touched := Some(now);
      if * {
        var n :| 0 <= n <= |bytes|;
        delivered := delivered + bytes[..n];
        if n == 0 { failures := failures + 1; }
        return Accepted(n);
      }
      if * {
        if interrupts > 0 {
          interrupts := interrupts - 1;
          return SendInterrupted;
        }
      }
      if * {
        blocks := blocks + 1;
        return SendWouldBlock;
      }
      failures := failures + 1;
      r := SendFailed;
    }

    /** `read`: up to one chunk, empty at the end of the stream. */
    method Receive(stream: Stream) returns (r: Received)
      modifies `interrupts, `fromStdout, `fromStderr, `ended, `touched, `failures, `blocks
      ensures failures == if r.ReceiveFailed? then old(failures) + 1 else old(failures)
      ensures blocks == if r.ReceiveWouldBlock? then old(blocks) + 1 else old(blocks)
      ensures touched == Some(now)
      ensures interrupts <= old(interrupts) && (r.ReceiveInterrupted? ==> interrupts < old(interrupts))
      ensures r.Data? ==> |r.chunk| <= CHUNK && ReadFrom(stream) == old(ReadFrom(stream)) + r.chunk
      ensures !r.Data? ==> ReadFrom(stream) == old(ReadFrom(stream))
      ensures stream.Stdout? ==> fromStderr == old(fromStderr)
      ensures stream.Stderr? ==> fromStdout == old(fromStdout)
      ensures ended == if r == Data([]) then old(ended) + {stream} else old(ended)
    {
      touched := Some(now);
      if * {
        var chunk: Bytes := *;
        if |chunk| <= CHUNK {
          if stream.Stdout? { fromStdout := fromStdout + chunk; } else { fromStderr := fromStderr + chunk; }
          if chunk == [] { ended := ended + {stream}; }
          return Data(chunk);
        }
      }
      if * {
        if interrupts > 0 {
          interrupts := interrupts - 1;
          return ReceiveInterrupted;
        }
      }
      if * {
        blocks := blocks + 1;
        return ReceiveWouldBlock;
      }
      failures := failures + 1;
      r := ReceiveFailed;
    }

    /** `waitid` that leaves the leader to be reaped later. */
    method Poll() returns (r: Polled)
      modifies `touched, `failures
      ensures touched == Some(now) && failures == if r.PollFailed? then old(failures) + 1 else old(failures)
    {
      touched := Some(now);
      if * {
        return Exited;
      }
      if * {
        return Running;
      }
      failures := failures + 1;
      r := PollFailed;
    }

    /** `kill_process_group_if_present`: a missing group counts as success. */
    method KillGroup() returns (ok: bool)
      modifies `log, `failures
      ensures log == old(log) + [GroupSignalled]
      ensures failures == if ok then old(failures) else old(failures) + 1
    {
      log := log + [GroupSignalled];
      ok := *;
      if !ok { failures := failures + 1; }
    }

    method KillLeader()
      modifies `log
      ensures log == old(log) + [LeaderSignalled]
    {
      log := log + [LeaderSignalled];
    }

    /** `wait`: the exit code, or nothing when waiting failed or a signal ended it. */
    method Wait() returns (code: Option<int>)
      modifies `log, `status
      ensures log == old(log) + [Reaped] && status == code
    {
      log := log + [Reaped];
      status := None;
      if * {
        return None;
      }
      var exit: int := *;
      status := Some(exit);
      code := Some(exit);
    }

    method Sleep()
      modifies `now, `pauses
      ensures old(now) < now && pauses == old(pauses) + 1
    {
      pauses := pauses + 1;
      var passed :| 0 <= passed;
      now := now + 1 + passed;
    }
  }

  // ---- logs

  predicate OnlySignals(events: seq<Event>) {
    forall i :: 0 <= i < |events| ==> events[i].GroupSignalled? || events[i].LeaderSignalled?
  }

  /** Spawned, and since then only signals: the leader is still to be reaped. */
  predicate Unreaped(log: seq<Event>) {
    log != [] && log[0] == Spawned && OnlySignals(log[1..])
  }

  /** The leader is reaped exactly once, as the last thing, so every signal went
      out before its process and group identifiers could be reused. */
  predicate ReapedOnce(log: seq<Event>) {
    log != [] && log[|log| - 1] == Reaped && Unreaped(log[..|log| - 1])
  }

  lemma SignalKeepsUnreaped(log: seq<Event>, e: Event)
    requires Unreaped(log) && (e.GroupSignalled? || e.LeaderSignalled?)
    ensures Unreaped(log + [e])
  {
    assert (log + [e])[1..] == log[1..] + [e];
  }

  lemma ReapingOnce(log: seq<Event>)
    requires Unreaped(log)
    ensures ReapedOnce(log + [Reaped])
  {
    assert (log + [Reaped])[..|log|] == log;
  }

  /** No signal follows a reap, and there is one reap. */
  lemma ReapIsLast(log: seq<Event>, i: nat)
    requires ReapedOnce(log) && i < |log|
    ensures log[i] == Reaped <==> i == |log| - 1
  {
    var front := log[..|log| - 1];
    if 0 < i < |log| - 1 { assert front[1..][i - 1] == log[i]; }
  }

  // ---- terminating

  method TerminateSubprocess(child: Child) returns (ok: bool)
    requires Unreaped(child.log)
    modifies child`log, child`status, child`failures
    ensures old(child.failures) <= child.failures
    ensures child.log == old(child.log) + [GroupSignalled, LeaderSignalled, Reaped] && ReapedOnce(child.log)
  {
    SignalKeepsUnreaped(child.log, GroupSignalled);
    var group := child.KillGroup();
    SignalKeepsUnreaped(child.log, LeaderSignalled);
    child.KillLeader();
    ReapingOnce(child.log);
    var reap := child.Wait();
    ok := group && reap.Some?;
  }

  // ---- writing and draining

  /** `write_nonblocking`: the slot is emptied once the whole request is out. */
  method WriteNonblocking(child: Child, open: bool, request: Bytes, start: nat)
    returns (ok: bool, stillOpen: bool, offset: nat)
    requires start <= |request| && child.delivered == request[..start] && (!open ==> start == |request|)
    modifies child`interrupts, child`delivered, child`touched, child`failures, child`blocks
    ensures old(child.failures) <= child.failures
    ensures !ok ==> old(child.failures) < child.failures
    ensures ok && stillOpen ==> old(child.blocks) < child.blocks
    ensures child.touched in {old(child.touched), Some(child.now)}
    ensures start <= offset <= |request| && child.delivered == request[..offset]
    ensures ok && !stillOpen ==> offset == |request|
    ensures child.interrupts <= old(child.interrupts)
  {
    offset, stillOpen := start, open;
    if !open {
      return true, false, offset;
    }
    while offset < |request|
      invariant start <= offset <= |request| && child.delivered == request[..offset]
      invariant child.failures == old(child.failures) && child.blocks == old(child.blocks)
      invariant child.touched in {old(child.touched), Some(child.now)}
      invariant child.interrupts <= old(child.interrupts)
      decreases |request| - offset, child.interrupts
    {
      var sent := child.Send(request[offset..]);
      match sent
      case Accepted(n) =>
        if n == 0 {
          return false, true, offset;
        }
        assert request[..offset] + request[offset..][..n] == request[..offset + n];
        offset := offset + n;
      case SendInterrupted =>
      case SendWouldBlock =>
        return true, true, offset;
      case SendFailed =>
        return false, true, offset;
    }
    ok, stillOpen := true, false;
  }

  /** `drain_nonblocking`: everything read is kept, up to the cap. */
  method DrainNonblocking(child: Child, stream: Stream, captured: Bytes, ended: bool)
    returns (ok: bool, bytes: Bytes, eof: bool)
    requires captured == child.ReadFrom(stream) && |captured| <= MAX_SUBPROCESS_BYTES
    requires ended <==> stream in child.ended
    modifies child`interrupts, child`fromStdout, child`fromStderr, child`ended, child`touched, child`failures, child`blocks
    ensures old(child.failures) <= child.failures
    ensures !ok ==> old(child.failures) < child.failures || |child.ReadFrom(stream)| > MAX_SUBPROCESS_BYTES
    ensures ok && !eof ==> old(child.blocks) < child.blocks
    ensures child.touched in {old(child.touched), Some(child.now)}
    ensures stream.Stdout? ==> child.fromStderr == old(child.fromStderr)
    ensures stream.Stderr? ==> child.fromStdout == old(child.fromStdout)
    ensures captured <= bytes && |bytes| <= MAX_SUBPROCESS_BYTES && bytes <= child.ReadFrom(stream)
    ensures ok ==> bytes == child.ReadFrom(stream)
    ensures ended ==> eof
    ensures child.ended == if eof then old(child.ended) + {stream} else old(child.ended)
    ensures child.interrupts <= old(child.interrupts)
  {
    bytes, eof := captured, ended;
    while true
      invariant captured <= bytes == child.ReadFrom(stream) && |bytes| <= MAX_SUBPROCESS_BYTES && eof == ended
      invariant stream.Stdout? ==> child.fromStderr == old(child.fromStderr)
      invariant stream.Stderr? ==> child.fromStdout == old(child.fromStdout)
      invariant child.ended == old(child.ended)
      invariant child.failures == old(child.failures) && child.blocks == old(child.blocks)
      invariant child.touched in {old(child.touched), Some(child.now)}
      invariant child.interrupts <= old(child.interrupts)
      decreases MAX_SUBPROCESS_BYTES - |bytes|, child.interrupts
    {
      var received := child.Receive(stream);
      match received
      case Data(chunk) =>
        if |chunk| == 0 {
          return true, bytes, true;
        }
        if |bytes| + |chunk| > MAX_SUBPROCESS_BYTES {
          return false, bytes, eof;
        }
        bytes := bytes + chunk;
      case ReceiveInterrupted =>
      case ReceiveWouldBlock =>
        return true, bytes, eof;
      case ReceiveFailed =>
        return false, bytes, eof;
    }
  }

  // ---- the loop

  /** More came on a stream than is admitted. */
  ghost predicate TooLong(child: Child)
    reads child`fromStdout, child`fromStderr
  {
    |child.fromStdout| > MAX_SUBPROCESS_BYTES || |child.fromStderr| > MAX_SUBPROCESS_BYTES
  }

  /** What the loop knows about the three streams. */
  ghost predicate Streams(child: Child, request: Bytes, offset: nat, open: bool, out: Bytes, outEof: bool,
                          err: Bytes, errEof: bool)
    reads child`delivered, child`fromStdout, child`fromStderr, child`ended
  {
    && offset <= |request| && child.delivered == request[..offset] && (!open ==> offset == |request|)
    && out == child.fromStdout && err == child.fromStderr
    && (outEof <==> Stdout in child.ended) && (errEof <==> Stderr in child.ended)
    && |out| <= MAX_SUBPROCESS_BYTES && |err| <= MAX_SUBPROCESS_BYTES
  }

  /** One pass over the streams: the request first, then both outputs. */
  method Exchange(child: Child, request: Bytes, offset: nat, open: bool, out: Bytes, outEof: bool, err: Bytes, errEof: bool)
    returns (ok: bool, offset': nat, open': bool, out': Bytes, outEof': bool, err': Bytes, errEof': bool)
    requires Streams(child, request, offset, open, out, outEof, err, errEof)
    modifies child`interrupts, child`delivered, child`fromStdout, child`fromStderr, child`ended, child`touched,
             child`failures, child`blocks
    ensures old(child.failures) <= child.failures
    ensures !ok ==> old(child.failures) < child.failures || TooLong(child)
    ensures child.touched in {old(child.touched), Some(child.now)}
    ensures child.delivered <= request
    ensures ok ==> Streams(child, request, offset', open', out', outEof', err', errEof')
  {
    offset', open', out', outEof', err', errEof' := offset, open, out, outEof, err, errEof;
    ok, open', offset' := WriteNonblocking(child, open, request, offset);
    if !ok {
      return;
    }
    ok, out', outEof' := DrainNonblocking(child, Stdout, out, outEof);
    if !ok {
      return;
    }
    ok, err', errEof' := DrainNonblocking(child, Stderr, err, errEof);
  }

  predicate IsAscii(bytes: Bytes) {
    forall i :: 0 <= i < |bytes| ==> bytes[i] < 128
  }

  /** What a reported result means: the child got the whole request and nothing else,
      the reported bytes are everything read from standard output up to its end, within
      the cap, standard error ended without a byte, the output is canonical, and the
      leader exited with status zero. */
  ghost predicate Faithful(child: Child, request: Bytes, output: Bytes, canonical: Bytes -> bool)
    reads child
  {
    && child.delivered == request
    && output == child.fromStdout && 0 < |output| <= MAX_SUBPROCESS_BYTES && IsAscii(output) && canonical(output)
    && child.fromStderr == [] && Stdout in child.ended && Stderr in child.ended
    && child.status == Some(0)
  }

  /** `run_subprocess`.  `canonical` says whether bytes parse and re-encode to
      themselves.  Without a spawn there is nothing to reap; after a spawn, on every
      path, the group is killed and then the leader is reaped, once and last; and a
      result is reported only if it is faithful, and withheld only for a reason: a call
      failed, the deadline passed, too much came, or the child did not do its part.  No
      pass starts at or after the deadline. */
  method RunSubprocess(child: Child, request: Bytes, timeout: nat, canonical: Bytes -> bool)
    returns (r: Option<Bytes>)
    requires child.log == [] && child.delivered == [] && child.fromStdout == [] && child.fromStderr == [] && child.ended == {}
    requires child.touched == None && child.pauses == 0
    modifies child
    ensures (child.touched.Some? ==> child.touched.value < old(child.now) + timeout) && child.pauses <= timeout
    ensures child.log == [] || (ReapedOnce(child.log) && GroupSignalled in child.log)
    ensures child.delivered <= request
    ensures r.Some? ==> child.log != [] && Faithful(child, request, r.value, canonical)
    ensures r.None? ==>
              || old(child.failures) < child.failures || child.now >= old(child.now) + timeout || TooLong(child)
              || child.status != Some(0) || child.fromStderr != []
              || child.fromStdout == [] || !IsAscii(child.fromStdout) || !canonical(child.fromStdout)
  {
    var valid := child.Prepare();
    if !valid {
      return None;
    }
    var deadline := child.now + timeout;
    var spawned := child.Spawn();
    if !spawned {
      return None;
    }
    assert Unreaped(child.log);
    var piped := child.Prepare();
    if !piped {
      var _ := TerminateSubprocess(child);
      return None;
    }
    var finished, out, err := Communicate(child, request, deadline);
    if !finished {
      return None;
    }
    ReapingOnce(child.log);
    var code := child.Wait();
    var revalidated := child.Prepare();
    if !revalidated || code != Some(0) || err != [] || out == [] || !IsAscii(out) || !canonical(out) {
      return None;
    }
    r := Some(out);
  }

  lemma NothingExchanged(child: Child, request: Bytes)
    requires child.delivered == [] && child.fromStdout == [] && child.fromStderr == [] && child.ended == {}
    ensures Streams(child, request, 0, true, [], false, [], false)
  {}

  lemma Delivered(child: Child, request: Bytes, offset: nat, open: bool, out: Bytes, outEof: bool, err: Bytes, errEof: bool)
    requires Streams(child, request, offset, open, out, outEof, err, errEof)
    ensures child.delivered <= request && (!open ==> offset == |request|)
  {}

  /** The exit check: once the leader has exited, its group is killed. */
  method CheckExit(child: Child, exited: bool) returns (ok: bool, exited': bool)
    requires Unreaped(child.log) && (exited ==> GroupSignalled in child.log)
    modifies child`log, child`touched, child`failures
    ensures if ok then child.failures == old(child.failures) else old(child.failures) < child.failures
    ensures Unreaped(child.log) && child.touched in {old(child.touched), Some(child.now)}
    ensures ok && exited' ==> GroupSignalled in child.log
    ensures exited ==> ok && exited'
  {
    ok, exited' := true, exited;
    if !exited {
      var polled := child.Poll();
      match polled
      case Exited =>
        SignalKeepsUnreaped(child.log, GroupSignalled);
        ok := child.KillGroup();
        exited' := ok;
      case Running =>
      case PollFailed =>
        ok := false;
    }
  }

  /** The polling loop.  If it does not finish, it has terminated and reaped the child.
      No pass touches the child once the clock has reached the deadline, and there
      are at most as many pauses as there are ticks until then. */
  method Communicate(child: Child, request: Bytes, deadline: nat) returns (finished: bool, out: Bytes, err: Bytes)
    requires Unreaped(child.log)
    requires child.delivered == [] && child.fromStdout == [] && child.fromStderr == [] && child.ended == {}
    requires child.touched == None && child.pauses == 0 && child.now <= deadline
    modifies child
    ensures (child.touched.Some? ==> child.touched.value < deadline) && child.pauses <= deadline - old(child.now)
    ensures finished ==> child.now < deadline
    ensures old(child.failures) <= child.failures
    ensures !finished ==> child.now >= deadline || old(child.failures) < child.failures || TooLong(child)
    ensures child.delivered <= request
    ensures if finished then Unreaped(child.log) else ReapedOnce(child.log)
    ensures GroupSignalled in child.log
    ensures finished ==> Streams(child, request, |request|, false, out, true, err, true)
  {
    hide Unreaped, ReapedOnce, Streams;
    out, err := [], [];
    assert Streams(child, request, 0, true, out, false, err, false) by { NothingExchanged(child, request); }
    var offset, open, outEof, errEof, exited := 0, true, false, false, false;
    while true
      invariant Unreaped(child.log) && Streams(child, request, offset, open, out, outEof, err, errEof)
      invariant exited ==> GroupSignalled in child.log
      invariant child.touched.Some? ==> child.touched.value < deadline
      invariant old(child.failures) <= child.failures
      invariant child.pauses <= child.now - old(child.now) && child.pauses <= deadline - old(child.now)
      decreases deadline - child.now
    {
      Delivered(child, request, offset, open, out, outEof, err, errEof);
      if child.now >= deadline {
        var _ := TerminateSubprocess(child);
        return false, out, err;
      }
      var ok;
      ok, offset, open, out, outEof, err, errEof := Exchange(child, request, offset, open, out, outEof, err, errEof);
      if !ok {
        var _ := TerminateSubprocess(child);
        return false, out, err;
      }
      ok, exited := CheckExit(child, exited);
      if !ok {
        var _ := TerminateSubprocess(child);
        return false, out, err;
      }
      Delivered(child, request, offset, open, out, outEof, err, errEof);
      if exited && !open && outEof && errEof {
        return true, out, err;
      }
      child.Sleep();
    }
  }
}
