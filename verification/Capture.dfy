/** The bounded capture of a launched command's two streams: the read loop of vfy/runner.py, whatever the
    chunks and their order. */
module Capture {

  const MAX_STDOUT_BYTES: nat := 1048576
  const MAX_STDERR_BYTES: nat := 65536

  type Bytes = seq<int>

  datatype Stream = Stdout | Stderr

  /** One ready stream and what reading it gave; an empty chunk is its end. */
  datatype Read = Read(stream: Stream, chunk: Bytes)

  function Limit(s: Stream): nat
  {
    if s.Stdout? then MAX_STDOUT_BYTES else MAX_STDERR_BYTES
  }

  /** Everything a stream gave in the first `n` reads. */
  function Given(ready: seq<Read>, n: nat, s: Stream): Bytes
    requires n <= |ready|
  {
    if n == 0 then []
    else Given(ready, n - 1, s) + if ready[n - 1].stream == s then ready[n - 1].chunk else []
  }

  function Take(b: Bytes, k: nat): Bytes
  {
    if |b| <= k then b else b[..k]
  }

  predicate Ended(ready: seq<Read>, n: nat, s: Stream)
    requires n <= |ready|
  {
    exists i :: 0 <= i < n && ready[i] == Read(s, [])
  }

  /** What is reported of a command that started; `cutShort` is the deadline passing before both ends. */
  datatype Captured = Captured(stdout: Bytes, stderr: Bytes, truncated: bool, cutShort: bool)

  /** Keeping one byte more than the limit is enough: bytes kept chunk by chunk, each cut to the room
      left, are the first `k` of all that came. */
  lemma TakeExtends(kept: Bytes, given: Bytes, chunk: Bytes, k: nat)
    requires kept == Take(given, k)
    ensures |kept| <= k
    ensures kept + Take(chunk, k - |kept|) == Take(given + chunk, k)
  {
    if |given| <= k { assert (given + chunk)[..|given|] == given; }
  }

  lemma TakeTwice(given: Bytes, k: nat)
    ensures Take(Take(given, k + 1), k) == Take(given, k)
    ensures |Take(given, k + 1)| > k <==> |given| > k
  {
  }

  /** One chunk into one buffer, cut to the room left. */
  method Keep(buffer: Bytes, chunk: Bytes, limit: nat, ghost given: Bytes) returns (b: Bytes)
    requires buffer == Take(given, limit + 1)
    ensures b == Take(given + chunk, limit + 1)
  {
    TakeExtends(buffer, given, chunk, limit + 1);
    var room := limit + 1 - |buffer|;
    return if room > 0 then buffer + Take(chunk, room) else buffer;
  }

  /** When both streams have ended no read is left. */
  lemma NothingAfterEnds(ready: seq<Read>, i: nat)
    requires i <= |ready| && Ended(ready, i, Stdout) && Ended(ready, i, Stderr)
    requires forall i, j :: 0 <= i < j < |ready| && ready[i].chunk == [] ==> ready[j].stream != ready[i].stream
    ensures i < |ready| ==> ready[i].stream != Stdout && ready[i].stream != Stderr
  {
  }

  /** The loop over the reads a deadline leaves time for. A stream that has ended gives no more. Whatever
      the chunking and the interleaving, what is reported of each stream is exactly its first bytes up to
      the limit, `truncated` says exactly whether either had more, and no buffer ever holds more than one
      byte past its limit. */
  method CaptureStreams(ready: seq<Read>) returns (r: Captured)
    requires forall i, j :: 0 <= i < j < |ready| && ready[i].chunk == [] ==> ready[j].stream != ready[i].stream
    ensures r.stdout == Take(Given(ready, |ready|, Stdout), MAX_STDOUT_BYTES)
    ensures r.stderr == Take(Given(ready, |ready|, Stderr), MAX_STDERR_BYTES)
    ensures r.truncated <==> |Given(ready, |ready|, Stdout)| > MAX_STDOUT_BYTES || |Given(ready, |ready|, Stderr)| > MAX_STDERR_BYTES
    ensures r.cutShort <==> !Ended(ready, |ready|, Stdout) || !Ended(ready, |ready|, Stderr)
  {
    var out: Bytes, err: Bytes, registered := [], [], {Stdout, Stderr};
    TakeNothing(MAX_STDOUT_BYTES + 1);
    TakeNothing(MAX_STDERR_BYTES + 1);
    hide Take, Ended, Given;
    assert Given(ready, 0, Stdout) == [] == Given(ready, 0, Stderr) by { GivenAtFirst(ready); }
    NoneEnded(ready);
    var i := 0;
    while i < |ready| && registered != {}
      invariant 0 <= i <= |ready|
      invariant out == Take(Given(ready, i, Stdout), MAX_STDOUT_BYTES + 1)
      invariant err == Take(Given(ready, i, Stderr), MAX_STDERR_BYTES + 1)
      invariant Stdout in registered <==> !Ended(ready, i, Stdout)
      invariant Stderr in registered <==> !Ended(ready, i, Stderr)
    {
      var chunk := ready[i].chunk;
      OneMoreRead(ready, i);
      if chunk == [] {
        GivenNothing(ready, i);
        registered := registered - {ready[i].stream};
      } else if ready[i].stream == Stdout {
        out := Keep(out, chunk, MAX_STDOUT_BYTES, Given(ready, i, Stdout));
      } else {
        err := Keep(err, chunk, MAX_STDERR_BYTES, Given(ready, i, Stderr));
      }
      GivenElsewhere(ready, i);
      i := i + 1;
    }
    assert registered == {} <==> Stdout !in registered && Stderr !in registered by {
      if registered != {} {
        ghost var s :| s in registered;
        assert s == Stdout || s == Stderr;
      }
    }
    if registered == {} { NothingAfterEnds(ready, i); }
    TakeTwice(Given(ready, |ready|, Stdout), MAX_STDOUT_BYTES);
    TakeTwice(Given(ready, |ready|, Stderr), MAX_STDERR_BYTES);
    var truncated := |out| > MAX_STDOUT_BYTES || |err| > MAX_STDERR_BYTES;
    return Captured(Take(out, MAX_STDOUT_BYTES), Take(err, MAX_STDERR_BYTES), truncated, registered != {});
  }

  lemma GivenAtFirst(ready: seq<Read>)
    ensures Given(ready, 0, Stdout) == [] == Given(ready, 0, Stderr)
  {
  }

  lemma TakeNothing(k: nat)
    ensures Take([], k) == []
  {
  }

  lemma NoneEnded(ready: seq<Read>)
    ensures !Ended(ready, 0, Stdout) && !Ended(ready, 0, Stderr)
  {
  }

  lemma OneMoreRead(ready: seq<Read>, i: nat)
    requires i < |ready|
    ensures Ended(ready, i + 1, Stdout) <==> Ended(ready, i, Stdout) || (ready[i].stream == Stdout && ready[i].chunk == [])
    ensures Ended(ready, i + 1, Stderr) <==> Ended(ready, i, Stderr) || (ready[i].stream == Stderr && ready[i].chunk == [])
  {
  }

  lemma GivenNothing(ready: seq<Read>, i: nat)
    requires i < |ready| && ready[i].chunk == []
    ensures Given(ready, i + 1, Stdout) == Given(ready, i, Stdout) && Given(ready, i + 1, Stderr) == Given(ready, i, Stderr)
  {
  }

  /** A read adds its chunk to its own stream and nothing to the other. */
  lemma GivenElsewhere(ready: seq<Read>, i: nat)
    requires i < |ready|
    ensures var s := ready[i].stream;
            && Given(ready, i + 1, s) == Given(ready, i, s) + ready[i].chunk
            && (s == Stdout ==> Given(ready, i + 1, Stderr) == Given(ready, i, Stderr))
            && (s == Stderr ==> Given(ready, i + 1, Stdout) == Given(ready, i, Stdout))
  {
  }
}
