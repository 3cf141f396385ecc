/** The in-memory ring and the sink that feeds it together with the rotating log. */
module LogSink {
  import opened RotatingLog

  const MEMORY_LOG_BYTES: nat := 0x4_0000

  function Last(s: seq<Byte>, n: nat): seq<Byte> {
    if |s| <= n then s else s[|s| - n..]
  }

  /** The bounded buffer of the last bytes written, updated inside one fixed array. */
  class RingBuffer {
    const data: array<Byte>
    var length: nat
    ghost var history: seq<Byte>

    ghost predicate Valid()
      reads this, data
    {
      length <= data.Length && data[..length] == Last(history, data.Length)
    }

    function Contents(): seq<Byte>
      requires length <= data.Length
      reads this, data
    {
      data[..length]
    }

    constructor (maximum: nat)
      ensures Valid() && history == [] && data.Length == maximum && fresh(data)
    {
      data := new Byte[maximum];
      length, history := 0, [];
    }

    /** The overlapping copy that drops the oldest `excess` bytes. */
    method DropOldest(excess: nat)
      requires excess <= length <= data.Length
      modifies this`length, data
      ensures length == old(length) - excess && data[..length] == old(data[excess..length])
    {
      ghost var was := data[..];
      for i := 0 to length - excess
        invariant length == old(length) && data[..i] == was[excess..excess + i]
        invariant data[i..] == was[i..]
      {
        assert data[excess + i] == data[i..][excess] == was[excess + i];
        data[i] := data[excess + i];
        assert data[i + 1..] == was[i + 1..];
      }
      length := length - excess;
    }

    method Put(content: seq<Byte>)
      requires length + |content| <= data.Length
      modifies this`length, data
      ensures length == old(length) + |content| && data[..length] == old(data[..length]) + content
    {
      ghost var was := data[..length];
      for i := 0 to |content|
        invariant length == old(length)
        invariant forall k | 0 <= k < length :: data[k] == was[k]
        invariant forall k | 0 <= k < i :: data[length + k] == content[k]
      {
        data[length + i] := content[i];
      }
      length := length + |content|;
      assert |data[..length]| == |was + content|;
      forall k | 0 <= k < length ensures data[k] == (was + content)[k] {
        assert k >= |was| ==> data[|was| + (k - |was|)] == content[k - |was|];
      }
    }

    method Store(content: seq<Byte>)
      requires length <= data.Length
      modifies this`length, data
      ensures length <= data.Length && data[..length] == Last(old(data[..length]) + content, data.Length)
    {
      StoreParts(data[..length], content, data.Length);
      if |content| >= data.Length {
        length := 0;
        Put(content[|content| - data.Length..]);
      } else {
        if length + |content| > data.Length {
          DropOldest(length + |content| - data.Length);
        }
        Put(content);
      }
    }

    /** Whatever was written before in whatever pieces, the ring holds the last bytes of it all. */
    method Write(content: seq<Byte>)
      requires Valid()
      modifies this, data
      ensures Valid() && history == old(history) + content
    {
      Store(content);
      LastOfLast(history, content, data.Length);
      history := history + content;
    }
  }

  /** What is put behind what is kept makes up the last `n` bytes. */
  lemma StoreParts(kept: seq<Byte>, content: seq<Byte>, n: nat)
    ensures |content| >= n ==> [] + content[|content| - n..] == Last(kept + content, n)
    ensures |content| < n < |kept| + |content| ==>
              kept[|kept| + |content| - n..] + content == Last(kept + content, n)
    ensures |kept| + |content| <= n ==> kept + content == Last(kept + content, n)
  {
  }

  /** Keeping the last bytes of the kept bytes is keeping the last bytes. */
  lemma LastOfLast(history: seq<Byte>, content: seq<Byte>, n: nat)
    ensures Last(Last(history, n) + content, n) == Last(history + content, n)
  {
  }

  lemma LastIsSuffix(s: seq<Byte>, n: nat, kept: seq<Byte>, whole: seq<Byte>)
    requires IsSuffix(s, whole) && IsSuffix(kept, whole)
    requires |kept| >= n || |kept| >= |s|
    ensures IsSuffix(Last(s, n), kept)
  {
  }

  /** A canonical log keeps at least its four full backups. */
  lemma LogOutlastsRing(files: map<nat, seq<Byte>>, stream: seq<Byte>, rotations: nat, history: seq<Byte>)
    requires Canonical(files, stream, rotations) && IsSuffix(history, stream)
    ensures IsSuffix(Last(history, MEMORY_LOG_BYTES), Chain(files))
  {
    CanonicalChain(files, stream, rotations);
    LastIsSuffix(history, MEMORY_LOG_BYTES, Chain(files), stream);
  }

  class Sink {
    const ring: RingBuffer
    const disk: Log

    ghost predicate Valid()
      reads this, ring, ring.data, disk, disk.dir
    {
      && ring.Valid() && ring.data.Length == MEMORY_LOG_BYTES
      && disk.Valid()
    }

    /** The disk has taken everything the ring has, in canonical form. */
    ghost predicate InStep()
      reads this, ring, disk, disk.dir
    {
      disk.Writable() && disk.InStep() && IsSuffix(ring.history, disk.dir.stream)
    }

    constructor (disk: Log)
      requires disk.Valid()
      ensures this.disk == disk && Valid() && ring.history == [] && fresh(ring) && fresh(ring.data)
    {
      this.disk := disk;
      ring := new RingBuffer(MEMORY_LOG_BYTES);
    }

    /** What a caller sees in memory is the end of what is on a disk that never failed, whatever
        the log held before this sink opened it. */
    method Write(content: seq<Byte>) returns (total: nat, ok: bool)
      requires Valid()
      modifies ring, ring.data, disk, disk.dir
      ensures Valid() && ring.history == old(ring.history) + content
      ensures total <= |content| && (ok ==> total == |content|)
      ensures disk.dir.stream == old(disk.dir.stream) + content[..total]
      ensures disk.dir.reliable && old(InStep()) ==>
                ok && InStep() && IsSuffix(ring.Contents(), Chain(disk.dir.files))
      ensures disk.dir.reliable && old(InStep() && disk.Snug()) ==> disk.Snug()
      ensures old(disk.Writable()) ==> disk.Writable() && (!ok ==> disk.dir.failures > old(disk.dir.failures))
    {
      ring.Write(content);
      total, ok := disk.Write(content);
      if disk.dir.reliable && old(InStep()) {
        assert content[..total] == content;
        LogOutlastsRing(disk.dir.files, disk.dir.stream, disk.rotations, ring.history);
      }
    }
  }

  /** From an empty directory that never fails: after any writes the ring shows the last bytes of
      them all, which are the end of what the files retain. */
  method RunFromEmpty(parts: seq<seq<Byte>>) returns (shown: seq<Byte>, chain: seq<Byte>)
    ensures shown == Last(Joined(parts), MEMORY_LOG_BYTES)
    ensures IsSuffix(shown, chain) && IsSuffix(chain, Joined(parts))
    ensures |chain| == Retained(|Joined(parts)|)
  {
    var dir := new Directory(true);
    var log := new Log.Detached(dir);
    var _ := log.Open();
    var sink := new Sink(log);
    for n := 0 to |parts|
      invariant sink.Valid() && sink.InStep() && log.Snug()
      invariant fresh(dir) && fresh(log) && fresh(sink) && fresh(sink.ring) && fresh(sink.ring.data)
      invariant dir.stream == sink.ring.history == Joined(parts[..n])
    {
      OneMorePart(parts, n);
      var _, _ := sink.Write(parts[n]);
      assert parts[n][..|parts[n]|] == parts[n];
    }
    assert parts[..|parts|] == parts;
    SnugLogRetains(dir.files, dir.stream, log.rotations);
    LogOutlastsRing(dir.files, dir.stream, log.rotations, sink.ring.history);
    return sink.ring.Contents(), Chain(dir.files);
  }
}
