/** The five-file rotating log, over a directory whose every operation may fail. */
module RotatingLog {

  type Byte = b: int | 0 <= b < 256

  const LOG_FILE_BYTES: nat := 0x10_0000
  const LOG_FILE_COUNT: nat := 5

  datatype IoResult = Done | NotExist | Failed

  ghost predicate IsSuffix(s: seq<Byte>, whole: seq<Byte>) {
    |s| <= |whole| && s == whole[|whole| - |s|..]
  }

  function FileAt(files: map<nat, seq<Byte>>, index: nat): seq<Byte> {
    if index in files then files[index] else []
  }

  /** Files `newest` down to 0 (the active one), older bytes first. */
  function ChainFrom(files: map<nat, seq<Byte>>, newest: nat): seq<Byte> {
    if newest == 0 then FileAt(files, 0) else FileAt(files, newest) + ChainFrom(files, newest - 1)
  }

  /** What a reader of the whole log sees. */
  function Chain(files: map<nat, seq<Byte>>): seq<Byte> {
    ChainFrom(files, 4)
  }

  /** Where the active file starts in the stream after so many rotations: LOG_FILE_BYTES apart. */
  function FileStart(rotations: nat): nat {
    rotations * 0x10_0000
  }

  /** The state that `rotations` rotations of one byte stream leave when nothing ever failed. */
  ghost predicate Canonical(files: map<nat, seq<Byte>>, stream: seq<Byte>, rotations: nat) {
    && FileStart(rotations) <= |stream| <= FileStart(rotations + 1)
    && 0 in files && files[0] == stream[FileStart(rotations)..]
    && (forall i | 1 <= i < LOG_FILE_COUNT :: Backup(files, stream, rotations, i))
  }

  /** Backup `i` holds the i-th file before the active one, if there were that many. */
  ghost predicate Backup(files: map<nat, seq<Byte>>, stream: seq<Byte>, rotations: nat, i: nat)
    requires FileStart(rotations) <= |stream|
  {
    if 1 <= i <= rotations
    then i in files && files[i] == stream[FileStart(rotations - i)..FileStart(rotations - i + 1)]
    else i !in files
  }

  /** The log directory. A reliable one never fails; any other one may fail at every call, in
      every way the source provides for. `stream` is every byte ever appended to the log, `failures`
      counts the calls that failed. */
  class Directory {
    var files: map<nat, seq<Byte>>
    const reliable: bool
    ghost var stream: seq<Byte>
    ghost var failures: nat

    ghost predicate Suffix()
      reads this
    {
      IsSuffix(Chain(files), stream)
    }

    constructor (reliable: bool)
      ensures this.reliable == reliable && files == map[] && stream == [] && Suffix()
    {
      files, stream, this.reliable, failures := map[], [], reliable, 0;
      EmptyChain(4);
    }

    method Fails() returns (fails: bool)
      modifies this`failures
      ensures reliable ==> !fails
      ensures failures == old(failures) + if fails then 1 else 0
    {
      fails := *;
      fails := fails && !reliable;
      if fails {
        failures := failures + 1;
      }
    }

    method Remove(index: nat) returns (result: IoResult)
      modifies this`files, this`failures
      ensures failures == old(failures) + if result.Failed? then 1 else 0
      ensures result.Done? ==> files == old(files) - {index}
      ensures result.NotExist? ==> index !in files && files == old(files)
      ensures result.Failed? ==> files == old(files) && !reliable
    {
      var fails := Fails();
      if fails {
        return Failed;
      }
      if index !in files {
        return NotExist;
      }
      files := files - {index};
      return Done;
    }

    method Rename(from: nat, to: nat) returns (result: IoResult)
      requires from != to
      modifies this`files, this`failures
      ensures failures == old(failures) + if result.Failed? then 1 else 0
      ensures result.Done? ==> from in old(files) && files == (old(files) - {from})[to := old(files)[from]]
      ensures result.NotExist? ==> from !in files && files == old(files)
      ensures result.Failed? ==> files == old(files) && !reliable
    {
      var fails := Fails();
      if fails {
        return Failed;
      }
      if from !in files {
        return NotExist;
      }
      files := (files - {from})[to := files[from]];
      return Done;
    }

    method Truncate() returns (ok: bool)
      modifies this`files, this`failures
      ensures failures == old(failures) + if ok then 0 else 1
      ensures files == if ok then old(files)[0 := []] else old(files)
      ensures reliable ==> ok
    {
      var fails := Fails();
      if !fails {
        files := files[0 := []];
      }
      return !fails;
    }

    method OpenForAppend() returns (ok: bool)
      modifies this`files, this`failures
      ensures failures == old(failures) + if ok then 0 else 1
      ensures files == if ok && 0 !in old(files) then old(files)[0 := []] else old(files)
      ensures reliable ==> ok
    {
      var fails := Fails();
      if !fails && 0 !in files {
        files := files[0 := []];
      }
      return !fails;
    }

    /** One write call: some prefix reaches the active file, all of it on a reliable disk. */
    method Append(content: seq<Byte>) returns (written: nat, ok: bool)
      requires 0 in files
      modifies this`files, this`stream, this`failures
      ensures written <= |content|
      ensures failures == old(failures) + if ok && written == |content| then 0 else 1
      ensures files == old(files)[0 := old(files)[0] + content[..written]]
      ensures stream == old(stream) + content[..written]
      ensures reliable ==> ok && written == |content|
    {
      written := |content|;
      ok := true;
      if !reliable {
        ok := *;
        written :| written <= |content|;
        if !ok || written < |content| {
          failures := failures + 1;
        }
      }
      files := files[0 := files[0] + content[..written]];
      stream := stream + content[..written];
    }
  }

  lemma {:induction false} ChainGrows(files: map<nat, seq<Byte>>, more: seq<Byte>, newest: nat)
    requires 0 in files
    ensures ChainFrom(files[0 := files[0] + more], newest) == ChainFrom(files, newest) + more
  {
    var grown := files[0 := files[0] + more];
    if newest > 0 {
      ChainGrows(files, more, newest - 1);
      assert FileAt(grown, newest) == FileAt(files, newest);
      Associate(FileAt(files, newest), ChainFrom(files, newest - 1), more);
    }
  }

  lemma Associate(a: seq<Byte>, b: seq<Byte>, c: seq<Byte>)
    ensures a + (b + c) == (a + b) + c
  {
  }

  lemma {:induction false} EmptyChain(newest: nat)
    ensures ChainFrom(map[], newest) == []
  {
    if newest > 0 {
      EmptyChain(newest - 1);
    }
  }

  /** Two directories that agree above a point have equal chains if they have equal chains there. */
  lemma {:induction false} ChainAgrees(a: map<nat, seq<Byte>>, b: map<nat, seq<Byte>>, low: nat, high: nat)
    requires low <= high && ChainFrom(a, low) == ChainFrom(b, low)
    requires forall i | low < i <= high :: FileAt(a, i) == FileAt(b, i)
    ensures ChainFrom(a, high) == ChainFrom(b, high)
  {
    if low < high {
      ChainAgrees(a, b, low, high - 1);
    }
  }

  /** Losing the oldest backup keeps a suffix. */
  lemma ChainOfRemove(files: map<nat, seq<Byte>>)
    ensures IsSuffix(Chain(files - {4}), Chain(files))
  {
    var rest := files - {4};
    assert FileAt(rest, 0) == FileAt(files, 0);
    assert ChainFrom(rest, 0) == ChainFrom(files, 0);
    ChainAgrees(rest, files, 0, 3);
    assert Chain(rest) == [] + ChainFrom(rest, 3);
  }

  /** Moving a file into the free slot above it keeps every byte. */
  lemma ChainOfShift(files: map<nat, seq<Byte>>, index: nat)
    requires index in files && index < 4 && index + 1 !in files
    ensures Chain((files - {index})[index + 1 := files[index]]) == Chain(files)
  {
    var moved := (files - {index})[index + 1 := files[index]];
    assert FileAt(moved, index) == [] && FileAt(files, index + 1) == [];
    assert FileAt(moved, index + 1) == FileAt(files, index) == files[index];
    assert forall i: nat | i != index && i != index + 1 :: FileAt(moved, i) == FileAt(files, i);
    if index > 0 {
      ChainAgrees(moved, files, 0, index - 1);
    }
    ChainOfNeighbours(moved, files, index);
    ChainAgrees(moved, files, index + 1, 4);
  }

  /** A file and the free slot above it hold the same bytes whichever of the two has the file. */
  lemma ChainOfNeighbours(moved: map<nat, seq<Byte>>, files: map<nat, seq<Byte>>, index: nat)
    requires FileAt(moved, index) == [] == FileAt(files, index + 1)
    requires FileAt(moved, index + 1) == FileAt(files, index)
    requires index > 0 ==> ChainFrom(moved, index - 1) == ChainFrom(files, index - 1)
    ensures ChainFrom(moved, index + 1) == ChainFrom(files, index + 1)
  {
    var older := if index == 0 then [] else ChainFrom(files, index - 1);
    assert ChainFrom(moved, index) == older;
    assert ChainFrom(files, index) == FileAt(files, index) + older;
  }

  lemma SuffixOfSuffix(a: seq<Byte>, b: seq<Byte>, c: seq<Byte>)
    requires IsSuffix(a, b) && IsSuffix(b, c)
    ensures IsSuffix(a, c)
  {
  }

  class Log {
    const dir: Directory
    var isOpen: bool
    var size: nat
    ghost var rotations: nat

    /** Holds between calls, whatever failed before: the files are a suffix of the stream, the
        active file is within its limit, and only a pending rotation or `Close` leaves it shut. */
    ghost predicate Valid()
      reads this, dir
    {
      && dir.Suffix() && size <= LOG_FILE_BYTES
      && |FileAt(dir.files, 0)| <= LOG_FILE_BYTES
      && (isOpen || dir.reliable ==> 0 in dir.files && size == |dir.files[0]|)
    }

    ghost predicate InStep()
      reads this, dir
    {
      Canonical(dir.files, dir.stream, rotations)
    }

    /** Open, or closed by a rotation that has to be tried again; not closed for good. */
    ghost predicate Writable()
      reads this
    {
      isOpen || size >= LOG_FILE_BYTES
    }

    /** The active file holds a byte, unless nothing has been rotated yet. */
    ghost predicate Snug()
      reads this, dir
    {
      rotations == 0 || FileStart(rotations) < |dir.stream|
    }

    constructor Detached(dir: Directory)
      ensures this.dir == dir && !isOpen && size == 0 && rotations == 0
    {
      this.dir := dir;
      isOpen, size, rotations := false, 0, 0;
    }

    /** Drops the oldest file and moves every other one up, as far as the disk lets it. */
    method ShiftFiles() returns (ok: bool)
      requires dir.Suffix() && !isOpen
      modifies dir`files, dir`failures
      ensures dir.Suffix() && (ok ==> PartlyShifted(old(dir.files), dir.files, 0))
      ensures !ok ==> !dir.reliable && SameFile(old(dir.files), dir.files, 0)
      ensures ok <==> dir.failures == old(dir.failures)
      ensures dir.failures >= old(dir.failures)
    {
      ghost var before := dir.files;
      RemoveStep(before, dir.stream);
      var removed := dir.Remove(4);
      if removed.Failed? {
        return false;
      }
      assert dir.files == before - {4};
      var index := 4;
      while index > 0
        invariant dir.failures == old(dir.failures)
        invariant index <= 4 && dir.Suffix() && PartlyShifted(before, dir.files, index)
      {
        ShiftStep(before, dir.files, index);
        var renamed := dir.Rename(index - 1, index);
        if renamed.Failed? {
          return false;
        }
        index := index - 1;
      }
      return true;
    }

    /** Closes the active file, shifts, and starts a new one. A later call starts over from
        whatever a failed one left. */
    method Rotate() returns (ok: bool)
      requires dir.Suffix() && (isOpen ==> 0 in dir.files)
      modifies this`isOpen, this`size, this`rotations, dir`files, dir`failures
      ensures dir.Suffix()
      ensures ok ==> isOpen && size == 0 && 0 in dir.files && dir.files[0] == [] && rotations == old(rotations) + 1
      ensures !ok ==> size == old(size) && rotations == old(rotations) && !dir.reliable
      ensures dir.failures >= old(dir.failures) && (ok <==> dir.failures == old(dir.failures))
      ensures !ok && isOpen ==> old(isOpen) && dir.files == old(dir.files)
      ensures !ok ==> FileAt(dir.files, 0) == [] || FileAt(dir.files, 0) == FileAt(old(dir.files), 0)
      ensures ok && Full(old(dir.files), dir.stream, old(rotations)) ==> InStep()
    {
      if isOpen {
        var fails := dir.Fails();
        if fails {
          return false;
        }
        isOpen := false;
      }
      ghost var before := dir.files;
      var shifted := ShiftFiles();
      if !shifted {
        return false;
      }
      ghost var free := dir.files;
      var created := dir.Truncate();
      if !created {
        return false;
      }
      ChainAgrees(dir.files, free, 0, 4);
      if Full(before, dir.stream, rotations) {
        ShiftStaysCanonical(before, free, dir.stream, rotations);
      }
      isOpen, size, rotations := true, 0, rotations + 1;
      return true;
    }

    /** Opens an existing or new active file; one that is already full is rotated away first. */
    method Open() returns (ok: bool)
      requires dir.Suffix() && !isOpen
      modifies this`isOpen, this`size, this`rotations, dir`files, dir`failures
      ensures dir.Suffix() && (dir.reliable ==> ok)
      ensures ok <==> dir.failures == old(dir.failures)
      ensures ok ==> Valid() && isOpen && size < LOG_FILE_BYTES
      ensures ok && old(InStep()) ==> InStep()
      ensures ok && old(dir.files) == map[] && dir.stream == [] && old(rotations) == 0 ==> InStep()
    {
      ghost var before := dir.files;
      var found := dir.OpenForAppend();
      if !found {
        return false;
      }
      OpenStep(before, dir.stream, rotations);
      isOpen, size := true, |dir.files[0]|;
      if size >= LOG_FILE_BYTES {
        ok := Rotate();
        return ok;
      }
      return true;
    }

    /** Rotates a full file away; fails if that fails or the log was closed. */
    method MakeRoom() returns (ok: bool)
      requires Valid()
      modifies this`isOpen, this`size, this`rotations, dir`files, dir`failures
      ensures Valid() && (ok ==> isOpen && size < LOG_FILE_BYTES)
      ensures dir.reliable && old(Writable()) ==> ok
      ensures dir.failures >= old(dir.failures)
      ensures old(Writable()) ==> Writable() && (ok <==> dir.failures == old(dir.failures))
      ensures dir.reliable && old(InStep()) && ok ==> InStep()
      ensures !ok && dir.reliable ==> dir.files == old(dir.files) && rotations == old(rotations)
    {
      if size >= LOG_FILE_BYTES {
        ok := Rotate();
        return ok;
      }
      return isOpen;
    }

    method AppendChunk(chunk: seq<Byte>) returns (written: nat, ok: bool)
      requires Valid() && isOpen && size + |chunk| <= LOG_FILE_BYTES
      modifies this`size, dir`files, dir`stream, dir`failures
      ensures Valid() && isOpen && written <= |chunk|
      ensures dir.stream == old(dir.stream) + chunk[..written]
      ensures dir.reliable ==> ok && written == |chunk|
      ensures dir.failures == old(dir.failures) + if ok && written == |chunk| then 0 else 1
      ensures old(InStep()) ==> InStep()
    {
      ghost var files, stream := dir.files, dir.stream;
      written, ok := dir.Append(chunk);
      size := size + written;
      AppendStep(files, stream, rotations, chunk[..written]);
    }

    /** Appends as much of the content as the disk takes, rotating whenever the file is full. */
    method Write(content: seq<Byte>) returns (total: nat, ok: bool)
      requires Valid()
      modifies this`isOpen, this`size, this`rotations, dir`files, dir`stream, dir`failures
      ensures Valid()
      ensures total <= |content| && (ok ==> total == |content|)
      ensures dir.reliable && old(Writable()) ==> ok && Writable()
      ensures dir.stream == old(dir.stream) + content[..total]
      ensures old(Writable()) ==> Writable() && (!ok ==> dir.failures > old(dir.failures))
      ensures dir.reliable && old(InStep()) ==> InStep()
      ensures dir.reliable && old(InStep() && Snug()) ==> Snug()
      ensures content == [] ==> rotations == old(rotations)
    {
      total := 0;
      while total < |content|
        invariant total <= |content| && Valid()
        invariant dir.stream == old(dir.stream) + content[..total]
        invariant dir.failures >= old(dir.failures)
        invariant old(Writable()) ==> Writable()
        invariant dir.reliable && old(InStep()) ==> InStep() && (total > 0 ==> FileStart(rotations) < |dir.stream|)
        invariant total == 0 ==> rotations == old(rotations)
        decreases |content| - total
      {
        ok := MakeRoom();
        if !ok {
          return total, false;
        }
        var chunk := NextChunk(content[total..], LOG_FILE_BYTES - size);
        var written;
        written, ok := AppendChunk(chunk);
        NextSlice(old(dir.stream), content, total, chunk, written);
        total := total + written;
        if !ok || written == 0 {
          return total, false;
        }
      }
      return total, true;
    }

    method Close()
      requires Valid()
      modifies this`isOpen
      ensures Valid() && !isOpen
    {
      isOpen := false;
    }
  }

  function NextChunk(content: seq<Byte>, remaining: nat): (chunk: seq<Byte>)
    ensures |chunk| <= remaining && chunk <= content
  {
    if |content| > remaining then content[..remaining] else content
  }

  lemma NextSlice(stream: seq<Byte>, content: seq<Byte>, total: nat, chunk: seq<Byte>, written: nat)
    requires total <= |content| && written <= |chunk| && chunk <= content[total..]
    ensures total + written <= |content|
    ensures stream + content[..total] + chunk[..written] == stream + content[..total + written]
  {
    assert chunk[..written] == content[total..total + written];
  }

  ghost predicate SameFile(from: map<nat, seq<Byte>>, to: map<nat, seq<Byte>>, i: nat) {
    (i in from <==> i in to) && (i in from ==> from[i] == to[i])
  }

  ghost predicate MovedUp(from: map<nat, seq<Byte>>, to: map<nat, seq<Byte>>, i: nat) {
    (i in from <==> i + 1 in to) && (i in from ==> from[i] == to[i + 1])
  }

  /** Files from `index` up have moved, `index` is free, the newer files wait. */
  ghost predicate PartlyShifted(from: map<nat, seq<Byte>>, to: map<nat, seq<Byte>>, index: nat) {
    && index !in to
    && (forall i | 0 <= i < index :: SameFile(from, to, i))
    && (forall i | index <= i < 4 :: MovedUp(from, to, i))
  }

  lemma RemoveStep(files: map<nat, seq<Byte>>, stream: seq<Byte>)
    requires IsSuffix(Chain(files), stream)
    ensures IsSuffix(Chain(files - {4}), stream) && PartlyShifted(files, files - {4}, 4)
  {
    ChainOfRemove(files);
    SuffixOfSuffix(Chain(files - {4}), Chain(files), stream);
  }

  lemma ShiftStep(from: map<nat, seq<Byte>>, to: map<nat, seq<Byte>>, index: nat)
    requires 0 < index <= 4 && PartlyShifted(from, to, index)
    ensures var moved := if index - 1 in to then (to - {index - 1})[index := to[index - 1]] else to;
            PartlyShifted(from, moved, index - 1) && Chain(moved) == Chain(to)
  {
    var moved := if index - 1 in to then (to - {index - 1})[index := to[index - 1]] else to;
    if index - 1 in to {
      ChainOfShift(to, index - 1);
    }
    assert SameFile(from, to, index - 1);
    forall i: nat | index <= i < 4 ensures MovedUp(from, moved, i) {
      assert MovedUp(from, to, i);
    }
    forall i: nat | i < index - 1 ensures SameFile(from, moved, i) {
      assert SameFile(from, to, i);
    }
  }

  /** A canonical state whose active file is full: the state in which the log rotates. */
  ghost predicate Full(files: map<nat, seq<Byte>>, stream: seq<Byte>, rotations: nat) {
    Canonical(files, stream, rotations) && |stream| == FileStart(rotations + 1)
  }

  lemma ShiftStaysCanonical(from: map<nat, seq<Byte>>, to: map<nat, seq<Byte>>, stream: seq<Byte>, rotations: nat)
    requires Full(from, stream, rotations) && PartlyShifted(from, to, 0)
    ensures Canonical(to[0 := []], stream, rotations + 1)
  {
    var restarted := to[0 := []];
    assert MovedUp(from, to, 0) && Backup(restarted, stream, rotations + 1, 1);
    assert MovedUp(from, to, 1) && Backup(from, stream, rotations, 1) && Backup(restarted, stream, rotations + 1, 2);
    assert MovedUp(from, to, 2) && Backup(from, stream, rotations, 2) && Backup(restarted, stream, rotations + 1, 3);
    assert MovedUp(from, to, 3) && Backup(from, stream, rotations, 3) && Backup(restarted, stream, rotations + 1, 4);
  }

  lemma AppendStaysCanonical(files: map<nat, seq<Byte>>, stream: seq<Byte>, rotations: nat, more: seq<Byte>)
    requires Canonical(files, stream, rotations) && |files[0]| + |more| <= LOG_FILE_BYTES
    ensures Canonical(files[0 := files[0] + more], stream + more, rotations)
  {
    var longer, grown := stream + more, files[0 := files[0] + more];
    forall i: nat | 1 <= i < LOG_FILE_COUNT ensures Backup(grown, longer, rotations, i) {
      assert Backup(files, stream, rotations, i);
    }
  }

  lemma OpenStep(files: map<nat, seq<Byte>>, stream: seq<Byte>, rotations: nat)
    requires IsSuffix(Chain(files), stream)
    ensures var begun := if 0 in files then files else files[0 := []];
      && IsSuffix(Chain(begun), stream)
      && (Canonical(files, stream, rotations) || (files == map[] && stream == [] && rotations == 0) ==>
            Canonical(begun, stream, rotations)
            && (|begun[0]| >= LOG_FILE_BYTES ==> Full(begun, stream, rotations)))
  {
    if 0 !in files {
      ChainAgrees(files[0 := []], files, 0, 4);
    }
  }

  lemma AppendStep(files: map<nat, seq<Byte>>, stream: seq<Byte>, rotations: nat, more: seq<Byte>)
    requires 0 in files && |files[0]| + |more| <= LOG_FILE_BYTES && IsSuffix(Chain(files), stream)
    ensures IsSuffix(Chain(files[0 := files[0] + more]), stream + more)
    ensures Canonical(files, stream, rotations) ==>
              Canonical(files[0 := files[0] + more], stream + more, rotations)
  {
    ChainGrows(files, more, 4);
    SuffixGrows(Chain(files), stream, more);
    if Canonical(files, stream, rotations) {
      AppendStaysCanonical(files, stream, rotations, more);
    }
  }

  lemma SuffixGrows(s: seq<Byte>, whole: seq<Byte>, more: seq<Byte>)
    requires IsSuffix(s, whole)
    ensures IsSuffix(s + more, whole + more)
  {
  }

  // ---- How much the log keeps -----------------------------------------------------------------

  function Min(a: nat, b: nat): nat { if a <= b then a else b }

  /** In a canonical state the chain is the stream from four files before the active one. */
  lemma CanonicalChain(files: map<nat, seq<Byte>>, stream: seq<Byte>, rotations: nat)
    requires Canonical(files, stream, rotations)
    ensures Chain(files) == stream[if rotations < 4 then 0 else FileStart(rotations - 4)..]
  {
    CanonicalFrom(files, stream, rotations, 4);
  }

  lemma {:induction false} CanonicalFrom(files: map<nat, seq<Byte>>, stream: seq<Byte>, rotations: nat, newest: nat)
    requires Canonical(files, stream, rotations) && newest <= 4
    ensures ChainFrom(files, newest) == stream[if rotations < newest then 0 else FileStart(rotations - newest)..]
  {
    if newest > 0 {
      CanonicalFrom(files, stream, rotations, newest - 1);
      assert Backup(files, stream, rotations, newest);
    }
  }

  /** After T > 0 bytes without failures, in writes of any sizes, the log retains exactly
      min(T, 4L + ((T - 1) mod L) + 1) of them, the last ones. */
  lemma RetainsFourFilesAndTheActiveOne(files: map<nat, seq<Byte>>, stream: seq<Byte>, rotations: nat)
    requires Canonical(files, stream, rotations) && FileStart(rotations) < |stream|
    ensures IsSuffix(Chain(files), stream)
    ensures |Chain(files)| == Min(|stream|, 4 * LOG_FILE_BYTES + (|stream| - 1) % LOG_FILE_BYTES + 1)
  {
    CanonicalChain(files, stream, rotations);
    assert (|stream| - 1) / LOG_FILE_BYTES == rotations;
  }

  function Joined(parts: seq<seq<Byte>>): seq<Byte> {
    if parts == [] then [] else Joined(parts[..|parts| - 1]) + parts[|parts| - 1]
  }

  lemma OneMorePart(parts: seq<seq<Byte>>, n: nat)
    requires n < |parts|
    ensures Joined(parts[..n + 1]) == Joined(parts[..n]) + parts[n]
  {
    assert parts[..n + 1][..n] == parts[..n];
  }

  function Retained(total: nat): nat {
    if total == 0 then 0 else Min(total, 4 * LOG_FILE_BYTES + (total - 1) % LOG_FILE_BYTES + 1)
  }

  lemma SnugLogRetains(files: map<nat, seq<Byte>>, stream: seq<Byte>, rotations: nat)
    requires Canonical(files, stream, rotations) && (rotations == 0 || FileStart(rotations) < |stream|)
    ensures IsSuffix(Chain(files), stream) && |Chain(files)| == Retained(|stream|)
  {
    CanonicalChain(files, stream, rotations);
    if stream != [] {
      RetainsFourFilesAndTheActiveOne(files, stream, rotations);
    }
  }

  /** From an empty directory that never fails, whatever the sizes of the writes. */
  method RunFromEmpty(parts: seq<seq<Byte>>) returns (chain: seq<Byte>)
    ensures IsSuffix(chain, Joined(parts)) && |chain| == Retained(|Joined(parts)|)
  {
    var dir := new Directory(true);
    var log := new Log.Detached(dir);
    var _ := log.Open();
    for n := 0 to |parts|
      invariant log.Valid() && log.Writable() && log.InStep() && log.Snug()
      invariant dir.stream == Joined(parts[..n])
    {
      OneMorePart(parts, n);
      var _, _ := log.Write(parts[n]);
    }
    assert parts[..|parts|] == parts;
    SnugLogRetains(dir.files, dir.stream, log.rotations);
    return Chain(dir.files);
  }
}
