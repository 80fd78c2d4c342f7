/**
  The file system a snapshot reads while other processes write to it.

  A run is recorded as a trace: what every name and every file was at each
  instant, whoever changed it. System calls read the trace at ever later
  instants; how long each one waits is arbitrary. A run that reaches the end of
  its trace was killed there, so every statement covers every finite run.
 */
module Volume {
  import opened Wrappers

  type Byte = x: int | 0 <= x < 256
  type Path = string
  type Digest = string

  /** What identifies a file for as long as it exists. */
  datatype Inode = Inode(deviceID: int, fileID: int)

  datatype Fingerprint = Fingerprint(
    deviceID: int, fileID: int, byteCount: int, modifiedSeconds: int, modifiedNanoseconds: int)
  {
    function Id(): Inode {
      Inode(deviceID, fileID)
    }
  }

  datatype File = File(fingerprint: Fingerprint, content: seq<Byte>, regular: bool)

  /** What becomes of a call to the system; some calls cannot be interrupted. */
  datatype Fault = Works | Interrupts | Fails

  datatype Instant = Instant(names: map<Path, Inode>, files: map<Inode, File>, fault: Fault)

  type Trace = seq<Instant>

  datatype IOError =
    | Killed
    | Interrupted
    | NotFound
    | NotRegular
    | SourceChanged(path: Path)
    | Failed(operation: string)

  // ----- what the trace shows -----

  ghost predicate Resolves(instant: Instant) {
    forall p :: p in instant.names ==> instant.names[p] in instant.files
  }

  /** Fingerprints carry the file's identity and its length. */
  ghost predicate Labelled(instant: Instant) {
    forall n :: n in instant.files ==>
      instant.files[n].fingerprint.Id() == n && instant.files[n].fingerprint.byteCount == |instant.files[n].content|
  }

  ghost predicate WellFormed(trace: Trace) {
    forall k :: 0 <= k < |trace| ==> Resolves(trace[k]) && Labelled(trace[k])
  }

  /** File `n` was `file` at instant `k`. */
  ghost predicate Holds(trace: Trace, k: nat, n: Inode, file: File) {
    k < |trace| && n in trace[k].files && trace[k].files[n] == file
  }

  /** The name `p` led to `file` at instant `k`. */
  ghost predicate Shows(trace: Trace, k: nat, p: Path, file: File) {
    k < |trace| && p in trace[k].names && Holds(trace, k, trace[k].names[p], file)
  }

  /** The name stood for file `n` at instant `k`. */
  ghost predicate Names(trace: Trace, k: nat, p: Path, n: Inode) {
    k < |trace| && p in trace[k].names && trace[k].names[p] == n
  }

  /** The name led to no file at instant `k`. */
  ghost predicate Absent(trace: Trace, k: nat, p: Path) {
    k < |trace| && (p !in trace[k].names || trace[k].names[p] !in trace[k].files)
  }

  ghost predicate FileUsed(trace: Trace, upTo: nat, n: Inode, fingerprint: Fingerprint)
    requires upTo < |trace|
  {
    exists k :: 0 <= k <= upTo && n in trace[k].files && trace[k].files[n].fingerprint == fingerprint
  }

  ghost predicate NameUsed(trace: Trace, upTo: nat, p: Path, fingerprint: Fingerprint)
    requires upTo < |trace|
  {
    exists k, file :: 0 <= k <= upTo && Shows(trace, k, p, file) && file.fingerprint == fingerprint
  }

  /** A write moves the file to a fingerprint this file never had before. */
  ghost predicate FreshWrite(trace: Trace, k: nat)
    requires k + 1 < |trace|
  {
    var after := trace[k + 1].files;
    forall n :: n in after ==> Holds(trace, k, n, after[n]) || !FileUsed(trace, k, n, after[n].fingerprint)
  }

  /** Giving a name to another file moves the name to a fingerprint it never showed before. */
  ghost predicate FreshRename(trace: Trace, k: nat)
    requires k + 1 < |trace|
  {
    var before, after := trace[k].names, trace[k + 1].names;
    forall p :: p in after && after[p] in trace[k + 1].files ==>
      (p in before && before[p] == after[p])
      || !NameUsed(trace, k, p, trace[k + 1].files[after[p]].fingerprint)
  }

  /** The one assumption on the writer. */
  ghost predicate Honest(trace: Trace) {
    WellFormed(trace) && forall k :: 0 <= k < |trace| - 1 ==> FreshWrite(trace, k) && FreshRename(trace, k)
  }

  // ----- what gives no call a reason to fail -----

  /** A call made at instant `k` is carried out, if only after an interruption. */
  ghost predicate Working(trace: Trace, k: nat) {
    k < |trace| && !trace[k].fault.Fails?
  }

  /** Throughout (a, b] calls are carried out, and the name leads to this one regular file. */
  ghost predicate Calm(trace: Trace, a: nat, b: nat, path: Path, file: File) {
    file.regular && forall k :: a < k <= b ==> Working(trace, k) && Shows(trace, k, path, file)
  }

  ghost predicate Uninterrupted(trace: Trace, a: nat, b: nat) {
    forall k :: a < k <= b && k < |trace| ==> !trace[k].fault.Interrupts?
  }

  /** Throughout (a, b] calls are carried out, and the descriptor's file is this one. */
  ghost predicate Steady(trace: Trace, a: nat, b: nat, n: Inode, file: File) {
    file.regular && forall k :: a < k <= b ==> Working(trace, k) && Holds(trace, k, n, file)
  }

  /** Some call in (a, b] had a reason to fail. */
  ghost predicate Broken(trace: Trace, a: nat, b: nat) {
    exists k: nat :: a < k <= b && !Working(trace, k)
  }

  ghost predicate PathCalm(trace: Trace, a: nat, b: nat, path: Path) {
    exists file :: Calm(trace, a, b, path, file)
  }

  /** Throughout (a, b] calls are carried out, and the name leads to no file. */
  ghost predicate PathGone(trace: Trace, a: nat, b: nat, path: Path) {
    forall k :: a < k <= b ==> Working(trace, k) && Absent(trace, k, path)
  }

  lemma CalmWithin(trace: Trace, a: nat, b: nat, c: nat, d: nat, path: Path)
    requires a <= b && c <= d && PathCalm(trace, a, d, path)
    ensures PathCalm(trace, b, c, path)
  {
    var file :| Calm(trace, a, d, path, file);
    assert Calm(trace, b, c, path, file);
  }

  /** A descriptor that was opened by a calm name stays that of the one file. */
  lemma CalmDescriptor(trace: Trace, a: nat, openedAt: nat, b: nat, path: Path, n: Inode)
    requires WellFormed(trace) && a < openedAt <= b && Names(trace, openedAt, path, n)
    ensures forall file :: Calm(trace, a, b, path, file) ==> Steady(trace, a, b, n, file)
  {
    forall file | Calm(trace, a, b, path, file)
      ensures Steady(trace, a, b, n, file)
    {
      CalmIsSteady(trace, a, b, path, file);
      assert Names(trace, openedAt, path, file.fingerprint.Id());
    }
  }

  lemma CalmIsSteady(trace: Trace, a: nat, b: nat, path: Path, file: File)
    requires WellFormed(trace) && Calm(trace, a, b, path, file)
    ensures Steady(trace, a, b, file.fingerprint.Id(), file)
    ensures forall k :: a < k <= b ==> Names(trace, k, path, file.fingerprint.Id())
  {
    forall k | a < k <= b
      ensures Working(trace, k) && Names(trace, k, path, file.fingerprint.Id())
      ensures Holds(trace, k, file.fingerprint.Id(), file)
    {
      assert Shows(trace, k, path, file) && Labelled(trace[k]);
    }
  }

  // ----- an unchanged fingerprint means nothing happened in between -----

  lemma {:induction false} FileStable(trace: Trace, a: nat, b: nat, n: Inode, before: File, after: File, k: nat)
    requires Honest(trace) && a <= k <= b
    requires Holds(trace, a, n, before) && Holds(trace, b, n, after)
    requires before.fingerprint == after.fingerprint
    ensures Holds(trace, k, n, before) && after == before
    decreases b - a
  {
    if a < b {
      assert FreshWrite(trace, b - 1);
      assert FileUsed(trace, b - 1, n, after.fingerprint);
      assert Holds(trace, b - 1, n, after);
      FileStable(trace, a, b - 1, n, before, after, if k < b then k else a);
    }
  }

  lemma {:induction false} NameStable(trace: Trace, a: nat, b: nat, p: Path, before: File, after: File, k: nat)
    requires Honest(trace) && a <= k <= b
    requires Shows(trace, a, p, before) && Shows(trace, b, p, after)
    requires before.fingerprint == after.fingerprint
    ensures Shows(trace, k, p, before) && after == before
    decreases b - a
  {
    if a < b {
      var n := trace[b].names[p];
      assert Labelled(trace[a]) && Labelled(trace[b]);
      FileStable(trace, a, b, n, before, after, b - 1);
      assert FreshRename(trace, b - 1);
      assert NameUsed(trace, b - 1, p, after.fingerprint);
      assert Shows(trace, b - 1, p, after);
      NameStable(trace, a, b - 1, p, before, after, if k < b then k else a);
    }
  }

  // ----- system calls -----

  datatype CloneOutcome = Cloned(content: seq<Byte>) | Unsupported | Refused(error: IOError)

  class Machine {
    const trace: Trace
    var now: nat
    var directories: nat

    constructor (trace: Trace)
      ensures this.trace == trace && now == 0 && directories == 0
    {
      this.trace := trace;
      now, directories := 0, 0;
    }

    /** Time passes, with anything the writer does meanwhile. */
    method Wait() returns (alive: bool)
      modifies this`now
      ensures old(now) < now && alive == (now < |trace|)
    {
      var pause: nat :| 0 <= pause;
      now := now + 1 + pause;
      alive := now < |trace|;
    }

    /** `lstat`, with the check that the name is a regular file. */
    method Stat(path: Path) returns (r: Result<Fingerprint, IOError>)
      modifies this`now
      ensures old(now) < now
      ensures r.Ok? ==> exists file :: Shows(trace, now, path, file) && file.fingerprint == r.value && file.regular
      ensures r == Err(NotFound) ==> Absent(trace, now, path)
      ensures r.Err? && r.error != NotFound && Working(trace, now) ==>
        exists file :: Shows(trace, now, path, file) && !file.regular
    {
      var alive := Wait();
      if !alive {
        return Err(Killed);
      }
      if trace[now].fault.Fails? {
        return Err(Failed("lstat"));
      }
      if path !in trace[now].names || trace[now].names[path] !in trace[now].files {
        return Err(NotFound);
      }
      var file := trace[now].files[trace[now].names[path]];
      assert Shows(trace, now, path, file);
      if !file.regular {
        return Err(NotRegular);
      }
      return Ok(file.fingerprint);
    }

    method Open(path: Path) returns (r: Result<Inode, IOError>)
      modifies this`now
      ensures old(now) < now
      ensures r.Ok? ==> Names(trace, now, path, r.value)
      ensures r.Err? && Working(trace, now) ==> path !in trace[now].names
    {
      var alive := Wait();
      if !alive {
        return Err(Killed);
      }
      if trace[now].fault.Fails? {
        return Err(Failed("open"));
      }
      if path !in trace[now].names {
        return Err(NotFound);
      }
      return Ok(trace[now].names[path]);
    }

    /** `fstat` on an open descriptor. */
    method DescriptorStat(node: Inode) returns (r: Result<Fingerprint, IOError>)
      modifies this`now
      ensures old(now) < now
      ensures r.Ok? ==> exists file :: Holds(trace, now, node, file) && file.fingerprint == r.value && file.regular
      ensures r.Err? && Working(trace, now) ==> forall file :: Holds(trace, now, node, file) ==> !file.regular
    {
      var alive := Wait();
      if !alive {
        return Err(Killed);
      }
      if trace[now].fault.Fails? {
        return Err(Failed("fstat"));
      }
      if node !in trace[now].files {
        return Err(NotFound);
      }
      var file := trace[now].files[node];
      if !file.regular {
        return Err(NotRegular);
      }
      assert Holds(trace, now, node, file);
      return Ok(file.fingerprint);
    }

    /** `read` at a position: possibly short, empty only at the end of the file. */
    method Read(node: Inode, offset: nat, capacity: nat) returns (r: Result<seq<Byte>, IOError>)
      requires 0 < capacity
      modifies this`now
      ensures old(now) < now
      ensures r.Ok? ==>
        |r.value| <= capacity && exists file :: Holds(trace, now, node, file) && Slice(file, offset, r.value)
      ensures r == Err(Interrupted) ==> now < |trace| && trace[now].fault.Interrupts?
      ensures r.Err? && r.error != Interrupted && now < |trace| ==> trace[now].fault.Fails? || node !in trace[now].files
    {
      var alive := Wait();
      if !alive {
        return Err(Killed);
      }
      if node !in trace[now].files {
        return Err(NotFound);
      }
      if !trace[now].fault.Works? {
        return Err(if trace[now].fault.Interrupts? then Interrupted else Failed("read source"));
      }
      var file := trace[now].files[node];
      assert Holds(trace, now, node, file);
      if |file.content| <= offset {
        return Ok([]);
      }
      var count: nat :| 1 <= count <= capacity && offset + count <= |file.content|;
      return Ok(file.content[offset..offset + count]);
    }

    /** A new private directory, counted even when it cannot be made. */
    method MakeDirectory() returns (r: Result<nat, IOError>)
      modifies this`now, this`directories
      ensures old(now) < now && directories == old(directories) + 1
      ensures r.Err? && now < |trace| ==> trace[now].fault.Fails?
    {
      directories := directories + 1;
      var alive := Wait();
      if !alive {
        return Err(Killed);
      }
      return if trace[now].fault.Fails? then Err(Failed("secure snapshot directory")) else Ok(directories);
    }

    /** `write` to the private snapshot file: possibly short. */
    method Write(part: seq<Byte>) returns (r: Result<nat, IOError>)
      modifies this`now
      ensures old(now) < now
      ensures r.Ok? ==> r.value <= |part| && now < |trace|
      ensures r == Err(Interrupted) ==> now < |trace| && trace[now].fault.Interrupts?
      ensures r.Err? && r.error != Interrupted && now < |trace| ==> trace[now].fault.Fails?
    {
      var alive := Wait();
      if !alive {
        return Err(Killed);
      }
      if !trace[now].fault.Works? {
        return Err(if trace[now].fault.Interrupts? then Interrupted else Failed("write snapshot"));
      }
      var count: nat :| 0 <= count <= |part|;
      return Ok(count);
    }

    /** `fclonefileat`: copies the file as it is at one instant, where the volume supports it. */
    method Clone(node: Inode) returns (r: CloneOutcome)
      modifies this`now
      ensures old(now) < now
      ensures r.Cloned? ==> exists file :: Holds(trace, now, node, file) && file.content == r.content
      ensures r.Refused? && now < |trace| ==> trace[now].fault.Fails? || node !in trace[now].files
    {
      var alive := Wait();
      if !alive {
        return Refused(Killed);
      }
      var supported: bool := *;
      if !supported {
        return Unsupported;
      }
      if trace[now].fault.Fails? || node !in trace[now].files {
        return Refused(Failed("clone snapshot"));
      }
      assert Holds(trace, now, node, trace[now].files[node]);
      return Cloned(trace[now].files[node].content);
    }
  }

  ghost predicate Slice(file: File, offset: nat, part: seq<Byte>) {
    if part == [] then |file.content| <= offset
    else offset + |part| <= |file.content| && part == file.content[offset..offset + |part|]
  }
}
