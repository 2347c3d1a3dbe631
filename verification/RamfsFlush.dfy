// ramfs_file_flush: write a temporary file, fsync it, rename it over the
// target. The disk can crash after every step, other contexts rebind the sync
// directory and change other names at any time, and every operation can fail.

module RamfsFlush {
  import opened Wrappers

  type Byte = x: int | 0 <= x < 256

  const PAGE_SIZE: nat := 4096
  const ENOMEM: int := 12

  // ---------------------------------------------------------------- the disk

  datatype Path = Path(dir: string, name: string)

  // A file's bytes, and whether all of them are known to be on the medium.
  datatype Data = Data(content: seq<Byte>, stable: bool)

  // `maybe` holds the entries a name may have on the medium beside its current
  // one: a rename is not forced out by anything here.
  datatype Disk = Disk(names: map<Path, nat>, data: map<nat, Data>, maybe: map<Path, set<Option<nat>>>)

  function Entry(d: Disk, p: Path): Option<nat>
  {
    if p in d.names then Some(d.names[p]) else None
  }

  function Possible(d: Disk, p: Path): set<Option<nat>>
  {
    (if p in d.maybe then d.maybe[p] else {}) + {Entry(d, p)}
  }

  ghost predicate WellFormed(d: Disk)
  {
    forall p, i :: Some(i) in Possible(d, p) ==> i in d.data
  }

  // A crash now may leave x at name p.
  predicate Leaves(d: Disk, p: Path, e: Option<nat>, x: Option<seq<Byte>>)
  {
    && e in Possible(d, p)
    && match e
       case None => x.None?
       case Some(i) => x.Some? && i in d.data && (d.data[i].stable ==> x.value == d.data[i].content)
  }

  ghost predicate Found(d: Disk, p: Path, x: Option<seq<Byte>>)
  {
    exists e :: Leaves(d, p, e, x)
  }

  // What a reader without a crash gets.
  function Contents(d: Disk, p: Path): Option<seq<Byte>>
  {
    if p in d.names && d.names[p] in d.data then Some(d.data[d.names[p]].content) else None
  }

  function TempName(name: string): string
  {
    "." + name + ".tmp"
  }

  // The names a flush of this file uses, in whatever directory is bound.
  predicate Ours(p: Path, name: string)
  {
    p.name == name || p.name == TempName(name)
  }

  // The temporary name is never the target's, and different files have
  // different temporary names.
  lemma {:induction false} TempNamesApart(a: string, b: string)
    ensures TempName(a) != a
    ensures TempName(a) == TempName(b) <==> a == b
  {
    assert |TempName(a)| == |a| + 5;
    if TempName(a) == TempName(b) {
      assert TempName(a)[1..|a| + 1] == a;
      assert TempName(b)[1..|b| + 1] == b;
    }
  }

  // Others leave our names and the files behind them alone.
  ghost predicate LeavesOurs(d: Disk, d': Disk, name: string)
  {
    && WellFormed(d')
    && (forall p :: Ours(p, name) ==> Possible(d', p) == Possible(d, p) && Entry(d', p) == Entry(d, p))
    && (forall p, i :: Ours(p, name) && Some(i) in Possible(d, p) ==>
          i in d.data && i in d'.data && d'.data[i] == d.data[i])
  }

  // ---------------------------------------------------------------- one call's view of the kernel

  datatype Resource =
    TempPath | FilePath | SyncFile | ReadFile | Buf | TmpPath | OldPath | NewDirPath | DirLock | NewDentry

  // The operations that can fail; a flush does each at most once.
  datatype Op = Take(r: Resource) | FullPath | Sync | Move

  // An operation's result, given what the kernel has in store for it: zero or an error.
  function Failure(result: int): (err: int)
    ensures err <= 0
  {
    if result < 0 then result else 0
  }

  // inode_lock cannot fail; everything else goes well.
  ghost predicate NothingFails(fault: Op -> int)
  {
    forall op :: op != Take(DirLock) ==> fault(op) >= 0
  }

  // The disk is the file system underneath: the code sees only return values.
  class World {
    const name: string              // the file being flushed
    const fault: Op -> int          // what each operation will return
    const binding: nat -> Option<string>   // what others will have bound, each time they get to run
    var turn: nat                   // how often they have
    var syncDir: Option<string>     // ramfs_sync_dir
    var held: set<Resource>         // what this call has and has not given back
    ghost var disk: Disk
    ghost var trace: seq<Disk>      // every disk state so far, a crash point each

    constructor (name: string, fault: Op -> int, binding: nat -> Option<string>, ghost disk: Disk)
      ensures this.name == name && this.fault == fault && this.binding == binding && turn == 0
      ensures this.disk == disk && held == {} && trace == [disk]
    {
      this.name, this.fault, this.binding, this.disk := name, fault, binding, disk;
      turn, syncDir, held, trace := 0, None, {}, [disk];
    }

    // Anything the rest of the system does between two steps.
    method Others()
      requires WellFormed(disk)
      modifies this`turn, this`syncDir, this`disk, this`trace
      ensures LeavesOurs(old(disk), disk, name) && trace == old(trace) + [disk]
      ensures syncDir == binding(old(turn)) && turn == old(turn) + 1
    {
      assert LeavesOurs(disk, disk, name);
      ghost var d :| LeavesOurs(disk, d, name);
      syncDir, turn := binding(turn), turn + 1;
      disk, trace := d, trace + [d];
    }

    // A call that takes a resource or fails with an error.
    method Acquire(r: Resource) returns (err: int)
      requires r !in held
      modifies this`held
      ensures err == Failure(fault(Take(r))) && held == if err == 0 then old(held) + {r} else old(held)
    {
      err := Failure(fault(Take(r)));
      if err == 0 { held := held + {r}; }
    }

    method Lock(r: Resource)
      requires r !in held
      modifies this`held
      ensures held == old(held) + {r}
    {
      held := held + {r};
    }

    method Release(r: Resource)
      requires r in held
      modifies this`held
      ensures held == old(held) - {r}
    {
      held := held - {r};
    }

    // filp_open(O_WRONLY | O_CREAT | O_TRUNC): an existing file is emptied, a new one is made.
    method OpenTemp(p: Path) returns (err: int, ghost ino: nat)
      requires WellFormed(disk) && SyncFile !in held
      modifies this`disk, this`trace, this`held
      ensures err == Failure(fault(Take(SyncFile))) && trace == old(trace) + [disk]
      ensures err < 0 ==> disk == old(disk) && held == old(held)
      ensures err == 0 ==> held == old(held) + {SyncFile} && disk == Opened(old(disk), p, ino)
      ensures err == 0 ==> if p in old(disk).names then ino == old(disk).names[p] else ino !in old(disk).data
    {
      err := Failure(fault(Take(SyncFile)));
      ino := if p in disk.names then disk.names[p] else Unused(disk);
      if err == 0 {
        disk := Opened(disk, p, ino);
        held := held + {SyncFile};
      }
      trace := trace + [disk];
    }

    // kernel_read at pos: as many bytes as it chooses up to n, or an error.
    method KernelRead(src: seq<Byte>, buf: array<Byte>, n: nat, pos: nat, result: int) returns (k: int)
      requires pos + n <= |src| && n <= buf.Length
      modifies buf
      ensures k == Min(result, n) && (k >= 0 ==> buf[..k] == src[pos..pos + k])
    {
      k := Min(result, n);
      if k > 0 {
        for i := 0 to k
          invariant forall j :: 0 <= j < i ==> buf[j] == src[pos + j]
        {
          buf[i] := src[pos + i];
        }
        assert buf[..k] == src[pos..pos + k];
      }
    }

    // kernel_write at pos, the end of the file: as many bytes as it chooses, or an error.
    method KernelWrite(ghost ino: nat, buf: array<Byte>, n: nat, pos: nat, result: int) returns (k: int)
      requires ino in disk.data && |disk.data[ino].content| == pos && 0 < n <= buf.Length
      modifies this`disk, this`trace
      ensures k == Min(result, n) && trace == old(trace) + [disk]
      ensures k <= 0 ==> disk == old(disk)
      ensures k > 0 ==> disk == WithData(old(disk), ino, Data(old(disk).data[ino].content + buf[..k], false))
    {
      k := Min(result, n);
      if k > 0 { disk := WithData(disk, ino, Data(disk.data[ino].content + buf[..k], false)); }
      trace := trace + [disk];
    }

    method Fsync(ghost ino: nat) returns (err: int)
      requires ino in disk.data
      modifies this`disk, this`trace
      ensures err == Failure(fault(Sync)) && trace == old(trace) + [disk]
      ensures disk == if err == 0 then WithData(old(disk), ino, old(disk).data[ino].(stable := true)) else old(disk)
    {
      err := Failure(fault(Sync));
      if err == 0 { disk := WithData(disk, ino, disk.data[ino].(stable := true)); }
      trace := trace + [disk];
    }

    // vfs_rename: the new name has the file at once; the medium follows or not.
    method Rename(old_: Path, new_: Path) returns (err: int)
      requires old_ in disk.names && old_ != new_
      modifies this`disk, this`trace
      ensures err == Failure(fault(Move)) && trace == old(trace) + [disk]
      ensures disk == if err == 0 then Renamed(old(disk), old_, new_) else old(disk)
    {
      err := Failure(fault(Move));
      if err == 0 { disk := Renamed(disk, old_, new_); }
      trace := trace + [disk];
    }
  }

  function Min(a: int, b: int): int
  {
    if a < b then a else b
  }

  ghost function Unused(d: Disk): (i: nat)
    ensures i !in d.data
  {
    UnusedExists(d.data.Keys);
    var i :| i !in d.data;
    i
  }

  lemma {:induction false} UnusedExists(s: set<nat>)
    ensures exists i: nat :: i !in s
  {
    var t := Above(s);
    assert t !in s;
  }

  lemma {:induction false} Above(s: set<nat>) returns (t: nat)
    ensures forall i :: i in s ==> i < t
    decreases |s|
  {
    t := 0;
    if s != {} {
      var m :| m in s;
      var r := Above(s - {m});
      t := if r <= m then m + 1 else r;
      assert forall i :: i in s ==> i == m || i in s - {m};
    }
  }

  function WithData(d: Disk, i: nat, x: Data): Disk
  {
    d.(data := d.data[i := x])
  }

  function Opened(d: Disk, p: Path, i: nat): Disk
  {
    Disk(d.names[p := i], d.data[i := Data([], false)], d.maybe[p := Possible(d, p) + {Some(i)}])
  }

  function Renamed(d: Disk, p: Path, q: Path): Disk
    requires p in d.names
  {
    Disk((d.names - {p})[q := d.names[p]], d.data,
         d.maybe[p := Possible(d, p) + {None}][q := Possible(d, q) + {Some(d.names[p])}])
  }

  // ---------------------------------------------------------------- what the call promises about the disk

  // Whatever a crash leaves at t was possible there before the call, or is the
  // whole new contents.
  ghost predicate Safe(d0: Disk, d: Disk, t: Path, whole: seq<Byte>)
  {
    forall x :: Found(d, t, x) ==> Found(d0, t, x) || x == Some(whole)
  }

  // Name t has what it had, on the medium and off it.
  ghost predicate Untouched(d0: Disk, d: Disk, t: Path)
  {
    && Possible(d, t) == Possible(d0, t) && Entry(d, t) == Entry(d0, t)
    && forall i :: Some(i) in Possible(d0, t) ==> i in d0.data && i in d.data && d.data[i] == d0.data[i]
  }

  // A leftover temporary file is not the target's file under another name:
  // truncating it leaves the target alone.
  predicate Apart(d: Disk, name: string, dir: string)
  {
    Entry(d, Path(dir, TempName(name))).Some? ==> Entry(d, Path(dir, TempName(name))) !in Possible(d, Path(dir, name))
  }

  // A disk on which this file can be flushed.
  ghost predicate Ready(d: Disk, name: string)
  {
    WellFormed(d) && forall dir :: Apart(d, name, dir)
  }

  lemma {:induction false} OthersLeaveReady(d: Disk, d': Disk, name: string)
    requires Ready(d, name) && LeavesOurs(d, d', name)
    ensures Ready(d', name)
  {
    forall dir ensures Apart(d', name, dir) {
      assert Apart(d, name, dir) && Ours(Path(dir, name), name) && Ours(Path(dir, TempName(name)), name);
    }
  }

  lemma {:induction false} UntouchedIsSafe(d0: Disk, d: Disk, t: Path, whole: seq<Byte>)
    requires Untouched(d0, d, t)
    ensures Safe(d0, d, t, whole) && Contents(d, t) == Contents(d0, t)
  {
    forall x | Found(d, t, x) ensures Found(d0, t, x) {
      var e :| Leaves(d, t, e, x);
      assert Leaves(d0, t, e, x);
    }
    assert Entry(d0, t) in Possible(d0, t);
  }

  lemma {:induction false} OthersLeaveUntouched(d0: Disk, d: Disk, d': Disk, t: Path, name: string)
    requires Untouched(d0, d, t) && LeavesOurs(d, d', name) && Ours(t, name)
    ensures Untouched(d0, d', t)
  {
  }

  // ---------------------------------------------------------------- the temporary file being written

  // The target has not been touched since d0; file ino is at the temporary name
  // tmp only and holds x.
  ghost predicate Writing(d0: Disk, d: Disk, t: Path, tmp: Path, ino: nat, x: Data)
  {
    && Ready(d, t.name) && t.dir == tmp.dir && tmp.name == TempName(t.name) && Untouched(d0, d, t)
    && tmp in d.names && d.names[tmp] == ino && ino in d.data && d.data[ino] == x
    && Some(ino) !in Possible(d, t)
  }

  lemma {:induction false} OthersLeaveWriting(d0: Disk, d: Disk, d': Disk, t: Path, tmp: Path, ino: nat, x: Data,
                                              name: string)
    requires Writing(d0, d, t, tmp, ino, x) && LeavesOurs(d, d', name) && t.name == name
    ensures Writing(d0, d', t, tmp, ino, x)
  {
    OthersLeaveUntouched(d0, d, d', t, name);
    OthersLeaveReady(d, d', name);
    assert Ours(tmp, name);
    assert Entry(d, tmp) == Some(ino) && Some(ino) in Possible(d, tmp);
  }

  lemma {:induction false} OpenedIsWriting(d0: Disk, d: Disk, t: Path, tmp: Path, ino: nat)
    requires Ready(d, t.name) && Untouched(d0, d, t) && t.dir == tmp.dir && tmp.name == TempName(t.name)
    requires if tmp in d.names then ino == d.names[tmp] else ino !in d.data
    ensures Writing(d0, Opened(d, tmp, ino), t, tmp, ino, Data([], false))
  {
    var d' := Opened(d, tmp, ino);
    TempNamesApart(t.name, t.name);
    assert Possible(d', t) == Possible(d, t);
    assert Apart(d, t.name, t.dir) && Path(t.dir, t.name) == t && Path(t.dir, TempName(t.name)) == tmp;
    forall p, i | Some(i) in Possible(d', p) ensures i in d'.data {
      assert p != tmp ==> Possible(d', p) == Possible(d, p);
    }
    forall dir ensures Apart(d', t.name, dir) {
      assert Apart(d, t.name, dir);
      assert dir != t.dir ==> Possible(d', Path(dir, t.name)) == Possible(d, Path(dir, t.name));
    }
  }

  lemma {:induction false} DataIsWriting(d0: Disk, d: Disk, t: Path, tmp: Path, ino: nat, x: Data, x': Data)
    requires Writing(d0, d, t, tmp, ino, x)
    ensures Writing(d0, WithData(d, ino, x'), t, tmp, ino, x')
  {
    var d' := WithData(d, ino, x');
    forall p ensures Possible(d', p) == Possible(d, p) && Entry(d', p) == Entry(d, p) { }
    forall dir ensures Apart(d', t.name, dir) { assert Apart(d, t.name, dir); }
  }

  // All disks of the trace from `from` on left the target alone.
  ghost predicate AllUntouched(trace: seq<Disk>, from: nat, d0: Disk, t: Path)
  {
    forall k :: from <= k < |trace| ==> Untouched(d0, trace[k], t)
  }

  ghost predicate AllSafe(trace: seq<Disk>, from: nat, d0: Disk, t: Path, whole: seq<Byte>)
  {
    forall k :: from <= k < |trace| ==> Safe(d0, trace[k], t, whole)
  }

  lemma {:induction false} AllUntouchedIsSafe(trace: seq<Disk>, from: nat, d0: Disk, t: Path, whole: seq<Byte>)
    requires AllUntouched(trace, from, d0, t)
    ensures AllSafe(trace, from, d0, t, whole)
  {
    forall k | from <= k < |trace| ensures Safe(d0, trace[k], t, whole) { UntouchedIsSafe(d0, trace[k], t, whole); }
  }

  // ---------------------------------------------------------------- where the copy stops

  // What kernel_read and kernel_write will return in each round of the loop,
  // before being cut to the number of bytes asked for.
  datatype Transfers = Transfers(readResult: nat -> int, writeResult: nat -> int)

  // How far the copy of `size` bytes is after r rounds that all went on.
  function Position(x: Transfers, size: nat, r: nat): (pos: nat)
    ensures pos <= size
  {
    if r == 0 then 0
    else
      var before := Position(x, size, r - 1);
      var got := Min(x.readResult(r - 1), Min(size - before, PAGE_SIZE));
      if got <= 0 || x.writeResult(r - 1) <= 0 then before else before + Min(x.writeResult(r - 1), got)
  }

  // Round r moves bytes, or at least goes on to the next round.
  predicate GoesOn(x: Transfers, size: nat, r: nat)
  {
    Position(x, size, r) < size && x.readResult(r) > 0 && x.writeResult(r) >= 0
  }

  ghost predicate StopsAt(x: Transfers, size: nat, r: nat)
  {
    !GoesOn(x, size, r) && forall q: nat :: q < r ==> GoesOn(x, size, q)
  }

  // A read comes back empty before the end of the source.
  ghost predicate CutShort(x: Transfers, size: nat)
  {
    exists r: nat :: StopsAt(x, size, r) && Position(x, size, r) < size && x.readResult(r) == 0
  }

  // A read or a write fails before the end of the source.
  ghost predicate CopyFails(x: Transfers, size: nat)
  {
    exists r: nat ::
      && StopsAt(x, size, r) && Position(x, size, r) < size
      && (x.readResult(r) < 0 || (x.readResult(r) > 0 && x.writeResult(r) < 0))
  }

  // Writes of no bytes do not go on for ever.
  ghost predicate WritesMove(x: Transfers)
  {
    forall r: nat :: MovesAfter(x, r)
  }

  ghost predicate MovesAfter(x: Transfers, r: nat)
  {
    exists e: nat :: MovesAt(x, r, e)
  }

  predicate MovesAt(x: Transfers, r: nat, e: nat)
  {
    r <= e && x.writeResult(e) != 0
  }

  lemma {:induction false} NextMove(x: Transfers, r: nat) returns (e: nat)
    requires WritesMove(x)
    ensures MovesAt(x, r, e)
  {
    assert MovesAfter(x, r);
    e :| MovesAt(x, r, e);
  }

  // All rounds before r go on, and take the copy to pos.
  ghost predicate Reached(x: Transfers, size: nat, r: nat, pos: nat)
  {
    pos == Position(x, size, r) && forall q: nat :: q < r ==> GoesOn(x, size, q)
  }

  lemma {:induction false} ReachedNext(x: Transfers, size: nat, r: nat, pos: nat)
    requires Reached(x, size, r, pos) && pos < size && x.readResult(r) > 0 && x.writeResult(r) >= 0
    ensures Reached(x, size, r + 1, Position(x, size, r + 1))
  {
    assert GoesOn(x, size, r);
  }

  lemma {:induction false} OneStop(x: Transfers, size: nat, q: nat, r: nat)
    requires StopsAt(x, size, q) && StopsAt(x, size, r)
    ensures q == r
  {
  }

  // There is only one round to stop at, so it decides both.
  lemma {:induction false} StopDecides(x: Transfers, size: nat, r: nat, pos: nat)
    requires Reached(x, size, r, pos) && !GoesOn(x, size, r)
    ensures CutShort(x, size) <==> pos < size && x.readResult(r) == 0
    ensures CopyFails(x, size) <==> pos < size && x.readResult(r) != 0
    ensures StopsAt(x, size, r)
  {
    assert StopsAt(x, size, r);
    forall q: nat | StopsAt(x, size, q) ensures q == r { OneStop(x, size, q, r); }
  }

  // What has been copied when the copy stops.
  ghost predicate Copied(x: Transfers, src: seq<Byte>, wrote: seq<Byte>)
  {
    exists r: nat :: StopsAt(x, |src|, r) && wrote == src[..Position(x, |src|, r)]
  }

  lemma {:induction false} CopiedUpTo(x: Transfers, src: seq<Byte>, wrote: seq<Byte>, r: nat)
    requires Copied(x, src, wrote) && StopsAt(x, |src|, r)
    ensures wrote == src[..Position(x, |src|, r)]
  {
    var q: nat :| StopsAt(x, |src|, q) && wrote == src[..Position(x, |src|, q)];
    OneStop(x, |src|, q, r);
  }

  // A source of any length, and a first read of no bytes.
  lemma {:induction false} EmptyFirstRead(x: Transfers, size: nat)
    requires size > 0 && x.readResult(0) == 0
    ensures CutShort(x, size) && !CopyFails(x, size) && StopsAt(x, size, 0)
  {
    StopDecides(x, size, 0, 0);
  }

  // ---------------------------------------------------------------- when the call succeeds

  predicate OpenGoesWell(fault: Op -> int)
  {
    && fault(Take(SyncFile)) >= 0 && fault(FullPath) >= 0
    && fault(Take(ReadFile)) >= 0 && fault(Take(Buf)) >= 0
  }

  predicate RenameGoesWell(fault: Op -> int)
  {
    && fault(Take(TmpPath)) >= 0 && fault(Take(OldPath)) >= 0 && fault(Take(NewDirPath)) >= 0
    && fault(Take(NewDentry)) >= 0 && fault(Move) >= 0
  }

  ghost predicate Goes(fault: Op -> int, x: Transfers, size: nat)
  {
    OpenGoesWell(fault) && !CopyFails(x, size) && fault(Sync) >= 0 && RenameGoesWell(fault)
  }

  ghost predicate FlushGoesWell(fault: Op -> int, x: Transfers, size: nat)
  {
    fault(Take(TempPath)) >= 0 && fault(Take(FilePath)) >= 0 && Goes(fault, x, size)
  }

  // Every operation but the lock is needed: one failure is an error of the call.
  lemma {:induction false} WellMeansNothingFails(fault: Op -> int, x: Transfers, size: nat)
    ensures FlushGoesWell(fault, x, size) <==> NothingFails(fault) && !CopyFails(x, size)
  {
    if FlushGoesWell(fault, x, size) {
      forall op | op != Take(DirLock) ensures fault(op) >= 0 {
        if op.Take? { EveryResource(fault, op.r); }
      }
    }
  }

  lemma {:induction false} EveryResource(fault: Op -> int, r: Resource)
    requires OpenGoesWell(fault) && RenameGoesWell(fault) && fault(Take(TempPath)) >= 0 && fault(Take(FilePath)) >= 0
    ensures r != DirLock ==> fault(Take(r)) >= 0
  {
    match r
    case TempPath | FilePath => assert fault(Take(r)) >= 0;
    case SyncFile | ReadFile | Buf => assert fault(Take(r)) >= 0;
    case TmpPath | OldPath | NewDirPath | NewDentry => assert fault(Take(r)) >= 0;
    case DirLock =>
  }

  // Every read gives something and no write fails.
  ghost predicate BytesFlow(x: Transfers)
  {
    forall r: nat :: x.readResult(r) > 0 && x.writeResult(r) >= 0
  }

  lemma {:induction false} FlowingIsWhole(x: Transfers, size: nat)
    ensures BytesFlow(x) ==> !CopyFails(x, size) && !CutShort(x, size)
  {
  }

  // One round of the loop: read a page or less, write what came.
  method CopyRound(w: World, ghost ino: nat, buf: array<Byte>, src: seq<Byte>, x: Transfers, round: nat, pos: nat,
                   ghost d0: Disk, ghost t: Path, ghost tmp: Path, ghost from: nat)
    returns (err: int, ended: bool, next: nat)
    requires buf.Length == PAGE_SIZE && t.name == w.name && pos == Position(x, |src|, round) < |src|
    requires Writing(d0, w.disk, t, tmp, ino, Data(src[..pos], false)) && AllUntouched(w.trace, from, d0, t)
    modifies w`disk, w`trace, w`turn, w`syncDir, buf
    ensures ended <==> x.readResult(round) == 0
    ensures err < 0 <==> x.readResult(round) < 0 || (x.readResult(round) > 0 && x.writeResult(round) < 0)
    ensures err <= 0 && next == if err == 0 && !ended then Position(x, |src|, round + 1) else pos
    ensures |old(w.trace)| <= |w.trace|
    ensures Writing(d0, w.disk, t, tmp, ino, Data(src[..next], false)) && AllUntouched(w.trace, from, d0, t)
  {
    next := pos;
    var want := Min(|src| - pos, PAGE_SIZE);
    var got := w.KernelRead(src, buf, want, pos, x.readResult(round));
    if got <= 0 { return got, got == 0, pos; }
    err, next := WriteRound(w, ino, buf, src, got, x.writeResult(round), pos, d0, t, tmp, from);
    ended := false;
  }

  // The write of what came, after whatever others did meanwhile.
  method WriteRound(w: World, ghost ino: nat, buf: array<Byte>, ghost src: seq<Byte>, got: nat, result: int, pos: nat,
                    ghost d0: Disk, ghost t: Path, ghost tmp: Path, ghost from: nat)
    returns (err: int, next: nat)
    requires 0 < got <= buf.Length && pos + got <= |src| && buf[..got] == src[pos..pos + got] && t.name == w.name
    requires Writing(d0, w.disk, t, tmp, ino, Data(src[..pos], false)) && AllUntouched(w.trace, from, d0, t)
    modifies w`disk, w`trace, w`turn, w`syncDir
    ensures err == Failure(result) && next == if result <= 0 then pos else pos + Min(result, got)
    ensures |old(w.trace)| <= |w.trace|
    ensures Writing(d0, w.disk, t, tmp, ino, Data(src[..next], false)) && AllUntouched(w.trace, from, d0, t)
  {
    ghost var d := w.disk;
    w.Others();
    OthersLeaveWriting(d0, d, w.disk, t, tmp, ino, Data(src[..pos], false), w.name);
    d := w.disk;
    var written := w.KernelWrite(ino, buf, got, pos, result);
    if written <= 0 { return written, pos; }
    Longer(buf[..], src, pos, got, written);
    DataIsWriting(d0, d, t, tmp, ino, Data(src[..pos], false), Data(src[..pos + written], false));
    return 0, pos + written;
  }

  lemma {:induction false} Longer(b: seq<Byte>, src: seq<Byte>, pos: nat, got: nat, written: nat)
    requires written <= got <= |b| && pos + got <= |src| && b[..got] == src[pos..pos + got]
    ensures src[..pos] + b[..written] == src[..pos + written]
  {
    assert b[..written] == b[..got][..written];
  }

  // Page by page from the source to the temporary file.
  method CopyLoop(w: World, ghost ino: nat, buf: array<Byte>, src: seq<Byte>, x: Transfers,
                  ghost d0: Disk, ghost t: Path, ghost tmp: Path, ghost from: nat)
    returns (err: int, pos: nat)
    requires buf.Length == PAGE_SIZE && t.name == w.name && WritesMove(x)
    requires Writing(d0, w.disk, t, tmp, ino, Data([], false)) && AllUntouched(w.trace, from, d0, t)
    modifies w`disk, w`trace, w`turn, w`syncDir, buf
    ensures err <= 0 && pos <= |src| && |old(w.trace)| <= |w.trace|
    ensures err < 0 <==> CopyFails(x, |src|)
    ensures err == 0 ==> (pos == |src| <==> !CutShort(x, |src|))
    ensures Copied(x, src, src[..pos])
    ensures Writing(d0, w.disk, t, tmp, ino, Data(src[..pos], false)) && AllUntouched(w.trace, from, d0, t)
  {
    pos, err := 0, 0;
    var size := |src|;
    var round: nat := 0;
    ghost var moves := NextMove(x, 0);
    while pos < size
      invariant err == 0 && pos <= size == |src| && |old(w.trace)| <= |w.trace|
      invariant Writing(d0, w.disk, t, tmp, ino, Data(src[..pos], false)) && AllUntouched(w.trace, from, d0, t)
      invariant Reached(x, size, round, pos)
      invariant MovesAt(x, round, moves)
      decreases size - pos, moves - round
    {
      var ended, next;
      err, ended, next := CopyRound(w, ino, buf, src, x, round, pos, d0, t, tmp, from);
      if err < 0 || ended { StopDecides(x, size, round, pos); return; }
      ReachedNext(x, size, round, pos);
      if next > pos { moves := NextMove(x, round + 1); }
      pos, round := next, round + 1;
    }
    StopDecides(x, size, round, pos);
  }

  lemma {:induction false} RenamedIsSafe(d0: Disk, d: Disk, t: Path, tmp: Path, ino: nat, whole: seq<Byte>)
    requires Writing(d0, d, t, tmp, ino, Data(whole, true))
    ensures t != tmp && Safe(d0, Renamed(d, tmp, t), t, whole) && Contents(Renamed(d, tmp, t), t) == Some(whole)
    ensures Entry(Renamed(d, tmp, t), tmp) == None
    ensures Ready(Renamed(d, tmp, t), t.name)
  {
    var d' := Renamed(d, tmp, t);
    TempNamesApart(t.name, t.name);
    assert Possible(d', t) == Possible(d, t) + {Some(ino)};
    forall x | Found(d', t, x) ensures Found(d0, t, x) || x == Some(whole) {
      var e :| Leaves(d', t, e, x);
      if e != Some(ino) { assert Leaves(d0, t, e, x); }
    }
    RenamedIsReady(d, t, tmp);
  }

  lemma {:induction false} RenamedIsReady(d: Disk, t: Path, tmp: Path)
    requires Ready(d, t.name) && t.dir == tmp.dir && tmp.name == TempName(t.name) && tmp in d.names && t != tmp
    ensures Ready(Renamed(d, tmp, t), t.name)
  {
    var d' := Renamed(d, tmp, t);
    forall p, i | Some(i) in Possible(d', p) ensures i in d'.data {
      assert p != t && p != tmp ==> Possible(d', p) == Possible(d, p);
      assert Some(d.names[tmp]) in Possible(d, tmp);
    }
    forall dir ensures Apart(d', t.name, dir) {
      assert Apart(d, t.name, dir);
      assert dir != t.dir ==> Possible(d', Path(dir, t.name)) == Possible(d, Path(dir, t.name));
      assert dir != t.dir ==> Path(dir, TempName(t.name)) != t;
    }
  }

  // Whether or not the rename then happens, the disk is safe.
  lemma {:induction false} ReadyToRename(d0: Disk, d: Disk, d': Disk, t: Path, tmp: Path, ino: nat, whole: seq<Byte>)
    requires Writing(d0, d, t, tmp, ino, Data(whole, true)) && LeavesOurs(d, d', t.name)
    ensures tmp in d'.names && t != tmp && Untouched(d0, d', t) && Ready(d', t.name) && Safe(d0, d', t, whole)
    ensures Ready(Renamed(d', tmp, t), t.name) && Safe(d0, Renamed(d', tmp, t), t, whole)
    ensures Contents(Renamed(d', tmp, t), t) == Some(whole) && Entry(Renamed(d', tmp, t), tmp) == None
  {
    OthersLeaveWriting(d0, d, d', t, tmp, ino, Data(whole, true), t.name);
    UntouchedIsSafe(d0, d', t, whole);
    RenamedIsSafe(d0, d', t, tmp, ino, whole);
  }

  // vfs_rename, after whatever others did while the name was looked up.
  method RenameFile(w: World, ghost ino: nat, dir: string, ghost d0: Disk, ghost from: nat, ghost whole: seq<Byte>)
    returns (err: int)
    requires Writing(d0, w.disk, Path(dir, w.name), Path(dir, TempName(w.name)), ino, Data(whole, true))
    requires AllUntouched(w.trace, from, d0, Path(dir, w.name))
    modifies w`disk, w`trace, w`turn, w`syncDir
    ensures err == Failure(w.fault(Move)) && |old(w.trace)| <= |w.trace| && Ready(w.disk, w.name)
    ensures AllSafe(w.trace, from, d0, Path(dir, w.name), whole)
    ensures err < 0 ==> Untouched(d0, w.disk, Path(dir, w.name)) && AllUntouched(w.trace, from, d0, Path(dir, w.name))
    ensures err == 0 ==> Contents(w.disk, Path(dir, w.name)) == Some(whole)
    ensures err == 0 ==> Entry(w.disk, Path(dir, TempName(w.name))) == None
  {
    ghost var t, tmp := Path(dir, w.name), Path(dir, TempName(w.name));
    AllUntouchedIsSafe(w.trace, from, d0, t, whole);
    ghost var d := w.disk;
    w.Others();
    ReadyToRename(d0, d, w.disk, t, tmp, ino, whole);
    err := w.Rename(Path(dir, TempName(w.name)), Path(dir, w.name));
  }

  // inode_lock, lookup_one_len, vfs_rename, inode_unlock.
  method RenameLocked(w: World, ghost ino: nat, dir: string, ghost d0: Disk, ghost from: nat, ghost whole: seq<Byte>)
    returns (err: int)
    requires DirLock !in w.held && NewDentry !in w.held
    requires Writing(d0, w.disk, Path(dir, w.name), Path(dir, TempName(w.name)), ino, Data(whole, true))
    requires AllUntouched(w.trace, from, d0, Path(dir, w.name))
    modifies w`disk, w`trace, w`turn, w`syncDir, w`held
    ensures err <= 0 && w.held == old(w.held) && |old(w.trace)| <= |w.trace| && Ready(w.disk, w.name)
    ensures err == 0 <==> w.fault(Take(NewDentry)) >= 0 && w.fault(Move) >= 0
    ensures AllSafe(w.trace, from, d0, Path(dir, w.name), whole)
    ensures err < 0 ==> Untouched(d0, w.disk, Path(dir, w.name)) && AllUntouched(w.trace, from, d0, Path(dir, w.name))
    ensures err == 0 ==> Contents(w.disk, Path(dir, w.name)) == Some(whole)
    ensures err == 0 ==> Entry(w.disk, Path(dir, TempName(w.name))) == None
  {
    w.Lock(DirLock);
    err := w.Acquire(NewDentry);
    if err < 0 {
      AllUntouchedIsSafe(w.trace, from, d0, Path(dir, w.name), whole);
    } else {
      err := RenameFile(w, ino, dir, d0, from, whole);
      w.Release(NewDentry);
    }
    w.Release(DirLock);
  }

  // The paths of the temporary file and of the directory.
  method LookUpPaths(w: World) returns (err: int)
    requires w.held == {TempPath, FilePath, Buf}
    modifies w`held
    ensures err <= 0 && w.held == if err == 0 then old(w.held) + {TmpPath, OldPath, NewDirPath} else old(w.held)
    ensures err == 0 <==> w.fault(Take(TmpPath)) >= 0 && w.fault(Take(OldPath)) >= 0 && w.fault(Take(NewDirPath)) >= 0
  {
    err := w.Acquire(TmpPath);
    if err < 0 { return -ENOMEM; }
    err := w.Acquire(OldPath);                     // kern_path(tmp_path)
    if err < 0 { w.Release(TmpPath); return; }
    err := w.Acquire(NewDirPath);                  // kern_path(temp_path)
    if err < 0 { w.Release(OldPath); w.Release(TmpPath); }
  }

  // The rename block: look up both paths, lock the directory, rename, give
  // everything back.
  method RenameIntoPlace(w: World, ghost ino: nat, dir: string, ghost d0: Disk, ghost from: nat, ghost whole: seq<Byte>)
    returns (err: int)
    requires w.held == {TempPath, FilePath, Buf}
    requires Writing(d0, w.disk, Path(dir, w.name), Path(dir, TempName(w.name)), ino, Data(whole, true))
    requires AllUntouched(w.trace, from, d0, Path(dir, w.name))
    modifies w`disk, w`trace, w`turn, w`syncDir, w`held
    ensures err <= 0 && w.held == old(w.held) && |old(w.trace)| <= |w.trace| && Ready(w.disk, w.name)
    ensures err == 0 <==> RenameGoesWell(w.fault)
    ensures AllSafe(w.trace, from, d0, Path(dir, w.name), whole)
    ensures err < 0 ==> Untouched(d0, w.disk, Path(dir, w.name)) && AllUntouched(w.trace, from, d0, Path(dir, w.name))
    ensures err == 0 ==> Contents(w.disk, Path(dir, w.name)) == Some(whole)
    ensures err == 0 ==> Entry(w.disk, Path(dir, TempName(w.name))) == None
  {
    err := LookUpPaths(w);
    if err < 0 { AllUntouchedIsSafe(w.trace, from, d0, Path(dir, w.name), whole); return; }
    err := RenameLocked(w, ino, dir, d0, from, whole);
    w.Release(OldPath);
    w.Release(NewDirPath);
    w.Release(TmpPath);
  }

  // Open the temporary file and the source, allocate the page buffer.
  method OpenBoth(w: World, dir: string, ghost d0: Disk, ghost from: nat) returns (err: int, ghost ino: nat)
    requires w.held == {TempPath, FilePath} && Ready(w.disk, w.name)
    requires Untouched(d0, w.disk, Path(dir, w.name)) && AllUntouched(w.trace, from, d0, Path(dir, w.name))
    modifies w`disk, w`trace, w`held
    ensures err <= 0 && |old(w.trace)| <= |w.trace| && Ready(w.disk, w.name)
    ensures err == 0 <==> OpenGoesWell(w.fault)
    ensures Untouched(d0, w.disk, Path(dir, w.name)) && AllUntouched(w.trace, from, d0, Path(dir, w.name))
    ensures err < 0 ==> w.held == {TempPath, FilePath}
    ensures err == 0 ==> w.held == {TempPath, FilePath, SyncFile, ReadFile, Buf}
    ensures err == 0 ==> Writing(d0, w.disk, Path(dir, w.name), Path(dir, TempName(w.name)), ino, Data([], false))
  {
    ghost var d := w.disk;
    err, ino := w.OpenTemp(Path(dir, TempName(w.name)));
    if err < 0 { return; }
    OpenedIsWriting(d0, d, Path(dir, w.name), Path(dir, TempName(w.name)), ino);
    err := OpenSource(w);
    if err < 0 { w.Release(SyncFile); }
  }

  // d_path, filp_open of the source, and the page buffer.
  method OpenSource(w: World) returns (err: int)
    requires ReadFile !in w.held && Buf !in w.held
    modifies w`held
    ensures err <= 0 && w.held == if err == 0 then old(w.held) + {ReadFile, Buf} else old(w.held)
    ensures err == 0 <==> w.fault(FullPath) >= 0 && w.fault(Take(ReadFile)) >= 0 && w.fault(Take(Buf)) >= 0
  {
    err := Failure(w.fault(FullPath));
    if err < 0 { return; }
    err := w.Acquire(ReadFile);
    if err < 0 { return; }
    err := w.Acquire(Buf);
    if err < 0 { w.Release(ReadFile); return -ENOMEM; }
  }

  // The copy loop and the fsync.
  method WriteTemp(w: World, ghost ino: nat, src: seq<Byte>, x: Transfers, ghost d0: Disk, ghost t: Path,
                   ghost tmp: Path, ghost from: nat)
    returns (err: int, ghost wrote: seq<Byte>)
    requires t.name == w.name && WritesMove(x)
    requires Writing(d0, w.disk, t, tmp, ino, Data([], false)) && AllUntouched(w.trace, from, d0, t)
    modifies w`disk, w`trace, w`turn, w`syncDir
    ensures err <= 0 && |old(w.trace)| <= |w.trace| && wrote <= src && AllUntouched(w.trace, from, d0, t)
    ensures err == 0 <==> !CopyFails(x, |src|) && w.fault(Sync) >= 0
    ensures err == 0 ==> (wrote == src <==> !CutShort(x, |src|)) && Copied(x, src, wrote)
    ensures Writing(d0, w.disk, t, tmp, ino, Data(wrote, err == 0))
  {
    var buf := new Byte[PAGE_SIZE];
    var pos;
    err, pos := CopyLoop(w, ino, buf, src, x, d0, t, tmp, from);
    wrote := src[..pos];
    if err < 0 { return; }
    err := SyncTemp(w, ino, wrote, d0, t, tmp, from);
  }

  // vfs_fsync of the temporary file.
  method SyncTemp(w: World, ghost ino: nat, ghost wrote: seq<Byte>, ghost d0: Disk, ghost t: Path, ghost tmp: Path,
                  ghost from: nat)
    returns (err: int)
    requires t.name == w.name
    requires Writing(d0, w.disk, t, tmp, ino, Data(wrote, false)) && AllUntouched(w.trace, from, d0, t)
    modifies w`disk, w`trace, w`turn, w`syncDir
    ensures err == Failure(w.fault(Sync)) && |old(w.trace)| <= |w.trace| && AllUntouched(w.trace, from, d0, t)
    ensures Writing(d0, w.disk, t, tmp, ino, Data(wrote, err == 0))
  {
    ghost var d := w.disk;
    w.Others();
    OthersLeaveWriting(d0, d, w.disk, t, tmp, ino, Data(wrote, false), w.name);
    DataIsWriting(d0, w.disk, t, tmp, ino, Data(wrote, false), Data(wrote, true));
    err := w.Fsync(ino);
  }

  // From the open of the temporary file to its closing after the fsync.
  method OpenAndWrite(w: World, dir: string, src: seq<Byte>, x: Transfers, ghost d0: Disk, ghost from: nat)
    returns (err: int, ghost ino: nat, ghost wrote: seq<Byte>)
    requires w.held == {TempPath, FilePath} && Ready(w.disk, w.name) && WritesMove(x)
    requires Untouched(d0, w.disk, Path(dir, w.name)) && AllUntouched(w.trace, from, d0, Path(dir, w.name))
    modifies w`disk, w`trace, w`turn, w`syncDir, w`held
    ensures err <= 0 && |old(w.trace)| <= |w.trace| && Ready(w.disk, w.name) && wrote <= src
    ensures err == 0 <==> OpenGoesWell(w.fault) && !CopyFails(x, |src|) && w.fault(Sync) >= 0
    ensures Untouched(d0, w.disk, Path(dir, w.name)) && AllUntouched(w.trace, from, d0, Path(dir, w.name))
    ensures err < 0 ==> w.held == {TempPath, FilePath}
    ensures err == 0 ==> w.held == {TempPath, FilePath, Buf}
    ensures err == 0 ==> (wrote == src <==> !CutShort(x, |src|)) && Copied(x, src, wrote)
    ensures err == 0 ==> Writing(d0, w.disk, Path(dir, w.name), Path(dir, TempName(w.name)), ino, Data(wrote, true))
  {
    wrote := [];
    err, ino := OpenBoth(w, dir, d0, from);
    if err < 0 { return; }
    err, wrote := WriteTemp(w, ino, src, x, d0, Path(dir, w.name), Path(dir, TempName(w.name)), from);
    if err < 0 { w.Release(Buf); w.Release(ReadFile); w.Release(SyncFile); return; }
    w.Release(SyncFile);
    w.Release(ReadFile);
  }

  // Everything between the allocation of the two path buffers and their release.
  method WriteAndRename(w: World, dir: string, src: seq<Byte>, x: Transfers, ghost d0: Disk, ghost from: nat)
    returns (err: int, ghost wrote: seq<Byte>)
    requires w.held == {TempPath, FilePath} && Ready(w.disk, w.name) && WritesMove(x)
    requires Untouched(d0, w.disk, Path(dir, w.name)) && AllUntouched(w.trace, from, d0, Path(dir, w.name))
    modifies w`disk, w`trace, w`turn, w`syncDir, w`held
    ensures err <= 0 && w.held == old(w.held) && |old(w.trace)| <= |w.trace| && Ready(w.disk, w.name) && wrote <= src
    ensures err == 0 <==> Goes(w.fault, x, |src|)
    ensures AllSafe(w.trace, from, d0, Path(dir, w.name), wrote)
    ensures err < 0 ==> Untouched(d0, w.disk, Path(dir, w.name)) && AllUntouched(w.trace, from, d0, Path(dir, w.name))
    ensures err == 0 ==> Contents(w.disk, Path(dir, w.name)) == Some(wrote)
    ensures err == 0 ==> Entry(w.disk, Path(dir, TempName(w.name))) == None
    ensures err == 0 ==> (wrote == src <==> !CutShort(x, |src|)) && Copied(x, src, wrote)
  {
    ghost var ino: nat;
    err, ino, wrote := OpenAndWrite(w, dir, src, x, d0, from);
    if err < 0 { AllUntouchedIsSafe(w.trace, from, d0, Path(dir, w.name), wrote); return; }
    err := RenameIntoPlace(w, ino, dir, d0, from, wrote);
    w.Release(Buf);
  }

  // ramfs_file_flush. `bound` is the directory that was bound while the mutex
  // was held; None when the file is not a ramfs file or nothing was bound.
  method Flush(w: World, isRamfs: bool, src: seq<Byte>, x: Transfers)
    returns (ret: int, ghost bound: Option<string>, ghost wrote: seq<Byte>)
    requires w.held == {} && Ready(w.disk, w.name) && WritesMove(x)
    modifies w
    ensures Ready(w.disk, w.name)
    // every buffer, path, file and lock is given back
    ensures ret <= 0 && w.held == {} && |old(w.trace)| <= |w.trace|
    ensures bound == if isRamfs then w.binding(old(w.turn)) else None
    // nothing to do: no effect, at any step
    ensures bound.None? ==> forall p :: Ours(p, w.name) ==> Untouched(old(w.disk), w.disk, p)
    ensures bound.None? ==> forall p :: Ours(p, w.name) ==> AllUntouched(w.trace, |old(w.trace)|, old(w.disk), p)
    // it succeeds exactly when there is nothing to do or nothing fails
    ensures ret == 0 <==> bound.None? || (NothingFails(w.fault) && !CopyFails(x, |src|))
    // an error leaves the target as it was, and a crash during such a call does too
    ensures ret < 0 ==> Untouched(old(w.disk), w.disk, Path(bound.value, w.name))
    ensures ret < 0 ==> AllUntouched(w.trace, |old(w.trace)|, old(w.disk), Path(bound.value, w.name))
    // success puts what was copied at the target: the whole source, unless a read comes back empty early
    ensures ret == 0 && bound.Some? ==> Contents(w.disk, Path(bound.value, w.name)) == Some(wrote)
    ensures ret == 0 && bound.Some? ==> Entry(w.disk, Path(bound.value, TempName(w.name))) == None
    ensures bound.Some? && NothingFails(w.fault) && BytesFlow(x) ==> ret == 0 && wrote == src
    ensures ret == 0 && bound.Some? ==> (wrote == src <==> !CutShort(x, |src|)) && Copied(x, src, wrote)
    ensures wrote <= src
    // a crash at any step leaves the old or the new contents
    ensures bound.Some? ==> AllSafe(w.trace, |old(w.trace)|, old(w.disk), Path(bound.value, w.name), wrote)
    ensures bound.Some? && !CutShort(x, |src|) ==>
              AllSafe(w.trace, |old(w.trace)|, old(w.disk), Path(bound.value, w.name), src)
  {
    ghost var d0, from := w.disk, |w.trace|;
    bound, wrote := None, [];
    if !isRamfs { return 0, bound, wrote; }
    w.Others();
    OthersLeaveReady(d0, w.disk, w.name);
    if w.syncDir.None? { return 0, bound, wrote; }
    var tempPath := w.syncDir.value;
    bound := Some(tempPath);
    ghost var t := Path(tempPath, w.name);
    WellMeansNothingFails(w.fault, x, |src|);
    var err := w.Acquire(TempPath);
    if err < 0 { ErrorIsSafe(w.trace, from, d0, t, wrote, src); return -ENOMEM, bound, wrote; }
    err := w.Acquire(FilePath);
    if err < 0 {
      w.Release(TempPath);
      ErrorIsSafe(w.trace, from, d0, t, wrote, src);
      return -ENOMEM, bound, wrote;
    }
    FlowingIsWhole(x, |src|);
    ret, wrote := WriteAndRename(w, tempPath, src, x, d0, from);
    w.Release(FilePath);
    w.Release(TempPath);
    if ret < 0 { ErrorIsSafe(w.trace, from, d0, t, wrote, src); }
  }

  lemma {:induction false} ErrorIsSafe(trace: seq<Disk>, from: nat, d0: Disk, t: Path, wrote: seq<Byte>, src: seq<Byte>)
    requires AllUntouched(trace, from, d0, t)
    ensures AllSafe(trace, from, d0, t, wrote) && AllSafe(trace, from, d0, t, src)
  {
    AllUntouchedIsSafe(trace, from, d0, t, wrote);
    AllUntouchedIsSafe(trace, from, d0, t, src);
  }

  // Where "0 means the whole source is at the target" fails: something to copy, a
  // directory to copy it to, a first read of no bytes, nothing that fails. The
  // target ends up empty.
  method EmptyReadEmptiesTarget(w: World, src: seq<Byte>, x: Transfers) returns (ret: int)
    requires w.held == {} && Ready(w.disk, w.name) && NothingFails(w.fault) && w.binding(w.turn).Some?
    requires |src| > 0 && x.readResult(0) == 0 && WritesMove(x)
    modifies w
    ensures ret == 0
    ensures Contents(w.disk, Path(w.binding(old(w.turn)).value, w.name)) == Some([])
  {
    EmptyFirstRead(x, |src|);
    ghost var bound, wrote;
    ret, bound, wrote := Flush(w, true, src, x);
    CopiedUpTo(x, src, wrote, 0);
  }
}
