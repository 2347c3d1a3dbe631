// Binding the sync directory through /proc/fs/ramfs/bind: the two-path parser,
// the bind itself, and the reader that is driven by a file offset.

module RamfsBind {
  import opened Wrappers

  const RAMFS_MAX_PATH: nat := 256
  const PATH_MAX: nat := 4096
  const NUL: char := '\0'
  const EINVAL: int := 22
  const ENOMEM: int := 12
  const EFAULT: int := 14
  const ENOTDIR: int := 20
  const EACCES: int := 13
  const ENAMETOOLONG: int := 36

  // ---------------------------------------------------------------- the grammar

  predicate Blank(c: char)
  {
    c == ' ' || c == '\t'
  }

  // What ends a path.
  predicate Stop(c: char)
  {
    c == NUL || Blank(c) || c == '\n'
  }

  // The first position from i on that is not blank.
  function SkipBlanks(b: seq<char>, i: nat): (j: nat)
    requires i <= |b|
    ensures i <= j <= |b|
    ensures forall k :: i <= k < j ==> Blank(b[k])
    ensures j < |b| ==> !Blank(b[j])
    decreases |b| - i
  {
    if i < |b| && Blank(b[i]) then SkipBlanks(b, i + 1) else i
  }

  // The end of the path that starts at i.
  function TokenEnd(b: seq<char>, i: nat): (j: nat)
    requires i <= |b|
    ensures i <= j <= |b|
    ensures forall k :: i <= k < j ==> !Stop(b[k])
    ensures j < |b| ==> Stop(b[j])
    decreases |b| - i
  {
    if i < |b| && !Stop(b[i]) then TokenEnd(b, i + 1) else i
  }

  // One path from i on: its text and where it ends, or the error of the parser.
  function ParseToken(b: seq<char>, i: nat): Result<(string, nat)>
    requires i <= |b|
  {
    var from := SkipBlanks(b, i);
    var to := TokenEnd(b, from);
    if to - from >= RAMFS_MAX_PATH then Err(-ENAMETOOLONG)
    else if to == from then Err(-EINVAL)
    else Ok((b[from..to], to))
  }

  function Parse(b: seq<char>): Result<(string, string)>
  {
    match ParseToken(b, 0)
    case Err(e) => Err(e)
    case Ok((first, i)) =>
      match ParseToken(b, if i <= |b| then i else |b|)
      case Err(e) => Err(e)
      case Ok((second, _)) => Ok((first, second))
  }

  // ---------------------------------------------------------------- the parser

  // One of the two halves of parse_mount_path: skip blanks from i, copy a path into `into`.
  method CopyToken(b: array<char>, i: nat, into: array<char>) returns (err: int, j: nat, next: nat)
    requires b != into && into.Length == RAMFS_MAX_PATH && i < b.Length && b[b.Length - 1] == NUL
    modifies into
    ensures ParseToken(b[..], i).Err? ==> err == ParseToken(b[..], i).errno < 0
    ensures ParseToken(b[..], i).Ok? ==>
      && err == 0 && j == |ParseToken(b[..], i).value.0| && 0 < j < RAMFS_MAX_PATH
      && into[..j] == ParseToken(b[..], i).value.0 && into[j] == NUL
      && next == ParseToken(b[..], i).value.1 && next < b.Length
  {
    ghost var s := b[..];
    ghost var from := SkipBlanks(s, i);
    next, j := i, 0;
    while b[next] == ' ' || b[next] == '\t'
      invariant i <= next < b.Length && SkipBlanks(s, next) == from
      decreases b.Length - next
    {
      next := next + 1;
    }
    assert next == from;
    ghost var to := TokenEnd(s, from);
    while b[next] != NUL && b[next] != ' ' && b[next] != '\t' && b[next] != '\n'
      invariant from <= next < b.Length && TokenEnd(s, next) == to && next <= to
      invariant j == next - from <= RAMFS_MAX_PATH - 1
      invariant into[..j] == s[from..next]
      decreases b.Length - next
    {
      if j >= RAMFS_MAX_PATH - 1 { return -ENAMETOOLONG, j, next; }
      into[j] := b[next];
      j, next := j + 1, next + 1;
    }
    assert next == to;
    into[j] := NUL;
    if j == 0 { return -EINVAL, j, next; }
    err := 0;
  }

  // parse_mount_path
  method ParseMountPath(b: array<char>, ramfsPath: array<char>, syncPath: array<char>) returns (err: int)
    requires b != ramfsPath && b != syncPath && ramfsPath != syncPath
    requires ramfsPath.Length == RAMFS_MAX_PATH && syncPath.Length == RAMFS_MAX_PATH
    requires b.Length > 0 && b[b.Length - 1] == NUL
    modifies ramfsPath, syncPath
    ensures match Parse(b[..])
            case Err(e) => err == e < 0
            case Ok((first, second)) => err == 0 && IsCString(ramfsPath[..], first) && IsCString(syncPath[..], second)
  {
    var j, i;
    err, j, i := CopyToken(b, 0, ramfsPath);
    if err < 0 { return; }
    ghost var first := ramfsPath[..j];
    err, j, i := CopyToken(b, i, syncPath);
    if err < 0 { return; }
    assert ramfsPath[..][..|first|] == first;
    assert syncPath[..][..j] == syncPath[..j];
  }

  // The buffer holds the string and its terminator.
  predicate IsCString(buf: seq<char>, s: string)
  {
    |s| < |buf| && buf[..|s|] == s && buf[|s|] == NUL
  }

  // ---------------------------------------------------------------- round trip of the parser

  predicate AllBlank(s: string)
  {
    forall k :: 0 <= k < |s| ==> Blank(s[k])
  }

  // A path the parser can take in: 1 to 255 characters, none of them an end.
  predicate PathText(s: string)
  {
    0 < |s| < RAMFS_MAX_PATH && forall k :: 0 <= k < |s| ==> !Stop(s[k])
  }

  lemma {:induction false} TokenThere(b: seq<char>, lead: string, path: string, tail: seq<char>, i: nat)
    requires i <= |b| && b[i..] == lead + path + tail && AllBlank(lead) && PathText(path) && |tail| > 0 && Stop(tail[0])
    ensures ParseToken(b, i) == Ok((path, i + |lead| + |path|))
  {
    var from, to := i + |lead|, i + |lead| + |path|;
    var rest := b[i..];
    assert forall k :: i <= k < from ==> b[k] == rest[k - i] == lead[k - i];
    assert forall k :: from <= k < to ==> b[k] == rest[k - i] == path[k - from];
    assert b[to] == rest[to - i] == tail[0];
    assert b[from] == path[0];
    assert SkipBlanks(b, i) == from;
    assert TokenEnd(b, from) == to;
    assert b[from..to] == path;
  }

  // Any two paths, with any blanks before and at least one between, come back
  // exactly, whatever follows the second after its end.
  lemma {:induction false} ParseRoundTrip(lead: string, first: string, between: string, second: string, tail: seq<char>)
    requires AllBlank(lead) && AllBlank(between) && |between| > 0 && PathText(first) && PathText(second)
    requires |tail| > 0 && Stop(tail[0])
    ensures Parse(lead + first + between + second + tail) == Ok((first, second))
  {
    var b := lead + first + between + second + tail;
    var mid := |lead| + |first|;
    assert b[0..] == lead + first + (between + second + tail);
    assert (between + second + tail)[0] == between[0];
    TokenThere(b, lead, first, between + second + tail, 0);
    assert b[mid..] == between + second + tail;
    TokenThere(b, between, second, tail, mid);
  }

  // The paths that come back are always such texts: nothing else is accepted.
  lemma {:induction false} ParsedArePaths(b: seq<char>)
    requires Parse(b).Ok?
    ensures PathText(Parse(b).value.0) && PathText(Parse(b).value.1)
  {
    var from := SkipBlanks(b, 0);
    var to := TokenEnd(b, from);
    var from2 := SkipBlanks(b, to);
    var to2 := TokenEnd(b, from2);
    assert Parse(b) == Ok((b[from..to], b[from2..to2]));
  }

  // ---------------------------------------------------------------- binding

  // How the calls made on the way turn out.
  datatype Env = Env(kbuf: bool, ramfsBuf: bool, syncBuf: bool, copied: bool, lookup: int, isDir: bool, writable: bool,
      dup: bool)

  // kern_path refuses a path of PATH_MAX characters or more.
  predicate Possible(e: Env, dir: string)
  {
    e.lookup <= 0 && (|dir| >= PATH_MAX ==> e.lookup < 0)
  }

  // What ramfs_bind returns for a directory that resolves so.
  function BindError(e: Env): int
    requires e.lookup <= 0
  {
    if e.lookup < 0 then e.lookup
    else if !e.isDir then -ENOTDIR
    else if !e.writable then -EACCES
    else if !e.dup then -ENOMEM
    else 0
  }

  // snprintf(temp, PATH_MAX, "%s\n", dir): at most PATH_MAX - 1 characters and a terminator.
  function Printed(text: string): (t: seq<char>)
    ensures |text| < PATH_MAX ==> text <= t
    ensures |t| == (if |text| < PATH_MAX then |text| + 1 else PATH_MAX)
  {
    if |text| < PATH_MAX then text + [NUL] else text[..PATH_MAX - 1] + [NUL]
  }

  class Ramfs {
    var syncDir: Option<string>   // ramfs_sync_dir

    constructor ()
      ensures Valid() && syncDir.None?
    {
      syncDir := None;
    }

    predicate Valid()
      reads this
    {
      syncDir.Some? ==> |syncDir.value| < PATH_MAX
    }

    // ramfs_bind
    method Bind(dir: string, e: Env) returns (err: int)
      requires Valid() && Possible(e, dir)
      modifies this
      ensures Valid() && err == BindError(e)
      ensures syncDir == if err == 0 then Some(dir) else old(syncDir)
    {
      if e.lookup < 0 { return e.lookup; }
      if !e.isDir { return -ENOTDIR; }
      if !e.writable { return -EACCES; }
      if !e.dup { return -ENOMEM; }
      syncDir := Some(dir);
      return 0;
    }

    // ramfs_proc_bind_write
    method ProcWrite(user: seq<char>, e: Env) returns (ret: int)
      requires Valid() && e.lookup <= 0
      modifies this
      ensures Valid()
      ensures |user| >= PATH_MAX ==> ret == -EINVAL
      ensures ret >= 0 <==>
        |user| < PATH_MAX && e.kbuf && e.ramfsBuf && e.syncBuf && e.copied && Parse(user + [NUL]).Ok?
            && BindError(e) == 0
      ensures ret >= 0 ==> ret == |user| && syncDir == Some(Parse(user + [NUL]).value.1)
      ensures ret < 0 ==> syncDir == old(syncDir)
    {
      if |user| >= PATH_MAX { return -EINVAL; }
      if !e.kbuf || !e.ramfsBuf || !e.syncBuf { return -ENOMEM; }
      var kbuf := new char[|user| + 1](_ => NUL);
      var ramfsPath, syncPath := new char[RAMFS_MAX_PATH](_ => NUL), new char[RAMFS_MAX_PATH](_ => NUL);
      if !e.copied { return -EFAULT; }
      forall i | 0 <= i < |user| { kbuf[i] := user[i]; }
      kbuf[|user|] := NUL;
      assert kbuf[..] == user + [NUL];
      ret := ParseMountPath(kbuf, ramfsPath, syncPath);
      if ret < 0 { return; }
      ParsedArePaths(kbuf[..]);
      var dir := CString(syncPath);
      OneCString(syncPath[..], dir, Parse(kbuf[..]).value.1);
      ret := Bind(dir, e);
      if ret == 0 { ret := |user|; }
    }

    function Text(): string
      reads this
    {
      if syncDir.None? then "No sync directory bound\n" else syncDir.value + "\n"
    }

    // ramfs_proc_bind_read at offset pos: up to count characters of the printed
    // text, or an error.
    method ProcRead(pos: nat, count: nat, copied: bool) returns (ret: int, out: seq<char>, pos': nat)
      requires Valid()
      ensures ret == 0 <==> pos >= |Text()| || (count == 0 && copied)
      ensures ret < 0 ==> ret == -EFAULT && !copied && pos' == pos && out == []
      ensures ret >= 0 ==> ret == |out| <= count && pos' == pos + ret
      ensures ret > 0 ==> pos' <= |Text()| && out == Printed(Text())[pos..pos'] && (ret < count ==> pos' == |Text()|)
    {
      var temp := Printed(Text());
      var len := |Text()|;
      if pos >= len { return 0, [], pos; }
      var n := if count > len - pos then len - pos else count;
      if !copied { return -EFAULT, [], pos; }
      return n, temp[pos..pos + n], pos + n;
    }

    // A reader that asks for chunks of any positive sizes until it gets 0 sees the printed text.
    method ReadToEnd() returns (all: seq<char>)
      requires Valid()
      ensures all == Printed(Text())[..|Text()|]
    {
      var pos, ret := 0, 1;
      all := [];
      while ret != 0
        invariant pos <= |Text()| && all == Printed(Text())[..pos]
        invariant ret >= 0 && (ret == 0 ==> pos == |Text()|)
        decreases |Text()| - pos, ret
      {
        var count: nat := *;
        if count == 0 { count := 1; }
        var out, next;
        ret, out, next := ProcRead(pos, count, true);
        all, pos := all + out, next;
      }
    }
  }

  // What is read back is the bound directory and a newline, unless the directory
  // has the longest length a path can have.
  lemma {:induction false} ReadsBackExactly(dir: string)
    requires |dir| < PATH_MAX
    ensures Printed(dir + "\n")[..|dir| + 1] == dir + "\n" <==> |dir| < PATH_MAX - 1
  {
    var text := dir + "\n";
    if |dir| < PATH_MAX - 1 {
      assert Printed(text)[..|text|] == text;
    } else {
      assert Printed(text)[PATH_MAX - 1] == NUL && text[PATH_MAX - 1] == '\n';
    }
  }

  // The string up to the terminator, as kstrdup and the path lookup read it.
  method CString(a: array<char>) returns (s: string)
    requires exists k :: 0 <= k < a.Length && a[k] == NUL
    ensures IsCString(a[..], s) && NUL !in s
  {
    var k := 0;
    while a[k] != NUL
      invariant k < a.Length && NUL !in a[..k]
      invariant exists j :: k <= j < a.Length && a[j] == NUL
      decreases a.Length - k
    {
      k := k + 1;
    }
    s := a[..k];
    assert a[..][..k] == s;
  }

  lemma {:induction false} OneCString(buf: seq<char>, s: string, t: string)
    requires IsCString(buf, s) && IsCString(buf, t) && NUL !in s && PathText(t)
    ensures s == t
  {
    assert forall k :: 0 <= k < |t| ==> buf[k] == buf[..|t|][k] == t[k] && t[k] != NUL;
    assert forall k :: 0 <= k < |s| ==> buf[k] == buf[..|s|][k] == s[k] && s[k] in s;
  }

  // The whole trip: two good paths written to the file, a successful bind, and
  // the reader gets the second path and a newline.
  method WriteThenRead(r: Ramfs, lead: string, first: string, between: string, second: string,
                       e: Env) returns (ret: int, all: string)
    requires r.Valid() && AllBlank(lead) && AllBlank(between) && |between| > 0 && PathText(first) && PathText(second)
    requires |lead + first + between + second| + 1 < PATH_MAX && e == Env(true, true, true, true, 0, true, true, true)
    modifies r
    ensures ret == |lead + first + between + second| + 1 && all == second + "\n"
  {
    var user := lead + first + between + second + "\n";
    ParseRoundTrip(lead, first, between, second, ['\n', NUL]);
    assert user + [NUL] == lead + first + between + second + ['\n', NUL];
    ret := r.ProcWrite(user, e);
    all := r.ReadToEnd();
    ReadsBackExactly(second);
  }
}
