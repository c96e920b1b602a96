/**
 One regular file as a POSIX process sees it through a handle, while other processes
 may change it, or what its path names, between any two system calls.
 */
module PosixFile {
  import opened Common

  newtype byte = x: int | 0 <= x < 256

  /** Who changed the file: another process, this one writing the replacement, or this one rolling back. */
  datatype Writer = Foreign | Forward | Rollback

  datatype Change = Change(who: Writer, content: seq<byte>)

  /** `stamp` stands for st_mtim and st_ctim: no two contents of the file share it. */
  datatype Stat = Stat(inode: nat, regular: bool, size: nat, stamp: nat)

  datatype Io = Moved(count: nat) | Interrupted | Failed

  function Zeros(n: nat): (z: seq<byte>)
    ensures |z| == n
  {
    if n == 0 then [] else Zeros(n - 1) + [0]
  }

  function ZerosTo(content: seq<byte>, n: nat): seq<byte> {
    if n <= |content| then content else content + Zeros(n - |content|)
  }

  /** The file after `data` went to `offset`; a gap beyond the end reads as zeros. */
  function Overwritten(content: seq<byte>, offset: nat, data: seq<byte>): seq<byte> {
    var padded := ZerosTo(content, offset);
    padded[..offset] + data + (if offset + |data| < |padded| then padded[offset + |data|..] else [])
  }

  function Resized(content: seq<byte>, n: nat): seq<byte> {
    ZerosTo(content, n)[..n]
  }

  /** `after` continues `before`, and only writers in `who` made the new changes. */
  ghost predicate Continues(before: seq<Change>, after: seq<Change>, who: set<Writer>) {
    before <= after && forall i :: |before| <= i < |after| ==> after[i].who in who
  }

  /** The file as it stood after its first `n` changes. */
  ghost function ContentAt(past: seq<Change>, n: nat): seq<byte>
    requires n < |past|
  {
    past[n].content
  }

  class PlanFile {
    const inode: nat
    const regular: bool
    var content: seq<byte>
    var stamp: nat
    /** What lstat reports for the path; the file itself when the inode is this one. */
    var pathStat: Option<Stat>
    /** How often a system call can still be interrupted. */
    var interrupts: nat
    /** Every content the file had, oldest first. */
    ghost var past: seq<Change>
    /** The stamps at which lstat found the path naming this file. */
    ghost var linked: set<nat>

    ghost predicate Valid()
      reads this
    {
      |past| == stamp + 1 && past[stamp].content == content
    }

    constructor (inode: nat, regular: bool, content: seq<byte>, interrupts: nat)
      ensures Valid() && this.content == content
    {
      this.inode, this.regular, this.content, this.interrupts := inode, regular, content, interrupts;
      stamp := 0;
      pathStat := Some(Stat(inode, regular, |content|, 0));
      past := [Change(Foreign, content)];
      linked := {};
    }

    /** What another process may do before a system call takes effect. */
    method Interfere()
      requires Valid()
      modifies this`content, this`stamp, this`past, this`pathStat
      ensures Valid() && Continues(old(past), past, {Foreign})
    {
      if * {
        content := *;
        stamp := stamp + 1;
        past := past + [Change(Foreign, content)];
      }
      if * {
        pathStat := *;
      }
    }

    ghost function Stats(): Stat
      reads this
    {
      Stat(inode, regular, |content|, stamp)
    }

    method Fstat() returns (s: Option<Stat>)
      requires Valid()
      modifies this
      ensures linked == old(linked)
      ensures Valid() && Continues(old(past), past, {Foreign}) && interrupts == old(interrupts)
      ensures s.Some? ==> s.value == Stats()
    {
      Interfere();
      if * {
        return None;
      }
      return Some(Stat(inode, regular, |content|, stamp));
    }

    method Lstat() returns (s: Option<Stat>)
      requires Valid()
      modifies this
      ensures old(linked) <= linked
      ensures Valid() && Continues(old(past), past, {Foreign}) && interrupts == old(interrupts)
      ensures s.Some? && s.value.inode == inode ==> s.value == Stats() && stamp in linked
    {
      Interfere();
      if * {
        return None;
      }
      if pathStat.Some? && pathStat.value.inode == inode {
        linked := linked + {stamp};
        return Some(Stat(inode, regular, |content|, stamp));
      }
      return pathStat;
    }

    /** Any number of bytes up to the end of the buffer or of the file. */
    method Pread(buffer: array<byte>, offset: nat) returns (io: Io)
      requires Valid() && offset < buffer.Length
      modifies this, buffer
      ensures linked == old(linked)
      ensures Valid() && Continues(old(past), past, {Foreign})
      ensures io.Moved? ==> offset + io.count <= buffer.Length && (io.count > 0 ==> offset + io.count <= |content|)
      ensures io.Moved? ==> forall i :: 0 <= i < buffer.Length ==>
        buffer[i] == if offset <= i < offset + io.count then content[i] else old(buffer[i])
      ensures !io.Moved? ==> buffer[..] == old(buffer[..])
      ensures interrupts == if io.Interrupted? then old(interrupts) - 1 else old(interrupts)
    {
      Interfere();
      var signalled: bool := *;
      if * {
        return Failed;
      } else if interrupts > 0 && signalled {
        interrupts := interrupts - 1;
        return Interrupted;
      } else if offset >= |content| {
        return Moved(0);
      }
      var n: nat :| 1 <= n <= buffer.Length - offset && offset + n <= |content|;
      for i := offset to offset + n
        modifies buffer
        invariant forall k :: 0 <= k < buffer.Length ==>
          buffer[k] == if offset <= k < i then content[k] else old(buffer[k])
      {
        buffer[i] := content[i];
      }
      return Moved(n);
    }

    ghost predicate Wrote(before: seq<Change>, who: Writer)
      reads this
    {
      Valid() && |before| < |past| && past[stamp].who == who && Continues(before, past[..stamp], {Foreign})
    }

    /** Any non-zero number of the bytes offered, or none with an error. */
    method Pwrite(offset: nat, data: seq<byte>, ghost who: Writer) returns (io: Io)
      requires Valid() && data != []
      modifies this
      ensures linked == old(linked)
      ensures Valid() && Continues(old(past), past, {Foreign, who})
      ensures io.Moved? && io.count > 0 ==> io.count <= |data| && Wrote(old(past), who)
      ensures io.Moved? && io.count > 0 ==>
        content == Overwritten(ContentAt(past, stamp - 1), offset, data[..io.count])
      ensures !io.Moved? || io.count == 0 ==> Continues(old(past), past, {Foreign})
      ensures interrupts == if io.Interrupted? then old(interrupts) - 1 else old(interrupts)
    {
      Interfere();
      var signalled: bool := *;
      if * {
        return Failed;
      } else if interrupts > 0 && signalled {
        interrupts := interrupts - 1;
        return Interrupted;
      } else if * {
        return Moved(0);
      }
      var n: nat :| 1 <= n <= |data|;
      content := Overwritten(content, offset, data[..n]);
      stamp := stamp + 1;
      past := past + [Change(who, content)];
      return Moved(n);
    }

    method Ftruncate(size: nat, ghost who: Writer) returns (ok: bool)
      requires Valid()
      modifies this
      ensures linked == old(linked)
      ensures Valid() && Continues(old(past), past, {Foreign, who}) && interrupts == old(interrupts)
      ensures ok ==> Wrote(old(past), who) && content == Resized(ContentAt(past, stamp - 1), size)
      ensures !ok ==> Continues(old(past), past, {Foreign})
    {
      Interfere();
      if * {
        return false;
      }
      content := Resized(content, size);
      stamp := stamp + 1;
      past := past + [Change(who, content)];
      return true;
    }

    method Fsync() returns (ok: bool)
      requires Valid()
      modifies this
      ensures linked == old(linked)
      ensures Valid() && Continues(old(past), past, {Foreign}) && interrupts == old(interrupts)
    {
      Interfere();
      ok := *;
    }
  }
}
