/**
 The conditional rewrite of a plan file: replace the expected bytes or leave them,
 under short writes, interruptions, failing system calls and foreign writers. The
 history of the file records who made each change.
 */
module PlanRewrite {
  import opened Common
  import opened PlanAudit
  import opened PosixFile

  const MAX_PLAN_BYTES: nat := 0x40_0000

  // ---------------------------------------------------------------- what short writes add up to

  lemma OverwriteNothing(content: seq<byte>)
    ensures Overwritten(content, 0, []) == content
  {
  }

  /** Two adjacent short writes are one write. */
  lemma ShortWritesCompose(content: seq<byte>, bytes: seq<byte>, offset: nat, n: nat, before: seq<byte>, after: seq<byte>)
    requires offset + n <= |bytes|
    requires before == Overwritten(content, 0, bytes[..offset])
    requires after == Overwritten(before, offset, bytes[offset..][..n])
    ensures after == Overwritten(content, 0, bytes[..offset + n])
  {
    assert bytes[..offset] + bytes[offset..][..n] == bytes[..offset + n];
  }

  lemma TruncatedToWritten(content: seq<byte>, bytes: seq<byte>)
    ensures Resized(Overwritten(content, 0, bytes), |bytes|) == bytes
  {
  }

  /** What a write of `bytes` may have done to `before` when it stopped half way. */
  ghost predicate PartlyWritten(before: seq<byte>, bytes: seq<byte>, now: seq<byte>) {
    now == bytes || exists k: nat :: k <= |bytes| && now == Overwritten(before, 0, bytes[..k])
  }

  // ---------------------------------------------------------------- reading and writing the handle

  /** A successful read is the whole content at one instant, never a mix of two. */
  method ReadPosixHandle(file: PlanFile, limit: nat) returns (bytes: Option<seq<byte>>, stable: Stat)
    requires file.Valid()
    modifies file
    ensures file.Valid() && Continues(old(file.past), file.past, {Foreign}) && file.linked == old(file.linked)
    ensures bytes.Some? ==> old(file.stamp) <= stable.stamp <= file.stamp
    ensures bytes.Some? ==> bytes.value == ContentAt(file.past, stable.stamp)
    ensures bytes.Some? ==> stable == Stat(file.inode, true, |bytes.value|, stable.stamp) && |bytes.value| <= limit
  {
    stable := Stat(0, false, 0, 0);
    var before := file.Fstat();
    if before.None? || !before.value.regular || before.value.size > limit {
      return None, stable;
    }
    var size := before.value.size;
    ghost var content := file.content;
    var buffer := new byte[size];
    var offset := 0;
    while offset < size
      invariant offset <= size && file.Valid() && Continues(old(file.past), file.past, {Foreign})
      invariant file.linked == old(file.linked)
      invariant before.value.stamp <= file.stamp && ContentAt(file.past, before.value.stamp) == content
      invariant file.stamp == before.value.stamp ==> buffer[..offset] == content[..offset]
      decreases size - offset, file.interrupts
    {
      ghost var filled := buffer[..];
      var io := file.Pread(buffer, offset);
      if io == Failed || io == Moved(0) {
        return None, stable;
      }
      if io.Moved? {
        assert buffer[..offset] == filled[..offset];
        offset := offset + io.count;
      }
    }
    var after := file.Fstat();
    if after.None? || after != before {
      return None, stable;
    }
    return Some(buffer[..]), after.value;
  }

  /** Of changes by `all` only, the ones in between that are by `who` are by both. */
  lemma ContinuesWithin(a: seq<Change>, b: seq<Change>, c: seq<Change>, d: seq<Change>, who: set<Writer>, all: set<Writer>)
    requires a <= b && Continues(b, c, who) && c <= d && Continues(a, d, all)
    ensures Continues(b, c, who * all)
    ensures who !! all ==> b == c
  {
    forall i | |b| <= i < |c| ensures c[i].who in who * all {
      assert d[i] == c[i];
    }
    assert |b| < |c| ==> c[|b|].who in who * all;
  }

  /** A write between which and `before` no one else wrote was made to the content `before` left. */
  lemma AloneBefore(before: seq<Change>, file: PlanFile, who: Writer)
    requires file.Wrote(before, who) && who != Foreign && Continues(before, file.past, {who})
    ensures before == file.past[..file.stamp]
  {
    ContinuesWithin(before, before, file.past[..file.stamp], file.past, {Foreign}, {who});
  }

  lemma AloneParts(start: seq<Change>, before: seq<Change>, after: seq<Change>, who: Writer)
    requires start <= before <= after && Continues(start, after, {who})
    ensures Continues(start, before, {who}) && Continues(before, after, {who})
  {
    assert forall i :: 0 <= i < |before| ==> before[i] == after[i];
  }

  /** Steps of others only, none of them taken: nothing changed. */
  lemma AloneUnchanged(before: seq<Change>, after: seq<Change>, who: Writer)
    requires Continues(before, after, {Foreign}) && Continues(before, after, {who}) && who != Foreign
    ensures before == after
  {
    ContinuesWithin(before, before, after, after, {Foreign}, {who});
  }

  /**
   One `pwrite`. When no one else wrote since `start`, a file that had the first
   `offset` bytes now has the bytes just written as well.
   */
  method WritePiece(file: PlanFile, bytes: seq<byte>, offset: nat, ghost who: Writer,
                    ghost start: seq<Change>, ghost initial: seq<byte>)
      returns (io: Io)
    requires file.Valid() && who != Foreign && offset < |bytes| && Continues(start, file.past, {Foreign, who})
    requires Continues(start, file.past, {who}) ==> file.content == Overwritten(initial, 0, bytes[..offset])
    modifies file
    ensures file.Valid() && Continues(start, file.past, {Foreign, who}) && file.linked == old(file.linked)
    ensures file.interrupts == if io.Interrupted? then old(file.interrupts) - 1 else old(file.interrupts)
    ensures io.Moved? ==> offset + io.count <= |bytes|
    ensures Continues(start, file.past, {who}) ==>
      file.content == Overwritten(initial, 0, bytes[..offset + if io.Moved? then io.count else 0])
  {
    ghost var before, content := file.past, file.content;
    io := file.Pwrite(offset, bytes[offset..], who);
    if Continues(start, file.past, {who}) {
      AloneParts(start, before, file.past, who);
      if io.Moved? && io.count > 0 {
        AloneBefore(before, file, who);
        assert ContentAt(file.past, file.stamp - 1) == content;
        ShortWritesCompose(initial, bytes, offset, io.count, content, file.content);
      } else {
        AloneUnchanged(before, file.past, who);
      }
    }
  }

  /** The loop of short writes. */
  method PwriteAll(file: PlanFile, bytes: seq<byte>, ghost who: Writer) returns (ok: bool)
    requires file.Valid() && who != Foreign
    modifies file
    ensures file.Valid() && Continues(old(file.past), file.past, {Foreign, who}) && file.linked == old(file.linked)
    ensures ok && Continues(old(file.past), file.past, {who}) ==>
      file.content == Overwritten(old(file.content), 0, bytes)
    ensures !ok && Continues(old(file.past), file.past, {who}) ==>
      PartlyWritten(old(file.content), bytes, file.content)
  {
    var offset := 0;
    ghost var start, initial := file.past, file.content;
    OverwriteNothing(initial);
    while offset < |bytes|
      invariant offset <= |bytes| && file.Valid() && Continues(start, file.past, {Foreign, who})
      invariant file.linked == old(file.linked)
      invariant Continues(start, file.past, {who}) ==> file.content == Overwritten(initial, 0, bytes[..offset])
      decreases |bytes| - offset, file.interrupts
    {
      var io := WritePiece(file, bytes, offset, who, start, initial);
      if io == Failed || io == Moved(0) {
        return false;
      }
      if io.Moved? {
        offset := offset + io.count;
      }
    }
    assert bytes[..|bytes|] == bytes;
    return true;
  }

  /** Cuts the file to the bytes written. */
  method CutToWritten(file: PlanFile, bytes: seq<byte>, ghost who: Writer, ghost start: seq<Change>, ghost initial: seq<byte>)
      returns (ok: bool)
    requires file.Valid() && who != Foreign && Continues(start, file.past, {Foreign, who})
    requires Continues(start, file.past, {who}) ==> file.content == Overwritten(initial, 0, bytes)
    modifies file
    ensures file.Valid() && Continues(start, file.past, {Foreign, who}) && file.linked == old(file.linked)
    ensures Continues(start, file.past, {who}) ==>
      file.content == if ok then bytes else Overwritten(initial, 0, bytes)
  {
    ghost var before, content := file.past, file.content;
    ok := file.Ftruncate(|bytes|, who);
    if Continues(start, file.past, {who}) {
      AloneParts(start, before, file.past, who);
      if ok {
        AloneBefore(before, file, who);
        assert ContentAt(file.past, file.stamp - 1) == content;
        TruncatedToWritten(initial, bytes);
      } else {
        AloneUnchanged(before, file.past, who);
      }
    }
  }

  /** Left alone, a completed write makes the file exactly `bytes`, and a failed one leaves a prefix of them. */
  method WritePosixHandle(file: PlanFile, bytes: seq<byte>, ghost who: Writer) returns (ok: bool)
    requires file.Valid() && who != Foreign
    modifies file
    ensures file.Valid() && Continues(old(file.past), file.past, {Foreign, who}) && file.linked == old(file.linked)
    ensures ok && Continues(old(file.past), file.past, {who}) ==> file.content == bytes
    ensures !ok && Continues(old(file.past), file.past, {who}) ==>
      PartlyWritten(old(file.content), bytes, file.content)
  {
    ghost var start, initial := file.past, file.content;
    var all := PwriteAll(file, bytes, who);
    if !all {
      return false;
    }
    var cut := CutToWritten(file, bytes, who, start, initial);
    if !cut {
      assert bytes[..|bytes|] == bytes;
      return false;
    }
    ghost var resized := file.past;
    ok := file.Fsync();
    if Continues(start, file.past, {who}) {
      AloneParts(start, resized, file.past, who);
      AloneUnchanged(resized, file.past, who);
    }
  }

  // ---------------------------------------------------------------- the conditional rewrite

  datatype Cause = WriteFailed | PathMoved | AuditFailed

  /**
   Only `Applied` is the program's success. `Corrupt` is the error that says the
   rollback failed; `Unconfirmed` is a readback that did not show the replacement.
   */
  datatype Outcome = Applied | Untouched | RolledBack(cause: Cause) | Corrupt(cause: Cause) | Unconfirmed

  /** Writes the expected bytes back; the failure being reported stays the result. */
  method RestorePosixHandleAfterFailure(file: PlanFile, expected: seq<byte>, cause: Cause) returns (r: Outcome)
    requires file.Valid()
    modifies file
    ensures file.Valid() && Continues(old(file.past), file.past, {Foreign, Rollback}) && file.linked == old(file.linked)
    ensures r == RolledBack(cause) || r == Corrupt(cause)
    ensures Continues(old(file.past), file.past, {Rollback}) ==>
      if r.RolledBack? then file.content == expected else PartlyWritten(old(file.content), expected, file.content)
  {
    var ok := WritePosixHandle(file, expected, Rollback);
    return if ok then RolledBack(cause) else Corrupt(cause);
  }

  /** The file showed `bytes` after change `at`, made only by `who` up to then and only by `since` afterwards. */
  ghost predicate ShownBetween(before: seq<Change>, at: nat, after: seq<Change>, bytes: seq<byte>,
                               who: set<Writer>, since: set<Writer>)
  {
    && |before| <= at + 1 && at < |after| && ContentAt(after, at) == bytes
    && Continues(before, after[..at + 1], who) && Continues(after[..at + 1], after, since)
  }

  /** Opens and locks the handle, then checks bytes and path; `checked` is when the bytes were last seen. */
  method CheckBeforeWrite(file: PlanFile, expected: seq<byte>) returns (ok: bool, ghost checked: nat)
    requires file.Valid()
    modifies file
    ensures file.Valid() && Continues(old(file.past), file.past, {Foreign})
    ensures ok ==> ShownBetween(old(file.past), checked, file.past, expected, {Foreign}, {Foreign})
  {
    checked := 0;
    var opens: bool, locks: bool := *, *;
    if !opens || !locks {
      return false, checked;
    }
    var identity := file.Fstat();
    if identity.None? || !identity.value.regular {
      return false, checked;
    }
    var current, _ := ReadPosixHandle(file, MAX_PLAN_BYTES);
    if current != Some(expected) {
      return false, checked;
    }
    var again, stableReadBefore := ReadPosixHandle(file, MAX_PLAN_BYTES);
    if again != Some(expected) {
      return false, checked;
    }
    checked := stableReadBefore.stamp;
    var handleBefore := file.Fstat();
    var pathBefore := file.Lstat();
    return handleBefore == Some(stableReadBefore) == pathBefore, checked;
  }

  /** Reads the replacement back: does the handle own it, and does the path still name it? */
  method ConfirmReplacement(file: PlanFile, replacement: seq<byte>)
      returns (handleOwns: bool, pathNames: bool, ghost seen: nat)
    requires file.Valid()
    modifies file
    ensures file.Valid() && Continues(old(file.past), file.past, {Foreign})
    ensures pathNames ==> handleOwns && seen in file.linked
    ensures handleOwns ==> ShownBetween(old(file.past), seen, file.past, replacement, {Foreign}, {Foreign})
  {
    seen := 0;
    var written, stableReadAfter := ReadPosixHandle(file, MAX_PLAN_BYTES);
    if written != Some(replacement) {
      return false, false, seen;
    }
    seen := stableReadAfter.stamp;
    var handleAfter := file.Fstat();
    if handleAfter != Some(stableReadAfter) {
      return false, false, seen;
    }
    var pathAfter := file.Lstat();
    return true, pathAfter == Some(stableReadAfter), seen;
  }

  // ---------------------------------------------------------------- what a rewrite does to the file's history

  function Latest(past: seq<Change>): seq<byte>
    requires past != []
  {
    past[|past| - 1].content
  }

  /** The history of the file before and after one rewrite that ended with `r`. */
  ghost predicate Rewrites(r: Outcome, before: seq<Change>, after: seq<Change>, expected: seq<byte>,
                           replacement: seq<byte>, checked: nat, seen: nat)
    requires before != [] && after != []
  {
    && Continues(before, after, {Foreign, Forward, Rollback})
    // A failure before the write leaves the file to the others; any write follows the expected bytes.
    && (if r.Untouched? then Continues(before, after, {Foreign})
        else ShownBetween(before, checked, after, expected, {Foreign}, {Foreign, Forward, Rollback}))
    // Success: the replacement was there, and only others wrote since.
    && (r.Applied? ==> ShownBetween(before, seen, after, replacement, {Foreign, Forward}, {Foreign}))
    // Ownership lost: not one byte is written after the replacement.
    && (r.Unconfirmed? ==> Continues(before, after, {Foreign, Forward}))
    // A rollback for another reason than a failed write follows a confirmed replacement.
    && ((r.RolledBack? || r.Corrupt?) && !r.cause.WriteFailed? ==>
          ShownBetween(before, seen, after, replacement, {Foreign, Forward}, {Foreign, Rollback}))
    // Without foreign writers the outcome decides the content.
    && (Continues(before, after, {Forward, Rollback}) ==>
          Decided(r, Latest(before), expected, replacement, Latest(after)))
  }

  predicate Decided(r: Outcome, before: seq<byte>, expected: seq<byte>, replacement: seq<byte>, now: seq<byte>) {
    match r
    case Applied => now == replacement
    case Untouched => now == before
    case RolledBack(_) => now == expected == before
    case Corrupt(_) => before == expected
    case Unconfirmed => now == replacement
  }

  lemma ShownLater(p0: seq<Change>, p1: seq<Change>, p2: seq<Change>, p3: seq<Change>, at: nat, bytes: seq<byte>,
                   first: set<Writer>, who: set<Writer>, since: set<Writer>, last: set<Writer>)
    requires Continues(p0, p1, first) && ShownBetween(p1, at, p2, bytes, who, since) && Continues(p2, p3, last)
    ensures ShownBetween(p0, at, p3, bytes, first + who, since + last)
  {
    assert p3[..at + 1] == p2[..at + 1];
  }

  /** Left alone, the file held the expected bytes until the write and the replacement after it. */
  lemma AloneUntilRead(p0: seq<Change>, p1: seq<Change>, p2: seq<Change>, p3: seq<Change>, checked: nat,
                       expected: seq<byte>, ok: bool, replacement: seq<byte>)
    requires p0 != [] && ShownBetween(p0, checked, p1, expected, {Foreign}, {Foreign})
    requires Continues(p1, p2, {Foreign, Forward}) && Continues(p2, p3, {Foreign})
    requires ok && Continues(p1, p2, {Forward}) ==> Latest(p2) == replacement
    requires Continues(p0, p3, {Forward, Rollback})
    ensures Latest(p0) == expected && (ok ==> Latest(p3) == replacement)
  {
    ContinuesWithin(p0, p0, p1, p3, {Foreign}, {Forward, Rollback});
    ContinuesWithin(p0, p1, p2, p3, {Foreign, Forward}, {Forward, Rollback});
    ContinuesWithin(p0, p2, p3, p3, {Foreign}, {Forward, Rollback});
    assert p0 == p1 && p2 == p3;
  }

  /** The write succeeded; the replacement was read back or not. */
  lemma WrittenRewrites(r: Outcome, p0: seq<Change>, p1: seq<Change>, p2: seq<Change>, p3: seq<Change>,
                        checked: nat, seen: nat, expected: seq<byte>, replacement: seq<byte>)
    requires p0 != [] && ShownBetween(p0, checked, p1, expected, {Foreign}, {Foreign})
    requires Continues(p1, p2, {Foreign, Forward}) && Continues(p2, p3, {Foreign})
    requires Continues(p1, p2, {Forward}) ==> Latest(p2) == replacement
    requires r.Unconfirmed? || (r.Applied? && ShownBetween(p2, seen, p3, replacement, {Foreign}, {Foreign}))
    ensures Rewrites(r, p0, p3, expected, replacement, checked, seen)
  {
    ShownLater(p0, p0, p1, p3, checked, expected, {}, {Foreign}, {Foreign}, {Foreign, Forward});
    if r.Applied? {
      ShownLater(p0, p2, p3, p3, seen, replacement, {Foreign, Forward}, {Foreign}, {Foreign}, {});
    }
    if Continues(p0, p3, {Forward, Rollback}) {
      AloneUntilRead(p0, p1, p2, p3, checked, expected, true, replacement);
    }
  }

  /** The write failed, or the confirmed replacement had to go again. */
  lemma RestoredRewrites(r: Outcome, p0: seq<Change>, p1: seq<Change>, p2: seq<Change>, p3: seq<Change>, p4: seq<Change>,
                         checked: nat, seen: nat, expected: seq<byte>, replacement: seq<byte>)
    requires p0 != [] && ShownBetween(p0, checked, p1, expected, {Foreign}, {Foreign})
    requires Continues(p1, p2, {Foreign, Forward}) && Continues(p2, p3, {Foreign}) && Continues(p3, p4, {Foreign, Rollback})
    requires r.RolledBack? || r.Corrupt?
    requires !r.cause.WriteFailed? ==> ShownBetween(p2, seen, p3, replacement, {Foreign}, {Foreign})
    requires r.RolledBack? && Continues(p3, p4, {Rollback}) ==> Latest(p4) == expected
    ensures Rewrites(r, p0, p4, expected, replacement, checked, seen)
  {
    ShownLater(p0, p0, p1, p4, checked, expected, {}, {Foreign}, {Foreign}, {Foreign, Forward, Rollback});
    if !r.cause.WriteFailed? {
      ShownLater(p0, p2, p3, p4, seen, replacement, {Foreign, Forward}, {Foreign}, {Foreign}, {Foreign, Rollback});
    }
    if Continues(p0, p4, {Forward, Rollback}) {
      ContinuesWithin(p0, p0, p3, p4, {Foreign, Forward}, {Forward, Rollback});
      ContinuesWithin(p0, p3, p4, p4, {Foreign, Rollback}, {Forward, Rollback});
      AloneUntilRead(p0, p1, p2, p3, checked, expected, false, replacement);
    }
  }

  /** After a complete write: confirm, bind, or roll back what the handle still owns. */
  method FinishReplacement(file: PlanFile, audit: PlanAuditSink?, expected: seq<byte>, replacement: seq<byte>,
                           ghost p0: seq<Change>, ghost p1: seq<Change>, ghost checked: nat)
      returns (r: Outcome, ghost seen: nat)
    requires file.Valid() && p0 != [] && ShownBetween(p0, checked, p1, expected, {Foreign}, {Foreign})
    requires Continues(p1, file.past, {Foreign, Forward})
    requires Continues(p1, file.past, {Forward}) ==> file.content == replacement
    modifies file, audit
    ensures file.Valid() && Rewrites(r, p0, file.past, expected, replacement, checked, seen)
    ensures r.Applied? ==> seen in file.linked
    ensures audit != null ==> audit.log == old(audit.log) && audit.finalized == old(audit.finalized)
    ensures audit != null ==> audit.bound == old(audit.bound) + (if r.Applied? then [replacement] else [])
  {
    ghost var p2 := file.past;
    var handleOwns, pathNames;
    handleOwns, pathNames, seen := ConfirmReplacement(file, replacement);
    ghost var p3 := file.past;
    if !handleOwns {
      WrittenRewrites(Unconfirmed, p0, p1, p2, p3, checked, seen, expected, replacement);
      return Unconfirmed, seen;
    }
    var bound := pathNames;
    if pathNames && audit != null {
      bound := audit.BindSourceStateBytes(replacement);
    }
    if !bound {
      r := RestorePosixHandleAfterFailure(file, expected, if pathNames then AuditFailed else PathMoved);
      RestoredRewrites(r, p0, p1, p2, p3, file.past, checked, seen, expected, replacement);
      return r, seen;
    }
    WrittenRewrites(Applied, p0, p1, p2, p3, checked, seen, expected, replacement);
    return Applied, seen;
  }

  /**
   `checked` is the instant the expected bytes were last seen before the write,
   `seen` the instant the replacement was read back.
   */
  method RewriteConditionally(file: PlanFile, audit: PlanAuditSink?, expected: seq<byte>, replacement: seq<byte>)
      returns (r: Outcome, ghost checked: nat, ghost seen: nat)
    requires file.Valid()
    modifies file, audit
    ensures file.Valid() && Rewrites(r, old(file.past), file.past, expected, replacement, checked, seen)
    ensures r.Applied? ==> seen in file.linked
    ensures audit != null ==> audit.log == old(audit.log) && audit.finalized == old(audit.finalized)
    ensures audit != null ==> audit.bound == old(audit.bound) + (if r.Applied? then [replacement] else [])
  {
    seen := 0;
    var clean;
    clean, checked := CheckBeforeWrite(file, expected);
    ghost var p0, p1 := old(file.past), file.past;
    if !clean {
      return Untouched, checked, seen;
    }
    var wrote := WritePosixHandle(file, replacement, Forward);
    ghost var p2 := file.past;
    if !wrote {
      r := RestorePosixHandleAfterFailure(file, expected, WriteFailed);
      RestoredRewrites(r, p0, p1, p2, p2, file.past, checked, seen, expected, replacement);
      return r, checked, seen;
    }
    r, seen := FinishReplacement(file, audit, expected, replacement, p0, p1, checked);
  }
}
