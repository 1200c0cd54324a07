/**
 The rotating log writer. File operations succeed; a file's content is the list of
 records written to it.
 */
module LogRotation {
  import opened Options

  type Record = seq<bv8>
  type Content = seq<Record>

  const DEFAULT_MAX_BYTES := 5242880
  const DEFAULT_BACKUPS := 3

  function SizeOf(f: Content): nat { if f == [] then 0 else SizeOf(f[..|f| - 1]) + |f[|f| - 1]| }

  function At(backups: map<nat, Content>, i: nat): Content { if i in backups then backups[i] else [] }

  /** The records of backups `k` down to 1, oldest first. */
  function Backed(backups: map<nat, Content>, k: nat): Content {
    if k == 0 then [] else At(backups, k) + Backed(backups, k - 1)
  }

  predicate IsSuffix(s: Content, all: Content) { |s| <= |all| && all[|all| - |s|..] == s }

  predicate WithinLimit(f: Content, maxBytes: int) { SizeOf(f) <= maxBytes || |f| == 1 }

  ghost predicate Numbered(backups: map<nat, Content>, count: nat) { forall j: nat :: j in backups ==> 1 <= j <= count }

  /** Backup `j + 1` is what backup `j` was. */
  ghost predicate MovedUp(before: map<nat, Content>, after: map<nat, Content>, count: nat) {
    forall j: nat, i: nat | 1 <= j && i == j + 1 && i <= count ::
      (i in after <==> j in before) && (j in before ==> after[i] == before[j])
  }

  /** Every backup moved up by one, the active content became the first. */
  ghost predicate Shifted(before: map<nat, Content>, after: map<nat, Content>, active: Content, count: nat) {
    Numbered(after, count) && 1 in after && after[1] == active && MovedUp(before, after, count)
  }

  /** Backups have no gap: one is followed by all newer ones. */
  ghost predicate NoGap(backups: map<nat, Content>) {
    forall j: nat, i: nat | 1 <= j && i == j + 1 && i in backups :: j in backups
  }

  ghost predicate AllWithin(backups: map<nat, Content>, maxBytes: int) {
    forall j: nat | j in backups :: WithinLimit(backups[j], maxBytes)
  }

  lemma {:induction false} ShiftedRecords(before: map<nat, Content>, after: map<nat, Content>, active: Content, count: nat, k: nat)
    requires Shifted(before, after, active, count) && k < count
    ensures Backed(after, k + 1) == Backed(before, k) + active
  {
    if k > 0 {
      ShiftedRecords(before, after, active, count, k - 1);
      assert At(after, k + 1) == At(before, k);
      assert At(before, k) + (Backed(before, k - 1) + active) == At(before, k) + Backed(before, k - 1) + active;
    } else {
      assert Backed(after, 1) == At(after, 1) + [] == active;
    }
  }

  /** Dropping the oldest backup keeps a suffix. */
  lemma DropOldest(oldest: Content, kept: Content, all: Content)
    requires IsSuffix(oldest + kept, all)
    ensures IsSuffix(kept, all)
  {
    assert all[|all| - |kept|..] == (oldest + kept)[|oldest|..];
  }

  lemma ShiftKeeps(before: map<nat, Content>, after: map<nat, Content>, active: Content, count: nat, written: Content, maxBytes: int)
    requires 0 < count && Shifted(before, after, active, count) && Numbered(before, count)
    requires IsSuffix(Backed(before, count) + active, written) && NoGap(before)
    requires AllWithin(before, maxBytes) && WithinLimit(active, maxBytes)
    ensures IsSuffix(Backed(after, count) + [], written) && NoGap(after) && AllWithin(after, maxBytes)
  {
    ShiftKeepsSuffix(before, after, active, count, written);
    ShiftKeepsOrder(before, after, active, count);
    forall i: nat | i in after ensures WithinLimit(after[i], maxBytes) {
      if i > 1 {
        var j: nat := i - 1;
        assert j in before;
      }
    }
  }

  lemma ShiftKeepsSuffix(before: map<nat, Content>, after: map<nat, Content>, active: Content, count: nat, written: Content)
    requires 0 < count && Shifted(before, after, active, count) && IsSuffix(Backed(before, count) + active, written)
    ensures IsSuffix(Backed(after, count) + [], written)
  {
    var k: nat := count - 1;
    ShiftedRecords(before, after, active, count, k);
    var kept := Backed(before, k) + active;
    assert Backed(before, count) + active == At(before, count) + kept;
    DropOldest(At(before, count), kept, written);
    assert kept + [] == kept;
  }

  lemma ShiftKeepsOrder(before: map<nat, Content>, after: map<nat, Content>, active: Content, count: nat)
    requires 0 < count && Shifted(before, after, active, count) && NoGap(before)
    ensures NoGap(after)
  {
    forall j: nat, i: nat | 1 <= j && i == j + 1 && i in after ensures j in after {
      if j > 1 {
        var h: nat := j - 1;
        assert j in before;
        assert h in before;
      }
    }
  }

  lemma PutFirst(before: map<nat, Content>, moved: map<nat, Content>, active: Content, count: nat)
    requires 0 < count && Numbered(moved, count) && MovedUp(before, moved, count)
    ensures Shifted(before, (moved - {1})[1 := active], active, count)
  {
  }

  /** One more record at the end. */
  lemma AppendKeeps(backed: Content, active: Content, written: Content, p: Record)
    requires IsSuffix(backed + active, written)
    ensures IsSuffix(backed + (active + [p]), written + [p])
  {
    var s := backed + active;
    assert backed + (active + [p]) == s + [p];
    assert (written + [p])[|written| - |s|..] == written[|written| - |s|..] + [p];
  }

  lemma SizeOfSnoc(f: Content, p: Record)
    ensures SizeOf(f + [p]) == SizeOf(f) + |p|
  {
    assert (f + [p])[..|f|] == f;
  }

  class RotatingWriter {
    const maxBytes: int
    const backupCount: nat
    var active: Option<Content>
    var backups: map<nat, Content>
    var open: bool
    var size: nat
    /** Every record written, in order. */
    ghost var written: Content

    ghost predicate Valid()
      reads this
    {
      && 0 < maxBytes && 0 < backupCount && Numbered(backups, backupCount) && NoGap(backups)
      && active.Some? && (open ==> size == SizeOf(active.value))
      && IsSuffix(Backed(backups, backupCount) + active.value, written)
      && WithinLimit(active.value, maxBytes) && AllWithin(backups, maxBytes)
    }

    constructor (maxBytes: int, backupCount: int)
      ensures Valid() && written == [] && backups == map[] && active == Some([])
      ensures this.maxBytes == if maxBytes <= 0 then DEFAULT_MAX_BYTES else maxBytes
      ensures this.backupCount == if backupCount <= 0 then DEFAULT_BACKUPS else backupCount
    {
      this.maxBytes := if maxBytes <= 0 then DEFAULT_MAX_BYTES else maxBytes;
      this.backupCount := if backupCount <= 0 then DEFAULT_BACKUPS else backupCount;
      active, backups, open, size, written := None, map[], false, 0, [];
      new;
      Open();
      NothingBacked(this.backupCount);
    }

    static lemma {:induction false} NothingBacked(k: nat)
      ensures Backed(map[], k) == []
    {
      if k > 0 {
        NothingBacked(k - 1);
      }
    }

    /** Opens the active file, creating it when it is missing. */
    method Open()
      requires active.None? ==> size == 0
      modifies this`active, this`open, this`size
      ensures open && active == Some(if old(active).Some? then old(active).value else []) && size == SizeOf(active.value)
    {
      if active.Some? {
        size := SizeOf(active.value);
      } else {
        active := Some([]);
      }
      open := true;
    }

    method Close()
      requires Valid()
      modifies this`open
      ensures Valid() && !open
    {
      open := false;
    }

    method Rotate()
      requires Valid()
      modifies this`active, this`backups, this`open, this`size
      ensures Valid() && open && active == Some([])
      ensures Shifted(old(backups), backups, old(active).value, backupCount)
    {
      open := false;
      ShiftBackups();
      ghost var moved := backups;
      backups := backups - {1};
      if active.Some? {
        backups := backups[1 := active.value];
        active := None;
      }
      size := 0;
      PutFirst(old(backups), moved, old(active).value, backupCount);
      ShiftKeeps(old(backups), backups, old(active).value, backupCount, written, maxBytes);
      Open();
    }

    /** Moves each backup up by one, from the last but one down. */
    method ShiftBackups()
      requires 0 < backupCount && Numbered(backups, backupCount)
      modifies this`backups
      ensures Numbered(backups, backupCount) && MovedUp(old(backups), backups, backupCount)
    {
      var i := backupCount - 1;
      while i >= 1
        invariant 0 <= i < backupCount && Numbered(backups, backupCount)
        invariant forall j: nat | 1 <= j <= i ::
          (j in backups <==> j in old(backups)) && (j in backups ==> backups[j] == old(backups)[j])
        invariant forall j: nat, n: nat | i < j && n == j + 1 && n <= backupCount ::
          (n in backups <==> j in old(backups)) && (j in old(backups) ==> backups[n] == old(backups)[j])
      {
        var src: nat, dst: nat := i, i + 1;
        backups := backups - {dst};
        if src in backups {
          backups := backups[dst := backups[src]] - {src};
        }
        i := i - 1;
      }
    }

    /** Rotates exactly when the record would not fit any more. */
    method Write(p: Record)
      requires Valid()
      modifies this
      ensures Valid() && written == old(written) + [p]
      ensures if SizeOf(old(active).value) + |p| <= maxBytes
        then backups == old(backups) && active.value == old(active).value + [p]
        else Shifted(old(backups), backups, old(active).value, backupCount) && active.value == [p]
    {
      if !open {
        Open();
      }
      if size + |p| > maxBytes {
        Rotate();
      }
      Put(p);
    }

    /** The record goes to the end of the open file. */
    method Put(p: Record)
      requires Valid() && open && (SizeOf(active.value) + |p| <= maxBytes || active.value == [])
      modifies this`active, this`size, this`written
      ensures Valid() && written == old(written) + [p] && active.value == old(active).value + [p]
    {
      AppendKeeps(Backed(backups, backupCount), active.value, written, p);
      SizeOfSnoc(active.value, p);
      active := Some(active.value + [p]);
      size := size + |p|;
      written := written + [p];
    }
  }

  /** At most `backupCount` backups: they are numbered 1 to some `k` within it. */
  lemma BackupsAreNumbered(w: RotatingWriter) returns (k: nat)
    requires w.Valid()
    ensures k <= w.backupCount && forall j: nat :: j in w.backups <==> 1 <= j <= k
  {
    k := 0;
    while k + 1 in w.backups
      invariant k <= w.backupCount && forall j: nat | 1 <= j <= k :: j in w.backups
      decreases w.backupCount - k
    {
      k := k + 1;
    }
    forall j: nat | j in w.backups ensures 1 <= j <= k {
      if j > k {
        Below(w.backups, j, k + 1);
      }
    }
  }

  lemma {:induction false} Below(backups: map<nat, Content>, j: nat, i: nat)
    requires NoGap(backups) && j in backups && 1 <= i <= j
    ensures i in backups
    decreases j - i
  {
    if i < j {
      var n: nat := i + 1;
      Below(backups, j, n);
    }
  }
}
