/** Timed locks on requested chunks (chunklock.c). Times are microseconds. */
module ChunkLock {
  import opened Common
  import opened NodeIdSet

  const TOUTDIFF := 2_000_000
  const LSIZE_INCREMENT := 10

  datatype Lock = Lock(chunkId: int, peer: Option<NodeId>, timestamp: int)

  predicate TimedOut(l: Lock, now: int) {
    now > l.timestamp + TOUTDIFF
  }

  // ---------------------------------------------------------------- the table as a sequence

  function Cleaned(s: seq<Lock>, now: int): (r: seq<Lock>)
    ensures |r| <= |s|
  {
    if s == [] then []
    else if TimedOut(s[0], now) then Cleaned(s[1..], now)
    else [s[0]] + Cleaned(s[1..], now)
  }

  predicate Holds(s: seq<Lock>, id: int) {
    exists i :: 0 <= i < |s| && s[i].chunkId == id
  }

  /** The first lock on `id` goes. */
  function Unlocked(s: seq<Lock>, id: int): seq<Lock> {
    if s == [] then []
    else if s[0].chunkId == id then s[1..]
    else [s[0]] + Unlocked(s[1..], id)
  }

  /** At most one lock per chunk. */
  ghost predicate Unique(s: seq<Lock>) {
    forall i, j :: 0 <= i < j < |s| ==> s[i].chunkId != s[j].chunkId
  }

  lemma {:induction false} UniqueCons(l: Lock, s: seq<Lock>)
    ensures Unique([l] + s) <==> Unique(s) && forall k :: k in s ==> k.chunkId != l.chunkId
  {
    var all := [l] + s;
    assert forall i :: 0 < i < |all| ==> all[i] == s[i - 1] && s[i - 1] in s;
    if Unique(all) {
      forall k | k in s
        ensures k.chunkId != l.chunkId
      {
        var i :| 0 <= i < |s| && s[i] == k;
        assert all[0].chunkId != all[i + 1].chunkId;
      }
      assert forall i :: 0 <= i < |s| ==> all[i + 1] == s[i];
    }
  }

  lemma {:induction false} CleanedCons(l: Lock, s: seq<Lock>, now: int)
    requires forall k :: k in Cleaned(s, now) <==> k in s && !TimedOut(k, now)
    requires Unique(s) ==> Unique(Cleaned(s, now))
    ensures forall k :: k in Cleaned([l] + s, now) <==> k in [l] + s && !TimedOut(k, now)
    ensures Unique([l] + s) ==> Unique(Cleaned([l] + s, now))
  {
    hide Unique;
    assert ([l] + s)[1..] == s;
    UniqueCons(l, s);
    UniqueCons(l, Cleaned(s, now));
    assert Cleaned([l] + s, now) == (if TimedOut(l, now) then Cleaned(s, now) else [l] + Cleaned(s, now));
  }

  lemma {:induction false} CleanedMembers(s: seq<Lock>, now: int)
    ensures forall l :: l in Cleaned(s, now) <==> l in s && !TimedOut(l, now)
    ensures Unique(s) ==> Unique(Cleaned(s, now))
  {
    if s != [] {
      CleanedMembers(s[1..], now);
      CleanedCons(s[0], s[1..], now);
      assert [s[0]] + s[1..] == s;
    }
  }

  /** Cleaning keeps exactly the locks that are at most two seconds old; so a chunk is locked afterwards if and only if
      one of them is on it. */
  lemma {:induction false} CleanedExactly(s: seq<Lock>, id: int, now: int)
    ensures forall l :: l in Cleaned(s, now) <==> l in s && now <= l.timestamp + 2_000_000
    ensures Holds(Cleaned(s, now), id) <==> exists l :: l in s && l.chunkId == id && now <= l.timestamp + 2_000_000
  {
    CleanedMembers(s, now);
    hide Cleaned;
    var r := Cleaned(s, now);
    if Holds(r, id) {
      var i :| 0 <= i < |r| && r[i].chunkId == id;
      assert r[i] in r;
    }
    if l :| l in s && l.chunkId == id && now <= l.timestamp + 2_000_000 {
      assert l in r;
      var i :| 0 <= i < |r| && r[i] == l;
    }
  }

  /** Unlocking removes the lock on `id` and no other. */
  lemma {:induction false} UnlockedMembers(s: seq<Lock>, id: int)
    requires Unique(s)
    ensures forall l :: l in Unlocked(s, id) <==> l in s && l.chunkId != id
    ensures Unique(Unlocked(s, id))
  {
    if s != [] {
      hide Unique;
      assert s == [s[0]] + s[1..];
      UniqueCons(s[0], s[1..]);
      UnlockedMembers(s[1..], id);
      UniqueCons(s[0], Unlocked(s[1..], id));
    }
  }

  lemma {:induction false} UnlockedAt(s: seq<Lock>, id: int, i: nat)
    requires i <= |s| && (forall k :: 0 <= k < i ==> s[k].chunkId != id) && (i < |s| ==> s[i].chunkId == id)
    ensures Unlocked(s, id) == if i < |s| then Cut(s, i) else s
  {
    hide Cut;
    if s != [] && i > 0 {
      UnlockedAt(s[1..], id, i - 1);
      if i < |s| {
        CutCons(s, i);
      } else {
        assert s == [s[0]] + s[1..];
      }
    } else if s != [] {
      CutFirst(s);
    }
  }

  /** The clean-up works from the back: entries behind `i` have been examined. */
  ghost predicate Examined(s: seq<Lock>, now: int, i: int, cur: seq<Lock>) {
    -1 <= i < |s| && i < |cur| && cur == s[..i + 1] + Cleaned(s[i + 1..], now)
  }

  lemma {:induction false} ExaminedStart(s: seq<Lock>, now: int)
    ensures Examined(s, now, |s| - 1, s)
  {
  }

  lemma {:induction false} ExaminedStep(s: seq<Lock>, now: int, i: nat, cur: seq<Lock>)
    requires Examined(s, now, i, cur)
    ensures i < |cur| && Examined(s, now, i - 1, if TimedOut(cur[i], now) then cur[..i] + cur[i + 1..] else cur)
  {
    assert cur[i] == s[i] && s[i..][1..] == s[i + 1..];
    assert s[..i + 1] == s[..i] + [s[i]];
    assert cur[i + 1..] == Cleaned(s[i + 1..], now);
  }

  lemma {:induction false} ExaminedEnd(s: seq<Lock>, now: int, cur: seq<Lock>)
    requires Examined(s, now, -1, cur)
    ensures cur == Cleaned(s, now)
  {
    assert s[0..] == s;
  }

  // ---------------------------------------------------------------- the table

  class LockTable {
    var locks: array?<Lock>
    var lcount: nat

    ghost predicate Valid()
      reads this
    {
      if locks == null then lcount == 0 else lcount <= locks.Length && 0 < locks.Length
    }

    ghost function Contents(): (s: seq<Lock>)
      requires Valid()
      reads this, locks
    {
      if locks == null then [] else locks[..lcount]
    }

    constructor ()
      ensures Valid() && Contents() == [] && locks == null
    {
      locks, lcount := null, 0;
    }

    /** Makes sure there is room for one more lock. */
    method LocksInit()
      requires Valid()
      modifies this
      ensures Valid() && Contents() == old(Contents()) && locks != null && lcount < locks.Length
      ensures locks == old(locks) || fresh(locks)
      ensures locks.Length == if old(locks) == null then 10
                              else if old(lcount) == old(locks).Length then old(locks).Length + 10
                                else old(locks).Length
    {
      ghost var s := Contents();
      if locks == null {
        locks := new Lock[LSIZE_INCREMENT](_ => Lock(0, None, 0));
        lcount := 0;
      }
      if lcount == locks.Length {
        var was, n := locks, lcount;
        var bigger := new Lock[n + LSIZE_INCREMENT](i requires 0 <= i < n + LSIZE_INCREMENT reads was =>
          if i < n then was[i] else Lock(0, None, 0));
        locks := bigger;
        assert locks[..lcount] == s;
      }
    }

    method ChunkLockRemove(i: nat)
      requires Valid() && i < lcount
      modifies this`lcount, locks
      ensures Valid() && Contents() == old(Contents())[..i] + old(Contents())[i + 1..]
    {
      ghost var s := Contents();
      forall k | i <= k < lcount - 1 {
        locks[k] := locks[k + 1];
      }
      lcount := lcount - 1;
      assert locks[..lcount] == s[..i] + s[i + 1..];
    }

    method ChunkLocksCleanup(now: int)
      requires Valid()
      modifies this`lcount, locks
      ensures Valid() && Contents() == Cleaned(old(Contents()), now)
    {
      hide Cleaned, Examined, TimedOut;
      ghost var s := Contents();
      var i := lcount - 1;
      ExaminedStart(s, now);
      while i >= 0
        invariant Valid() && Examined(s, now, i, Contents()) && i >= -1
      {
        ExaminedStep(s, now, i, Contents());
        assert Contents()[i] == locks[i];
        if TimedOut(locks[i], now) {
          ChunkLockRemove(i);
        }
        i := i - 1;
      }
      ExaminedEnd(s, now, Contents());
    }

    method LockChunk(id: int, from: Option<NodeId>, now: int)
      requires Valid()
      modifies this, locks
      ensures Valid() && Contents() == old(Contents()) + [Lock(id, from, now)]
      ensures locks == old(locks) || fresh(locks)
    {
      ghost var s := Contents();
      LocksInit();
      locks[lcount] := Lock(id, from, now);
      lcount := lcount + 1;
      assert locks[..lcount] == s + [Lock(id, from, now)];
    }

    method UnlockChunk(id: int)
      requires Valid()
      modifies this`lcount, locks
      ensures Valid() && Contents() == Unlocked(old(Contents()), id)
    {
      ghost var s := Contents();
      for i := 0 to lcount
        invariant Valid() && Contents() == s && forall k :: 0 <= k < i ==> s[k].chunkId != id
      {
        assert locks[i] == s[i];
        if locks[i].chunkId == id {
          ChunkLockRemove(i);
          UnlockedAt(s, id, i);
          return;
        }
      }
      UnlockedAt(s, id, |s|);
    }

    method IsLocked(id: int, now: int) returns (locked: bool)
      requires Valid()
      modifies this`lcount, locks
      ensures Valid() && Contents() == Cleaned(old(Contents()), now)
      ensures locked <==> Holds(Contents(), id)
      ensures locked <==>
        exists l :: l in old(Contents()) && l.chunkId == id && now <= l.timestamp + 2_000_000
    {
      hide Cleaned;
      CleanedExactly(Contents(), id, now);
      ChunkLocksCleanup(now);
      ghost var s := Contents();
      for i := 0 to lcount
        invariant forall k :: 0 <= k < i ==> s[k].chunkId != id
      {
        assert s[i] == locks[i];
        if locks[i].chunkId == id {
          return true;
        }
      }
      locked := false;
    }
  }
}
