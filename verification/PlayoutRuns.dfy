/** What the playout buffer does over a whole run: which chunks come out, which are given up, when the stream is
    sorted. */
module PlayoutRuns {
  import opened Common
  import opened Playout

  ghost predicate Delivers(cs: seq<Chunk>, id: int) {
    exists k :: 0 <= k < |cs| && cs[k].id == id
  }

  function FirstCopy(cs: seq<Chunk>, id: int): (c: Chunk)
    requires Delivers(cs, id)
    ensures c.id == id
  {
    if cs[0].id == id then cs[0] else FirstCopy(cs[1..], id)
  }

  /** The first id the buffer did not drop. */
  function FirstId(cs: seq<Chunk>): Option<int> {
    if cs == [] then None
    else if cs[0].id >= -1 then Some(cs[0].id)
    else FirstId(cs[1..])
  }

  /** The copies the window let in. */
  function Accepted(cfg: Config, cs: seq<Chunk>): (acc: map<int, Chunk>)
    ensures Keyed(acc)
  {
    if cs == [] then map[]
    else
      var (before, c) := (cs[..|cs| - 1], cs[|cs| - 1]);
      Admit(Accepted(cfg, before), Run(cfg, before), c)
  }

  function Admit(acc: map<int, Chunk>, s: State, c: Chunk): map<int, Chunk> {
    if c.id < s.next || c.id in acc then acc else acc[c.id := c]
  }

  /** The accepted chunks of [lo, hi) that pass the start/end filter, by increasing id. */
  function Emitted(cfg: Config, acc: map<int, Chunk>, lo: int, hi: int): seq<Chunk>
    decreases hi - lo
  {
    if hi <= lo then []
    else Emitted(cfg, acc, lo, hi - 1) + if hi - 1 in acc && InRange(cfg, hi - 1) then [acc[hi - 1]] else []
  }

  /** The books of the buffer: everything in the state is determined by the accepted chunks and the position. */
  ghost predicate Account(cfg: Config, s: State, acc: map<int, Chunk>, f: int) {
    && Keyed(acc) && Keyed(s.pending) && -1 <= f <= s.next
    && (forall id :: id in acc ==> f <= id)
    && s.pending == (map id | id in acc && s.next <= id :: acc[id])
    && |s.regs| == s.next - f
    && (forall k :: 0 <= k < |s.regs| ==>
          if f + k in acc then s.regs[k] == Registration(f + k, true, acc[f + k].timestamp) else !s.regs[k].played)
    && (cfg.reorder ==> s.written == Emitted(cfg, acc, f, s.next))
  }

  ghost predicate Settles(cfg: Config, s: State, acc: map<int, Chunk>, f: int) {
    Account(cfg, s, acc, f) && s.next !in acc && 0 <= s.next && forall id :: id in acc ==> id < s.next + cfg.size
  }

  lemma {:induction false} EmittedStable(cfg: Config, acc: map<int, Chunk>, c: Chunk, lo: int, hi: int)
    requires hi <= c.id
    ensures Emitted(cfg, acc[c.id := c], lo, hi) == Emitted(cfg, acc, lo, hi)
    decreases hi - lo
  {
    if lo < hi {
      EmittedStable(cfg, acc, c, lo, hi - 1);
    }
  }

  lemma {:induction false} AccountPlay(cfg: Config, s: State, acc: map<int, Chunk>, f: int)
    requires Account(cfg, s, acc, f) && s.next in acc
    ensures Account(cfg, Play(cfg, s, acc[s.next]), acc, f)
  {
  }

  lemma {:induction false} AccountLose(cfg: Config, s: State, acc: map<int, Chunk>, f: int, c: Chunk)
    requires Account(cfg, s, acc, f) && s.next !in acc
    ensures Account(cfg, Lose(s, c), acc, f)
  {
  }

  lemma {:induction false} AccountSkip(cfg: Config, s: State, acc: map<int, Chunk>, f: int, limit: int, c: Chunk)
    requires Account(cfg, s, acc, f)
    ensures Account(cfg, Skip(cfg, s, limit, c), acc, f)
    decreases limit + 1 - s.next
  {
    if s.next <= limit {
      if s.next in s.pending {
        AccountPlay(cfg, s, acc, f);
        AccountSkip(cfg, Play(cfg, s, acc[s.next]), acc, f, limit, c);
      } else {
        AccountLose(cfg, s, acc, f, c);
        AccountSkip(cfg, Lose(s, c), acc, f, limit, c);
      }
    }
  }

  lemma {:induction false} AccountFlush(cfg: Config, s: State, acc: map<int, Chunk>, f: int)
    requires Account(cfg, s, acc, f)
    ensures Account(cfg, Flush(cfg, s), acc, f)
    ensures forall id :: s.next <= id < Flush(cfg, s).next ==> id in acc
    decreases |s.pending|
  {
    if s.next in s.pending {
      AccountPlay(cfg, s, acc, f);
      RemoveKey(s.pending, s.next);
      AccountFlush(cfg, Play(cfg, s, acc[s.next]), acc, f);
    }
  }

  lemma {:induction false} AccountAdmit(cfg: Config, s: State, acc: map<int, Chunk>, f: int, c: Chunk)
    requires Account(cfg, s, acc, f) && s.next <= c.id && c.id !in acc
    ensures Account(cfg, s.(pending := s.pending[c.id := c]), acc[c.id := c], f)
  {
    EmittedStable(cfg, acc, c, f, s.next);
  }

  // ---------------------------------------------------------------- one delivery

  lemma {:induction false} SettledAccount(cfg: Config, s: State, acc: map<int, Chunk>, f: int, c: Chunk)
    requires cfg.size >= 1 && Account(cfg, s, acc, f) && s.next !in acc
    requires -1 <= s.next <= c.id < s.next + cfg.size && (s.next == -1 ==> c.id == -1)
    requires forall id :: id in acc ==> id < s.next + cfg.size
    ensures Settles(cfg, Settled(cfg, s, c), Admit(acc, s, c), f)
    ensures Settled(cfg, s, c).next >= s.next
    ensures forall id :: s.next <= id < Settled(cfg, s, c).next ==> id in Admit(acc, s, c)
  {
    var acc' := Admit(acc, s, c);
    if c.id == s.next {
      AccountAdmit(cfg, s, acc, f, c);
      var s' := s.(pending := s.pending[c.id := c]);
      AccountPlay(cfg, s', acc', f);
      assert Play(cfg, s', c) == Play(cfg, s, c);
      AccountFlush(cfg, Play(cfg, s, c), acc', f);
    } else if c.id !in acc {
      AccountAdmit(cfg, s, acc, f, c);
    }
  }

  lemma {:induction false} OpenedAccount(cfg: Config, s: State, acc: map<int, Chunk>, f: int, c: Chunk)
    requires cfg.size >= 1 && Settles(cfg, s, acc, f) && s.next <= c.id
    ensures var s' := Opened(cfg, s, c);
            && Account(cfg, s', acc, f) && s'.next !in acc
            && s.next <= s'.next <= c.id < s'.next + cfg.size
            && (forall id :: id in acc ==> id < s'.next + cfg.size)
            && (c.id < s.next + cfg.size ==> s' == s)
  {
    if c.id >= s.next + cfg.size {
      var limit := c.id - cfg.size;
      AccountSkip(cfg, s, acc, f, limit, c);
      AccountFlush(cfg, Skip(cfg, s, limit, c), acc, f);
      assert c.id !in acc;
    }
  }

  /** Later deliveries: the books stay balanced, the window moves just enough to hold the new chunk. */
  lemma {:induction false} DeliveredAccount(cfg: Config, s: State, acc: map<int, Chunk>, f: int, c: Chunk)
    requires cfg.size >= 1 && Settles(cfg, s, acc, f)
    ensures Settles(cfg, Delivered(cfg, s, c), Admit(acc, s, c), f)
    ensures Delivered(cfg, s, c).next >= Max(s.next, c.id - cfg.size + 1)
    ensures c.id < s.next + cfg.size ==>
      forall id :: s.next <= id < Delivered(cfg, s, c).next ==> id in Admit(acc, s, c)
  {
    var s0 := if cfg.reorder then s else s.(written := s.written + [c]);
    if s0.next <= c.id {
      OpenedAccount(cfg, s0, acc, f, c);
      hide Opened, Settled;
      SettledAccount(cfg, Opened(cfg, s0, c), acc, f, c);
    }
  }

  lemma {:induction false} FirstDelivered(cfg: Config, s: State, c: Chunk)
    requires cfg.size >= 1 && s.next == -1 <= c.id && s.pending == map[] && s.regs == []
      && (cfg.reorder ==> s.written == [])
    ensures Settles(cfg, Delivered(cfg, s, c), map[c.id := c], c.id)
    ensures Delivered(cfg, s, c).next == c.id + 1
  {
    var s0 := if cfg.reorder then s else s.(written := s.written + [c]);
    var s1 := s0.(next := c.id);
    var acc: map<int, Chunk> := map[];
    assert Account(cfg, s1, acc, c.id);
    SettledAccount(cfg, s1, acc, c.id, c);
    assert Admit(acc, s1, c) == map[c.id := c];
  }

  // ---------------------------------------------------------------- whole runs

  lemma {:induction false} FirstIdAppend(cs: seq<Chunk>, c: Chunk)
    ensures FirstId(cs + [c]) == if FirstId(cs).Some? then FirstId(cs) else if c.id >= -1 then Some(c.id) else None
    ensures FirstId(cs).Some? ==> FirstId(cs).value >= -1
  {
    if cs == [] {
      assert cs + [c] == [c];
    } else {
      assert (cs + [c])[1..] == cs[1..] + [c];
      FirstIdAppend(cs[1..], c);
    }
  }

  lemma {:induction false} FlushWritesNothing(cfg: Config, s: State)
    requires Keyed(s.pending) && !cfg.reorder
    ensures Flush(cfg, s).written == s.written
    decreases |s.pending|
  {
    if s.next in s.pending {
      RemoveKey(s.pending, s.next);
      FlushWritesNothing(cfg, Play(cfg, s, s.pending[s.next]));
    }
  }

  lemma {:induction false} SkipWritesNothing(cfg: Config, s: State, limit: int, c: Chunk)
    requires Keyed(s.pending) && !cfg.reorder
    ensures Skip(cfg, s, limit, c).written == s.written
    decreases limit + 1 - s.next
  {
    if s.next <= limit {
      var s' := if s.next in s.pending then Play(cfg, s, s.pending[s.next]) else Lose(s, c);
      SkipWritesNothing(cfg, s', limit, c);
    }
  }

  lemma {:induction false} WrittenUnsorted(cfg: Config, s: State, c: Chunk)
    requires Keyed(s.pending) && !cfg.reorder
    ensures Delivered(cfg, s, c).written == s.written + [c]
  {
    var s0 := s.(written := s.written + [c]);
    var s1 := if s0.next == -1 then s0.(next := c.id) else s0;
    SkipWritesNothing(cfg, s1, c.id - cfg.size, c);
    FlushWritesNothing(cfg, Skip(cfg, s1, c.id - cfg.size, c));
    hide Skip, Flush;
    FlushWritesNothing(cfg, Play(cfg, Opened(cfg, s1, c), c));
  }

  /** What the state is after any deliveries at all. */
  lemma {:induction false} RunAccount(cfg: Config, cs: seq<Chunk>)
    requires cfg.size >= 1
    ensures match FirstId(cs)
            case None =>
              Run(cfg, cs) == INITIAL.(written := if cfg.reorder then [] else cs) && Accepted(cfg, cs) == map[]
            case Some(f) => Settles(cfg, Run(cfg, cs), Accepted(cfg, cs), f)
    ensures !cfg.reorder ==> Run(cfg, cs).written == cs
  {
    if cs != [] {
      var (before, c) := (cs[..|cs| - 1], cs[|cs| - 1]);
      assert cs == before + [c];
      FirstIdAppend(before, c);
      RunAccount(cfg, before);
      var (s, acc) := (Run(cfg, before), Accepted(cfg, before));
      if FirstId(before).Some? {
        DeliveredAccount(cfg, s, acc, FirstId(before).value, c);
      } else if c.id >= -1 {
        FirstDelivered(cfg, s, c);
      }
      if !cfg.reorder {
        WrittenUnsorted(cfg, s, c);
      }
    }
  }

  /** A delivered copy is accepted exactly when it is the first one and its id is not behind the window. */
  ghost predicate LetIn(cfg: Config, cs: seq<Chunk>, id: int) {
    exists k :: 0 <= k < |cs| && cs[k].id == id && Run(cfg, cs[..k]).next <= id
  }

  lemma {:induction false} DeliversAppend(cs: seq<Chunk>, c: Chunk, id: int)
    ensures Delivers(cs + [c], id) <==> Delivers(cs, id) || c.id == id
  {
    assert (cs + [c])[|cs|] == c;
    if Delivers(cs, id) {
      var k :| 0 <= k < |cs| && cs[k].id == id;
      assert (cs + [c])[k].id == id;
    }
  }

  lemma {:induction false} LetInAppend(cfg: Config, cs: seq<Chunk>, c: Chunk, id: int)
    ensures LetIn(cfg, cs + [c], id) <==> LetIn(cfg, cs, id) || (c.id == id && Run(cfg, cs).next <= id)
  {
    hide Run;
    var all := cs + [c];
    assert all[|cs|] == c && all[..|cs|] == cs;
    forall k | 0 <= k < |cs|
      ensures all[..k] == cs[..k] && all[k] == cs[k]
    {
    }
    if LetIn(cfg, cs, id) {
      var k :| 0 <= k < |cs| && cs[k].id == id && Run(cfg, cs[..k]).next <= id;
      assert all[k].id == id && Run(cfg, all[..k]).next <= id;
    }
    if LetIn(cfg, all, id) {
      var k :| 0 <= k < |all| && all[k].id == id && Run(cfg, all[..k]).next <= id;
      if k < |cs| {
        assert cs[k].id == id && Run(cfg, cs[..k]).next <= id;
      }
    }
  }

  lemma {:induction false} FirstCopyAppend(cs: seq<Chunk>, c: Chunk, id: int)
    requires Delivers(cs, id) || c.id == id
    ensures Delivers(cs + [c], id)
    ensures FirstCopy(cs + [c], id) == if Delivers(cs, id) then FirstCopy(cs, id) else c
  {
    DeliversAppend(cs, c, id);
    if cs == [] {
      assert cs + [c] == [c];
    } else if cs[0].id != id {
      assert (cs + [c])[1..] == cs[1..] + [c];
      assert cs == [cs[0]] + cs[1..];
      assert Delivers(cs, id) <==> Delivers(cs[1..], id) by {
        assert forall k :: 0 <= k < |cs| - 1 ==> cs[1..][k] == cs[k + 1];
      }
      FirstCopyAppend(cs[1..], c, id);
    }
  }

  /** The window never moves back. */
  lemma {:induction false} NextMonotone(cfg: Config, s: State, c: Chunk)
    requires Keyed(s.pending) && s.next >= -1
    ensures Delivered(cfg, s, c).next >= s.next
  {
  }

  /** Accepted chunks, told by the deliveries alone: an id gets in when some copy of it arrives before the
      window has passed it, and the copy kept is then the first one. What is not in lies behind the window. */
  lemma {:induction false} AcceptedMeaning(cfg: Config, cs: seq<Chunk>, id: int)
    requires cfg.size >= 1
    ensures id in Accepted(cfg, cs) <==> LetIn(cfg, cs, id)
    ensures id in Accepted(cfg, cs) ==> Delivers(cs, id) && Accepted(cfg, cs)[id] == FirstCopy(cs, id)
    ensures id !in Accepted(cfg, cs) && Delivers(cs, id) ==> id < Run(cfg, cs).next
    ensures Run(cfg, cs).next >= -1
  {
    if cs != [] {
      var (before, c) := (cs[..|cs| - 1], cs[|cs| - 1]);
      assert cs == before + [c];
      AcceptedMeaning(cfg, before, id);
      LetInAppend(cfg, before, c, id);
      DeliversAppend(before, c, id);
      NextMonotone(cfg, Run(cfg, before), c);
      hide Delivered, LetIn, Delivers;
      if Delivers(cs, id) {
        FirstCopyAppend(before, c, id);
      }
    }
  }

  // ---------------------------------------------------------------- order and counts

  lemma {:induction false} EmittedMembers(cfg: Config, acc: map<int, Chunk>, lo: int, hi: int)
    requires Keyed(acc)
    ensures forall c :: c in Emitted(cfg, acc, lo, hi) <==>
                        lo <= c.id < hi && c.id in acc && acc[c.id] == c && InRange(cfg, c.id)
    decreases hi - lo
  {
    if lo < hi {
      EmittedMembers(cfg, acc, lo, hi - 1);
    }
  }

  lemma {:induction false} EmittedSorted(cfg: Config, acc: map<int, Chunk>, lo: int, hi: int)
    requires Keyed(acc)
    ensures forall i, j :: 0 <= i < j < |Emitted(cfg, acc, lo, hi)| ==>
                           Emitted(cfg, acc, lo, hi)[i].id < Emitted(cfg, acc, lo, hi)[j].id
    decreases hi - lo
  {
    if lo < hi {
      EmittedSorted(cfg, acc, lo, hi - 1);
      EmittedMembers(cfg, acc, lo, hi - 1);
      var shorter := Emitted(cfg, acc, lo, hi - 1);
      assert forall i :: 0 <= i < |shorter| ==> shorter[i] in shorter && shorter[i].id < hi - 1;
    }
  }

  /** Reordered output is strictly increasing, inside the filter, and made of first copies that were let in;
      conversely every first copy that was let in, passes the filter and lies behind the position was written. */
  lemma {:induction false} WrittenInOrder(cfg: Config, cs: seq<Chunk>)
    requires cfg.size >= 1 && cfg.reorder
    ensures var w := Run(cfg, cs).written;
            && (forall i, j :: 0 <= i < j < |w| ==> w[i].id < w[j].id)
            && forall c :: c in w <==> LetIn(cfg, cs, c.id) && c.id < Run(cfg, cs).next
                                       && (cfg.startId == -1 || cfg.startId <= c.id)
                                       && (cfg.endId == -1 || c.id <= cfg.endId)
                                       && Delivers(cs, c.id) && c == FirstCopy(cs, c.id)
  {
    RunAccount(cfg, cs);
    var (s, acc) := (Run(cfg, cs), Accepted(cfg, cs));
    forall id
      ensures id in acc <==> LetIn(cfg, cs, id)
      ensures id in acc ==> Delivers(cs, id) && acc[id] == FirstCopy(cs, id)
    {
      AcceptedMeaning(cfg, cs, id);
    }
    match FirstId(cs)
    case None =>
      assert forall id :: !LetIn(cfg, cs, id) by { assert forall id :: id !in acc; }
    case Some(f) =>
      EmittedSorted(cfg, acc, f, s.next);
      EmittedMembers(cfg, acc, f, s.next);
  }

  function Played(regs: seq<Registration>): nat {
    if regs == [] then 0 else Played(regs[..|regs| - 1]) + if regs[|regs| - 1].played then 1 else 0
  }

  ghost function Passed(ids: set<int>, lo: int, hi: int): set<int> {
    set id | id in ids && lo <= id < hi
  }

  lemma {:induction false} PlayedCount(regs: seq<Registration>, acc: set<int>, f: int)
    requires forall k :: 0 <= k < |regs| ==> (regs[k].played <==> f + k in acc)
    ensures Played(regs) == |Passed(acc, f, f + |regs|)|
  {
    var n := |regs|;
    if n == 0 {
      assert Passed(acc, f, f + n) == {};
    } else {
      PlayedCount(regs[..n - 1], acc, f);
      var last := if f + n - 1 in acc then {f + n - 1} else {};
      assert Passed(acc, f, f + n) == Passed(acc, f, f + n - 1) + last;
    }
  }

  /** How a loss is registered that makes room for `c`. */
  function LossFor(c: Chunk): Registration {
    Registration(c.id, false, c.timestamp)
  }

  /** From `s` to `r` one id after the other was registered; those given up carry the id and time stamp of `c`, which
      lies at least a whole buffer ahead of them. */
  ghost predicate Extends(cfg: Config, s: State, r: State, c: Chunk) {
    && s.regs <= r.regs && r.next - s.next == |r.regs| - |s.regs|
    && forall k :: |s.regs| <= k < |r.regs| && !r.regs[k].played ==>
         r.regs[k] == LossFor(c) && s.next + (k - |s.regs|) + cfg.size <= c.id
  }

  lemma {:induction false} ExtendsTrans(cfg: Config, s: State, m: State, r: State, c: Chunk)
    requires Extends(cfg, s, m, c) && Extends(cfg, m, r, c)
    ensures Extends(cfg, s, r, c)
  {
    forall k | |s.regs| <= k < |r.regs| && !r.regs[k].played
      ensures r.regs[k] == LossFor(c) && s.next + (k - |s.regs|) + cfg.size <= c.id
    {
      assert k < |m.regs| ==> m.regs[k] == r.regs[k];
    }
  }

  lemma {:induction false} SkipExtends(cfg: Config, s: State, limit: int, c: Chunk)
    requires Keyed(s.pending) && limit + cfg.size <= c.id
    ensures Extends(cfg, s, Skip(cfg, s, limit, c), c)
    decreases limit + 1 - s.next
  {
    if s.next <= limit {
      var m := if s.next in s.pending then Play(cfg, s, s.pending[s.next]) else Lose(s, c);
      SkipExtends(cfg, m, limit, c);
      hide Skip;
      assert Extends(cfg, s, m, c);
      ExtendsTrans(cfg, s, m, Skip(cfg, m, limit, c), c);
      SkipUnfold(cfg, s, limit, c);
    }
  }

  lemma {:induction false} SkipUnfold(cfg: Config, s: State, limit: int, c: Chunk)
    requires Keyed(s.pending) && s.next <= limit
    ensures Skip(cfg, s, limit, c) ==
      Skip(cfg, if s.next in s.pending then Play(cfg, s, s.pending[s.next]) else Lose(s, c), limit, c)
  {
  }

  lemma {:induction false} FlushExtends(cfg: Config, s: State, c: Chunk)
    requires Keyed(s.pending)
    ensures Extends(cfg, s, Flush(cfg, s), c)
    decreases |s.pending|
  {
    if s.next in s.pending {
      var m := Play(cfg, s, s.pending[s.next]);
      RemoveKey(s.pending, s.next);
      FlushExtends(cfg, m, c);
      ExtendsTrans(cfg, s, m, Flush(cfg, m), c);
    }
  }

  lemma {:induction false} OpenedExtends(cfg: Config, s: State, c: Chunk)
    requires Keyed(s.pending)
    ensures Keyed(Opened(cfg, s, c).pending) && Extends(cfg, s, Opened(cfg, s, c), c)
  {
    hide Skip, Flush;
    if c.id >= s.next + cfg.size {
      var m := Skip(cfg, s, c.id - cfg.size, c);
      SkipExtends(cfg, s, c.id - cfg.size, c);
      FlushExtends(cfg, m, c);
      ExtendsTrans(cfg, s, m, Flush(cfg, m), c);
    }
  }

  lemma {:induction false} SettledExtends(cfg: Config, s: State, c: Chunk)
    requires Keyed(s.pending)
    ensures Extends(cfg, s, Settled(cfg, s, c), c)
  {
    hide Flush;
    if c.id == s.next {
      var m := Play(cfg, s, c);
      FlushExtends(cfg, m, c);
      ExtendsTrans(cfg, s, m, Flush(cfg, m), c);
    }
  }

  lemma {:induction false} DeliveredExtends(cfg: Config, s: State, c: Chunk)
    requires Keyed(s.pending) && s.next != -1
    ensures Extends(cfg, s, Delivered(cfg, s, c), c)
  {
    hide Opened, Settled;
    var s0 := if cfg.reorder then s else s.(written := s.written + [c]);
    if s0.next <= c.id {
      OpenedExtends(cfg, s0, c);
      SettledExtends(cfg, Opened(cfg, s0, c), c);
      ExtendsTrans(cfg, s0, Opened(cfg, s0, c), Settled(cfg, Opened(cfg, s0, c), c), c);
    }
  }

  /** Delivery `j` is the one that moved the position past `id`. */
  ghost predicate PassedBy(cfg: Config, cs: seq<Chunk>, id: int, j: nat) {
    j < |cs| && Run(cfg, cs[..j]).next <= id < Run(cfg, cs[..j + 1]).next
  }

  /** If `reg` is a loss, it is the one that a delivery registered while it moved the position past `id`. */
  ghost predicate Carried(cfg: Config, cs: seq<Chunk>, reg: Registration, id: int) {
    reg.played ||
    exists j: nat :: PassedBy(cfg, cs, id, j) && id + cfg.size <= cs[j].id && reg == LossFor(cs[j])
  }

  lemma {:induction false} CarriedLater(cfg: Config, cs: seq<Chunk>, c: Chunk, reg: Registration, id: int)
    requires Carried(cfg, cs, reg, id)
    ensures Carried(cfg, cs + [c], reg, id)
  {
    hide Run;
    if j: nat :| PassedBy(cfg, cs, id, j) && id + cfg.size <= cs[j].id && reg == LossFor(cs[j]) {
      assert cs[..j] == (cs + [c])[..j] && cs[..j + 1] == (cs + [c])[..j + 1];
      assert PassedBy(cfg, cs + [c], id, j);
    }
  }

  lemma {:induction false} CarriedNow(cfg: Config, cs: seq<Chunk>, c: Chunk, id: int)
    requires Run(cfg, cs).next <= id < Run(cfg, cs + [c]).next && id + cfg.size <= c.id
    ensures Carried(cfg, cs + [c], LossFor(c), id)
  {
    hide Run;
    var all := cs + [c];
    assert all[..|cs|] == cs && all[..|cs| + 1] == all;
    assert PassedBy(cfg, all, id, |cs|);
  }

  lemma {:induction false} RunPush(cfg: Config, cs: seq<Chunk>, c: Chunk)
    ensures Run(cfg, cs + [c]) == Delivered(cfg, Run(cfg, cs), c)
  {
    assert (cs + [c])[..|cs|] == cs;
  }

  lemma {:induction false} RunShape(cfg: Config, cs: seq<Chunk>)
    requires cfg.size >= 1
    ensures var s := Run(cfg, cs);
            match FirstId(cs)
            case None => s.next == -1 && s.pending == map[] && s.regs == [] && (cfg.reorder ==> s.written == [])
            case Some(f) => 0 <= s.next && |s.regs| == s.next - f
  {
    RunAccount(cfg, cs);
  }

  lemma {:induction false} ExtendsRegs(cfg: Config, s: State, r: State, c: Chunk)
    requires Extends(cfg, s, r, c)
    ensures s.regs <= r.regs && r.next - s.next == |r.regs| - |s.regs|
    ensures forall k :: |s.regs| <= k < |r.regs| && !r.regs[k].played ==>
      r.regs[k] == LossFor(c) && s.next + (k - |s.regs|) + cfg.size <= c.id
  {
  }

  lemma {:induction false} CarriedStep(cfg: Config, before: seq<Chunk>, c: Chunk, f: int, id: int)
    requires var (s, r) := (Run(cfg, before), Run(cfg, before + [c]));
             && s.next != -1 && |s.regs| == s.next - f && f <= id < r.next
             && (id < s.next ==> Carried(cfg, before, s.regs[id - f], id))
    ensures var r := Run(cfg, before + [c]);
            |r.regs| == r.next - f && Carried(cfg, before + [c], r.regs[id - f], id)
  {
    hide *;
    var s := Run(cfg, before);
    RunPush(cfg, before, c);
    DeliveredExtends(cfg, s, c);
    var r := Delivered(cfg, s, c);
    ExtendsRegs(cfg, s, r, c);
    if id < s.next {
      CarriedLater(cfg, before, c, s.regs[id - f], id);
    } else if r.regs[id - f].played {
      PlayedCarried(cfg, before + [c], r.regs[id - f], id);
    } else {
      CarriedNow(cfg, before, c, id);
    }
  }

  lemma {:induction false} SomeFirst(cs: seq<Chunk>)
    requires FirstId(cs).Some?
    ensures cs != []
  {
  }

  /** An id given up is registered under the id of the delivery that moved the position past it. */
  lemma {:induction false} LossCarrier(cfg: Config, cs: seq<Chunk>, id: int)
    requires cfg.size >= 1 && FirstId(cs).Some? && FirstId(cs).value <= id < Run(cfg, cs).next
    ensures var (s, f) := (Run(cfg, cs), FirstId(cs).value);
            |s.regs| == s.next - f && Carried(cfg, cs, s.regs[id - f], id)
  {
    hide *;
    SomeFirst(cs);
    var (before, c) := (cs[..|cs| - 1], cs[|cs| - 1]);
    var (s, f) := (Run(cfg, before), FirstId(cs).value);
    assert cs == before + [c];
    RunShape(cfg, before);
    FirstIdAppend(before, c);
    if FirstId(before).None? {
      RunPush(cfg, before, c);
      FirstPlayed(cfg, s, c);
      PlayedCarried(cfg, cs, Delivered(cfg, s, c).regs[0], id);
    } else {
      if id < s.next {
        LossCarrier(cfg, before, id);
      }
      CarriedStep(cfg, before, c, f, id);
    }
  }

  lemma {:induction false} PlayedCarried(cfg: Config, cs: seq<Chunk>, reg: Registration, id: int)
    requires reg.played
    ensures Carried(cfg, cs, reg, id)
  {
  }

  lemma {:induction false} FirstPlayed(cfg: Config, s: State, c: Chunk)
    requires cfg.size >= 1 && s.next == -1 <= c.id && s.pending == map[] && s.regs == []
      && (cfg.reorder ==> s.written == [])
    ensures Delivered(cfg, s, c).next == c.id + 1
    ensures |Delivered(cfg, s, c).regs| == 1 && Delivered(cfg, s, c).regs[0].played
  {
    FirstDelivered(cfg, s, c);
    hide Delivered;
    assert c.id in map[c.id := c];
  }

  /** Playout accounting. Every id from the first one up to the position is registered once, in order: under itself
      exactly when it was let in, and else, as a loss, under the id of a chunk at least a whole buffer ahead. The
      positive registrations are as many as the distinct ids let in and passed. */
  lemma {:induction false} PlayoutAccounting(cfg: Config, cs: seq<Chunk>)
    requires cfg.size >= 1 && FirstId(cs).Some?
    ensures var (s, f) := (Run(cfg, cs), FirstId(cs).value);
            && |s.regs| == s.next - f
            && (forall id :: f <= id < s.next ==> (s.regs[id - f].played <==> LetIn(cfg, cs, id)))
            && (forall id :: f <= id < s.next ==> (s.regs[id - f].id == id <==> LetIn(cfg, cs, id)))
            && (forall id :: f <= id < s.next && !LetIn(cfg, cs, id) ==> id + cfg.size <= s.regs[id - f].id)
            && Played(s.regs) == |Passed(Accepted(cfg, cs).Keys, f, s.next)|
  {
    hide Run, Accepted, LetIn, Delivers, FirstId;
    RunAccount(cfg, cs);
    var (s, acc, f) := (Run(cfg, cs), Accepted(cfg, cs), FirstId(cs).value);
    forall id | f <= id < s.next
      ensures s.regs[id - f].played <==> LetIn(cfg, cs, id)
      ensures s.regs[id - f].id == id <==> LetIn(cfg, cs, id)
      ensures !LetIn(cfg, cs, id) ==> id + cfg.size <= s.regs[id - f].id
    {
      AcceptedMeaning(cfg, cs, id);
      LossCarrier(cfg, cs, id);
      assert f + (id - f) == id;
    }
    PlayedCount(s.regs, acc.Keys, f);
  }

  /** With room for one chunk, ids 0 and 2 register id 2 twice: once for the loss of 1, once for itself. */
  lemma {:induction false} LossUnderOtherId(cfg: Config, a: Chunk, c: Chunk)
    requires cfg.size == 1 && a.id == 0 && c.id == 2
    ensures Run(cfg, [a, c]).regs ==
      [Registration(0, true, a.timestamp), Registration(2, false, c.timestamp), Registration(2, true, c.timestamp)]
  {
    assert [a, c][..1] == [a] && [a][..0] == [];
    var s := Delivered(cfg, INITIAL, a);
    assert s.next == 1 && s.pending == map[] && s.regs == [Registration(0, true, a.timestamp)];
    assert Run(cfg, [a]) == s;
    var t := if cfg.reorder then s else s.(written := s.written + [c]);
    var m := Lose(t, c);
    assert Skip(cfg, m, 1, c) == m;
    assert Skip(cfg, t, 1, c) == m;
    assert Opened(cfg, t, c) == m;
  }

  // ---------------------------------------------------------------- what is announced

  /** The last id played inside the filter, -1 if there is none. */
  function LastOut(cfg: Config, regs: seq<Registration>): int {
    if regs == [] then -1
    else
      var r := regs[|regs| - 1];
      if r.played && (cfg.startId == -1 || cfg.startId <= r.id) && (cfg.endId == -1 || r.id <= cfg.endId) then r.id
      else LastOut(cfg, regs[..|regs| - 1])
  }

  /** Registration `k` plays an id inside the filter. */
  ghost predicate Inside(cfg: Config, regs: seq<Registration>, k: nat) {
    && k < |regs| && regs[k].played
    && (cfg.startId == -1 || cfg.startId <= regs[k].id) && (cfg.endId == -1 || regs[k].id <= cfg.endId)
  }

  /** Registration `k` plays an id past the end of the filter when something was already out. */
  ghost predicate Ends(cfg: Config, regs: seq<Registration>, k: nat) {
    && k < |regs| && regs[k].played
    && (cfg.startId == -1 || cfg.startId <= regs[k].id) && cfg.endId != -1 && cfg.endId < regs[k].id
    && LastOut(cfg, regs[..k]) != -1
  }

  /** The first id is announced once something inside the filter was played, the last one once something past it was. */
  ghost predicate Announced(cfg: Config, s: State) {
    && s.last == LastOut(cfg, s.regs)
    && (s.sflag <==> exists k: nat :: Inside(cfg, s.regs, k))
    && (s.eflag <==> exists k: nat :: Ends(cfg, s.regs, k))
  }

  lemma {:induction false} AnnouncedPush(cfg: Config, regs: seq<Registration>, r: Registration)
    ensures forall k: nat :: k < |regs| ==>
      (Inside(cfg, regs + [r], k) <==> Inside(cfg, regs, k)) && (Ends(cfg, regs + [r], k) <==> Ends(cfg, regs, k))
    ensures Inside(cfg, regs + [r], |regs|) <==>
      r.played && (cfg.startId == -1 || cfg.startId <= r.id) && (cfg.endId == -1 || r.id <= cfg.endId)
    ensures Ends(cfg, regs + [r], |regs|) <==>
      r.played && (cfg.startId == -1 || cfg.startId <= r.id) && cfg.endId != -1 && cfg.endId < r.id
      && LastOut(cfg, regs) != -1
    ensures LastOut(cfg, regs + [r]) == if Inside(cfg, regs + [r], |regs|) then r.id else LastOut(cfg, regs)
  {
    assert (regs + [r])[..|regs|] == regs;
    assert forall k: nat :: k < |regs| ==> (regs + [r])[..k] == regs[..k];
  }

  lemma {:induction false} AnnouncedPlay(cfg: Config, s: State, c: Chunk)
    requires Announced(cfg, s)
    ensures Announced(cfg, Play(cfg, s, c))
  {
    hide LastOut, Inside, Ends;
    AnnouncedPush(cfg, s.regs, Registration(c.id, true, c.timestamp));
    AnnouncedMore(cfg, s.regs, Registration(c.id, true, c.timestamp));
  }

  lemma {:induction false} AnnouncedMore(cfg: Config, regs: seq<Registration>, r: Registration)
    ensures (exists k: nat :: Inside(cfg, regs + [r], k)) <==>
      (exists k: nat :: Inside(cfg, regs, k)) || Inside(cfg, regs + [r], |regs|)
    ensures (exists k: nat :: Ends(cfg, regs + [r], k)) <==>
      (exists k: nat :: Ends(cfg, regs, k)) || Ends(cfg, regs + [r], |regs|)
  {
    hide LastOut;
    AnnouncedPush(cfg, regs, r);
    var all := regs + [r];
    if k: nat :| Inside(cfg, all, k) {
      assert k < |regs| ==> Inside(cfg, regs, k);
    }
    if k: nat :| Ends(cfg, all, k) {
      assert k < |regs| ==> Ends(cfg, regs, k);
    }
    if k: nat :| Inside(cfg, regs, k) {
      assert Inside(cfg, all, k);
    }
    if k: nat :| Ends(cfg, regs, k) {
      assert Ends(cfg, all, k);
    }
  }

  lemma {:induction false} AnnouncedLose(cfg: Config, s: State, c: Chunk)
    requires Announced(cfg, s)
    ensures Announced(cfg, Lose(s, c))
  {
    hide LastOut, Inside, Ends;
    AnnouncedPush(cfg, s.regs, LossFor(c));
    AnnouncedMore(cfg, s.regs, LossFor(c));
  }

  lemma {:induction false} AnnouncedSkip(cfg: Config, s: State, limit: int, c: Chunk)
    requires Keyed(s.pending) && Announced(cfg, s)
    ensures Announced(cfg, Skip(cfg, s, limit, c))
    decreases limit + 1 - s.next
  {
    hide Announced;
    if s.next <= limit {
      if s.next in s.pending {
        AnnouncedPlay(cfg, s, s.pending[s.next]);
        AnnouncedSkip(cfg, Play(cfg, s, s.pending[s.next]), limit, c);
      } else {
        AnnouncedLose(cfg, s, c);
        AnnouncedSkip(cfg, Lose(s, c), limit, c);
      }
    }
  }

  lemma {:induction false} AnnouncedFlush(cfg: Config, s: State)
    requires Keyed(s.pending) && Announced(cfg, s)
    ensures Announced(cfg, Flush(cfg, s))
    decreases |s.pending|
  {
    hide Announced;
    if s.next in s.pending {
      RemoveKey(s.pending, s.next);
      AnnouncedPlay(cfg, s, s.pending[s.next]);
      AnnouncedFlush(cfg, Play(cfg, s, s.pending[s.next]));
    }
  }

  lemma {:induction false} AnnouncedDelivered(cfg: Config, s: State, c: Chunk)
    requires Keyed(s.pending) && Announced(cfg, s)
    ensures Announced(cfg, Delivered(cfg, s, c))
  {
    hide Skip, Flush, LastOut, Inside, Ends;
    var s0 := if cfg.reorder then s else s.(written := s.written + [c]);
    if s0.next <= c.id {
      var s1 := if s0.next == -1 then s0.(next := c.id) else s0;
      var s2 := Opened(cfg, s1, c);
      if c.id >= s1.next + cfg.size {
        AnnouncedSkip(cfg, s1, c.id - cfg.size, c);
        AnnouncedFlush(cfg, Skip(cfg, s1, c.id - cfg.size, c));
      }
      if c.id == s2.next {
        AnnouncedPlay(cfg, s2, c);
        AnnouncedFlush(cfg, Play(cfg, s2, c));
      }
    }
  }

  /** Over every run the announcements and the last id played out follow from what was played. */
  lemma {:induction false} RunAnnounced(cfg: Config, cs: seq<Chunk>)
    ensures var s := Run(cfg, cs);
            && s.last == LastOut(cfg, s.regs)
            && (s.sflag <==> exists k: nat :: Inside(cfg, s.regs, k))
            && (s.eflag <==> exists k: nat :: Ends(cfg, s.regs, k))
  {
    RunKeepsAnnounced(cfg, cs);
  }

  lemma {:induction false} RunKeepsAnnounced(cfg: Config, cs: seq<Chunk>)
    ensures Announced(cfg, Run(cfg, cs))
  {
    hide Delivered, Announced;
    if cs == [] {
      NothingAnnounced(cfg);
    } else {
      RunKeepsAnnounced(cfg, cs[..|cs| - 1]);
      AnnouncedDelivered(cfg, Run(cfg, cs[..|cs| - 1]), cs[|cs| - 1]);
    }
  }

  lemma {:induction false} SkipCounts(cfg: Config, s: State, limit: int, c: Chunk)
    requires Keyed(s.pending)
    ensures var r := Skip(cfg, s, limit, c);
            r.duplicates == s.duplicates && forall id :: id in r.pending ==> id in s.pending
    decreases limit + 1 - s.next
  {
    if s.next <= limit {
      SkipCounts(cfg, if s.next in s.pending then Play(cfg, s, s.pending[s.next]) else Lose(s, c), limit, c);
    }
  }

  lemma {:induction false} FlushCounts(cfg: Config, s: State)
    requires Keyed(s.pending)
    ensures Flush(cfg, s).duplicates == s.duplicates && forall id :: id in Flush(cfg, s).pending ==> id in s.pending
    decreases |s.pending|
  {
    if s.next in s.pending {
      RemoveKey(s.pending, s.next);
      FlushCounts(cfg, Play(cfg, s, s.pending[s.next]));
    }
  }

  lemma {:induction false} DuplicateCounted(cfg: Config, s: State, c: Chunk)
    requires Keyed(s.pending) && (s.next == -1 ==> s.pending == map[])
    requires forall id :: id in s.pending ==> s.next < id < s.next + cfg.size
    ensures Delivered(cfg, s, c).duplicates == s.duplicates + if c.id in s.pending then 1 else 0
  {
    hide Skip, Flush;
    var s0 := if cfg.reorder then s else s.(written := s.written + [c]);
    if s0.next <= c.id {
      var s1 := if s0.next == -1 then s0.(next := c.id) else s0;
      var s2 := Opened(cfg, s1, c);
      if c.id >= s1.next + cfg.size {
        SkipCounts(cfg, s1, c.id - cfg.size, c);
        FlushCounts(cfg, Skip(cfg, s1, c.id - cfg.size, c));
      }
      if c.id == s2.next {
        FlushCounts(cfg, Play(cfg, s2, c));
      }
    }
  }

  /** The deliveries whose id was already waiting in the ring. */
  function Repeats(cfg: Config, cs: seq<Chunk>): nat {
    if cs == [] then 0
    else Repeats(cfg, cs[..|cs| - 1]) + if cs[|cs| - 1].id in Run(cfg, cs[..|cs| - 1]).pending then 1 else 0
  }

  /** Over every run exactly those are counted as duplicates. */
  lemma {:induction false} RunDuplicates(cfg: Config, cs: seq<Chunk>)
    requires cfg.size >= 1
    ensures Run(cfg, cs).duplicates == Repeats(cfg, cs)
  {
    hide Delivered, Accepted, FirstId;
    if cs != [] {
      var before := cs[..|cs| - 1];
      RunDuplicates(cfg, before);
      RunAccount(cfg, before);
      DuplicateCounted(cfg, Run(cfg, before), cs[|cs| - 1]);
    }
  }

  lemma {:induction false} NothingAnnounced(cfg: Config)
    ensures Announced(cfg, INITIAL)
  {
  }

  // ---------------------------------------------------------------- when the stream comes out sorted

  /** No chunk arrives so far ahead that it pushes out an id still to come. */
  ghost predicate Timely(cfg: Config, cs: seq<Chunk>) {
    forall i, j :: 0 <= i < |cs| && 0 <= j < |cs| && cs[i].id + cfg.size <= cs[j].id ==> Delivers(cs[..j], cs[i].id)
  }

  /** The deliveries start with `f` and cover exactly f..g, in any order and with any repetitions. */
  ghost predicate Covers(cs: seq<Chunk>, f: int, g: int) {
    && |cs| > 0 && cs[0].id == f >= 0
    && (forall i :: 0 <= i < |cs| ==> f <= cs[i].id <= g)
    && (forall id :: f <= id <= g ==> Delivers(cs, id))
  }

  /** The first copies of the ids lo..hi, in order. */
  function FirstCopies(cs: seq<Chunk>, lo: int, hi: int): (r: seq<Chunk>)
    requires forall id :: lo <= id <= hi ==> Delivers(cs, id)
    ensures |r| == Max(0, hi - lo + 1) && forall k :: 0 <= k < |r| ==> r[k].id == lo + k
    decreases hi - lo + 1
  {
    if hi < lo then [] else FirstCopies(cs, lo, hi - 1) + [FirstCopy(cs, hi)]
  }

  lemma {:induction false} NextGrows(cfg: Config, cs: seq<Chunk>, a: nat, b: nat)
    requires cfg.size >= 1 && a <= b <= |cs|
    ensures Run(cfg, cs[..a]).next <= Run(cfg, cs[..b]).next
    decreases b
  {
    if a < b {
      NextGrows(cfg, cs, a, b - 1);
      assert cs[..b][..b - 1] == cs[..b - 1];
      AcceptedMeaning(cfg, cs[..b - 1], 0);
      NextMonotone(cfg, Run(cfg, cs[..b - 1]), cs[b - 1]);
    }
  }

  lemma {:induction false} DeliversAt(cs: seq<Chunk>, k: nat)
    requires k < |cs|
    ensures Delivers(cs, cs[k].id)
  {
  }

  lemma {:induction false} DeliveredInRange(cs: seq<Chunk>, f: int, g: int, id: int)
    requires Covers(cs, f, g) && Delivers(cs, id)
    ensures f <= id <= g
  {
  }

  lemma {:induction false} TimelyArrival(cfg: Config, cs: seq<Chunk>, f: int, g: int, n: nat, id: int)
    requires Covers(cs, f, g) && Timely(cfg, cs) && n < |cs| && f <= id && id + cfg.size <= cs[n].id
    ensures Delivers(cs[..n], id)
  {
    assert Delivers(cs, id);
  }

  /** Nothing was lost so far: all ids passed were accepted, all ids delivered were accepted. */
  ghost predicate Full(cfg: Config, cs: seq<Chunk>, f: int) {
    && (forall id :: f <= id < Run(cfg, cs).next ==> id in Accepted(cfg, cs))
    && (forall id :: Delivers(cs, id) ==> id in Accepted(cfg, cs))
  }

  lemma {:induction false} FullStep(cfg: Config, cs: seq<Chunk>, c: Chunk, f: int)
    requires cfg.size >= 1 && Settles(cfg, Run(cfg, cs), Accepted(cfg, cs), f)
    requires Full(cfg, cs, f) && f <= c.id && (Run(cfg, cs).next + cfg.size <= c.id ==> Delivers(cs, Run(cfg, cs).next))
    ensures Full(cfg, cs + [c], f)
  {
    assert (cs + [c])[..|cs|] == cs;
    DeliveredAccount(cfg, Run(cfg, cs), Accepted(cfg, cs), f, c);
    hide Delivered, Delivers;
    forall id | Delivers(cs + [c], id)
      ensures id in Accepted(cfg, cs + [c])
    {
      DeliversAppend(cs, c, id);
    }
  }

  lemma {:induction false} FullStart(cfg: Config, c: Chunk)
    requires cfg.size >= 1 && c.id >= 0
    ensures FirstId([c]) == Some(c.id) && Full(cfg, [c], c.id)
  {
    assert [c][..0] == [];
    FirstDelivered(cfg, INITIAL, c);
  }

  lemma {:induction false} TimelyFull(cfg: Config, cs: seq<Chunk>, f: int, g: int, n: nat)
    requires cfg.size >= 1 && Covers(cs, f, g) && Timely(cfg, cs) && 1 <= n <= |cs|
    ensures FirstId(cs[..n]) == Some(f) && Full(cfg, cs[..n], f)
    decreases n
  {
    hide Run, Accepted, Delivers, Timely;
    var (before, c) := (cs[..n - 1], cs[n - 1]);
    assert cs[..n] == before + [c];
    if n == 1 {
      assert cs[..1] == [c];
      FullStart(cfg, c);
    } else {
      TimelyFull(cfg, cs, f, g, n - 1);
      FirstIdAppend(before, c);
      RunAccount(cfg, before);
      var next := Run(cfg, before).next;
      if next + cfg.size <= c.id {
        TimelyArrival(cfg, cs, f, g, n - 1, next);
      }
      FullStep(cfg, before, c, f);
    }
  }

  lemma {:induction false} EmittedAll(cfg: Config, cs: seq<Chunk>, acc: map<int, Chunk>, lo: int, hi: int)
    requires lo <= hi && forall id :: lo <= id < hi ==> Delivers(cs, id)
    requires forall id :: lo <= id < hi ==> id in acc && InRange(cfg, id) && acc[id] == FirstCopy(cs, id)
    ensures Emitted(cfg, acc, lo, hi) == FirstCopies(cs, lo, hi - 1)
    decreases hi - lo
  {
    if lo < hi {
      EmittedAll(cfg, cs, acc, lo, hi - 1);
    }
  }

  /** Without losses: everything f..g is played, nothing is left behind. */
  lemma {:induction false} TimelySorted(cfg: Config, cs: seq<Chunk>, f: int, g: int)
    requires cfg.size >= 1 && cfg.reorder && cfg.startId == cfg.endId == -1 && Covers(cs, f, g) && Timely(cfg, cs)
    ensures Run(cfg, cs).written == FirstCopies(cs, f, g)
    ensures Run(cfg, cs).next == g + 1 && Run(cfg, cs).pending == map[]
    ensures |Run(cfg, cs).regs| == g - f + 1 && forall r :: r in Run(cfg, cs).regs ==> r.played
  {
    hide Run, Accepted, LetIn, FirstId, Delivers;
    assert cs[..|cs|] == cs;
    TimelyFull(cfg, cs, f, g, |cs|);
    RunAccount(cfg, cs);
    var (s, acc) := (Run(cfg, cs), Accepted(cfg, cs));
    forall id | id in acc
      ensures f <= id <= g && acc[id] == FirstCopy(cs, id)
    {
      AcceptedMeaning(cfg, cs, id);
      DeliveredInRange(cs, f, g, id);
    }
    assert s.next == g + 1 by {
      assert g + 1 !in acc;
      assert s.next >= g + 1 by {
        assert s.next <= g ==> Delivers(cs, s.next);
      }
    }
    EmittedAll(cfg, cs, acc, f, g + 1);
  }

  /** The written stream is the sorted stream exactly when the deliveries are timely. */
  lemma {:induction false} SortedIffTimely(cfg: Config, cs: seq<Chunk>, f: int, g: int)
    requires cfg.size >= 1 && cfg.reorder && cfg.startId == cfg.endId == -1
    requires cs != [] && cs[0].id == f && 0 <= f && (forall k :: 0 <= k < |cs| ==> f <= cs[k].id <= g)
    requires forall id :: f <= id <= g ==> Delivers(cs, id)
    ensures Run(cfg, cs).written == FirstCopies(cs, f, g) <==> Timely(cfg, cs)
  {
    if Timely(cfg, cs) {
      TimelySorted(cfg, cs, f, g);
    }
    if Run(cfg, cs).written == FirstCopies(cs, f, g) {
      forall i, j | 0 <= i < |cs| && 0 <= j < |cs| && cs[i].id + cfg.size <= cs[j].id
        ensures Delivers(cs[..j], cs[i].id)
      {
        SortedNeedsTime(cfg, cs, f, g, i, j);
      }
    }
  }

  lemma {:induction false} SortedNeedsTime(cfg: Config, cs: seq<Chunk>, f: int, g: int, i: nat, j: nat)
    requires cfg.size >= 1 && cfg.reorder && Covers(cs, f, g)
    requires Run(cfg, cs).written == FirstCopies(cs, f, g)
    requires i < |cs| && j < |cs| && cs[i].id + cfg.size <= cs[j].id
    ensures Delivers(cs[..j], cs[i].id)
  {
    hide Run, FirstCopies, Delivers;
    var id := cs[i].id;
    var copy := FirstCopies(cs, f, g)[id - f];
    assert copy in Run(cfg, cs).written;
    WrittenInOrder(cfg, cs);
    var k :| 0 <= k < |cs| && cs[k].id == id && Run(cfg, cs[..k]).next <= id;
    PassedAfter(cfg, cs, j);
    if j < k {
      NextGrows(cfg, cs, j + 1, k);
    }
    DeliversAt(cs[..j], k);
  }

  /** Once a chunk has been delivered, ids a whole buffer older are behind the window. */
  lemma {:induction false} PassedAfter(cfg: Config, cs: seq<Chunk>, j: nat)
    requires cfg.size >= 1 && j < |cs| && cs[j].id >= -1
    ensures Run(cfg, cs[..j + 1]).next > cs[j].id - cfg.size
  {
    var before := cs[..j];
    assert cs[..j + 1] == before + [cs[j]];
    assert cs[..j + 1][..j] == before;
    RunAccount(cfg, before);
    var s := Run(cfg, before);
    if FirstId(before).Some? {
      DeliveredAccount(cfg, s, Accepted(cfg, before), FirstId(before).value, cs[j]);
    } else {
      FirstDelivered(cfg, s, cs[j]);
    }
  }
}
