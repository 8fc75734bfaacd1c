/** The selection of update_peers carried out on work arrays with the bounded set operations (topology.c). */
module SelectionArrays {
  import opened Common
  import opened NodeIdSet
  import opened Selection

  lemma {:induction false} FitsAll<T>(now: seq<T>, before: seq<T>, all: seq<T>, cap: nat, n: nat, r: int)
    requires Fitted(now, before, 0, all, cap, n, r) && |all| <= cap
    ensures n == |all| && n <= |now| && now[..n] == all && r == 0
  {
  }

  method Arrange(a: array<NodeId>, n: nat, best: bool, ch: Chance)
    requires n <= a.Length && ch.Sound()
    modifies a
    ensures a[..n] == ch.Arrange(old(a[..n]), best) && a[n..] == old(a[n..])
  {
    ghost var s := a[..n];
    if best {
      var t := ch.sorted(a[..n]);
      PermutationKeeps(s, t);
      forall k | 0 <= k < n {
        a[k] := t[k];
      }
      assert a[..n] == t;
    } else {
      Shuffle(a, n, ch.rands(n), ch.randMax);
    }
  }

  /** A fresh work array of `cap` entries that receives a union. */
  method NewUnion(cap: nat, as': array<NodeId>, asSize: nat, bs: array<NodeId>, bsSize: nat)
    returns (dst: array<NodeId>, n: nat, r: int)
    requires asSize <= as'.Length && bsSize <= bs.Length && |Union(as'[..asSize], bs[..bsSize])| <= cap
    ensures fresh(dst) && n <= dst.Length == cap && dst[..n] == Union(as'[..asSize], bs[..bsSize]) && r == 0
  {
    dst := new NodeId[cap];
    ghost var before := dst[..];
    n, r := NidsetAdd(dst, cap, as', asSize, bs, bsSize);
    FitsAll(dst[..], before, Union(as'[..asSize], bs[..bsSize]), cap, n, r);
  }

  method NewComplement(cap: nat, bs: array<NodeId>, bsSize: nat, as': array<NodeId>, asSize: nat)
    returns (dst: array<NodeId>, n: nat, r: int)
    requires asSize <= as'.Length && bsSize <= bs.Length && |Minus(bs[..bsSize], as'[..asSize])| <= cap
    ensures fresh(dst) && n <= dst.Length == cap && dst[..n] == Minus(bs[..bsSize], as'[..asSize]) && r == 0
  {
    dst := new NodeId[cap];
    ghost var before := dst[..];
    n, r := NidsetComplement(dst, 0, cap, bs, bsSize, as', asSize);
    FitsAll(dst[..], before, Minus(bs[..bsSize], as'[..asSize]), cap, n, r);
  }

  method NewFilter(cap: nat, src: array<NodeId>, srcSize: nat, f: NodeId -> bool)
    returns (dst: array<NodeId>, n: nat, r: int)
    requires srcSize <= src.Length && |Filter(f, src[..srcSize])| <= cap
    ensures fresh(dst) && n <= dst.Length == cap && dst[..n] == Filter(f, src[..srcSize]) && r == 0
  {
    dst := new NodeId[cap];
    ghost var before := dst[..];
    n, r := NidsetFilter(dst, cap, src, srcSize, f);
    FitsAll(dst[..], before, Filter(f, src[..srcSize]), cap, n, r);
  }

  method Extend(dst: array<NodeId>, size: nat, cap: nat, as': array<NodeId>, asSize: nat) returns (n: nat, r: int)
    requires dst != as' && size <= cap <= dst.Length && asSize <= as'.Length
    requires |Union(dst[..size], as'[..asSize])| <= cap
    modifies dst
    ensures n <= dst.Length && dst[..n] == Union(old(dst[..size]), as'[..asSize]) && r == 0
  {
    ghost var (before, all) := (dst[..], Union(dst[..size], as'[..asSize]));
    n, r := NidsetAddI(dst, size, cap, as', asSize);
    FitsAll(dst[..], before, all, Max(size, cap), n, r);
  }

  /** The first lists of a step are what the code builds, and fit. */
  ghost predicate FrontLists(cfg: Config, news: seq<NodeId>, desired: NodeId -> bool, ch: seq<Chance>, maxIds: nat,
                             st: Step)
    requires Ready(cfg, ch)
  {
    && |st.known| <= maxIds && |st.kept| <= maxIds && |st.candidates| <= maxIds
    && st.kept == Fit(st.olds, KeepSize(cfg, |st.olds|)) && |st.kept| == KeepSize(cfg, |st.olds|)
    && st.known == Union(st.olds, news) && st.candidates == Minus(st.known, st.kept)
    && st.desireds == ch[1].Arrange(Filter(desired, st.candidates), cfg.addBest)
  }

  /** So are the last ones. */
  ghost predicate BackLists(cfg: Config, ch: seq<Chance>, maxIds: nat, st: Step)
    requires Ready(cfg, ch)
  {
    && st.preferred == Union(st.kept, Fit(st.desireds, DesiredPart(cfg, |st.kept|)))
    && st.others == ch[2].Arrange(Minus(st.candidates, st.preferred), false)
    && st.selected == Union(st.preferred, Fit(st.others, Room(cfg, |st.preferred|, |st.others|)))
    && |st.preferred| <= maxIds && |Minus(st.candidates, st.preferred)| <= maxIds && |st.selected| <= maxIds
  }

  lemma {:induction false} ChooseLists(cfg: Config, olds: seq<NodeId>, news: seq<NodeId>, desired: NodeId -> bool,
                                       ch: seq<Chance>, maxIds: nat)
    requires Ready(cfg, ch) && Distinct(olds) && Distinct(news) && |olds| + |news| <= maxIds
    ensures var st := Choose(cfg, olds, news, desired, ch);
            && FrontLists(cfg, news, desired, ch, maxIds, st) && BackLists(cfg, ch, maxIds, st)
            && st.olds == ch[0].Arrange(olds, cfg.keepBest) && |st.olds| == |olds|
  {
    SelectionSize(cfg, olds, news, desired, ch);
    ChooseBuilt(cfg, olds, news, desired, ch);
    hide Choose, Distinct, Union, Minus, Filter, Fit, KeepSize, DesiredPart, Chance.Arrange, FinalSize, Room;
    var st := Choose(cfg, olds, news, desired, ch);
    assert |Minus(st.candidates, st.preferred)| <= |st.candidates|;
  }

  /** The front half, lines 378-393: known peers, candidates and desired candidates. */
  method Candidates(cfg: Config, oldids: array<NodeId>, oldSize: nat, newids: array<NodeId>, newSize: nat,
                    maxIds: nat, desired: NodeId -> bool, ch: seq<Chance>, ghost news: seq<NodeId>, ghost st: Step)
    returns (selecteds: array<NodeId>, keep: nat, candidates: array<NodeId>, cands: nat,
             desireds: array<NodeId>, des: nat, failed: bool)
    requires Ready(cfg, ch) && oldSize <= oldids.Length && newSize <= newids.Length
    requires oldids[..oldSize] == st.olds && newids[..newSize] == news
    requires FrontLists(cfg, news, desired, ch, maxIds, st)
    ensures fresh(selecteds) && fresh(candidates) && fresh(desireds)
    ensures selecteds != candidates && selecteds != desireds && desireds != candidates
    ensures selecteds.Length == maxIds && keep <= maxIds && selecteds[..keep] == st.kept
    ensures cands <= candidates.Length && candidates[..cands] == st.candidates
    ensures des <= desireds.Length && desireds[..des] == st.desireds
    ensures !failed
  {
    hide Union, Minus, Filter, Fit, KeepSize, Chance.Arrange, Chance.Sound, Distinct;
    keep := KeepSize(cfg, oldSize);
    selecteds := new NodeId[maxIds];
    FitSize(st.olds, keep);
    forall k | 0 <= k < keep {
      selecteds[k] := oldids[k];
    }
    assert selecteds[..keep] == oldids[..oldSize][..keep] == st.kept;
    assert oldids[..oldSize] == st.olds;
    assert newids[..newSize] == news;
    var nodeids, known, r1 := NewUnion(maxIds, oldids, oldSize, newids, newSize);
    assert nodeids[..known] == st.known;
    assert selecteds[..keep] == st.kept;
    var r2, r3;
    candidates, cands, r2 := NewComplement(maxIds, nodeids, known, selecteds, keep);
    desireds, des, r3 := NewFilter(maxIds, candidates, cands, desired);
    Arrange(desireds, des, cfg.addBest, ch[1]);
    failed := r1 != 0 || r2 != 0 || r3 != 0;
  }

  lemma {:induction false} FitSize<T>(s: seq<T>, k: nat)
    requires |Fit(s, k)| == k
    ensures k <= |s| && Fit(s, k) == s[..k]
  {
  }

  lemma {:induction false} ReadyParts(cfg: Config, ch: seq<Chance>)
    requires Ready(cfg, ch)
    ensures |ch| == 3 && ch[0].Sound() && ch[1].Sound() && ch[2].Sound()
  {
  }

  /** The list work of one step, lines 372-401: `selecteds` ends as the chosen list; `failed` tells that a set operation
      reported an error, which no caller looks at. */
  method SelectPeers(cfg: Config, oldids: array<NodeId>, oldSize: nat, newids: array<NodeId>, newSize: nat,
                     maxIds: nat, desired: NodeId -> bool, ch: seq<Chance>)
    returns (selecteds: array<NodeId>, size: nat, failed: bool)
    requires Ready(cfg, ch) && oldids != newids && oldSize <= oldids.Length && newSize <= newids.Length
    requires Distinct(oldids[..oldSize]) && Distinct(newids[..newSize]) && oldSize + newSize <= maxIds
    modifies oldids
    ensures fresh(selecteds) && size <= selecteds.Length
    ensures var st := Choose(cfg, old(oldids[..oldSize]), newids[..newSize], desired, ch);
            oldids[..oldSize] == st.olds && selecteds[..size] == st.selected
    ensures !failed
  {
    hide *;
    ReadyParts(cfg, ch);
    ghost var (olds, news) := (oldids[..oldSize], newids[..newSize]);
    ghost var st := Choose(cfg, olds, news, desired, ch);
    ChooseLists(cfg, olds, news, desired, ch, maxIds);
    Arrange(oldids, oldSize, cfg.keepBest, ch[0]);
    assert newids[..newSize] == news;
    var keep, candidates, cands, desireds, des;
    selecteds, keep, candidates, cands, desireds, des, failed :=
      Candidates(cfg, oldids, oldSize, newids, newSize, maxIds, desired, ch, news, st);
    var failedLate;
    size, failedLate := Complete(cfg, selecteds, keep, candidates, cands, desireds, des, maxIds, ch, st);
    failed := failed || failedLate;
  }

  /** The back half, lines 388-401: preferred newcomers, then random ones while there is room. */
  method Complete(cfg: Config, selecteds: array<NodeId>, keep: nat, candidates: array<NodeId>, cands: nat,
                  desireds: array<NodeId>, des: nat, maxIds: nat, ch: seq<Chance>, ghost st: Step)
    returns (size: nat, failed: bool)
    requires Ready(cfg, ch) && selecteds != candidates && selecteds != desireds && selecteds.Length == maxIds
    requires keep <= maxIds && cands <= candidates.Length && des <= desireds.Length
    requires selecteds[..keep] == st.kept && candidates[..cands] == st.candidates && desireds[..des] == st.desireds
    requires BackLists(cfg, ch, maxIds, st)
    modifies selecteds
    ensures size <= selecteds.Length && selecteds[..size] == st.selected && !failed
  {
    hide Union, Minus, Fit, DesiredPart, Chance.Arrange, Chance.Sound, Room;
    ghost var rest0 := Minus(st.candidates, st.preferred);
    var part := Min(des, DesiredPart(cfg, keep));
    PrefixFit(desireds[..], des, part, st.desireds, DesiredPart(cfg, keep));
    var preferred, r4 := Extend(selecteds, keep, maxIds, desireds, part);
    var others, rest, r5 := NewComplement(maxIds, candidates, cands, selecteds, preferred);
    Arrange(others, rest, false, ch[2]);
    assert others[..rest] == st.others && selecteds[..preferred] == st.preferred;
    ArrangeKeeps(ch[2], rest0, false);
    var randomSize := if cfg.target != 0 then Min(rest, Max(cfg.target - preferred, 0)) else rest;
    RoomFit(cfg, others[..], rest, randomSize, preferred, st.others);
    var r6;
    size, r6 := Extend(selecteds, preferred, maxIds, others, randomSize);
    failed := r4 != 0 || r5 != 0 || r6 != 0;
  }

  lemma {:induction false} PrefixFit<T>(a: seq<T>, n: nat, k: int, s: seq<T>, part: int)
    requires n <= |a| && a[..n] == s && k == Min(n, part) && part >= 0
    ensures 0 <= k <= |a| && a[..k] == Fit(s, part)
  {
    assert a[..k] == a[..n][..k];
  }

  lemma {:induction false} RoomFit(cfg: Config, a: seq<NodeId>, n: nat, k: int, preferred: nat, s: seq<NodeId>)
    requires n <= |a| && a[..n] == s
    requires k == if cfg.target != 0 then Min(n, Max(cfg.target - preferred, 0)) else n
    ensures 0 <= k <= |a| && a[..k] == Fit(s, Room(cfg, preferred, n))
  {
    PrefixFit(a, n, k, s, Room(cfg, preferred, n));
  }

  /** A step's three lists. Neither comparison depends on the peer set, so both are made before it changes. */
  method Plan(cfg: Config, oldids: array<NodeId>, oldSize: nat, newids: array<NodeId>, newSize: nat,
              maxIds: nat, desired: NodeId -> bool, ch: seq<Chance>)
    returns (selecteds: array<NodeId>, size: nat, toadds: array<NodeId>, adds: nat,
             toremoves: array<NodeId>, removes: nat, failed: bool)
    requires Ready(cfg, ch) && oldids != newids && oldSize <= oldids.Length && newSize <= newids.Length
    requires Distinct(oldids[..oldSize]) && Distinct(newids[..newSize]) && oldSize + newSize <= maxIds
    modifies oldids
    ensures size <= selecteds.Length && adds <= toadds.Length && removes <= toremoves.Length
    ensures var st := Choose(cfg, old(oldids[..oldSize]), newids[..newSize], desired, ch);
            && selecteds[..size] == st.selected
            && toadds[..adds] == Joining(st)
            && toremoves[..removes] == Leaving(st)
    ensures newids[..newSize] == old(newids[..newSize]) && !failed
  {
    ghost var (olds, news) := (oldids[..oldSize], newids[..newSize]);
    ghost var st := Choose(cfg, olds, news, desired, ch);
    SelectionSize(cfg, olds, news, desired, ch);
    hide Choose, Distinct, Minus, FinalSize, KeepSize;
    selecteds, size, failed := SelectPeers(cfg, oldids, oldSize, newids, newSize, maxIds, desired, ch);
    var r1, r2;
    toadds, adds, r1 := NewComplement(maxIds, selecteds, size, oldids, oldSize);
    toremoves, removes, r2 := NewComplement(maxIds, oldids, oldSize, selecteds, size);
    failed := failed || r1 != 0 || r2 != 0;
  }
}
