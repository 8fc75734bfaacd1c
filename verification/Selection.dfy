/** Which peers one topology step keeps, adds and removes (topology.c, update_peers), as a computation on lists. */
module Selection {
  import opened Common
  import opened NodeIdSet

  datatype Config = Config(
    target: int, topoMem: real, alphaTarget: real,
    topoOut: bool, topoIn: bool, keepBest: bool, addBest: bool)

  ghost predicate Proportions(cfg: Config) {
    0.0 <= cfg.topoMem <= 1.0 && 0.0 <= cfg.alphaTarget <= 1.0
  }

  /** Where an order comes from: `rands(n)` are the values rand() yields during a shuffle of n elements,
      `sorted` is whatever qsort makes of a list. */
  datatype Chance = Chance(rands: nat -> seq<nat>, randMax: nat, sorted: seq<NodeId> -> seq<NodeId>) {
    ghost predicate Sound() {
      && (forall n :: |rands(n)| == n && forall i :: 0 <= i < n ==> rands(n)[i] <= randMax)
      && (forall s {:trigger sorted(s)} :: multiset(sorted(s)) == multiset(s))
    }

    ghost function Arrange(s: seq<NodeId>, best: bool): (r: seq<NodeId>)
      requires Sound()
    {
      if best then sorted(s) else Shuffled(s, DrawsOf(rands(|s|), randMax))
    }
  }

  ghost predicate Subset<T(!new)>(s: seq<T>, t: seq<T>) {
    forall x :: x in s ==> x in t
  }

  ghost predicate Apart<T(!new)>(s: seq<T>, t: seq<T>) {
    forall x :: x in s ==> x !in t
  }

  ghost predicate SameElements<T(!new)>(s: seq<T>, t: seq<T>) {
    |s| == |t| && (forall x :: x in s <==> x in t) && (Distinct(s) ==> Distinct(t))
  }

  lemma {:induction false} OnceInDistinct<T>(s: seq<T>, x: T)
    requires Distinct(s)
    ensures multiset(s)[x] <= 1
  {
    if s != [] {
      OnceInDistinct(s[1..], x);
      assert s == [s[0]] + s[1..];
    }
  }

  lemma {:induction false} Repeated<T>(s: seq<T>, i: nat, j: nat)
    requires i < j < |s| && s[i] == s[j]
    ensures multiset(s)[s[i]] >= 2
  {
    assert s == s[..j] + s[j..];
    assert s[..j][i] in multiset(s[..j]) && s[j..][0] in multiset(s[j..]);
  }

  lemma {:induction false} PermutationKeeps<T(!new)>(s: seq<T>, t: seq<T>)
    requires multiset(s) == multiset(t)
    ensures SameElements(s, t)
  {
    assert |multiset(s)| == |s| && |multiset(t)| == |t|;
    assert forall x :: (x in s <==> x in multiset(s)) && (x in t <==> x in multiset(t));
    if Distinct(s) {
      forall i, j | 0 <= i < j < |t|
        ensures t[i] != t[j]
      {
        OnceInDistinct(s, t[i]);
        if t[i] == t[j] {
          Repeated(t, i, j);
        }
      }
    }
  }

  lemma {:induction false} ArrangeKeeps(ch: Chance, s: seq<NodeId>, best: bool)
    requires ch.Sound()
    ensures SameElements(s, ch.Arrange(s, best))
  {
    if !best {
      ShuffledPermutes(s, DrawsOf(ch.rands(|s|), ch.randMax));
    }
    PermutationKeeps(s, ch.Arrange(s, best));
  }

  /** Without a ranking any order of the elements can come about, and every luck that brings it about is admissible. */
  lemma {:induction false} ArrangeReaches(s: seq<NodeId>, goal: seq<NodeId>, randMax: nat, cfg: Config)
    returns (ch: Chance)
    requires multiset(s) == multiset(goal) && |s| <= randMax + 1
    requires 0.0 <= cfg.topoMem <= 1.0 && 0.0 <= cfg.alphaTarget <= 1.0
    ensures ch.Sound() && ch.randMax == randMax && ch.Arrange(s, false) == goal && ch.Arrange(s, true) == ch.sorted(s)
    ensures Ready(cfg, [ch, ch, ch])
  {
    var rands := ShuffleReaches(s, goal, randMax);
    var none: nat -> seq<nat> := (n: nat) => seq(n, i => 0);
    var luck: nat -> seq<nat> := (n: nat) => if n == |s| then rands else none(n);
    ch := Chance(luck, randMax, (t: seq<NodeId>) => t);
    assert ch.rands(|s|) == rands;
  }

  lemma {:induction false} MinusSize<T(!new)>(bs: seq<T>, as': seq<T>)
    requires Distinct(bs) && Distinct(as') && forall x :: x in as' ==> x in bs
    ensures |Minus(bs, as')| == |bs| - |as'|
  {
    MinusMembers(bs, as');
    DistinctSize(bs);
    DistinctSize(as');
    DistinctSize(Minus(bs, as'));
    assert Elements(Minus(bs, as')) == Elements(bs) - Elements(as');
  }

  lemma {:induction false} MinusApart<T>(bs: seq<T>, as': seq<T>)
    requires forall i :: 0 <= i < |bs| ==> bs[i] !in as'
    ensures Minus(bs, as') == bs
  {
    if bs != [] {
      MinusApart(bs[..|bs| - 1], as');
      assert bs == bs[..|bs| - 1] + [bs[|bs| - 1]];
    }
  }

  function KeepSize(cfg: Config, n: nat): nat
    requires 0.0 <= cfg.topoMem <= 1.0
  {
    (cfg.topoMem * (n as real)).Floor
  }

  function DesiredPart(cfg: Config, kept: nat): nat
    requires 0.0 <= cfg.alphaTarget <= 1.0
  {
    ((1.0 - cfg.alphaTarget) * ((if cfg.target != 0 then Max(cfg.target - kept, 0) else 0) as real)).Floor
  }

  lemma {:induction false} ShareBelow(share: real, n: nat)
    requires 0.0 <= share <= 1.0
    ensures 0 <= (share * (n as real)).Floor <= n
  {
    var x := share * (n as real);
    assert 0.0 <= x <= n as real;
  }

  /** The lists update_peers builds, in the order it builds them. */
  datatype Step = Step(
    olds: seq<NodeId>, kept: seq<NodeId>, known: seq<NodeId>, candidates: seq<NodeId>,
    desireds: seq<NodeId>, preferred: seq<NodeId>, others: seq<NodeId>, selected: seq<NodeId>)

  ghost predicate Ready(cfg: Config, ch: seq<Chance>) {
    Proportions(cfg) && |ch| == 3 && ch[0].Sound() && ch[1].Sound() && ch[2].Sound()
  }

  ghost function Choose(cfg: Config, oldids: seq<NodeId>, newids: seq<NodeId>, desired: NodeId -> bool,
                        ch: seq<Chance>): Step
    requires Ready(cfg, ch)
  {
    var olds := ch[0].Arrange(oldids, cfg.keepBest);
    var kept := Fit(olds, KeepSize(cfg, |olds|));
    var known := Union(olds, newids);
    var candidates := Minus(known, kept);
    var desireds := ch[1].Arrange(Filter(desired, candidates), cfg.addBest);
    var preferred := Union(kept, Fit(desireds, DesiredPart(cfg, |kept|)));
    var others := ch[2].Arrange(Minus(candidates, preferred), false);
    var room := if cfg.target != 0 then Max(cfg.target - |preferred|, 0) else |others|;
    Step(olds, kept, known, candidates, desireds, preferred, others, Union(preferred, Fit(others, room)))
  }

  /** A part of a distinct list that avoids `s` can be appended to `s` without repetition. */
  lemma {:induction false} AppendPart<T(!new)>(s: seq<T>, t: seq<T>, k: int)
    requires Distinct(s) && Distinct(t) && Apart(t, s)
    ensures Union(s, Fit(t, k)) == s + Fit(t, k) && Distinct(s + Fit(t, k))
  {
    forall x | x in Fit(t, k)
      ensures x !in s
    {
      assert x in t;
    }
    MinusApart(Fit(t, k), s);
    UnionMembers(s, Fit(t, k));
  }

  lemma {:induction false} FitPart<T(!new)>(s: seq<T>, k: int)
    ensures Subset(Fit(s, k), s) && (Distinct(s) ==> Distinct(Fit(s, k)))
  {
  }

  lemma {:induction false} Known(olds: seq<NodeId>, newids: seq<NodeId>, kept: seq<NodeId>, known: seq<NodeId>,
                                 candidates: seq<NodeId>)
    requires Distinct(olds) && Distinct(newids) && Distinct(kept) && Subset(kept, olds)
    requires known == Union(olds, newids) && candidates == Minus(known, kept)
    ensures Distinct(known) && forall x :: x in known <==> x in olds || x in newids
    ensures Distinct(candidates) && forall x :: x in candidates <==> x in known && x !in kept
    ensures |candidates| == |known| - |kept|
  {
    UnionMembers(olds, newids);
    MinusMembers(known, kept);
    MinusSize(known, kept);
  }

  lemma {:induction false} Desired(ch: Chance, best: bool, desired: NodeId -> bool, candidates: seq<NodeId>,
                                   desireds: seq<NodeId>)
    requires ch.Sound() && Distinct(candidates) && desireds == ch.Arrange(Filter(desired, candidates), best)
    ensures Distinct(desireds) && forall x :: x in desireds <==> x in candidates && desired(x)
  {
    FilterMembers(desired, candidates);
    ArrangeKeeps(ch, Filter(desired, candidates), best);
  }

  lemma {:induction false} Preferred(kept: seq<NodeId>, desireds: seq<NodeId>, part: nat, preferred: seq<NodeId>)
    requires Distinct(kept) && Distinct(desireds) && Apart(desireds, kept)
      && preferred == Union(kept, Fit(desireds, part))
    ensures preferred == kept + Fit(desireds, part) && Distinct(preferred)
  {
    AppendPart(kept, desireds, part);
  }

  lemma {:induction false} Others(ch: Chance, candidates: seq<NodeId>, kept: seq<NodeId>, some: seq<NodeId>,
                                  preferred: seq<NodeId>,
               others: seq<NodeId>)
    requires ch.Sound() && Distinct(candidates) && Distinct(some) && Subset(some, candidates) && Apart(kept, candidates)
    requires preferred == kept + some && others == ch.Arrange(Minus(candidates, preferred), false)
    ensures Distinct(others) && forall x :: x in others <==> x in candidates && x !in preferred
    ensures |others| == |candidates| - |some|
  {
    MinusMembers(candidates, preferred);
    MinusMembers(candidates, some);
    MinusSize(candidates, some);
    DistinctSize(Minus(candidates, preferred));
    DistinctSize(Minus(candidates, some));
    assert Elements(Minus(candidates, preferred)) == Elements(Minus(candidates, some));
    ArrangeKeeps(ch, Minus(candidates, preferred), false);
  }

  lemma {:induction false} Filled(candidates: seq<NodeId>, preferred: seq<NodeId>, others: seq<NodeId>, room: int,
                                  selected: seq<NodeId>)
    requires Distinct(preferred) && Distinct(others) && Apart(others, preferred)
    requires selected == Union(preferred, Fit(others, room))
    ensures selected == preferred + Fit(others, room) && Distinct(selected)
  {
    AppendPart(preferred, others, room);
  }

  function Room(cfg: Config, preferred: nat, others: nat): nat {
    if cfg.target != 0 then Max(cfg.target - preferred, 0) else others
  }

  /** What the lists of a step are to each other. */
  ghost predicate Related(cfg: Config, oldids: seq<NodeId>, newids: seq<NodeId>, desired: NodeId -> bool, st: Step)
    requires Proportions(cfg)
  {
    && SameElements(oldids, st.olds)
    && st.kept == Fit(st.olds, KeepSize(cfg, |st.olds|))
    && Distinct(st.known) && (forall x :: x in st.known <==> x in oldids || x in newids)
    && Distinct(st.candidates) && (forall x :: x in st.candidates <==> x in st.known && x !in st.kept)
    && |st.candidates| == |st.known| - |st.kept|
    && Distinct(st.desireds) && (forall x :: x in st.desireds <==> x in st.candidates && desired(x))
    && st.preferred == st.kept + Fit(st.desireds, DesiredPart(cfg, |st.kept|))
    && Distinct(st.others) && (forall x :: x in st.others <==> x in st.candidates && x !in st.preferred)
    && |st.others| == |st.candidates| - |Fit(st.desireds, DesiredPart(cfg, |st.kept|))|
    && st.selected == st.preferred + Fit(st.others, Room(cfg, |st.preferred|, |st.others|)) && Distinct(st.selected)
  }

  ghost predicate Built(cfg: Config, oldids: seq<NodeId>, newids: seq<NodeId>, desired: NodeId -> bool,
                        ch: seq<Chance>, st: Step)
    requires Ready(cfg, ch)
  {
    && st.olds == ch[0].Arrange(oldids, cfg.keepBest) && st.kept == Fit(st.olds, KeepSize(cfg, |st.olds|))
    && st.known == Union(st.olds, newids) && st.candidates == Minus(st.known, st.kept)
    && st.desireds == ch[1].Arrange(Filter(desired, st.candidates), cfg.addBest)
    && st.preferred == Union(st.kept, Fit(st.desireds, DesiredPart(cfg, |st.kept|)))
    && st.others == ch[2].Arrange(Minus(st.candidates, st.preferred), false)
    && st.selected == Union(st.preferred, Fit(st.others, Room(cfg, |st.preferred|, |st.others|)))
  }

  lemma {:induction false} ChooseBuilt(cfg: Config, oldids: seq<NodeId>, newids: seq<NodeId>, desired: NodeId -> bool,
                                       ch: seq<Chance>)
    requires Ready(cfg, ch)
    ensures Built(cfg, oldids, newids, desired, ch, Choose(cfg, oldids, newids, desired, ch))
  {
    hide Fit, Union, Minus, Filter, Shuffled, KeepSize, DesiredPart, Chance.Arrange, Chance.Sound;
  }

  lemma {:induction false} ChooseRelated(cfg: Config, oldids: seq<NodeId>, newids: seq<NodeId>,
                                         desired: NodeId -> bool, ch: seq<Chance>, st: Step)
    requires Ready(cfg, ch) && Distinct(oldids) && Distinct(newids) && Built(cfg, oldids, newids, desired, ch, st)
    ensures Related(cfg, oldids, newids, desired, st)
  {
    hide Fit, Union, Minus, Filter, Distinct, Shuffled, KeepSize, DesiredPart, Room, Chance.Arrange;
    var some := Fit(st.desireds, DesiredPart(cfg, |st.kept|));
    ArrangeKeeps(ch[0], oldids, cfg.keepBest);
    FitPart(st.olds, KeepSize(cfg, |st.olds|));
    Known(st.olds, newids, st.kept, st.known, st.candidates);
    Desired(ch[1], cfg.addBest, desired, st.candidates, st.desireds);
    Preferred(st.kept, st.desireds, DesiredPart(cfg, |st.kept|), st.preferred);
    FitPart(st.desireds, DesiredPart(cfg, |st.kept|));
    Others(ch[2], st.candidates, st.kept, some, st.preferred, st.others);
    Filled(st.candidates, st.preferred, st.others, Room(cfg, |st.preferred|, |st.others|), st.selected);
  }

  /** The planned numbers: the share of old peers kept, the share of the open places that goes to desired newcomers,
      both rounded down, and the final size. */
  lemma {:induction false} PlannedNumbers(cfg: Config, n: nat, kept: nat, u: nat)
    requires Proportions(cfg)
    ensures KeepSize(cfg, n) as real <= cfg.topoMem * n as real < (KeepSize(cfg, n) + 1) as real
    ensures var open := if cfg.target == 0 || cfg.target <= kept then 0 else cfg.target - kept;
            DesiredPart(cfg,
              kept) as real <= (1.0 - cfg.alphaTarget) * open as real < (DesiredPart(cfg, kept) + 1) as real
    ensures FinalSize(cfg, kept, u) ==
      if cfg.target == 0 then u else if u <= kept || cfg.target <= kept then kept else if u < cfg.target then u
        else cfg.target
  {
  }

  /** How many peers the step ends with, when `u` peers are known and `kept` of them stay. */
  function FinalSize(cfg: Config, kept: nat, u: nat): int {
    if cfg.target == 0 then u else Max(kept, Min(cfg.target, u))
  }

  lemma {:induction false} KnownSize(oldids: seq<NodeId>, newids: seq<NodeId>, known: seq<NodeId>)
    requires Distinct(known) && Distinct(oldids) && Distinct(newids) && forall x :: x in known <==>
      x in oldids || x in newids
    ensures |known| == |Elements(oldids) + Elements(newids)| <= |oldids| + |newids|
  {
    DistinctSize(known);
    DistinctSize(oldids);
    DistinctSize(newids);
    assert Elements(known) == Elements(oldids) + Elements(newids);
  }

  lemma {:induction false} SizeOf(cfg: Config, kept: nat, u: nat, desireds: nat, part: nat, some: nat, others: nat)
    requires kept <= u && desireds <= u - kept && part <= (if cfg.target != 0 then Max(cfg.target - kept, 0) else 0)
    requires some == Min(desireds, part) && others == u - kept - some
    ensures kept + some + Min(others, Room(cfg, kept + some, others)) == FinalSize(cfg, kept, u)
  {
  }

  lemma {:induction false} PartBelow(cfg: Config, kept: nat)
    requires Proportions(cfg)
    ensures DesiredPart(cfg, kept) <= if cfg.target != 0 then Max(cfg.target - kept, 0) else 0
  {
    ShareBelow(1.0 - cfg.alphaTarget, if cfg.target != 0 then Max(cfg.target - kept, 0) else 0);
  }

  lemma {:induction false} RelatedSizes(cfg: Config, oldids: seq<NodeId>, newids: seq<NodeId>, desired: NodeId -> bool,
                                        st: Step)
    requires Proportions(cfg) && Distinct(oldids) && Distinct(newids) && Related(cfg, oldids, newids, desired, st)
    ensures |st.olds| == |oldids| && |st.kept| == KeepSize(cfg, |oldids|) <= |oldids|
    ensures |st.selected| == FinalSize(cfg, |st.kept|, |st.known|) && |st.known| <= |oldids| + |newids|
    ensures |st.known| == |Elements(oldids) + Elements(newids)|
    ensures |st.selected| <= |st.known| && |st.desireds| <= |st.candidates| <= |st.known|
    ensures |st.others| <= |st.known| && |st.preferred| <= |st.known|
  {
    hide Distinct, DesiredPart, Room, FinalSize, KeepSize, Elements;
    KeepBelow(cfg, |oldids|);
    PartBelow(cfg, |st.kept|);
    KnownSize(oldids, newids, st.known);
    SubsetSize(st.desireds, st.candidates);
    var some := |Fit(st.desireds, DesiredPart(cfg, |st.kept|))|;
    SizeOf(cfg, |st.kept|, |st.known|, |st.desireds|, DesiredPart(cfg, |st.kept|), some, |st.others|);
  }

  /** The size the step ends with, and room for every list in arrays of |oldids| + |newids| entries. */
  lemma {:induction false} SelectionSize(cfg: Config, oldids: seq<NodeId>, newids: seq<NodeId>,
                                         desired: NodeId -> bool, ch: seq<Chance>)
    requires Ready(cfg, ch) && Distinct(oldids) && Distinct(newids)
    ensures var st := Choose(cfg, oldids, newids, desired, ch);
            && |st.olds| == |oldids| && |st.kept| == KeepSize(cfg, |oldids|) <= |oldids|
            && |st.selected| == FinalSize(cfg, |st.kept|, |Elements(oldids) + Elements(newids)|)
            && |st.selected| <= |st.known| <= |oldids| + |newids| && |st.desireds| <= |st.candidates| <= |st.known|
            && |st.others| <= |st.known| && |st.preferred| <= |st.known|
  {
    var st := Choose(cfg, oldids, newids, desired, ch);
    ChooseBuilt(cfg, oldids, newids, desired, ch);
    ChooseRelated(cfg, oldids, newids, desired, ch, st);
    hide *;
    RelatedSizes(cfg, oldids, newids, desired, st);
  }

  lemma {:induction false} KeepBelow(cfg: Config, n: nat)
    requires Proportions(cfg)
    ensures KeepSize(cfg, n) <= n
  {
    ShareBelow(cfg.topoMem, n);
  }

  lemma {:induction false} SubsetSize<T(!new)>(s: seq<T>, t: seq<T>)
    requires Distinct(s) && Distinct(t) && Subset(s, t)
    ensures |s| <= |t|
  {
    DistinctSize(s);
    DistinctSize(t);
    SetSize(Elements(s), Elements(t));
  }

  lemma {:induction false} SetSize<T>(a: set<T>, b: set<T>)
    requires a <= b
    ensures |a| <= |b|
  {
    assert b == a + (b - a);
  }

  /** The selection is exact: it has no repetition, keeps the kept peers, takes only known peers, and takes the
      share of desired newcomers before any other newcomer. */
  lemma {:induction false} SelectionExact(cfg: Config, oldids: seq<NodeId>, newids: seq<NodeId>,
                                          desired: NodeId -> bool, ch: seq<Chance>)
    requires Ready(cfg, ch) && Distinct(oldids) && Distinct(newids)
    ensures var st := Choose(cfg, oldids, newids, desired, ch);
            && Distinct(st.selected) && Distinct(st.olds) && (forall x :: x in st.olds <==> x in oldids)
            && Subset(st.kept, st.selected) && Subset(st.kept, oldids)
            && (forall x :: x in st.selected ==> x in oldids || x in newids)
            && Subset(Fit(st.desireds, DesiredPart(cfg, |st.kept|)), st.selected)
            && (forall x :: x in st.desireds <==> (x in oldids || x in newids) && x !in st.kept && desired(x))
  {
    var st := Choose(cfg, oldids, newids, desired, ch);
    ChooseBuilt(cfg, oldids, newids, desired, ch);
    ChooseRelated(cfg, oldids, newids, desired, ch, st);
    hide Choose, Distinct, Built;
    FitPart(st.olds, KeepSize(cfg, |st.olds|));
    FitPart(st.desireds, DesiredPart(cfg, |st.kept|));
    FitPart(st.others, Room(cfg, |st.preferred|, |st.others|));
  }

  /** Who joins and who leaves. */
  ghost function Joining(st: Step): seq<NodeId> {
    Minus(st.selected, st.olds)
  }

  ghost function Leaving(st: Step): seq<NodeId> {
    Minus(st.olds, st.selected)
  }

  lemma {:induction false} JoiningNew(oldids: seq<NodeId>, newids: seq<NodeId>, st: Step)
    requires Distinct(st.selected) && (forall x :: x in st.olds <==> x in oldids)
    requires forall x :: x in st.selected ==> x in oldids || x in newids
    ensures Distinct(Joining(st))
    ensures forall x :: x in Joining(st) ==> x in newids && x !in oldids
  {
    MinusMembers(st.selected, st.olds);
  }
}
