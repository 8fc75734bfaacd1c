/** Bounded sets of node ids kept in arrays, and the shuffle (nodeid_set.c). */
module NodeIdSet {
  import opened Common

  datatype NodeId = NodeId(ip: int, port: int)

  /** `bs` without the elements of `as'`, in order. */
  function Minus<T(==)>(bs: seq<T>, as': seq<T>): (r: seq<T>)
    ensures |r| <= |bs|
  {
    if bs == [] then []
    else
      var (init, last) := (bs[..|bs| - 1], bs[|bs| - 1]);
      Minus(init, as') + if last in as' then [] else [last]
  }

  function Union<T(==)>(as': seq<T>, bs: seq<T>): seq<T> {
    as' + Minus(bs, as')
  }

  lemma {:induction false} MinusPrefix<T>(bs: seq<T>, as': seq<T>, k: nat)
    requires k <= |bs|
    ensures Minus(bs[..k], as') <= Minus(bs, as')
  {
    if k < |bs| {
      assert bs[..|bs| - 1][..k] == bs[..k];
      MinusPrefix(bs[..|bs| - 1], as', k);
    } else {
      assert bs[..k] == bs;
    }
  }

  lemma {:induction false} MinusMembers<T(!new)>(bs: seq<T>, as': seq<T>)
    ensures forall x :: x in Minus(bs, as') <==> x in bs && x !in as'
    ensures Distinct(bs) ==> Distinct(Minus(bs, as'))
  {
    if bs != [] {
      var (init, last) := (bs[..|bs| - 1], bs[|bs| - 1]);
      MinusMembers(init, as');
      assert bs == init + [last];
    }
  }

  /** What stays keeps its order and its copies. */
  lemma {:induction false} MinusKeeps<T>(bs: seq<T>, as': seq<T>, x: T)
    ensures multiset(Minus(bs, as'))[x] == if x in as' then 0 else multiset(bs)[x]
    ensures forall i, j :: 0 <= i < j < |Minus(bs, as')| ==> Precedes(bs, Minus(bs, as')[i], Minus(bs, as')[j])
  {
    MinusCopies(bs, as', x);
    MinusOrder(bs, as');
  }

  lemma {:induction false} MinusCopies<T>(bs: seq<T>, as': seq<T>, x: T)
    ensures multiset(Minus(bs, as'))[x] == if x in as' then 0 else multiset(bs)[x]
  {
    if bs != [] {
      var (init, last) := (bs[..|bs| - 1], bs[|bs| - 1]);
      MinusCopies(init, as', x);
      assert bs == init + [last];
      assert Minus(bs, as') == Minus(init, as') + if last in as' then [] else [last];
      hide Minus;
      assert multiset(bs) == multiset(init) + multiset{last};
    }
  }

  lemma {:induction false} MinusOrder<T>(bs: seq<T>, as': seq<T>)
    ensures forall i, j :: 0 <= i < j < |Minus(bs, as')| ==> Precedes(bs, Minus(bs, as')[i], Minus(bs, as')[j])
  {
    if bs != [] {
      var (init, last) := (bs[..|bs| - 1], bs[|bs| - 1]);
      MinusOrder(init, as');
      assert bs == init + [last];
      var (before, all) := (Minus(init, as'), Minus(bs, as'));
      assert all == before || all == before + [last];
      hide Minus, Precedes;
      forall i, j | 0 <= i < j < |all|
        ensures Precedes(bs, all[i], all[j])
      {
        if j < |before| {
          PrecedesMore(init, last, before[i], before[j]);
        } else {
          MinusFrom(init, as', before[i]);
          PrecedesLast(init, before[i], last);
        }
      }
    }
  }

  lemma {:induction false} MinusFrom<T>(bs: seq<T>, as': seq<T>, x: T)
    requires x in Minus(bs, as')
    ensures x in bs
  {
    if bs != [] && x in Minus(bs[..|bs| - 1], as') {
      MinusFrom(bs[..|bs| - 1], as', x);
    }
  }

  /** A union has each member of both sides, and no repetition when neither side has one. */
  lemma {:induction false} UnionMembers<T(!new)>(as': seq<T>, bs: seq<T>)
    ensures forall x :: x in Union(as', bs) <==> x in as' || x in bs
    ensures Distinct(as') && Distinct(bs) ==> Distinct(Union(as', bs))
  {
    MinusMembers(bs, as');
    var m := Minus(bs, as');
    forall i, j | 0 <= i < |as'| && 0 <= j < |m|
      ensures as'[i] != m[j]
    {
      assert m[j] in m;
    }
  }

  // ---------------------------------------------------------------- bounded operations on arrays

  /** The longest prefix of `s` that a capacity allows. */
  function Fit<T>(s: seq<T>, cap: int): (r: seq<T>)
    ensures r <= s && |r| == Min(|s|, Max(cap, 0))
  {
    s[..Min(|s|, Max(cap, 0))]
  }

  /** The outcome of a bounded copy of `all`: the longest prefix that fits, and -1 when that is not everything. */
  ghost predicate Fitted<T>(now: seq<T>, before: seq<T>, off: nat, all: seq<T>, cap: int, n: nat, r: int) {
    && n == |Fit(all, cap)| && off + n <= |before|
    && now == Spliced(before, off, Fit(all, cap))
    && r == (if |all| <= Max(cap, 0) then 0 else -1)
  }

  /** The destination once `s`, a part of `all`, has been copied. */
  ghost predicate Copied<T>(now: seq<T>, before: seq<T>, off: nat, s: seq<T>, all: seq<T>, cap: int) {
    off + |s| <= |before| && now == Spliced(before, off, s) && s <= all && |s| <= Max(cap, 0)
  }

  lemma {:induction false} CopyStart<T>(before: seq<T>, off: nat, all: seq<T>, cap: int)
    requires off <= |before|
    ensures Copied(before, before, off, [], all, cap)
  {
  }

  lemma {:induction false} CopyNext<T>(now: seq<T>, before: seq<T>, off: nat, s: seq<T>, x: T, all: seq<T>, cap: int)
    requires Copied(now, before, off, s, all, cap) && |s| < cap && off + cap <= |before| && s + [x] <= all
    ensures off + |s| < |now| && Copied(now[off + |s| := x], before, off, s + [x], all, cap)
  {
  }

  lemma {:induction false} CopyEnd<T>(now: seq<T>, before: seq<T>, off: nat, s: seq<T>, all: seq<T>, cap: int)
    requires Copied(now, before, off, s, all, cap) && (s == all || |s| >= cap)
    ensures Fitted(now, before, off, all, cap, |s|, if s == all then 0 else -1)
  {
  }

  lemma {:induction false} FilterNone<T>(f: T -> bool)
    ensures Filter(f, []) == []
  {
  }

  lemma {:induction false} FilterStep<T>(f: T -> bool, all: seq<T>, i: nat)
    requires i < |all|
    ensures Filter(f, all[..i + 1]) == if f(all[i]) then Filter(f, all[..i]) + [all[i]] else Filter(f, all[..i])
    ensures Filter(f, all[..i]) <= Filter(f, all) && Filter(f, all[..i + 1]) <= Filter(f, all)
  {
    assert all[..i + 1][..i] == all[..i];
    FilterPrefix(f, all, i);
    FilterPrefix(f, all, i + 1);
  }

  lemma {:induction false} MinusNone(taken: seq<NodeId>)
    ensures Minus([], taken) == []
  {
  }

  lemma {:induction false} MinusStep(all: seq<NodeId>, taken: seq<NodeId>, i: nat)
    requires i < |all|
    ensures Minus(all[..i + 1], taken) ==
      if all[i] in taken then Minus(all[..i], taken) else Minus(all[..i], taken) + [all[i]]
    ensures Minus(all[..i], taken) <= Minus(all, taken) && Minus(all[..i + 1], taken) <= Minus(all, taken)
  {
    assert all[..i + 1][..i] == all[..i];
    MinusPrefix(all, taken, i);
    MinusPrefix(all, taken, i + 1);
  }

  /** One more element for the destination, if there is room. */
  method Push(dst: array<NodeId>, off: nat, cap: int, n: nat, x: NodeId,
              ghost before: seq<NodeId>, ghost s: seq<NodeId>, ghost all: seq<NodeId>)
    returns (full: bool)
    requires Copied(dst[..], before, off, s, all, cap) && n == |s| && off + cap <= dst.Length == |before|
      && s + [x] <= all
    modifies dst
    ensures full ==> dst[..] == old(dst[..]) && Fitted(dst[..], before, off, all, cap, n, -1)
    ensures !full ==> Copied(dst[..], before, off, s + [x], all, cap) && n + 1 <= Max(cap, 0)
    ensures forall k :: 0 <= k < off <= dst.Length ==> dst[k] == old(dst[k])
  {
    hide Copied, Fitted, Spliced, Fit;
    full := n >= cap;
    if full {
      assert |s + [x]| == n + 1;
      CopyEnd(dst[..], before, off, s, all, cap);
    } else {
      CopyNext(dst[..], before, off, s, x, all, cap);
      dst[off + n] := x;
    }
  }

  method NidsetFilter(dst: array<NodeId>, cap: int, src: array<NodeId>, srcSize: nat, f: NodeId -> bool)
    returns (n: nat, r: int)
    requires dst != src && cap <= dst.Length && srcSize <= src.Length
    modifies dst
    ensures Fitted(dst[..], old(dst[..]), 0, Filter(f, src[..srcSize]), cap, n, r)
  {
    hide *;
    ghost var (before, all) := (dst[..], src[..srcSize]);
    FilterNone(f);
    CopyStart(before, 0, Filter(f, all), cap);
    n := 0;
    for i := 0 to srcSize
      invariant n == |Filter(f, all[..i])| <= Max(cap, 0)
      invariant Copied(dst[..], before, 0, Filter(f, all[..i]), Filter(f, all), cap)
    {
      FilterStep(f, all, i);
      if f(src[i]) {
        var full := Push(dst, 0, cap, n, src[i], before, Filter(f, all[..i]), Filter(f, all));
        if full {
          return n, -1;
        }
        n := n + 1;
      }
    }
    assert all[..srcSize] == all;
    CopyEnd(dst[..], before, 0, Filter(f, all), Filter(f, all), cap);
    r := 0;
  }

  method NidsetFind(ids: array<NodeId>, size: nat, id: NodeId) returns (i: nat, found: bool)
    requires size <= ids.Length
    ensures i <= size && forall k :: 0 <= k < i ==> ids[k] != id
    ensures if found then i < size && ids[i] == id else i == size
  {
    i := 0;
    while i < size
      invariant i <= size && forall k :: 0 <= k < i ==> ids[k] != id
    {
      if ids[i] == id {
        return i, true;
      }
      i := i + 1;
    }
    found := false;
  }

  /** `as'` may be the front part of `dst` itself. */
  method NidsetComplement(dst: array<NodeId>, off: nat, cap: int, bs: array<NodeId>, bsSize: nat,
                          as': array<NodeId>, asSize: nat)
    returns (n: nat, r: int)
    requires dst != bs && off <= dst.Length && off + cap <= dst.Length && bsSize <= bs.Length && asSize <= as'.Length
    requires dst == as' ==> asSize <= off
    modifies dst
    ensures Fitted(dst[..], old(dst[..]), off, Minus(bs[..bsSize], old(as'[..asSize])), cap, n, r)
  {
    ghost var (before, all, taken) := (dst[..], bs[..bsSize], as'[..asSize]);
    hide *;
    MinusNone(taken);
    CopyStart(before, off, Minus(all, taken), cap);
    n := 0;
    for i := 0 to bsSize
      invariant n == |Minus(all[..i], taken)| <= Max(cap, 0)
      invariant forall k :: 0 <= k < asSize ==> as'[k] == taken[k]
      invariant Copied(dst[..], before, off, Minus(all[..i], taken), Minus(all, taken), cap)
    {
      var j, found := NidsetFind(as', asSize, bs[i]);
      assert found <==> all[i] in taken by {
        assert found ==> taken[j] == all[i];
      }
      MinusStep(all, taken, i);
      if !found {
        var full := Push(dst, off, cap, n, bs[i], before, Minus(all[..i], taken), Minus(all, taken));
        if full {
          return n, -1;
        }
        n := n + 1;
      }
    }
    assert all[..bsSize] == all;
    CopyEnd(dst[..], before, off, Minus(all, taken), Minus(all, taken), cap);
    r := 0;
  }

  method NidsetAdd(dst: array<NodeId>, cap: nat, as': array<NodeId>, asSize: nat, bs: array<NodeId>, bsSize: nat)
    returns (n: nat, r: int)
    requires dst != as' && dst != bs && cap <= dst.Length && asSize <= as'.Length && bsSize <= bs.Length
    modifies dst
    ensures Fitted(dst[..], old(dst[..]), 0, Union(as'[..asSize], bs[..bsSize]), cap, n, r)
  {
    ghost var before := dst[..];
    var i := Min(asSize, cap);
    forall k | 0 <= k < i {
      dst[k] := as'[k];
    }
    assert dst[..] == Spliced(before, 0, as'[..i]);
    assert as'[..asSize][..i] == as'[..i];
    n := i;
    if i < asSize {
      return n, -1;
    }
    var m;
    m, r := NidsetComplement(dst, i, cap - i, bs, bsSize, as', asSize);
    n := n + m;
    SplicedTwice(before, as'[..asSize], Minus(bs[..bsSize], as'[..asSize]), cap);
  }

  lemma {:induction false} SplicedTwice<T>(before: seq<T>, s: seq<T>, t: seq<T>, cap: int)
    requires |s| <= cap <= |before|
    ensures Spliced(Spliced(before, 0, s), |s|, Fit(t, cap - |s|)) == Spliced(before, 0, Fit(s + t, cap))
  {
  }

  method NidsetAddI(dst: array<NodeId>, size: nat, cap: int, as': array<NodeId>, asSize: nat)
    returns (n: nat, r: int)
    requires dst != as' && size <= dst.Length && cap <= dst.Length && asSize <= as'.Length
    modifies dst
    ensures Fitted(dst[..], old(dst[..]), 0, Union(old(dst[..size]), as'[..asSize]), Max(size, cap), n, r)
  {
    ghost var (before, s) := (dst[..], dst[..size]);
    var m;
    m, r := NidsetComplement(dst, size, cap - size, as', asSize, dst, size);
    n := size + m;
    assert Spliced(before, 0, s) == before;
    SplicedTwice(before, s, Minus(as'[..asSize], s), Max(size, cap));
  }

  // ---------------------------------------------------------------- the shuffle

  function Swap<T>(s: seq<T>, i: nat, j: nat): (r: seq<T>)
    requires i < |s| && j < |s|
    ensures |r| == |s| && r[i] == s[j] && r[j] == s[i]
    ensures forall k :: 0 <= k < |s| && k != i && k != j ==> r[k] == s[k]
  {
    s[i := s[j]][j := s[i]]
  }

  lemma {:induction false} SwapPermutes<T>(s: seq<T>, i: nat, j: nat)
    requires i < |s| && j < |s|
    ensures multiset(Swap(s, i, j)) == multiset(s)
  {
  }

  lemma {:induction false} SwapDistinct<T>(s: seq<T>, i: nat)
    requires i < |s| && Distinct(s)
    ensures Distinct(Swap(s, i, |s| - 1)[..|s| - 1])
  {
  }

  lemma {:induction false} SplitLast<T>(s: seq<T>)
    requires s != []
    ensures multiset(s) == multiset(s[..|s| - 1]) + multiset{s[|s| - 1]}
  {
    assert s == s[..|s| - 1] + [s[|s| - 1]];
  }

  /** One drawn position per element: `draws[i]` is the partner of position i. */
  predicate Draws(draws: seq<nat>, n: nat) {
    |draws| == n && forall i :: 0 <= i < n ==> draws[i] <= i
  }

  function Shuffled<T>(s: seq<T>, draws: seq<nat>): (r: seq<T>)
    requires Draws(draws, |s|)
    ensures |r| == |s|
    decreases |s|
  {
    if s == [] then []
    else
      var n := |s| - 1;
      var t := Swap(s, draws[n], n);
      Shuffled(t[..n], draws[..n]) + [t[n]]
  }

  /** Line 37: the position computed from one value of rand(). */
  function Draw(rand: nat, randMax: nat, i: nat): (pos: nat)
    requires rand <= randMax
    ensures pos <= i
  {
    var share := (rand as real) / ((randMax + 1) as real);
    ProperShare(rand as real, (randMax + 1) as real);
    ScaledBelow(share, (i + 1) as real);
    (share * ((i + 1) as real)).Floor
  }

  lemma {:induction false} NotPositive(a: real, m: real)
    requires a <= 0.0 <= m
    ensures a * m <= 0.0
  {
  }

  lemma {:induction false} ProperShare(r: real, m: real)
    requires 0.0 <= r < m
    ensures 0.0 <= r / m < 1.0
  {
    var q := r / m;
    assert q * m == r;
    assert (1.0 - q) * m == m - r;
    if q >= 1.0 {
      NotPositive(1.0 - q, m);
    }
  }

  lemma {:induction false} ScaledBelow(share: real, n: real)
    requires 0.0 <= share < 1.0 && n > 0.0
    ensures 0.0 <= share * n < n
  {
  }

  /** Position p is drawn by the values of rand() in one of i + 1 stretches of equal length. */
  lemma {:induction false} DrawExactly(rand: nat, randMax: nat, i: nat, p: int)
    requires rand <= randMax
    ensures Draw(rand, randMax, i) == p <==> p * (randMax + 1) <= rand * (i + 1) < (p + 1) * (randMax + 1)
  {
    var (r, m, n) := (rand as real, (randMax + 1) as real, (i + 1) as real);
    FloorIs(r / m * n, p);
    ShareAgainst(r, m, n, p as real);
    ShareAgainst(r, m, n, (p + 1) as real);
    RealProducts(rand, i + 1, p, randMax + 1);
    RealProducts(rand, i + 1, p + 1, randMax + 1);
  }

  lemma {:induction false} FloorIs(x: real, p: int)
    ensures x.Floor == p <==> p as real <= x < (p + 1) as real
  {
  }

  lemma {:induction false} ShareAgainst(r: real, m: real, n: real, p: real)
    requires m > 0.0
    ensures p <= r / m * n <==> p * m <= r * n
  {
    var share := r / m;
    assert share * m == r;
    Regroup(share, n, m);
    Against(share * n, p, m);
  }

  lemma {:induction false} Regroup(a: real, b: real, c: real)
    ensures (a * b) * c == (a * c) * b
  {
  }

  lemma {:induction false} RealProducts(r: int, n: int, p: int, m: int)
    ensures (r * n) as real == (r as real) * (n as real) && (p * m) as real == (p as real) * (m as real)
  {
  }

  lemma {:induction false} Against(x: real, y: real, m: real)
    requires m > 0.0
    ensures y <= x <==> y * m <= x * m
  {
    if y <= x {
      NotPositive(y - x, m);
      assert (y - x) * m == y * m - x * m;
    } else {
      assert (y - x) * m > 0.0;
      assert (y - x) * m == y * m - x * m;
    }
  }

  function DrawsOf(rands: seq<nat>, randMax: nat): (draws: seq<nat>)
    requires forall i :: 0 <= i < |rands| ==> rands[i] <= randMax
    ensures Draws(draws, |rands|) && forall i :: 0 <= i < |rands| ==> draws[i] == Draw(rands[i], randMax, i)
  {
    seq(|rands|, i requires 0 <= i < |rands| => Draw(rands[i], randMax, i))
  }

  /** a / n rounded up. */
  function Up(a: nat, n: nat): nat
    requires n > 0
  {
    (a + n - 1) / n
  }

  lemma {:induction false} UpIs(a: nat, n: nat, k: nat)
    requires n > 0
    ensures Up(a, n) <= k <==> a <= k * n
  {
    var (q, r) := ((a + n - 1) / n, (a + n - 1) % n);
    assert a + n - 1 == q * n + r && 0 <= r < n;
    if q <= k {
      assert q * n <= k * n;
    } else {
      assert (k + 1) * n <= q * n;
    }
  }

  lemma {:induction false} UpShift(a: nat, q: nat, n: nat)
    requires n > 0
    ensures q * n >= 0 && Up(a + q * n, n) == Up(a, n) + q
  {
    var (u, r) := ((a + n - 1) / n, (a + n - 1) % n);
    assert (u + q) * n + r == a + q * n + n - 1;
    Division(a + q * n + n - 1, u + q, r, n);
  }

  lemma {:induction false} UpMonotone(a: nat, b: nat, n: nat)
    requires n > 0 && a <= b
    ensures Up(a, n) <= Up(b, n)
  {
    UpIs(b, n, Up(b, n));
    UpIs(a, n, Up(b, n));
  }

  lemma {:induction false} UpStep(a: nat, b: nat, n: nat)
    requires n > 0
    ensures Up(a, n) + b / n <= Up(a + b, n) <= Up(a, n) + Up(b, n)
  {
    hide Up;
    var (q, v) := (b / n, Up(b, n));
    UpIs(b, n, v);
    UpShift(a, q, n);
    UpShift(a, v, n);
    assert q * n <= b <= v * n;
    UpMonotone(a + q * n, a + b, n);
    UpMonotone(a + b, a + v * n, n);
  }

  /** The values of rand() that draw position `p`. */
  ghost function Drawing(randMax: nat, i: nat, p: nat): set<nat> {
    set r | 0 <= r <= randMax && Draw(r, randMax, i) == p
  }

  /** Each position is drawn by as many values as any other, up to one. */
  lemma {:induction false} DrawsEven(randMax: nat, i: nat, p: nat)
    requires p <= i
    ensures (randMax + 1) / (i + 1) <= |Drawing(randMax, i, p)| <= (randMax + 1) / (i + 1) + 1
  {
    hide Drawing, Up;
    Products(p, i, randMax + 1);
    StretchSize(randMax + 1, i + 1, p);
    var (lo, hi) := (Up(p * (randMax + 1), i + 1), Up((p + 1) * (randMax + 1), i + 1));
    forall r: nat
      ensures r in Drawing(randMax, i, p) <==> lo <= r < hi
    {
      DrawnBetween(r, randMax, i, p);
    }
    RangeOf(lo, hi, Drawing(randMax, i, p));
  }

  lemma {:induction false} StretchSize(m: nat, n: nat, p: nat)
    requires n > 0
    ensures 0 <= p * m <= (p + 1) * m
    ensures m / n <= Up((p + 1) * m, n) - Up(p * m, n) <= m / n + 1
  {
    hide Up;
    Products(p, p, m);
    assert (p + 1) * m == p * m + m;
    UpStep(p * m, m, n);
    UpAbove(m, n);
  }

  lemma {:induction false} Products(p: nat, i: nat, m: nat)
    requires p <= i
    ensures 0 <= p * m <= (p + 1) * m <= (i + 1) * m
  {
  }

  lemma {:induction false} UpAbove(m: nat, n: nat)
    requires n > 0
    ensures Up(m, n) <= m / n + 1
  {
    UpIs(m, n, m / n + 1);
    assert m < (m / n + 1) * n;
  }

  lemma {:induction false} DrawnBetween(r: nat, randMax: nat, i: nat, p: nat)
    requires p <= i
    ensures 0 <= p * (randMax + 1) <= (p + 1) * (randMax + 1)
    ensures r in Drawing(randMax, i, p) <==> Up(p * (randMax + 1), i + 1) <= r < Up((p + 1) * (randMax + 1), i + 1)
  {
    hide Drawing, Up;
    Products(p, i, randMax + 1);
    DrawnIff(r, randMax, i, p, p * (randMax + 1), (p + 1) * (randMax + 1));
  }

  lemma {:induction false} DrawnIff(r: nat, randMax: nat, i: nat, p: nat, lo: nat, hi: nat)
    requires lo == p * (randMax + 1) && hi == (p + 1) * (randMax + 1) && hi <= (i + 1) * (randMax + 1)
    ensures r in Drawing(randMax, i, p) <==> Up(lo, i + 1) <= r < Up(hi, i + 1)
  {
    hide Up, Draw;
    UpIs(lo, i + 1, r);
    UpIs(hi, i + 1, r);
    if r <= randMax {
      DrawExactly(r, randMax, i, p);
    } else {
      Larger(i + 1, randMax + 1, r);
    }
  }

  lemma {:induction false} Larger(n: nat, m: nat, r: nat)
    requires m <= r
    ensures n * m <= r * n
  {
    assert n * m <= n * r;
  }

  lemma {:induction false} RangeOf(lo: nat, hi: nat, s: set<nat>)
    requires lo <= hi && forall r: nat :: r in s <==> lo <= r < hi
    ensures |s| == hi - lo
  {
    if lo < hi {
      var rest := s - {hi - 1};
      assert s == rest + {hi - 1};
      RangeOf(lo, hi - 1, rest);
    } else {
      assert s == {};
    }
  }

  /** With enough values of rand() every permutation comes out of some of them. */
  lemma {:induction false} ShuffleReaches<T>(s: seq<T>, goal: seq<T>, randMax: nat) returns (rands: seq<nat>)
    requires multiset(s) == multiset(goal) && |s| <= randMax + 1
    ensures |rands| == |s| && (forall i :: 0 <= i < |rands| ==> rands[i] <= randMax)
    ensures Shuffled(s, DrawsOf(rands, randMax)) == goal
  {
    hide Draw, Shuffled, Up;
    var draws := ShuffleSurjective(s, goal);
    assert forall i :: 0 <= i < |draws| ==> draws[i] <= i;
    rands := seq(|s|, i requires 0 <= i < |draws| => Up(draws[i] * (randMax + 1), i + 1));
    forall i | 0 <= i < |rands|
      ensures rands[i] <= randMax && Draw(rands[i], randMax, i) == draws[i]
    {
      Drawable(draws[i], i, randMax);
    }
    assert DrawsOf(rands, randMax) == draws;
  }

  lemma {:induction false} Drawable(p: nat, i: nat, randMax: nat)
    requires p <= i <= randMax
    ensures Up(p * (randMax + 1), i + 1) <= randMax && Draw(Up(p * (randMax + 1), i + 1), randMax, i) == p
  {
    hide Draw, Up;
    var (m, n) := (randMax + 1, i + 1);
    Products(p, i, m);
    var r := Up(p * m, n);
    StretchSize(m, n, p);
    Quotient(m, n);
    DrawnBetween(r, randMax, i, p);
  }

  lemma {:induction false} Quotient(m: nat, n: nat)
    requires 0 < n <= m
    ensures m / n >= 1
  {
  }

  /** The element at the drawn position comes last, and the rest is shuffled with the last element in its place. */
  lemma {:induction false} ShuffledByDraw<T>(s: seq<T>, draws: seq<nat>)
    requires s != [] && Draws(draws, |s|)
    ensures var (n, p) := (|s| - 1, draws[|s| - 1]);
            Shuffled(s, draws) == Shuffled(s[p := s[n]][..n], draws[..n]) + [s[p]]
  {
    var (n, p) := (|s| - 1, draws[|s| - 1]);
    assert Swap(s, p, n)[..n] == s[p := s[n]][..n];
  }

  lemma {:induction false} ShuffleLast<T>(s: seq<T>, draws: seq<nat>)
    requires s != [] && Draws(draws, |s|)
    ensures var n := |s| - 1;
            && Shuffled(s, draws)[n] == s[draws[n]]
            && Shuffled(s, draws)[..n] == Shuffled(Swap(s, draws[n], n)[..n], draws[..n])
  {
  }

  /** The array when the positions from `size` on are final. */
  function PartlyShuffled<T>(now: seq<T>, draws: seq<nat>, size: nat): seq<T>
    requires size <= |now| && Draws(draws, |now|)
  {
    Shuffled(now[..size], draws[..size]) + now[size..]
  }

  lemma {:induction false} ShuffleRound<T>(now: seq<T>, draws: seq<nat>, size: nat)
    requires 0 < size <= |now| && Draws(draws, |now|)
    ensures PartlyShuffled(now, draws, size) == PartlyShuffled(Swap(now, draws[size - 1], size - 1), draws, size - 1)
  {
    var n := size - 1;
    var t := Swap(now[..size], draws[n], n);
    assert draws[..size][..n] == draws[..n] && draws[..size][n] == draws[n];
    assert Swap(now, draws[n], n)[..n] == t[..n] && Swap(now, draws[n], n)[n..] == [t[n]] + now[size..];
  }

  lemma {:induction false} ShuffleEnds<T>(now: seq<T>, draws: seq<nat>)
    requires Draws(draws, |now|)
    ensures PartlyShuffled(now, draws, |now|) == Shuffled(now, draws)
    ensures PartlyShuffled(now, draws, Min(1, |now|)) == now
  {
    assert now[..|now|] == now && draws[..|now|] == draws;
  }

  /** `rands[i]` is the value rand() returns in the round of position i. */
  method Shuffle<T>(base: array<T>, nmemb: nat, rands: seq<nat>, randMax: nat)
    requires nmemb <= base.Length && |rands| == nmemb && forall i :: 0 <= i < |rands| ==> rands[i] <= randMax
    modifies base
    ensures base[..nmemb] == Shuffled(old(base[..nmemb]), DrawsOf(rands, randMax))
    ensures base[nmemb..] == old(base[nmemb..])
  {
    hide Shuffled, PartlyShuffled, Swap;
    ghost var draws := DrawsOf(rands, randMax);
    ghost var goal := Shuffled(base[..nmemb], draws);
    ShuffleEnds(base[..nmemb], draws);
    var i: int := nmemb - 1;
    while i > 0
      invariant -1 <= i < nmemb && (i == -1 ==> nmemb == 0)
      invariant goal == PartlyShuffled(base[..nmemb], draws, i + 1)
      invariant base[nmemb..] == old(base[nmemb..])
    {
      ShuffleRound(base[..nmemb], draws, i + 1);
      var newpos := Draw(rands[i], randMax, i);
      ghost var was := base[..nmemb];
      base[newpos], base[i] := base[i], base[newpos];
      SwapAt(was, base[..nmemb], newpos, i);
      i := i - 1;
    }
    ShuffleEnds(base[..nmemb], draws);
  }

  lemma {:induction false} SwapAt<T>(was: seq<T>, now: seq<T>, i: nat, j: nat)
    requires i < |was| == |now| && j < |was| && now[i] == was[j] && now[j] == was[i]
    requires forall k :: 0 <= k < |was| && k != i && k != j ==> now[k] == was[k]
    ensures now == Swap(was, i, j)
  {
  }

  lemma {:induction false} ShuffledPermutes<T>(s: seq<T>, draws: seq<nat>)
    requires Draws(draws, |s|)
    ensures multiset(Shuffled(s, draws)) == multiset(s)
    decreases |s|
  {
    if s != [] {
      var n := |s| - 1;
      var t := Swap(s, draws[n], n);
      SwapPermutes(s, draws[n], n);
      ShuffledPermutes(t[..n], draws[..n]);
      ShuffleLast(s, draws);
      hide Shuffled, Swap;
      SplitLast(t);
      SplitLast(Shuffled(s, draws));
    }
  }

  lemma {:induction false} SameByLast<T>(d: seq<T>, e: seq<T>)
    requires 0 < |d| == |e| && d[..|d| - 1] == e[..|d| - 1] && d[|d| - 1] == e[|d| - 1]
    ensures d == e
  {
    assert d == d[..|d| - 1] + [d[|d| - 1]];
  }

  lemma {:induction false} SameSize<T>(s: seq<T>, goal: seq<T>)
    requires multiset(s) == multiset(goal)
    ensures |s| == |goal|
    ensures s != [] ==> goal[|s| - 1] in s
  {
    assert |multiset(s)| == |s| && |multiset(goal)| == |goal|;
    if s != [] {
      assert goal[|s| - 1] in multiset(s);
    }
  }

  lemma {:induction false} RestPermutes<T>(s: seq<T>, goal: seq<T>, p: nat)
    requires multiset(s) == multiset(goal) && p < |s| == |goal| && s[p] == goal[|s| - 1]
    ensures multiset(Swap(s, p, |s| - 1)[..|s| - 1]) == multiset(goal[..|s| - 1])
  {
    hide Swap;
    var n := |s| - 1;
    var t := Swap(s, p, n);
    SwapPermutes(s, p, n);
    SameRest(t, goal);
  }

  lemma {:induction false} SameRest<T>(t: seq<T>, goal: seq<T>)
    requires multiset(t) == multiset(goal) && |t| == |goal| > 0 && t[|t| - 1] == goal[|t| - 1]
    ensures multiset(t[..|t| - 1]) == multiset(goal[..|t| - 1])
  {
    SplitLast(t);
    SplitLast(goal);
    var last := multiset{t[|t| - 1]};
    assert multiset(t) - last == multiset(t[..|t| - 1]);
    assert multiset(goal) - last == multiset(goal[..|t| - 1]);
  }

  lemma {:induction false} ShuffleExtend<T>(s: seq<T>, goal: seq<T>, p: nat, rest: seq<nat>)
    requires p < |s| == |goal| && s[p] == goal[|s| - 1] && Draws(rest, |s| - 1)
    requires Shuffled(Swap(s, p, |s| - 1)[..|s| - 1], rest) == goal[..|s| - 1]
    ensures Draws(rest + [p], |s|) && Shuffled(s, rest + [p]) == goal
  {
    var n := |s| - 1;
    ShuffleLast(s, rest + [p]);
    assert (rest + [p])[..n] == rest && (rest + [p])[n] == p;
    hide Shuffled, Swap;
    SameByLast(Shuffled(s, rest + [p]), goal);
  }

  /** Different draws give different orders. */
  lemma {:induction false} ShuffleInjective<T>(s: seq<T>, d: seq<nat>, e: seq<nat>)
    requires Distinct(s) && Draws(d, |s|) && Draws(e, |s|)
    requires Shuffled(s, d) == Shuffled(s, e)
    ensures d == e
    decreases |s|
  {
    if s != [] {
      hide Shuffled, Swap;
      var n := |s| - 1;
      ShuffleLast(s, d);
      ShuffleLast(s, e);
      assert d[n] == e[n];
      SwapDistinct(s, d[n]);
      ShuffleInjective(Swap(s, d[n], n)[..n], d[..n], e[..n]);
      SameByLast(d, e);
    }
  }

  /** Every order is reached; the lemma returns the draws that reach it. */
  lemma {:induction false} ShuffleSurjective<T>(s: seq<T>, goal: seq<T>) returns (draws: seq<nat>)
    requires multiset(s) == multiset(goal)
    ensures Draws(draws, |s|) && Shuffled(s, draws) == goal
    decreases |s|
  {
    SameSize(s, goal);
    if s == [] {
      draws := [];
    } else {
      var p: nat :| p < |s| && s[p] == goal[|s| - 1];
      RestPermutes(s, goal, p);
      var rest := ShuffleSurjective(Swap(s, p, |s| - 1)[..|s| - 1], goal[..|s| - 1]);
      ShuffleExtend(s, goal, p, rest);
      draws := rest + [p];
    }
  }

  /** Uniformity: over distinct elements the draw sequences and the orders correspond one to one. */
  lemma {:induction false} ShuffleBijective<T>(s: seq<T>, goal: seq<T>)
    requires Distinct(s)
    ensures multiset(s) == multiset(goal) <==> exists d :: Draws(d, |s|) && Shuffled(s, d) == goal
    ensures forall d, e :: Draws(d, |s|) && Draws(e, |s|) && Shuffled(s, d) == goal && Shuffled(s, e) == goal ==> d == e
  {
    if multiset(s) == multiset(goal) {
      var d := ShuffleSurjective(s, goal);
    }
    forall d | Draws(d, |s|) && Shuffled(s, d) == goal
      ensures multiset(s) == multiset(goal)
    {
      ShuffledPermutes(s, d);
    }
    forall d, e | Draws(d, |s|) && Draws(e, |s|) && Shuffled(s, d) == goal && Shuffled(s, e) == goal
      ensures d == e
    {
      ShuffleInjective(s, d, e);
    }
  }
}
