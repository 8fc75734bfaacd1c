/** Types and sequence functions shared by the other modules. */
module Common {

  type byte = b: int | 0 <= b < 256

  datatype Option<+T> = None | Some(value: T)

  /** A media chunk as the application handles it; `attributes` is the opaque block other peers may attach. */
  datatype Chunk = Chunk(id: int, timestamp: int, data: seq<byte>, attributes: seq<byte>)

  function Min(a: int, b: int): int {
    if a < b then a else b
  }

  function Max(a: int, b: int): int {
    if a > b then a else b
  }

  /** The elements of `s` that satisfy `p`, in order. */
  function Filter<T>(p: T -> bool, s: seq<T>): (r: seq<T>)
    ensures |r| <= |s|
  {
    if s == [] then []
    else
      var (init, last) := (s[..|s| - 1], s[|s| - 1]);
      if p(last) then Filter(p, init) + [last] else Filter(p, init)
  }

  /** `s` without its element at position `i`. */
  function Cut<T>(s: seq<T>, i: nat): (r: seq<T>)
    requires i < |s|
    ensures |r| == |s| - 1
  {
    s[..i] + s[i + 1..]
  }

  lemma {:induction false} CutCons<T>(s: seq<T>, i: nat)
    requires 0 < i < |s|
    ensures Cut(s, i) == [s[0]] + Cut(s[1..], i - 1)
  {
  }

  lemma {:induction false} CutFirst<T>(s: seq<T>)
    requires s != []
    ensures Cut(s, 0) == s[1..]
  {
  }

  lemma {:induction false} CutJoin<T>(front: seq<T>, s: seq<T>, k: nat)
    requires k < |s|
    ensures (front + s[k..])[|front|] == s[k]
    ensures Cut(front + s[k..], |front|) == front + s[k + 1..]
    ensures front + [s[k]] + s[k + 1..] == front + s[k..]
  {
  }

  ghost predicate Distinct<T>(s: seq<T>) {
    forall i, j :: 0 <= i < j < |s| ==> s[i] != s[j]
  }

  /** The `n` integers from `a` on. */
  ghost function Range(a: int, n: nat): (s: set<int>)
    ensures |s| == n
    ensures forall k :: k in s <==> a <= k < a + n
  {
    if n == 0 then {} else Range(a, n - 1) + {a + n - 1}
  }

  ghost function Elements<T(!new)>(s: seq<T>): (r: set<T>)
    ensures forall x :: x in r <==> x in s
  {
    set x | x in s
  }

  /** An `x` stands before a `y`. */
  ghost predicate Precedes<T>(s: seq<T>, x: T, y: T) {
    exists p, q :: 0 <= p < q < |s| && s[p] == x && s[q] == y
  }

  lemma {:induction false} PrecedesLast<T>(s: seq<T>, x: T, y: T)
    requires x in s
    ensures Precedes(s + [y], x, y)
  {
    var p :| 0 <= p < |s| && s[p] == x;
    assert (s + [y])[p] == x && (s + [y])[|s|] == y;
  }

  lemma {:induction false} PrecedesMore<T>(s: seq<T>, z: T, x: T, y: T)
    requires Precedes(s, x, y)
    ensures Precedes(s + [z], x, y)
  {
    var p, q :| 0 <= p < q < |s| && s[p] == x && s[q] == y;
    assert (s + [z])[p] == x && (s + [z])[q] == y;
  }

  lemma {:induction false} FilterMembers<T(!new)>(p: T -> bool, s: seq<T>)
    ensures forall x :: x in Filter(p, s) <==> x in s && p(x)
    ensures Distinct(s) ==> Distinct(Filter(p, s))
  {
    if s != [] {
      var (init, last) := (s[..|s| - 1], s[|s| - 1]);
      FilterMembers(p, init);
      assert s == init + [last];
    }
  }

  /** What passes keeps its order and its copies. */
  lemma {:induction false} FilterKeeps<T>(p: T -> bool, s: seq<T>, x: T)
    ensures multiset(Filter(p, s))[x] == if p(x) then multiset(s)[x] else 0
    ensures forall i, j :: 0 <= i < j < |Filter(p, s)| ==> Precedes(s, Filter(p, s)[i], Filter(p, s)[j])
  {
    FilterCopies(p, s, x);
    FilterOrder(p, s);
  }

  lemma {:induction false} FilterCopies<T>(p: T -> bool, s: seq<T>, x: T)
    ensures multiset(Filter(p, s))[x] == if p(x) then multiset(s)[x] else 0
  {
    if s != [] {
      FilterCopies(p, s[..|s| - 1], x);
      assert s == s[..|s| - 1] + [s[|s| - 1]];
    }
  }

  lemma {:induction false} FilterOrder<T>(p: T -> bool, s: seq<T>)
    ensures forall i, j :: 0 <= i < j < |Filter(p, s)| ==> Precedes(s, Filter(p, s)[i], Filter(p, s)[j])
  {
    if s != [] {
      var (init, last) := (s[..|s| - 1], s[|s| - 1]);
      FilterOrder(p, init);
      assert s == init + [last];
      var (before, all) := (Filter(p, init), Filter(p, s));
      assert all == before || all == before + [last];
      hide Filter, Precedes;
      forall i, j | 0 <= i < j < |all|
        ensures Precedes(s, all[i], all[j])
      {
        if j < |before| {
          PrecedesMore(init, last, before[i], before[j]);
        } else {
          FilterFrom(p, init, before[i]);
          PrecedesLast(init, before[i], last);
        }
      }
    }
  }

  lemma {:induction false} FilterFrom<T>(p: T -> bool, s: seq<T>, x: T)
    requires x in Filter(p, s)
    ensures x in s
  {
    if s != [] && x in Filter(p, s[..|s| - 1]) {
      FilterFrom(p, s[..|s| - 1], x);
    }
  }

  lemma {:induction false} FilterPrefix<T>(p: T -> bool, s: seq<T>, k: nat)
    requires k <= |s|
    ensures Filter(p, s[..k]) <= Filter(p, s)
  {
    if k < |s| {
      assert s[..|s| - 1][..k] == s[..k];
      FilterPrefix(p, s[..|s| - 1], k);
    } else {
      assert s[..k] == s;
    }
  }

  lemma {:induction false} DistinctSize<T(!new)>(s: seq<T>)
    requires Distinct(s)
    ensures |Elements(s)| == |s|
  {
    if s != [] {
      DistinctSize(s[1..]);
      assert s[0] !in s[1..];
      assert Elements(s) == {s[0]} + Elements(s[1..]);
    }
  }

  /** `before` with `s` written over it from position `off` on. */
  function Spliced<T>(before: seq<T>, off: nat, s: seq<T>): (r: seq<T>)
    requires off + |s| <= |before|
    ensures |r| == |before| && r[..off] == before[..off] && r[off..off + |s|] == s
  {
    before[..off] + s + before[off + |s|..]
  }

  lemma {:induction false} RemoveKey<K, V>(m: map<K, V>, k: K)
    requires k in m
    ensures |m - {k}| + 1 == |m|
  {
    assert (m - {k}).Keys == m.Keys - {k};
  }

  // ---------------------------------------------------------------- remainders

  lemma {:induction false} Multiple(q: int, m: int)
    requires m > 0
    ensures q == 0 || q * m >= m || q * m <= -m
  {
    if q >= 1 {
      assert q * m >= 1 * m;
    } else if q <= -1 {
      assert q * m <= (-1) * m;
    }
  }

  lemma {:induction false} SameResidue(a: int, b: int, m: int)
    requires m > 0 && a % m == b % m && -m < a - b < m
    ensures a == b
  {
    Multiple(a / m - b / m, m);
  }

  /** Quotient and remainder are unique. */
  lemma {:induction false} Division(a: int, q: int, r: int, m: int)
    requires 0 <= r < m && a == q * m + r
    ensures a / m == q && a % m == r
  {
    Multiple(a / m - q, m);
  }

  lemma {:induction false} NextResidue(a: int, m: int)
    requires m > 0
    ensures (a + 1) % m == (a % m + 1) % m
  {
    var q, r := a / m, a % m;
    if r + 1 < m {
      Division(a + 1, q, r + 1, m);
      Division(r + 1, 0, r + 1, m);
    } else {
      Division(a + 1, q + 1, 0, m);
      Division(r + 1, 1, 0, m);
    }
  }
}
