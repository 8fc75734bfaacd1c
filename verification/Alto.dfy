/** Peer selection with ratings from an ALTO server (topology-ALTO.c). */
module Alto {
  import opened Common
  import opened NodeIdSet
  import opened Selection
  import opened Topology

  /** A rated host; the rating is -1 until the server answers. */
  datatype Guidance = Guidance(host: int, rating: int)

  const ALTO_TOUT_BMAP := 10_000_000

  // ---------------------------------------------------------------- lists with holes

  /** The entries of a list that have not been taken. */
  function Somes(s: seq<Option<NodeId>>): (r: seq<NodeId>)
    ensures |r| <= |s|
  {
    if s == [] then []
    else if s[0].Some? then [s[0].value] + Somes(s[1..])
    else Somes(s[1..])
  }

  function Ips(s: seq<NodeId>): (r: seq<int>)
    ensures |r| == |s|
  {
    seq(|s|, i requires 0 <= i < |s| => s[i].ip)
  }

  function Hosts(s: seq<Guidance>): (r: seq<int>)
    ensures |r| == |s|
  {
    seq(|s|, i requires 0 <= i < |s| => s[i].host)
  }

  function AllSome(s: seq<NodeId>): (r: seq<Option<NodeId>>)
    ensures |r| == |s|
  {
    seq(|s|, i requires 0 <= i < |s| => Some(s[i]))
  }

  lemma {:induction false} SomesAll(s: seq<NodeId>)
    ensures Somes(AllSome(s)) == s
  {
    if s != [] {
      SomesAll(s[1..]);
      assert AllSome(s)[1..] == AllSome(s[1..]);
    }
  }

  lemma {:induction false} CutMultiset<T>(s: seq<T>, k: nat)
    requires k < |s|
    ensures multiset(s) == multiset(Cut(s, k)) + multiset{s[k]}
  {
    assert s == s[..k] + [s[k]] + s[k + 1..];
  }

  /** The entry taken from `s` is one of the entries left, at position `k`. */
  lemma {:induction false} SomesCut(s: seq<Option<NodeId>>, p: nat) returns (k: nat)
    requires p < |s| && s[p].Some?
    ensures k < |Somes(s)| && Somes(s)[k] == s[p].value && Somes(s[p := None]) == Cut(Somes(s), k)
  {
    if p == 0 {
      k := 0;
      assert s[p := None][1..] == s[1..];
    } else {
      var rest := s[1..];
      k := SomesCut(rest, p - 1);
      assert s[p := None][1..] == rest[p - 1 := None];
      if s[0].Some? {
        assert Cut(Somes(s), k + 1) == [s[0].value] + Cut(Somes(rest), k);
        k := k + 1;
      }
    }
  }

  /** Taking an entry leaves the others. */
  lemma {:induction false} SomesTake(s: seq<Option<NodeId>>, p: nat)
    requires p < |s| && s[p].Some?
    ensures multiset(Somes(s)) == multiset(Somes(s[p := None])) + multiset{s[p].value}
    ensures multiset(Ips(Somes(s))) == multiset(Ips(Somes(s[p := None]))) + multiset{s[p].value.ip}
  {
    var k := SomesCut(s, p);
    CutMultiset(Somes(s), k);
    CutMultiset(Ips(Somes(s)), k);
    assert Ips(Cut(Somes(s), k)) == Cut(Ips(Somes(s)), k);
  }

  lemma {:induction false} IpsPush(x: NodeId, s: seq<NodeId>)
    ensures Ips([x] + s) == [x.ip] + Ips(s)
  {
  }

  lemma {:induction false} SomesHas(s: seq<Option<NodeId>>, ip: int)
    requires ip in Ips(Somes(s))
    ensures exists p :: 0 <= p < |s| && s[p].Some? && s[p].value.ip == ip
  {
    if s[0].Some? && s[0].value.ip == ip {
    } else {
      if s[0].Some? {
        IpsPush(s[0].value, Somes(s[1..]));
      }
      SomesHas(s[1..], ip);
      var p :| 0 <= p < |s[1..]| && s[1..][p].Some? && s[1..][p].value.ip == ip;
      assert s[p + 1].Some? && s[p + 1].value.ip == ip;
    }
  }

  lemma {:induction false} SomesSome(s: seq<Option<NodeId>>)
    requires Somes(s) != []
    ensures exists p :: 0 <= p < |s| && s[p].Some?
  {
    SomesHas(s, Ips(Somes(s))[0]);
  }

  lemma {:induction false} PartDistinctOf<T>(s: seq<T>, taken: seq<T>, rest: seq<T>)
    requires Distinct(s) && multiset(s) == multiset(taken) + multiset(rest)
    ensures Distinct(taken) && |s| == |taken| + |rest|
  {
    assert |multiset(s)| == |s| && |multiset(taken)| == |taken| && |multiset(rest)| == |rest|;
    forall i, j | 0 <= i < j < |taken|
      ensures taken[i] != taken[j]
    {
      OnceInDistinct(s, taken[i]);
      if taken[i] == taken[j] {
        Repeated(taken, i, j);
      }
    }
  }

  // ---------------------------------------------------------------- the query

  ghost predicate ByRating(s: seq<Guidance>) {
    forall i, j :: 0 <= i < j < |s| ==> s[i].rating <= s[j].rating
  }

  /** qsort: some rearrangement, ordered by rating. */
  ghost predicate Sorts(order: seq<Guidance> -> seq<Guidance>) {
    forall s {:trigger order(s)} :: multiset(order(s)) == multiset(s) && ByRating(order(s))
  }

  /** A sort that keeps equal ratings in place, one of those that qsort may be. */
  function Inserted(x: Guidance, s: seq<Guidance>): (r: seq<Guidance>)
    ensures multiset(r) == multiset(s) + multiset{x}
  {
    if s == [] then [x]
    else if x.rating <= s[0].rating then
      [x] + s
    else
      assert s == [s[0]] + s[1..];
      [s[0]] + Inserted(x, s[1..])
  }

  function InsertionSorted(s: seq<Guidance>): (r: seq<Guidance>)
    ensures multiset(r) == multiset(s)
  {
    if s == [] then []
    else
      assert s == [s[0]] + s[1..];
      Inserted(s[0], InsertionSorted(s[1..]))
  }

  lemma {:induction false} InsertedByRating(x: Guidance, s: seq<Guidance>)
    requires ByRating(s)
    ensures ByRating(Inserted(x, s))
  {
    if s != [] && x.rating > s[0].rating {
      InsertedByRating(x, s[1..]);
      var rest := Inserted(x, s[1..]);
      forall k | 0 <= k < |rest|
        ensures s[0].rating <= rest[k].rating
      {
        assert rest[k] in multiset(rest);
        assert rest[k] == x || rest[k] in s[1..];
      }
    }
  }

  lemma {:induction false} SortedByRating(s: seq<Guidance>)
    ensures ByRating(InsertionSorted(s))
  {
    if s != [] {
      SortedByRating(s[1..]);
      InsertedByRating(s[0], InsertionSorted(s[1..]));
    }
  }

  /** There is such a sort; addresses 2 and 1 rated 1 and 5 come in this order. */
  lemma {:induction false} SortExists()
    ensures Sorts(InsertionSorted)
    ensures InsertionSorted([Guidance(1, 5), Guidance(2, 1)]) == [Guidance(2, 1), Guidance(1, 5)]
  {
    forall s: seq<Guidance>
      ensures ByRating(InsertionSorted(s))
    {
      SortedByRating(s);
    }
  }

  function Asked(ids: seq<NodeId>): (r: seq<Guidance>)
    ensures |r| == |ids|
  {
    seq(|ids|, i requires 0 <= i < |ids| => Guidance(ids[i].ip, -1))
  }

  /** The server's answer: it fills in ratings and nothing else. */
  function Rated(s: seq<Guidance>, ratings: nat -> int): (r: seq<Guidance>)
    ensures |r| == |s| && Hosts(r) == Hosts(s)
  {
    seq(|s|, i requires 0 <= i < |s| => s[i].(rating := ratings(i)))
  }

  lemma {:induction false} HostsCut(s: seq<Guidance>, k: nat)
    requires k < |s|
    ensures multiset(Hosts(s)) == multiset(Hosts(Cut(s, k))) + multiset{s[k].host}
  {
    CutMultiset(Hosts(s), k);
    assert Hosts(Cut(s, k)) == Cut(Hosts(s), k);
  }

  lemma {:induction false} HostsPermute(s: seq<Guidance>, t: seq<Guidance>)
    requires multiset(s) == multiset(t)
    ensures multiset(Hosts(s)) == multiset(Hosts(t)) && |s| == |t|
    decreases |s|
  {
    hide Hosts, Cut;
    SameSize(s, t);
    if s != [] {
      var n := |s| - 1;
      var k: nat :| k < |s| && s[k] == t[n];
      CutMultiset(s, k);
      CutMultiset(t, n);
      HostsCut(s, k);
      HostsCut(t, n);
      assert multiset(Cut(s, k)) == multiset(s) - multiset{t[n]} == multiset(Cut(t, n));
      CutSize(s, k);
      HostsPermute(Cut(s, k), Cut(t, n));
    } else {
      assert t == [];
    }
  }

  lemma {:induction false} CutSize<T>(s: seq<T>, k: nat)
    requires k < |s|
    ensures |Cut(s, k)| < |s|
  {
  }

  // ---------------------------------------------------------------- building the buckets

  /** Looks an address up among the entries not taken yet, and takes the entry. */
  method FindAltoPeer(neighbours: array<Option<NodeId>>, host: int) returns (res: Option<NodeId>, ghost at: nat)
    modifies neighbours
    ensures res.Some? ==> at < neighbours.Length && old(neighbours[at]) == res && res.value.ip == host
    ensures res.Some? ==> neighbours[..] == old(neighbours[..])[at := None]
    ensures res.None? ==> neighbours[..] == old(neighbours[..])
    ensures res.None? ==>
      forall p :: 0 <= p < neighbours.Length && neighbours[p].Some? ==> neighbours[p].value.ip != host
  {
    for p := 0 to neighbours.Length
      invariant neighbours[..] == old(neighbours[..])
      invariant forall q :: 0 <= q < p && neighbours[q].Some? ==> neighbours[q].value.ip != host
    {
      if neighbours[p].Some? && neighbours[p].value.ip == host {
        res, at := neighbours[p], p;
        neighbours[p] := None;
        return;
      }
    }
    res, at := None, 0;
  }

  /** Nothing is lost and nothing is duplicated: `list` was taken from `start`, `now` still has the rest. */
  ghost predicate Taken(start: seq<Option<NodeId>>, list: seq<NodeId>, now: seq<Option<NodeId>>) {
    multiset(Somes(start)) == multiset(list) + multiset(Somes(now)) && |Somes(start)| == |list| + |Somes(now)|
  }

  /** The addresses still present are those of the guidance from entry `i` on. */
  ghost predicate Matches(sorted: seq<Guidance>, i: nat, now: seq<Option<NodeId>>) {
    i <= |sorted| && multiset(Ips(Somes(now))) == multiset(Hosts(sorted[i..]))
  }

  lemma {:induction false} TakeOne(start: seq<Option<NodeId>>, list: seq<NodeId>, now: seq<Option<NodeId>>, p: nat)
    requires Taken(start, list, now) && p < |now| && now[p].Some?
    ensures Taken(start, list + [now[p].value], now[p := None])
  {
    SomesTake(now, p);
    assert |multiset(Somes(now))| == |Somes(now)| && |multiset(Somes(now[p := None]))| == |Somes(now[p := None])|;
  }

  lemma {:induction false} MatchOne(sorted: seq<Guidance>, i: nat, now: seq<Option<NodeId>>)
    requires Matches(sorted, i, now) && i < |sorted|
    ensures exists p :: 0 <= p < |now| && now[p].Some? && now[p].value.ip == sorted[i].host
    ensures forall p :: 0 <= p < |now| && now[p].Some? && now[p].value.ip == sorted[i].host
                        ==> Matches(sorted, i + 1, now[p := None])
  {
    assert Hosts(sorted[i..]) == [sorted[i].host] + Hosts(sorted[i + 1..]);
    assert sorted[i].host in multiset(Hosts(sorted[i..]));
    assert sorted[i].host in Ips(Somes(now));
    SomesHas(now, sorted[i].host);
    forall p | 0 <= p < |now| && now[p].Some? && now[p].value.ip == sorted[i].host
      ensures Matches(sorted, i + 1, now[p := None])
    {
      SomesTake(now, p);
      assert multiset(Hosts(sorted[i + 1..])) == multiset(Hosts(sorted[i..])) - multiset{sorted[i].host};
      assert multiset(Ips(Somes(now[p := None]))) == multiset(Ips(Somes(now))) - multiset{sorted[i].host};
    }
  }

  lemma {:induction false} LeftOver(start: seq<Option<NodeId>>, list: seq<NodeId>, now: seq<Option<NodeId>>)
    requires Taken(start, list, now) && |list| < |Somes(start)|
    ensures exists p :: 0 <= p < |now| && now[p].Some?
  {
    SomesSome(now);
  }

  /** The list of selected peers, lines 254-277: first the best rated, then random ones. Every lookup succeeds
      and every random pick finds an entry that has not been taken. */
  method BuildList(current: array<Option<NodeId>>, sorted: seq<Guidance>, bucket: nat, others: nat)
    returns (list: seq<NodeId>)
    requires Matches(sorted, 0, current[..]) && |sorted| == |Somes(current[..])| && bucket + others <= |sorted|
    modifies current
    ensures |list| == bucket + others && Taken(old(current[..]), list, current[..])
    ensures forall i :: 0 <= i < bucket ==> list[i].ip == sorted[i].host
  {
    hide *;
    ghost var start := current[..];
    list := [];
    TakenStart(start);
    for i := 0 to bucket
      invariant |list| == i && Taken(start, list, current[..]) && Matches(sorted, i, current[..])
      invariant forall k :: 0 <= k < i ==> list[k].ip == sorted[k].host
    {
      ghost var was := current[..];
      MatchOne(sorted, i, was);
      var res, at := FindAltoPeer(current, sorted[i].host);
      assert res.Some?;
      if res.Some? {
        TakeOne(start, list, was, at);
        list := list + [res.value];
      }
    }
    for i := 0 to others
      invariant |list| == bucket + i && Taken(start, list, current[..])
      invariant forall k :: 0 <= k < bucket ==> list[k].ip == sorted[k].host
    {
      ghost var was := current[..];
      LeftOver(start, list, was);
      var p: nat :| p < current.Length && current[..][p].Some?;
      TakeOne(start, list, was, p);
      list := list + [current[p].value];
      current[p] := None;
      assert current[..] == was[p := None];
    }
  }

  lemma {:induction false} TakenDistinct(start: seq<Option<NodeId>>, list: seq<NodeId>, now: seq<Option<NodeId>>)
    requires Taken(start, list, now) && Distinct(Somes(start))
    ensures Distinct(list)
  {
    PartDistinctOf(Somes(start), list, Somes(now));
  }

  lemma {:induction false} TakenStart(start: seq<Option<NodeId>>)
    ensures Taken(start, [], start)
  {
  }

  // ---------------------------------------------------------------- composing the peer set

  /** The peer set grows by the listed ids that are not in it, one at a time; when it is full somebody unlisted
      makes room. `s` is what the merge leads to from `s0` after the first `k` ids. */
  ghost predicate Merging(s0: seq<Peer>, list: seq<NodeId>, k: nat, target: nat, s: seq<Peer>) {
    && k <= |list| && Distinct(Ids(s))
    && (forall i :: 0 <= i < k ==> list[i] in Ids(s))
    && (forall p :: p in s0 && p.id in list ==> p in s)
    && (forall x :: x in Ids(s) ==> x in Ids(s0) || x in list[..k])
    && |s| == GrownSize(target, |s0|, |Minus(list[..k], Ids(s0))|)
  }

  function GrownSize(target: nat, before: nat, new_: nat): nat {
    if target == 0 then before + new_ else Max(before, Min(target, before + new_))
  }

  /** Pigeonhole: a full peer set that lacks one of at most `target` listed ids has an unlisted member. */
  lemma {:induction false} SomebodyUnlisted(s: seq<Peer>, list: seq<NodeId>, x: NodeId, target: nat)
    requires Distinct(Ids(s)) && |list| <= target <= |s| && x in list && x !in Ids(s)
    ensures exists j :: 0 <= j < |s| && s[j].id !in list
  {
    if forall j :: 0 <= j < |s| ==> s[j].id in list {
      var ids := Elements(Ids(s));
      DistinctSize(Ids(s));
      forall y | y in ids
        ensures y in Elements(list) - {x}
      {
        var i :| 0 <= i < |s| && Ids(s)[i] == y;
        assert s[i].id in list;
      }
      SetSize(ids, Elements(list) - {x});
      ElementsSize(list);
      assert false;
    }
  }

  lemma {:induction false} ElementsSize<T(!new)>(s: seq<T>)
    ensures |Elements(s)| <= |s|
  {
    if s != [] {
      ElementsSize(s[1..]);
      assert Elements(s) == {s[0]} + Elements(s[1..]);
    }
  }

  lemma {:induction false} MinusPush(list: seq<NodeId>, k: nat, ids: seq<NodeId>)
    requires k < |list|
    ensures |Minus(list[..k + 1], ids)| == |Minus(list[..k], ids)| + if list[k] in ids then 0 else 1
  {
    assert list[..k + 1][..k] == list[..k];
  }

  lemma {:induction false} NotBefore<T>(s: seq<T>, k: nat)
    requires Distinct(s) && k < |s|
    ensures s[k] !in s[..k]
  {
  }

  lemma {:induction false} MergeSkip(s0: seq<Peer>, list: seq<NodeId>, k: nat, target: nat, s: seq<Peer>)
    requires Merging(s0, list, k, target, s) && k < |list| && Distinct(list) && list[k] in Ids(s)
    ensures Merging(s0, list, k + 1, target, s)
  {
    hide Ids, Minus, Distinct, GrownSize;
    MinusPush(list, k, Ids(s0));
    NotBefore(list, k);
    assert list[..k + 1] == list[..k] + [list[k]];
  }

  lemma {:induction false} ListedStay(s0: seq<Peer>, list: seq<NodeId>, k: nat, target: nat, s: seq<Peer>)
    requires Merging(s0, list, k, target, s) && k < |list|
    ensures list[k] in Ids(s0) ==> list[k] in Ids(s)
  {
    IdsMembers(s0);
    IdsMembers(s);
    if list[k] in Ids(s0) {
      var p :| p in s0 && p.id == list[k];
      assert p.id in list;
    }
  }

  /** A listed id joins `rest`, which is the peer set or what an eviction left of it. */
  lemma {:induction false} MergeAdd(s0: seq<Peer>, list: seq<NodeId>, k: nat, target: nat, s: seq<Peer>,
                                    rest: seq<Peer>, now: int)
    requires Merging(s0, list, k, target, s) && k < |list| && list[k] !in Ids(s) && Distinct(Ids(rest))
    requires forall p :: p in s && p.id in list ==> p in rest
    requires forall x :: x in Ids(rest) ==> x in Ids(s)
    requires forall x :: x in Ids(s) && x in list ==> x in Ids(rest)
    requires |rest| + 1 == GrownSize(target, |s0|, |Minus(list[..k], Ids(s0))| + 1)
    ensures Merging(s0, list, k + 1, target, Added(rest, list[k], None, now))
  {
    hide Ids, Distinct, Minus, GrownSize, Added;
    ListedStay(s0, list, k, target, s);
    MinusPush(list, k, Ids(s0));
    AddedUnknown(rest, list[k], now);
    AddedDistinct(rest, list[k], None, now);
    assert forall i :: 0 <= i < k ==> list[i] in list && list[i] in Ids(rest);
    assert list[..k + 1] == list[..k] + [list[k]];
  }

  lemma {:induction false} RemovedSize(s: seq<Peer>, j: nat)
    requires Distinct(Ids(s)) && j < |s|
    ensures |Removed(s, s[j].id)| == |s| - 1
  {
    RemovedAt(s, j);
  }

  lemma {:induction false} RemovedIds(s: seq<Peer>, id: NodeId)
    requires Distinct(Ids(s))
    ensures forall x :: x in Ids(Removed(s, id)) <==> x in Ids(s) && x != id
  {
    RemovedMembers(s, id);
    IdsMembers(s);
    IdsMembers(Removed(s, id));
  }

  lemma {:induction false} MergeGrow(s0: seq<Peer>, list: seq<NodeId>, k: nat, target: nat, s: seq<Peer>, now: int)
    requires Merging(s0, list, k, target, s) && k < |list| && list[k] !in Ids(s) && (target == 0 || |s| < target)
    ensures Merging(s0, list, k + 1, target, Added(s, list[k], None, now))
  {
    MergeAdd(s0, list, k, target, s, s, now);
  }

  lemma {:induction false} MergeSwap(s0: seq<Peer>, list: seq<NodeId>, k: nat, target: nat, s: seq<Peer>, j: nat,
                                     now: int)
    requires Merging(s0, list, k, target, s) && k < |list| && list[k] !in Ids(s) && 0 < target <= |s|
    requires j < |s| && s[j].id !in list
    ensures Merging(s0, list, k + 1, target, Added(Removed(s, s[j].id), list[k], None, now))
  {
    hide Ids, Distinct, Minus, Added, Removed;
    RemovedMembers(s, s[j].id);
    RemovedSize(s, j);
    RemovedIds(s, s[j].id);
    assert forall x :: x in list ==> x != s[j].id;
    MergeAdd(s0, list, k, target, s, Removed(s, s[j].id), now);
  }

  /** The share of the list that goes to the best rated peers. */
  function BucketSize(factor: real, size: nat): (bucket: nat)
    requires 0.0 <= factor <= 1.0
    ensures bucket <= size
  {
    ShareBelow(factor, size);
    (factor * (size as real)).Floor
  }

  /** The bucket holds entry i exactly if i + 1 entries are within the share. */
  lemma {:induction false} InBucket(factor: real, size: nat, i: nat)
    requires 0.0 <= factor <= 1.0
    ensures i < BucketSize(factor, size) <==> (i + 1) as real <= factor * size as real
  {
  }

  lemma {:induction false} BucketFirst(factor: real, list: seq<NodeId>, g: seq<Guidance>)
    requires 0.0 <= factor <= 1.0 && |list| <= |g|
    requires forall i :: 0 <= i < BucketSize(factor, |list|) ==> list[i].ip == g[i].host
    ensures forall i :: 0 <= i < |list| && (i + 1) as real <= factor * |list| as real ==> list[i].ip == g[i].host
  {
    hide BucketSize;
    forall i | 0 <= i < |list| && (i + 1) as real <= factor * |list| as real
      ensures list[i].ip == g[i].host
    {
      InBucket(factor, |list|, i);
    }
  }

  /** What a reply makes of a neighbourhood: the guidance holds each address with the server's rating, lowest rating
      first; the list has the planned size, begins with the first hosts of the guidance, as many as fit the planned
      share, and together with the rest it is the neighbourhood. */
  ghost predicate BuiltFrom(neighbours: seq<NodeId>, ratings: nat -> int, target: nat, factor: real, g: seq<Guidance>,
                            list: seq<NodeId>, rest: seq<NodeId>)
  {
    && |list| == (if 0 < target < |neighbours| then target else |neighbours|) <= |g|
    && multiset(neighbours) == multiset(list) + multiset(rest)
    && RatedBy(neighbours, ratings, g)
    && (forall i, j :: 0 <= i < j < |g| ==> g[i].rating <= g[j].rating)
    && forall i :: 0 <= i < |list| && (i + 1) as real <= factor * |list| as real ==> list[i].ip == g[i].host
  }

  /** The bucket holds the best rated: entry i of the list, within the share, has an address that the server rated, and
      no address beyond the share is rated better. */
  lemma {:induction false} BestRated(neighbours: seq<NodeId>, ratings: nat -> int, target: nat, factor: real,
                                     g: seq<Guidance>, list: seq<NodeId>, rest: seq<NodeId>, i: nat, j: nat)
    requires BuiltFrom(neighbours, ratings, target, factor, g, list, rest)
    requires i < |list| && (i + 1) as real <= factor * |list| as real && j < |g|
      && factor * |list| as real < (j + 1) as real
    ensures list[i].ip == g[i].host && g[i].rating <= g[j].rating
    ensures exists k :: 0 <= k < |neighbours| && neighbours[k].ip == list[i].ip && ratings(k) == g[i].rating
    ensures multiset(g) ==
      multiset(seq(|neighbours|, k requires 0 <= k < |neighbours| => Guidance(neighbours[k].ip, ratings(k))))
  {
    var want := seq(|neighbours|, k requires 0 <= k < |neighbours| => Guidance(neighbours[k].ip, ratings(k)));
    assert g[i] in multiset(g);
    assert g[i] in want;
    var k :| 0 <= k < |want| && want[k] == g[i];
    assert neighbours[k].ip == g[i].host;
  }

  lemma {:induction false} ListIsBuilt(start: seq<Option<NodeId>>, ratings: nat -> int, target: nat, factor: real,
                                       g: seq<Guidance>, list: seq<NodeId>, now: seq<Option<NodeId>>)
    requires 0.0 <= factor <= 1.0 && Taken(start, list, now) && RatedBy(Somes(start), ratings, g) && ByRating(g)
    requires |list| == (if 0 < target < |Somes(start)| then target else |Somes(start)|) <= |g|
    requires forall i :: 0 <= i < BucketSize(factor, |list|) ==> list[i].ip == g[i].host
    ensures BuiltFrom(Somes(start), ratings, target, factor, g, list, Somes(now))
  {
    hide BucketSize, RatedBy, Somes;
    BucketFirst(factor, list, g);
  }

  /** The merge as a whole: every listed id is in, nobody listed was lost, everybody else was there before, and
      the size grows with the newcomers up to the target but never shrinks. */
  lemma {:induction false} MergedIds(s0: seq<Peer>, list: seq<NodeId>, target: nat, s: seq<Peer>)
    requires Merging(s0, list, |list|, target, s)
    ensures Distinct(Ids(s)) && (forall i :: 0 <= i < |list| ==> list[i] in Ids(s))
    ensures forall p :: p in s0 && p.id in list ==> p in s
    ensures forall x :: x in Ids(s) ==> x in Ids(s0) || x in list
    ensures |s| == if target == 0 then |Union(Ids(s0), list)| else Max(|s0|, Min(target, |Union(Ids(s0), list)|))
  {
    assert list[..|list|] == list;
  }

  lemma {:induction false} UnionSize(as': seq<NodeId>, bs: seq<NodeId>)
    ensures |Union(as', bs)| <= |as'| + |bs|
  {
  }

  lemma {:induction false} LiveIds(s: seq<Peer>, told: int)
    ensures forall p :: p in Live(s, told) ==> !Stale(p, told)
    ensures forall x :: x in Ids(Live(s, told)) ==> x in Ids(s)
  {
    LiveMembers(s, told);
    IdsMembers(s);
    IdsMembers(Live(s, told));
  }

  // ---------------------------------------------------------------- the peer set afterwards, exactly

  /** Records as add_peer makes them. */
  function Newborn(ids: seq<NodeId>, now: int): (r: seq<Peer>)
    ensures |r| == |ids|
  {
    seq(|ids|, i requires 0 <= i < |ids| => Peer(ids[i], 0, now, 0, 0.0))
  }

  /** What is left of `s` when its first `m` peers that are not listed have been evicted. */
  function Spared(s: seq<Peer>, list: seq<NodeId>, m: nat): seq<Peer> {
    if s == [] || m == 0 then s
    else if s[0].id in list then [s[0]] + Spared(s[1..], list, m)
    else Spared(s[1..], list, m - 1)
  }

  /** How many peers make room for `new_` new ones. */
  function Evictions(target: nat, before: nat, new_: nat): nat {
    before + new_ - GrownSize(target, before, new_)
  }

  /** The merge of a whole list: unlisted peers make room, the first ones first, and the missing ids come last. */
  function Merged(s: seq<Peer>, list: seq<NodeId>, target: nat, now: int): seq<Peer> {
    var missing := Minus(list, Ids(s));
    Spared(s, list, Evictions(target, |s|, |missing|)) + Newborn(missing, now)
  }

  /** The merge of the first `k` ids of the list. */
  ghost predicate MergedSoFar(s0: seq<Peer>, list: seq<NodeId>, k: nat, target: nat, now: int, s: seq<Peer>) {
    && k <= |list|
    && var missing := Minus(list[..k], Ids(s0));
       s == Spared(s0, list, Evictions(target, |s0|, |missing|)) + Newborn(missing, now)
  }

  lemma {:induction false} SparedNext(s: seq<Peer>, list: seq<NodeId>, m: nat, j: nat)
    requires j < |Spared(s, list, m)| && Spared(s, list, m)[j].id !in list
    requires forall i :: 0 <= i < j ==> Spared(s, list, m)[i].id in list
    ensures Spared(s, list, m + 1) == Cut(Spared(s, list, m), j)
  {
    hide Cut;
    if s[0].id in list {
      var rest := Spared(s[1..], list, m);
      assert Spared(s, list, m) == [s[0]] + rest by { SparedListed(s, list, m); }
      var all := [s[0]] + rest;
      assert forall i :: 0 <= i < |rest| ==> rest[i] == all[i + 1];
      SparedNext(s[1..], list, m, j - 1);
      CutCons([s[0]] + rest, j);
      assert ([s[0]] + rest)[1..] == rest;
    } else if m > 0 {
      SparedNext(s[1..], list, m - 1, j);
    } else {
      CutFirst(s);
    }
  }

  lemma {:induction false} SparedListed(s: seq<Peer>, list: seq<NodeId>, m: nat)
    requires s != [] && s[0].id in list
    ensures Spared(s, list, m) == [s[0]] + Spared(s[1..], list, m)
  {
  }

  lemma {:induction false} MinusNext(list: seq<NodeId>, k: nat, ids: seq<NodeId>)
    requires k < |list|
    ensures Minus(list[..k + 1], ids) ==
      if list[k] in ids then Minus(list[..k], ids) else Minus(list[..k], ids) + [list[k]]
  {
    assert list[..k + 1][..k] == list[..k];
  }

  lemma {:induction false} NewbornPush(ids: seq<NodeId>, id: NodeId, now: int)
    ensures Newborn(ids + [id], now) == Newborn(ids, now) + [Peer(id, 0, now, 0, 0.0)]
  {
  }

  lemma {:induction false} ExactSkip(s0: seq<Peer>, list: seq<NodeId>, k: nat, target: nat, now: int, s: seq<Peer>)
    requires MergedSoFar(s0, list, k, target, now, s) && k < |list| && list[k] in Ids(s0)
    ensures MergedSoFar(s0, list, k + 1, target, now, s)
  {
    hide Spared, Newborn, Minus;
    MinusNext(list, k, Ids(s0));
  }

  lemma {:induction false} ExactGrow(s0: seq<Peer>, list: seq<NodeId>, k: nat, target: nat, now: int, s: seq<Peer>)
    requires MergedSoFar(s0, list, k, target, now, s) && k < |list| && list[k] !in Ids(s0) && list[k] !in Ids(s)
    requires |s| == GrownSize(target, |s0|, |Minus(list[..k], Ids(s0))|) && (target == 0 || |s| < target)
    ensures MergedSoFar(s0, list, k + 1, target, now, Added(s, list[k], None, now))
  {
    hide Spared, Newborn, Minus, Ids, Added;
    var missing := Minus(list[..k], Ids(s0));
    MinusNext(list, k, Ids(s0));
    NewbornPush(missing, list[k], now);
    AddedUnknown(s, list[k], now);
    var left := Spared(s0, list, Evictions(target, |s0|, |missing|));
    assert left + Newborn(missing, now) + [Peer(list[k], 0, now, 0, 0.0)]
        == left + (Newborn(missing, now) + [Peer(list[k], 0, now, 0, 0.0)]);
  }

  lemma {:induction false} ExactSwap(s0: seq<Peer>, list: seq<NodeId>, k: nat, target: nat, now: int, s: seq<Peer>,
                                     j: nat)
    requires MergedSoFar(s0, list, k, target, now, s) && k < |list| && list[k] !in Ids(s0) && list[k] !in Ids(s)
    requires Distinct(Ids(s)) && |s| == GrownSize(target, |s0|, |Minus(list[..k], Ids(s0))|) && 0 < target <= |s|
    requires j < |s| && s[j].id !in list && forall i :: 0 <= i < j ==> s[i].id in list
    ensures MergedSoFar(s0, list, k + 1, target, now, Added(Removed(s, s[j].id), list[k], None, now))
  {
    hide Spared, Newborn, Minus, Ids, Added, Removed, Distinct, Cut;
    var missing := Minus(list[..k], Ids(s0));
    var m := Evictions(target, |s0|, |missing|);
    var (left, fresh') := (Spared(s0, list, m), Newborn(missing, now));
    MinusNext(list, k, Ids(s0));
    NewbornPush(missing, list[k], now);
    RemovedAt(s, j);
    if j >= |left| {
      InRight(left, fresh', j);
      NewbornListed(list, k, s0, now);
    }
    assert forall i :: 0 <= i < |left| ==> s[i] == left[i];
    SparedNext(s0, list, m, j);
    CutLeft(left, fresh', j);
    RemovedIds(s, s[j].id);
    AddedUnknown(Removed(s, s[j].id), list[k], now);
    assert Cut(left, j) + fresh' + [Peer(list[k], 0, now, 0, 0.0)]
        == Cut(left, j) + (fresh' + [Peer(list[k], 0, now, 0, 0.0)]);
  }

  lemma {:induction false} InRight<T>(s: seq<T>, t: seq<T>, j: nat)
    requires |s| <= j < |s + t|
    ensures (s + t)[j] == t[j - |s|]
  {
  }

  lemma {:induction false} CutLeft<T>(s: seq<T>, t: seq<T>, j: nat)
    requires j < |s|
    ensures Cut(s + t, j) == Cut(s, j) + t
  {
  }

  lemma {:induction false} NewbornListed(list: seq<NodeId>, k: nat, s0: seq<Peer>, now: int)
    requires k <= |list|
    ensures forall i :: 0 <= i < |Minus(list[..k], Ids(s0))| ==> Newborn(Minus(list[..k], Ids(s0)), now)[i].id in list
  {
    hide Minus, Ids;
    var missing := Minus(list[..k], Ids(s0));
    MinusMembers(list[..k], Ids(s0));
    assert forall i :: 0 <= i < |missing| ==> missing[i] in missing;
  }

  lemma {:induction false} ExactEnds(s0: seq<Peer>, list: seq<NodeId>, target: nat, now: int, s: seq<Peer>)
    ensures MergedSoFar(s0, list, 0, target, now, s0)
    ensures MergedSoFar(s0, list, |list|, target, now, s) ==> s == Merged(s0, list, target, now)
  {
    assert list[..|list|] == list && Newborn([], now) == [];
    assert s0 + [] == s0;
  }

  /** The peer set when the neighbours have been offered to it. */
  function Topped(s: seq<Peer>, nbrs: seq<NodeId>, target: nat, now: int): seq<Peer> {
    if target == 0 || |s| < target then s + Newborn(Minus(nbrs, Ids(s)), now) else s
  }

  lemma {:induction false} ToppedIs(s: seq<Peer>, nbrs: seq<NodeId>, target: nat, now: int)
    requires target == 0 || |s| < target
    ensures Topped(s, nbrs, target, now) == s + Newborn(Minus(nbrs, Ids(s)), now)
  {
  }

  /** The sequel of update_peers: results in hand (1) are merged, then the neighbours fill up. */
  function Composed(s: seq<Peer>, list: seq<NodeId>, nbrs: seq<NodeId>, target: nat, merged: bool,
                    now: int): seq<Peer> {
    Topped(if merged then Merged(s, list, target, now) else s, nbrs, target, now)
  }

  lemma {:induction false} NobodyEvicted(s: seq<Peer>, list: seq<NodeId>, target: nat, now: int)
    ensures target == 0 || |Union(Ids(s), list)| <= target ==> s <= Merged(s, list, target, now)
  {
    hide Minus, Newborn;
  }

  lemma {:induction false} ComposedIs(s: seq<Peer>, list: seq<NodeId>, nbrs: seq<NodeId>, target: nat, merged: bool,
                                      now: int)
    ensures Composed(s, list, nbrs, target, merged, now) ==
      Topped(if merged then Merged(s, list, target, now) else s, nbrs, target, now)
  {
  }

  /** What becomes of the peers `s`: `r` stay or join, `gone` are blacklisted. Listed ids are merged in, silent peers
      go, and only a merge lets anybody else go; an unfilled set takes the neighbours in; and the size is bounded. */
  ghost predicate Served(s: seq<Peer>, list: seq<NodeId>, nbrs: seq<NodeId>, target: nat, merged: bool, told: int,
                         r: seq<Peer>, gone: seq<NodeId>)
  {
    && (merged ==> forall x :: x in list ==> x in Ids(r) || x in gone)
    && (forall p :: p in s && !Stale(p, told) && (!merged || p.id in list) ==> p in r)
    && (if target == 0 || (if merged then |Union(Ids(s), list)| else |s|) < target
        then forall x :: x in nbrs ==> x in Ids(r) || x in gone
        else forall x :: x in Ids(r) ==> x in Ids(s) || (merged && x in list))
    && (merged && (target == 0 || |Union(Ids(s), list)| <= target) ==> forall p :: p in s && !Stale(p, told) ==> p in r)
    && (forall p :: p in r ==> !Stale(p, told))
    && (forall x :: x in Ids(r) ==> x in Ids(s) || x in list || x in nbrs)
    && (target > 0 ==> |r| <= Max(|s|, if merged then target - 1 + Max(1, |nbrs|) else target - 1 + |nbrs|))
    && (target == 0 ==> |r| <= |s| + |nbrs| + if merged then |list| else 0)
  }

  lemma {:induction false} ServedMore(s: seq<Peer>, list: seq<NodeId>, nbrs: seq<NodeId>, target: nat, merged: bool,
                                      told: int, r: seq<Peer>, gone: seq<NodeId>, earlier: seq<NodeId>)
    requires Served(s, list, nbrs, target, merged, told, r, gone)
    ensures Served(s, list, nbrs, target, merged, told, r, earlier + gone)
  {
    hide Ids, Stale;
  }

  /** What follows for the peer set: `met` after the merge, `pre` after the neighbours have filled it up. */
  lemma {:induction false} ComposedMeaning(s: seq<Peer>, list: seq<NodeId>, nbrs: seq<NodeId>, target: nat,
                                           merged: bool,
                                           met: seq<Peer>, pre: seq<Peer>, told: int, now: int)
    requires Distinct(Ids(pre)) && met <= pre
    requires if merged then Merging(s, list, |list|, target, met) && met == Merged(s, list, target, now) else met == s
    requires merged && target > 0 ==> |list| <= target
    requires forall x :: x in Ids(pre) <==> x in Ids(met) || (x in nbrs && (target == 0 || |met| < target))
    requires |pre| <= |met| + if target == 0 || |met| < target then |nbrs| else 0
    ensures Served(s, list, nbrs, target, merged, told, Live(pre, told), Dropped(pre, told))
  {
    hide Distinct, Ids, Merging, Stale, Live, Dropped, Union, Merged;
    if merged {
      NobodyEvicted(s, list, target, now);
      MergedIds(s, list, target, met);
      UnionSize(Ids(s), list);
      UnionAtLeast(Ids(s), list);
    }
    LiveIds(pre, told);
    LiveMembers(pre, told);
    LiveOrDropped(pre, told);
    assert forall p :: p in met ==> p in pre;
    assert forall x :: x in list ==> exists i :: 0 <= i < |list| && list[i] == x;
  }

  /** The merge is meant not to increase the peer set. It does exactly if the peer set is smaller than both the target
      and the union with the list. */
  lemma {:induction false} MergeIncreases(s0: seq<Peer>, list: seq<NodeId>, target: nat, s: seq<Peer>)
    requires Merging(s0, list, |list|, target, s)
    ensures |s| > |s0| <==>
      |s0| < if target == 0 then |Union(Ids(s0), list)| else Min(target, |Union(Ids(s0), list)|)
  {
    hide Merging, Union;
    MergedIds(s0, list, target, s);
    UnionAtLeast(Ids(s0), list);
  }

  lemma {:induction false} UnionAtLeast(as': seq<NodeId>, bs: seq<NodeId>)
    ensures |as'| <= |Union(as', bs)|
  {
  }

  /** The neighbours carry the peer set past the target exactly if it was unfilled and lacks more of them than fit. */
  lemma {:induction false} FillPassesTarget(s: seq<Peer>, nbrs: seq<NodeId>, target: nat, now: int)
    requires 0 < target
    ensures |Topped(s, nbrs, target, now)| > target <==>
      |s| > target || |s| < target < |s| + |Minus(nbrs, Ids(s))|
  {
  }

  /** With target 1 and no peers yet, merging one id increases the peer set, and two neighbours pass the target. */
  lemma {:induction false} GrowsFromEmpty(x: NodeId, y: NodeId, now: int)
    ensures Merged([], [x], 1, now) == [Peer(x, 0, now, 0, 0.0)]
    ensures Composed([], [], [x, y], 1, false, now) == [Peer(x, 0, now, 0, 0.0), Peer(y, 0, now, 0, 0.0)]
  {
    assert Minus([x], []) == [x];
    assert Minus([x, y], []) == [x, y] by {
      assert [x, y][..1] == [x];
    }
  }

  /** The value of newAltoResults after the peer selector has run. */
  function ResultsAfter(results: int, due: bool, accepted: bool, ready: bool): int {
    var asked := if due && results != 0 then (if accepted then 0 else 1) else results;
    if ready && asked == 0 then 1 else asked
  }

  /** Results are in hand (1) afterwards if there are some that no new query supersedes, or if a query failed, or if a
      query is out and has been answered; a query is out (0) if it was, or was just accepted, and has no answer. */
  lemma {:induction false} ResultsMeaning(results: int, due: bool, accepted: bool, ready: bool)
    ensures ResultsAfter(results, due, accepted, ready) == 1 <==>
      || (results == 1 && !due)
      || (results != 0 && due && !accepted)
      || ((results == 0 || (due && accepted)) && ready)
    ensures ResultsAfter(results, due, accepted, ready) == 0 <==>
      !ready && (results == 0 || (due && accepted))
    ensures results > 1 && !due ==> ResultsAfter(results, due, accepted, ready) == results
  {
  }

  /** The peer set when the first `i` neighbours have been taken in. */
  ghost predicate Filling(was: seq<Peer>, nbrs: seq<NodeId>, i: nat, s: seq<Peer>, now: int) {
    && i <= |nbrs| && Distinct(Ids(s)) && was <= s && |s| <= |was| + i
    && (forall x :: x in Ids(s) <==> x in Ids(was) || x in nbrs[..i])
    && (Distinct(nbrs) ==> s == was + Newborn(Minus(nbrs[..i], Ids(was)), now))
  }

  lemma {:induction false} FillStart(was: seq<Peer>, nbrs: seq<NodeId>, now: int)
    requires Distinct(Ids(was))
    ensures Filling(was, nbrs, 0, was, now)
  {
    assert Newborn([], now) == [];
  }

  lemma {:induction false} FillStep(was: seq<Peer>, nbrs: seq<NodeId>, i: nat, s: seq<Peer>, now: int)
    requires Filling(was, nbrs, i, s, now) && i < |nbrs|
    ensures Filling(was, nbrs, i + 1, if nbrs[i] !in Ids(s) then Added(s, nbrs[i], None, now) else s, now)
  {
    hide Ids, Distinct, Added, Minus, Newborn;
    assert nbrs[..i + 1] == nbrs[..i] + [nbrs[i]];
    if Distinct(nbrs) {
      FillExact(was, nbrs, i, s, now);
    }
    if nbrs[i] !in Ids(s) {
      AddedDistinct(s, nbrs[i], None, now);
      AddedUnknown(s, nbrs[i], now);
    }
  }

  lemma {:induction false} FillExact(was: seq<Peer>, nbrs: seq<NodeId>, i: nat, s: seq<Peer>, now: int)
    requires Filling(was, nbrs, i, s, now) && i < |nbrs| && Distinct(nbrs)
    ensures (if nbrs[i] !in Ids(s) then Added(s, nbrs[i], None, now) else s) ==
      was + Newborn(Minus(nbrs[..i + 1], Ids(was)), now)
  {
    hide Ids, Added, Minus, Newborn;
    NotBefore(nbrs, i);
    hide Distinct;
    MinusNext(nbrs, i, Ids(was));
    var missing := Minus(nbrs[..i], Ids(was));
    NewbornPush(missing, nbrs[i], now);
    if nbrs[i] !in Ids(s) {
      AddedUnknown(s, nbrs[i], now);
      assert was + Newborn(missing, now) + [Peer(nbrs[i], 0, now, 0, 0.0)]
          == was + (Newborn(missing, now) + [Peer(nbrs[i], 0, now, 0, 0.0)]);
    }
  }

  lemma {:induction false} FillEnd(was: seq<Peer>, nbrs: seq<NodeId>, s: seq<Peer>, now: int)
    requires Filling(was, nbrs, |nbrs|, s, now)
    ensures Distinct(Ids(s)) && was <= s && |s| <= |was| + |nbrs|
    ensures forall x :: x in Ids(s) <==> x in Ids(was) || x in nbrs
    ensures Distinct(nbrs) ==> s == was + Newborn(Minus(nbrs, Ids(was)), now)
  {
    assert nbrs[..|nbrs|] == nbrs;
  }

  lemma {:induction false} SomesFull(s: seq<Option<NodeId>>)
    requires |Somes(s)| == |s|
    ensures s == AllSome(Somes(s))
  {
    if s != [] {
      SomesFull(s[1..]);
    }
  }

  lemma {:induction false} AskedHosts(ids: seq<NodeId>)
    ensures Hosts(Asked(ids)) == Ips(ids)
  {
  }

  lemma {:induction false} HostsMatch(g: seq<Guidance>, s: seq<Option<NodeId>>)
    requires Hosts(g) == Ips(Somes(s))
    ensures Matches(g, 0, s) && |g| == |Somes(s)|
  {
    assert g[0..] == g;
  }

  /** The guidance holds exactly the address of each neighbour with the server's rating for it. */
  ghost predicate RatedBy(neighbours: seq<NodeId>, ratings: nat -> int, g: seq<Guidance>) {
    multiset(g) ==
    multiset(seq(|neighbours|, k requires 0 <= k < |neighbours| => Guidance(neighbours[k].ip, ratings(k))))
  }

  lemma {:induction false} RatedByServer(neighbours: seq<NodeId>, g: seq<Guidance>, ratings: nat -> int,
                                         order: seq<Guidance> -> seq<Guidance>)
    requires Hosts(g) == Ips(neighbours) && Sorts(order)
    ensures RatedBy(neighbours, ratings, order(Rated(g, ratings)))
  {
    var want := seq(|neighbours|, k requires 0 <= k < |neighbours| => Guidance(neighbours[k].ip, ratings(k)));
    assert |g| == |Hosts(g)| == |neighbours|;
    forall k | 0 <= k < |g|
      ensures Rated(g, ratings)[k] == want[k]
    {
      assert Hosts(g)[k] == Ips(neighbours)[k];
    }
    assert Rated(g, ratings) == want;
  }

  lemma {:induction false} SortedMatches(s: seq<Guidance>, ratings: nat -> int, order: seq<Guidance> -> seq<Guidance>,
                                         now: seq<Option<NodeId>>)
    requires Matches(s, 0, now) && Sorts(order)
    ensures Matches(order(Rated(s, ratings)), 0, now) && |order(Rated(s, ratings))| == |s|
    ensures ByRating(order(Rated(s, ratings)))
  {
    var t := order(Rated(s, ratings));
    HostsPermute(t, Rated(s, ratings));
    assert s[0..] == s && t[0..] == t;
  }

  lemma {:induction false} MergeStart(s: seq<Peer>, list: seq<NodeId>, target: nat)
    requires Distinct(Ids(s))
    ensures Merging(s, list, 0, target, s)
  {
  }

  /** A listed id is in the peer set exactly if it was in it or has been merged. */
  lemma {:induction false} MergingKnown(s0: seq<Peer>, list: seq<NodeId>, k: nat, target: nat, s: seq<Peer>)
    requires Merging(s0, list, k, target, s) && k < |list| && Distinct(list)
    ensures Distinct(Ids(s)) && (list[k] in Ids(s) <==> list[k] in Ids(s0))
    ensures |s| == GrownSize(target, |s0|, |Minus(list[..k], Ids(s0))|)
  {
    NotBefore(list, k);
    ListedStay(s0, list, k, target, s);
  }

  class AltoTopology {
    const target: nat
    const altoFactor: real
    const updateInterval: nat
    const altoServer: bool
    var pset: seq<Peer>
    var altoList: seq<NodeId>
    var current: array<Option<NodeId>>
    var guidance: seq<Guidance>
    var newAltoResults: int
    var currtime: int
    var blacklist: seq<NodeId>

    /** While a query is out, `newAltoResults` is 0 and the neighbourhood it was made from stays as it was. */
    ghost predicate Valid()
      reads this, current
    {
      && 0.0 <= altoFactor <= 1.0 && Distinct(Ids(pset)) && Distinct(altoList) && (target > 0 ==> |altoList| <= target)
      && (newAltoResults == 0 ==> Fresh() && Hosts(guidance) == Ips(Somes(current[..])))
    }

    /** No entry of the neighbourhood has been taken, and none occurs twice. */
    ghost predicate Fresh()
      reads this, current
    {
      |Somes(current[..])| == current.Length && Distinct(Somes(current[..]))
    }

    constructor (target: nat, altoFactor: real, updateInterval: nat, altoServer: bool)
      requires 0.0 <= altoFactor <= 1.0
      ensures Valid() && pset == [] && newAltoResults == 2
    {
      this.target, this.altoFactor, this.updateInterval, this.altoServer := target, altoFactor, updateInterval,
        altoServer;
      pset, altoList, guidance, newAltoResults, currtime, blacklist := [], [], [], 2, 0, [];
      current := new Option<NodeId>[0];
    }

    /** Lines 341-371. `stuck` tells that no peer could make room. */
    method MergeAltoList(now: int) returns (stuck: bool)
      requires Distinct(Ids(pset)) && Distinct(altoList) && (target > 0 ==> |altoList| <= target)
      modifies this`pset
      ensures Merging(old(pset), altoList, |altoList|, target, pset) && !stuck
      ensures pset == Merged(old(pset), altoList, target, now)
    {
      hide *;
      ghost var s0 := pset;
      stuck := false;
      MergeStart(pset, altoList, target);
      ExactEnds(s0, altoList, target, now, pset);
      for i := 0 to |altoList|
        invariant Merging(s0, altoList, i, target, pset) && !stuck
        invariant MergedSoFar(s0, altoList, i, target, now, pset)
      {
        MergingKnown(s0, altoList, i, target, pset);
        if altoList[i] !in Ids(pset) {
          var doAdd := true;
          ghost var was := pset;
          if target != 0 && |pset| >= target {
            doAdd := false;
            SomebodyUnlisted(pset, altoList, altoList[i], target);
            var j := FindUnlisted(i);
            MergeSwap(s0, altoList, i, target, pset, j, now);
            ExactSwap(s0, altoList, i, target, now, pset, j);
            if j < |pset| {
              pset := Removed(pset, pset[j].id);
              doAdd := true;
            }
          } else {
            MergeGrow(s0, altoList, i, target, pset, now);
            ExactGrow(s0, altoList, i, target, now, pset);
          }
          if doAdd {
            pset := Added(pset, altoList[i], None, now);
          } else {
            stuck := true;
          }
        } else {
          MergeSkip(s0, altoList, i, target, pset);
          ExactSkip(s0, altoList, i, target, now, pset);
        }
      }
      ExactEnds(s0, altoList, target, now, pset);
    }

    /** Lines 318-336: while no query is out, the neighbourhood is the peer set followed by the other neighbours. */
    method Rebuild(nbrs: seq<NodeId>)
      requires Valid() && Distinct(nbrs)
      modifies this`current
      ensures Valid() && Fresh()
      ensures newAltoResults == 0 ==> current == old(current)
      ensures newAltoResults != 0 ==>
        fresh(current) && Somes(current[..]) == Union(Ids(pset), nbrs) && current.Length == |Union(Ids(pset), nbrs)|
    {
      if newAltoResults != 0 {
        var ids := Union(Ids(pset), nbrs);
        UnionMembers(Ids(pset), nbrs);
        SomesAll(ids);
        current := new Option<NodeId>[|ids|](i requires 0 <= i < |ids| => Some(ids[i]));
        assert current[..] == AllSome(ids);
      }
    }

    /** The interval is multiplied in 32-bit arithmetic. */
    predicate Due(now: int)
      reads this`currtime
    {
      now - currtime > updateInterval * 1_000_000 % 0x1_0000_0000
    }

    /** Lines 177-213: when it is time and no query is out, ask the server about the whole neighbourhood. */
    method Query(now: int, accepted: bool)
      requires Valid() && Fresh()
      modifies this`guidance, this`newAltoResults
      ensures Valid() && Fresh()
      ensures if now - currtime > updateInterval * 1_000_000 % 0x1_0000_0000 && old(newAltoResults) != 0
              then guidance == Asked(Somes(current[..])) && newAltoResults == if accepted then 0 else 1
              else newAltoResults == old(newAltoResults) && guidance == old(guidance)
    {
      if Due(now) && newAltoResults != 0 {
        SomesFull(current[..]);
        AskedHosts(Somes(current[..]));
        guidance := Asked(Somes(current[..]));
        newAltoResults := if accepted then 0 else 1;
      }
    }

    /** Lines 215-279, when the server has answered: sort by rating and build the list of selected peers. */
    method Reply(now: int, ratings: nat -> int, order: seq<Guidance> -> seq<Guidance>)
      requires Valid() && newAltoResults == 0 && Sorts(order)
      modifies this`altoList, this`guidance, this`newAltoResults, this`currtime, current
      ensures Valid() && newAltoResults == 1 && currtime == now
      ensures |altoList| == if 0 < target < current.Length then target else current.Length
      ensures Taken(old(current[..]), altoList, current[..])
      ensures guidance == order(Rated(old(guidance), ratings)) && ByRating(guidance)
      ensures ListBuilt(old(Somes(current[..])), ratings)
      ensures |altoList| <= |guidance| && forall i :: 0 <= i < BucketSize(altoFactor, |altoList|) ==>
        altoList[i].ip == guidance[i].host
    {
      hide Matches, Sorts, Somes, Taken, Distinct, Hosts, Rated, ByRating, BucketSize, Ids, Ips, RatedBy, BuiltFrom;
      HostsMatch(guidance, current[..]);
      RatedByServer(Somes(current[..]), guidance, ratings, order);
      currtime := now;
      SortedMatches(guidance, ratings, order, current[..]);
      guidance := order(Rated(guidance, ratings));
      var size := if 0 < target < current.Length then target else current.Length;
      var bucket := BucketSize(altoFactor, size);
      ghost var start := current[..];
      altoList := BuildList(current, guidance, bucket, size - bucket);
      TakenDistinct(start, altoList, current[..]);
      ListIsBuilt(start, ratings, target, altoFactor, guidance, altoList, current[..]);
      newAltoResults := 1;
    }

    /** A query is out once this call has had its chance to send one. */
    ghost predicate QueryOut(now: int, accepted: bool)
      reads this
    {
      if newAltoResults != 0 && Due(now) then accepted else newAltoResults == 0
    }

    ghost predicate ListBuilt(neighbours: seq<NodeId>, ratings: nat -> int)
      reads this`altoList, this`guidance, this`current, current
    {
      BuiltFrom(neighbours, ratings, target, altoFactor, guidance, altoList, Somes(current[..]))
    }

    method PeerSelectorAlto(now: int, accepted: bool, ready: bool, ratings: nat -> int,
                            order: seq<Guidance> -> seq<Guidance>)
      requires Valid() && Fresh() && Sorts(order)
      modifies this`altoList, this`guidance, this`newAltoResults, this`currtime, current
      ensures Valid()
      ensures newAltoResults == ResultsAfter(old(newAltoResults), old(Due(now)), accepted, ready)
      ensures if ready && old(QueryOut(now, accepted)) then ListBuilt(old(Somes(current[..])), ratings)
        && currtime == now
              else altoList == old(altoList) && currtime == old(currtime)
    {
      hide Sorts, Matches, Distinct, Somes, Ids, Taken, ByRating, Rated, Asked, BucketSize, RatedBy, Hosts, Ips,
        ListBuilt;
      Query(now, accepted);
      if ready && newAltoResults == 0 {
        Reply(now, ratings, order);
      }
    }

    /** One call of update_peers. The server's state is looked at twice and may change in between. */
    method UpdatePeers(nbrs: seq<NodeId>, now: int, accepted: bool, ready1: bool, ready2: bool,
                       ratings: nat -> int, order: seq<Guidance> -> seq<Guidance>)
      returns (ghost merged: bool)
      requires Valid() && Distinct(nbrs) && Sorts(order)
      modifies this, current
      ensures Valid()
      ensures var due := now - old(currtime) > updateInterval * 1_000_000 % 0x1_0000_0000;
              var n := if old(newAltoResults) == 0 then old(Somes(current[..])) else Union(old(Ids(pset)), nbrs);
              var asked := if due && old(newAltoResults) != 0 then accepted else old(newAltoResults) == 0;
              var results := if altoServer && |n| > 1 then ResultsAfter(old(newAltoResults), due, accepted, ready1)
                             else old(newAltoResults);
              && (merged <==> altoServer && ready2 && results == 1) && newAltoResults == (if merged then 2 else results)
              && if altoServer && |n| > 1 && asked && ready1 then
                   BuiltFrom(n, ratings, target, altoFactor, guidance, altoList, Somes(current[..])) && currtime == now
                 else altoList == old(altoList) && currtime == old(currtime)
      ensures var pre := Composed(old(pset), altoList, nbrs, target, merged, now);
              pset == Live(pre, now - 10_000_000) && blacklist == old(blacklist) + Dropped(pre, now - 10_000_000)
      ensures Served(old(pset), altoList, nbrs, target, merged, now - 10_000_000, pset, blacklist)
    {
      hide Ids, Distinct, Live, Dropped, Composed, Matches, Somes, Sorts, Union, ResultsAfter, ByRating, BucketSize,
        Served, BuiltFrom, Stale;
      Consult(nbrs, now, accepted, ready1, ratings, order);
      merged := Compose(nbrs, now, ready2);
    }

    /** Lines 341-403: results in hand are merged in, the neighbours fill up, the silent peers go. */
    method Compose(nbrs: seq<NodeId>, now: int, ready: bool) returns (ghost merged: bool)
      requires Valid() && Distinct(nbrs)
      modifies this`pset, this`newAltoResults, this`blacklist
      ensures Valid()
      ensures merged <==> altoServer && ready && old(newAltoResults) == 1
      ensures newAltoResults == if merged then 2 else old(newAltoResults)
      ensures var pre := Composed(old(pset), altoList, nbrs, target, merged, now);
              pset == Live(pre, now - 10_000_000) && blacklist == old(blacklist) + Dropped(pre, now - 10_000_000)
      ensures Served(old(pset), altoList, nbrs, target, merged, now - 10_000_000, pset, blacklist)
    {
      hide Merging, Ids, Distinct, Live, Dropped, Composed, Topped, Merged, Stale, Matches, Somes, Served;
      ghost var (was, banned, told) := (pset, blacklist, now - ALTO_TOUT_BMAP);
      merged := false;
      if altoServer && ready && newAltoResults == 1 {
        var stuck := MergeAltoList(now);
        MergedIds(was, altoList, target, pset);
        newAltoResults, merged := 2, true;
      }
      ghost var met := pset;
      ComposedIs(was, altoList, nbrs, target, merged, now);
      FillUp(nbrs, now);
      ComposedMeaning(was, altoList, nbrs, target, merged, met, pset, told, now);
      ServedMore(was, altoList, nbrs, target, merged, told, Live(pset, told), Dropped(pset, told), banned);
      DropSilent(now);
    }

    /** Lines 317-339: the neighbourhood is rebuilt, and the selector runs if it has more than one entry. */
    method Consult(nbrs: seq<NodeId>, now: int, accepted: bool, ready: bool, ratings: nat -> int,
                   order: seq<Guidance> -> seq<Guidance>)
      requires Valid() && Distinct(nbrs) && Sorts(order)
      modifies this`current, this`altoList, this`guidance, this`newAltoResults, this`currtime, current
      ensures Valid() && newAltoResults == old(Selected(nbrs, now, accepted, ready))
      ensures Distinct(Ids(pset)) && Distinct(altoList) && (target > 0 ==> |altoList| <= target)
      ensures if old(Replied(nbrs, now, accepted, ready))
              then ListBuilt(old(Neighbours(nbrs)), ratings) && currtime == now
              else altoList == old(altoList) && currtime == old(currtime)
    {
      hide Distinct, Ids, Matches, Somes, Union, Sorts, ResultsAfter;
      Rebuild(nbrs);
      if altoServer && current.Length > 1 {
        PeerSelectorAlto(now, accepted, ready, ratings, order);
      }
    }

    /** The neighbourhood this call works with. */
    ghost function Neighbours(nbrs: seq<NodeId>): seq<NodeId>
      reads this, current
    {
      if newAltoResults == 0 then Somes(current[..]) else Union(Ids(pset), nbrs)
    }

    /** A reply to a query, perhaps to one sent by this call, is taken in. */
    ghost predicate Replied(nbrs: seq<NodeId>, now: int, accepted: bool, ready: bool)
      reads this, current
    {
      altoServer && |Neighbours(nbrs)| > 1 && QueryOut(now, accepted) && ready
    }

    /** What newAltoResults is when the server's reply is looked at: the selector runs for more than one neighbour. */
    ghost function Selected(nbrs: seq<NodeId>, now: int, accepted: bool, ready: bool): int
      reads this, current
    {
      if altoServer && |Neighbours(nbrs)| > 1 then ResultsAfter(newAltoResults, Due(now), accepted, ready)
        else newAltoResults
    }

    /** Lines 372-380: an unfilled peer set takes in every neighbour, even beyond the target. */
    method FillUp(nbrs: seq<NodeId>, now: int)
      requires Distinct(Ids(pset))
      modifies this`pset
      ensures Distinct(Ids(pset))
      ensures old(pset) <= pset
      ensures forall x :: x in Ids(pset) <==>
        x in Ids(old(pset)) || (x in nbrs && (target == 0 || |old(pset)| < target))
      ensures Distinct(nbrs) ==> pset == Topped(old(pset), nbrs, target, now)
      ensures |old(pset)| <= |pset| <= |old(pset)| + if target == 0 || |old(pset)| < target then |nbrs| else 0
    {
      if target == 0 || |pset| < target {
        hide *;
        ghost var was := pset;
        FillStart(was, nbrs, now);
        for i := 0 to |nbrs|
          invariant Filling(was, nbrs, i, pset, now)
        {
          FillStep(was, nbrs, i, pset, now);
          if nbrs[i] !in Ids(pset) {
            pset := Added(pset, nbrs[i], None, now);
          }
        }
        FillEnd(was, nbrs, pset, now);
        ToppedIs(was, nbrs, target, now);
      }
    }

    /** Lines 395-403. */
    method DropSilent(now: int)
      requires Distinct(Ids(pset))
      modifies this`pset, this`blacklist
      ensures Distinct(Ids(pset))
      ensures pset == Live(old(pset), now - ALTO_TOUT_BMAP)
      ensures blacklist == old(blacklist) + Dropped(old(pset), now - ALTO_TOUT_BMAP)
    {
      hide *;
      var told := now - ALTO_TOUT_BMAP;
      var i := 0;
      ghost var (s, k, gone) := (pset, 0, []);
      SweepStart(s, told);
      while i < |pset|
        invariant Sweep(s, told, k, i, pset, gone) && k <= |s|
        invariant blacklist == old(blacklist) + gone
        decreases |s| - k
      {
        SweepStep(s, told, k, i, pset, gone);
        if Stale(pset[i], told) {
          gone := gone + [pset[i].id];
          blacklist := blacklist + [pset[i].id];
          pset := Removed(pset, pset[i].id);
          i := i - 1;
        }
        i := i + 1;
        k := k + 1;
      }
      SweepEnd(s, told, k, i, pset, gone);
    }

    /** The first peer that equals no listed id other than entry `i`; the number of peers if there is none. */
    method FindUnlisted(i: nat) returns (j: nat)
      requires i < |altoList| && altoList[i] !in Ids(pset)
      ensures j <= |pset| && (j < |pset| ==> pset[j].id !in altoList)
      ensures forall m :: 0 <= m < j ==> pset[m].id in altoList
    {
      j := 0;
      while j < |pset|
        invariant j <= |pset| && forall m :: 0 <= m < j ==> pset[m].id in altoList
      {
        var k := 0;
        assert Ids(pset)[j] == pset[j].id;
        while k < |altoList|
          invariant k <= |altoList| && forall m :: 0 <= m < k ==> pset[j].id != altoList[m]
        {
          if k != i && pset[j].id == altoList[k] {
            break;
          }
          k := k + 1;
        }
        if k == |altoList| {
          return;
        }
        j := j + 1;
      }
    }
  }
}
