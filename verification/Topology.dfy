/** The peer set and the operations update_peers applies to it (topology.c). */
module Topology {
  import opened Common
  import opened NodeIdSet
  import opened Selection
  import opened SelectionArrays

  /** Times are microseconds; 0 is an unset time. */
  datatype Peer = Peer(id: NodeId, bmapTimestamp: int, created: int, cbSize: int, capacity: real)

  datatype Metadata = Metadata(cbSize: int, capacity: real)

  /** The explicit requests, and the own buffer map that every newcomer is sent. */
  datatype Message = AddMe(dst: NodeId) | RemoveMe(dst: NodeId) | BufferMap(dst: NodeId)

  const TOUT_BMAP := 20_000_000

  // ---------------------------------------------------------------- the peer set

  function Ids(s: seq<Peer>): (r: seq<NodeId>)
    ensures |r| == |s| && forall i :: 0 <= i < |s| ==> r[i] == s[i].id
  {
    if s == [] then [] else Ids(s[..|s| - 1]) + [s[|s| - 1].id]
  }

  /** peerset_remove_peer: the entry of `id` goes, later entries move down. */
  function Removed(s: seq<Peer>, id: NodeId): seq<Peer> {
    if s == [] then []
    else if s[0].id == id then s[1..]
    else [s[0]] + Removed(s[1..], id)
  }

  lemma {:induction false} RemovedAt(s: seq<Peer>, i: nat)
    requires Distinct(Ids(s)) && i < |s|
    ensures Removed(s, s[i].id) == Cut(s, i)
  {
    hide Cut, Distinct;
    if i > 0 {
      DistinctTail(s);
      RemovedAt(s[1..], i - 1);
      CutCons(s, i);
    } else {
      CutFirst(s);
    }
  }

  lemma {:induction false} DistinctTail(s: seq<Peer>)
    requires s != [] && Distinct(Ids(s))
    ensures Distinct(Ids(s[1..])) && forall i :: 0 < i < |s| ==> s[0].id != s[i].id
  {
    assert forall i :: 0 < i < |s| ==> Ids(s)[0] != Ids(s)[i];
    forall i, j | 0 <= i < j < |s| - 1
      ensures Ids(s[1..])[i] != Ids(s[1..])[j]
    {
      assert Ids(s)[i + 1] != Ids(s)[j + 1];
    }
  }

  lemma {:induction false} CutMembers(s: seq<Peer>, k: nat)
    requires Distinct(Ids(s)) && k < |s|
    ensures forall p :: p in s[..k] + s[k + 1..] <==> p in s && p.id != s[k].id
  {
    assert s == s[..k] + [s[k]] + s[k + 1..];
    forall p | p in s[..k] || p in s[k + 1..]
      ensures p.id != s[k].id
    {
      if p in s[..k] {
        var i :| 0 <= i < k && s[i] == p;
        assert Ids(s)[i] != Ids(s)[k];
      } else {
        var i :| k < i < |s| && s[i] == p;
        assert Ids(s)[k] != Ids(s)[i];
      }
    }
  }

  lemma {:induction false} CutDistinct(s: seq<Peer>, k: nat)
    requires Distinct(Ids(s)) && k < |s|
    ensures Distinct(Ids(s[..k] + s[k + 1..]))
  {
    var r := s[..k] + s[k + 1..];
    forall i, j | 0 <= i < j < |r|
      ensures Ids(r)[i] != Ids(r)[j]
    {
      assert Ids(s)[if i < k then i else i + 1] != Ids(s)[if j < k then j else j + 1];
    }
  }

  /** Nothing but the entry of `id` is lost. */
  lemma {:induction false} RemovedMembers(s: seq<Peer>, id: NodeId)
    requires Distinct(Ids(s))
    ensures Distinct(Ids(Removed(s, id))) && forall p :: p in Removed(s, id) <==> p in s && p.id != id
  {
    if k :| 0 <= k < |s| && s[k].id == id {
      RemovedAt(s, k);
      CutMembers(s, k);
      CutDistinct(s, k);
    } else {
      RemovedNone(s, id);
      assert forall p :: p in s ==> p.id != id;
    }
  }

  lemma {:induction false} RemovedNone(s: seq<Peer>, id: NodeId)
    requires forall k :: 0 <= k < |s| ==> s[k].id != id
    ensures Removed(s, id) == s
  {
    if s != [] {
      RemovedNone(s[1..], id);
    }
  }

  // ---------------------------------------------------------------- dropping inactive peers

  predicate Stale(p: Peer, told: int) {
    (p.bmapTimestamp == 0 && p.created < told) || (p.bmapTimestamp != 0 && p.bmapTimestamp < told)
  }

  function Live(s: seq<Peer>, told: int): (r: seq<Peer>)
    ensures |r| <= |s|
  {
    if s == [] then []
    else Live(s[..|s| - 1], told) + if Stale(s[|s| - 1], told) then [] else [s[|s| - 1]]
  }

  function Dropped(s: seq<Peer>, told: int): seq<NodeId> {
    if s == [] then []
    else Dropped(s[..|s| - 1], told) + if Stale(s[|s| - 1], told) then [s[|s| - 1].id] else []
  }

  function Removals(ids: seq<NodeId>): (r: seq<Message>)
    ensures |r| == |ids|
  {
    seq(|ids|, i requires 0 <= i < |ids| => RemoveMe(ids[i]))
  }

  /** What add_peer sends. */
  function Greeting(id: NodeId, local: bool, remote: bool): seq<Message> {
    (if local then [BufferMap(id)] else []) + if remote then [AddMe(id)] else []
  }

  /** What the newcomers of a step are sent, one after the other. */
  function Greetings(cfg: Config, ids: seq<NodeId>): seq<Message> {
    if ids == [] then []
    else Greetings(cfg, ids[..|ids| - 1]) + Greeting(ids[|ids| - 1], cfg.topoOut, cfg.topoIn)
  }

  /** Who is sent what: a peer that selects its out-neighbours sends its buffer map to all newcomers, and one that
      selects its in-neighbours asks them to add it. */
  lemma {:induction false} GreetingsMembers(cfg: Config, ids: seq<NodeId>)
    ensures forall x :: BufferMap(x) in Greetings(cfg, ids) <==> cfg.topoOut && x in ids
    ensures forall x :: AddMe(x) in Greetings(cfg, ids) <==> cfg.topoIn && x in ids
    ensures forall x :: RemoveMe(x) !in Greetings(cfg, ids)
    ensures |Greetings(cfg, ids)| == (if cfg.topoOut then |ids| else 0) + if cfg.topoIn then |ids| else 0
  {
    if ids != [] {
      GreetingsMembers(cfg, ids[..|ids| - 1]);
      assert ids == ids[..|ids| - 1] + [ids[|ids| - 1]];
    }
  }

  /** The messages of a step, to those who join and those who leave. */
  function StepMessages(cfg: Config, joining: seq<NodeId>, leaving: seq<NodeId>): seq<Message> {
    Greetings(cfg, joining) + if cfg.topoIn then Removals(leaving) else []
  }

  lemma {:induction false} LiveMembers(s: seq<Peer>, told: int)
    ensures forall p :: p in Live(s, told) <==> p in s && !Stale(p, told)
    ensures Distinct(Ids(s)) ==> Distinct(Ids(Live(s, told)))
    ensures forall x :: x in Dropped(s, told) ==> x in Ids(s)
  {
    if s != [] {
      var (init, last) := (s[..|s| - 1], s[|s| - 1]);
      LiveMembers(init, told);
      assert s == init + [last];
      assert Ids(s) == Ids(init) + [last.id];
      if Distinct(Ids(s)) && !Stale(last, told) {
        DistinctInit(Ids(init), last.id);
        LastAppears(Live(init, told), init, last);
      } else if Distinct(Ids(s)) {
        DistinctInit(Ids(init), last.id);
      }
    }
  }

  /** The sweep loses nobody from sight. */
  lemma {:induction false} LiveOrDropped(s: seq<Peer>, told: int)
    ensures forall x :: x in Ids(s) ==> x in Ids(Live(s, told)) || x in Dropped(s, told)
  {
    if s != [] {
      var (init, last) := (s[..|s| - 1], s[|s| - 1]);
      LiveOrDropped(init, told);
      assert s == init + [last];
      assert Ids(s) == Ids(init) + [last.id];
      assert Ids(Live(init, told) + [last]) == Ids(Live(init, told)) + [last.id];
      assert Live(init, told) + [] == Live(init, told);
      assert Ids(s)[|s| - 1] == last.id;
      forall x | x in Ids(s)
        ensures x in Ids(Live(s, told)) || x in Dropped(s, told)
      {
        assert x in Ids(init) || x == last.id;
      }
    }
  }

  /** A peer survives exactly if it has been heard of, or else was created, at `told` or later; the others are dropped,
      each once, and both lists keep their order. */
  lemma {:induction false} LiveExactly(s: seq<Peer>, told: int)
    ensures forall p :: p in Live(s, told) <==>
      p in s && told <= if p.bmapTimestamp == 0 then p.created else p.bmapTimestamp
    ensures forall x :: x in Dropped(s, told) <==>
      exists p :: p in s && p.id == x && (if p.bmapTimestamp == 0 then p.created else p.bmapTimestamp) < told
    ensures |Live(s, told)| + |Dropped(s, told)| == |s|
    ensures forall i, j :: 0 <= i < j < |Live(s, told)| ==> Precedes(s, Live(s, told)[i], Live(s, told)[j])
  {
    LiveMembers(s, told);
    DroppedMembers(s, told);
    LiveOrder(s, told);
  }

  lemma {:induction false} DroppedMembers(s: seq<Peer>, told: int)
    ensures forall x :: x in Dropped(s, told) <==> exists p :: p in s && p.id == x && Stale(p, told)
    ensures |Live(s, told)| + |Dropped(s, told)| == |s|
  {
    if s != [] {
      var (init, last) := (s[..|s| - 1], s[|s| - 1]);
      DroppedMembers(init, told);
      assert s == init + [last];
      var (before, all) := (Dropped(init, told), Dropped(s, told));
      assert all == if Stale(last, told) then before + [last.id] else before;
      hide Dropped, Live, Stale;
      forall x
        ensures x in all <==> exists p :: p in s && p.id == x && Stale(p, told)
      {
        if x in before {
          var p :| p in init && p.id == x && Stale(p, told);
          assert p in s;
        }
        if p :| p in s && p.id == x && Stale(p, told) {
          assert p in init || p == last;
        }
      }
    }
  }

  lemma {:induction false} LiveOrder(s: seq<Peer>, told: int)
    ensures forall i, j :: 0 <= i < j < |Live(s, told)| ==> Precedes(s, Live(s, told)[i], Live(s, told)[j])
  {
    if s != [] {
      var (init, last) := (s[..|s| - 1], s[|s| - 1]);
      LiveOrder(init, told);
      LiveMembers(init, told);
      assert s == init + [last];
      var (before, all) := (Live(init, told), Live(s, told));
      assert all == if Stale(last, told) then before else before + [last];
      hide Live, Precedes, Stale;
      forall i, j | 0 <= i < j < |all|
        ensures Precedes(s, all[i], all[j])
      {
        if j < |before| {
          PrecedesMore(init, last, before[i], before[j]);
        } else {
          assert before[i] in before;
          PrecedesLast(init, before[i], last);
        }
      }
    }
  }

  lemma {:induction false} DistinctInit(ids: seq<NodeId>, id: NodeId)
    requires Distinct(ids + [id])
    ensures Distinct(ids) && id !in ids
  {
    assert forall i :: 0 <= i < |ids| ==> (ids + [id])[i] == ids[i];
    assert (ids + [id])[|ids|] == id;
  }

  lemma {:induction false} LastAppears(live: seq<Peer>, init: seq<Peer>, last: Peer)
    requires Distinct(Ids(live)) && (forall p :: p in live ==> p in init) && last.id !in Ids(init)
    ensures Distinct(Ids(live + [last]))
  {
    forall i | 0 <= i < |live|
      ensures Ids(live)[i] != last.id
    {
      assert live[i] in init;
      var k :| 0 <= k < |init| && init[k] == live[i];
      assert Ids(init)[k] == live[i].id;
    }
    assert Ids(live + [last]) == Ids(live) + [last.id];
  }

  lemma {:induction false} Timeout()
    ensures TOUT_BMAP == 20_000_000
  {
  }

  // ---------------------------------------------------------------- newcomers

  /** Position of the first occurrence. */
  function IndexOf(ids: seq<NodeId>, id: NodeId): (i: nat)
    requires id in ids
    ensures i < |ids| && ids[i] == id && id !in ids[..i]
  {
    if ids[0] == id then 0 else 1 + IndexOf(ids[1..], id)
  }

  /** The record a newcomer starts with; its metadata stand where its id first occurs in `newids`. */
  function Newcomer(id: NodeId, newids: seq<NodeId>, metas: seq<Metadata>, now: int): Peer {
    if id in newids && |metas| == |newids| then
      var m := metas[IndexOf(newids, id)];
      Peer(id, 0, now, m.cbSize, m.capacity)
    else Peer(id, 0, now, 0, 0.0)
  }

  function Newcomers(ids: seq<NodeId>, newids: seq<NodeId>, metas: seq<Metadata>, now: int): (r: seq<Peer>)
    ensures |r| == |ids|
    ensures forall i :: 0 <= i < |ids| ==> r[i] == Newcomer(ids[i], newids, metas, now)
  {
    seq(|ids|, i requires 0 <= i < |ids| => Newcomer(ids[i], newids, metas, now))
  }

  function RemovedAll(s: seq<Peer>, ids: seq<NodeId>): seq<Peer> {
    if ids == [] then s else Removed(RemovedAll(s, ids[..|ids| - 1]), ids[|ids| - 1])
  }

  lemma {:induction false} RemovedAllMembers(s: seq<Peer>, ids: seq<NodeId>)
    requires Distinct(Ids(s))
    ensures Distinct(Ids(RemovedAll(s, ids))) && forall p :: p in RemovedAll(s, ids) <==> p in s && p.id !in ids
  {
    if ids != [] {
      var (init, last) := (ids[..|ids| - 1], ids[|ids| - 1]);
      RemovedAllMembers(s, init);
      RemovedMembers(RemovedAll(s, init), last);
      assert ids == init + [last];
    }
  }

  /** Peers of unknown ids can be appended. */
  lemma {:induction false} JoinDistinct(s: seq<Peer>, t: seq<Peer>)
    requires Distinct(Ids(s)) && Distinct(Ids(t)) && forall i :: 0 <= i < |t| ==> t[i].id !in Ids(s)
    ensures Distinct(Ids(s + t))
  {
    var r := Ids(s + t);
    forall i, j | 0 <= i < j < |r|
      ensures r[i] != r[j]
    {
      if j < |s| {
        assert r[i] == Ids(s)[i] && r[j] == Ids(s)[j];
      } else if i >= |s| {
        assert r[i] == Ids(t)[i - |s|] && r[j] == Ids(t)[j - |s|];
      } else {
        assert r[i] == Ids(s)[i] && r[j] == t[j - |s|].id;
      }
    }
  }

  function WithMetadata(s: seq<Peer>, id: NodeId, m: Metadata): (r: seq<Peer>)
    ensures |r| == |s| && forall i :: 0 <= i < |s| ==> r[i].id == s[i].id
  {
    seq(|s|, i requires 0 <= i < |s| => if s[i].id == id then s[i].(cbSize := m.cbSize, capacity := m.capacity)
      else s[i])
  }

  /** peerset_add_peer, then the metadata if there is any. */
  function Added(s: seq<Peer>, id: NodeId, m: Option<Metadata>, now: int): seq<Peer> {
    var base := if id in Ids(s) then s else s + [Peer(id, 0, now, 0, 0.0)];
    if m.Some? then WithMetadata(base, id, m.value) else base
  }

  lemma {:induction false} AddedNew(s: seq<Peer>, id: NodeId, m: Metadata, now: int)
    requires id !in Ids(s)
    ensures Added(s, id, Some(m), now) == s + [Peer(id, 0, now, m.cbSize, m.capacity)]
  {
    forall i | 0 <= i < |s|
      ensures s[i].id != id
    {
      assert Ids(s)[i] == s[i].id;
    }
  }

  lemma {:induction false} AddedUnknown(s: seq<Peer>, id: NodeId, now: int)
    requires id !in Ids(s)
    ensures Added(s, id, None, now) == s + [Peer(id, 0, now, 0, 0.0)]
  {
  }

  /** Adding concerns one id: it is in afterwards, with the metadata if there are any; a known peer keeps its time
      stamps, a new one comes last and starts afresh; and every other peer keeps its place and its record. */
  lemma {:induction false} AddedRecords(s: seq<Peer>, id: NodeId, m: Option<Metadata>, now: int)
    requires Distinct(Ids(s))
    ensures var r := Added(s, id, m, now);
            && Distinct(Ids(r)) && (forall x :: x in Ids(r) <==> x in Ids(s) || x == id)
            && |r| == (if id in Ids(s) then |s| else |s| + 1)
            && (forall k :: 0 <= k < |s| ==> r[k].(cbSize := s[k].cbSize, capacity := s[k].capacity) == s[k])
            && (forall k :: 0 <= k < |s| && s[k].id != id ==> r[k] == s[k])
            && (forall k :: 0 <= k < |r| && r[k].id == id && m.Some? ==>
                  r[k].cbSize == m.value.cbSize && r[k].capacity == m.value.capacity)
            && (m.None? ==> s <= r)
            && (id !in Ids(s) ==> r[|s|].id == id && r[|s|].bmapTimestamp == 0 && r[|s|].created == now)
  {
    AddedDistinct(s, id, m, now);
  }

  /** Removing undoes adding a new peer. */
  lemma {:induction false} RemoveUndoesAdd(s: seq<Peer>, id: NodeId, m: Option<Metadata>, now: int)
    requires Distinct(Ids(s)) && id !in Ids(s)
    ensures Removed(Added(s, id, m, now), id) == s
  {
    hide Removed, Distinct, Added;
    AddedRecords(s, id, m, now);
    var r := Added(s, id, m, now);
    assert forall k :: 0 <= k < |s| ==> s[k].id == Ids(s)[k];
    RemovedAt(r, |s|);
    assert r[..|s|] == s && r[|s| + 1..] == [];
  }

  lemma {:induction false} AddedDistinct(s: seq<Peer>, id: NodeId, m: Option<Metadata>, now: int)
    requires Distinct(Ids(s))
    ensures Distinct(Ids(Added(s, id, m, now)))
    ensures forall x :: x in Ids(Added(s, id, m, now)) <==> x in Ids(s) || x == id
  {
    var base := if id in Ids(s) then s else s + [Peer(id, 0, now, 0, 0.0)];
    assert base != s ==> Ids(base) == Ids(s) + [id];
    assert Ids(Added(s, id, m, now)) == Ids(base);
  }

  lemma {:induction false} PruneStep(s: seq<Peer>, told: int, k: nat)
    requires k < |s|
    ensures Live(s[..k + 1], told) == if Stale(s[k], told) then Live(s[..k], told) else Live(s[..k], told) + [s[k]]
    ensures Dropped(s[..k + 1], told) ==
      if Stale(s[k], told) then Dropped(s[..k], told) + [s[k].id] else Dropped(s[..k], told)
  {
    assert s[..k + 1][..k] == s[..k];
  }

  /** What is left of `s` when its first `k` peers have been examined. */
  function Examined(s: seq<Peer>, told: int, k: nat): (r: seq<Peer>)
    requires k <= |s|
    ensures |r| == |Live(s[..k], told)| + |s| - k
  {
    Live(s[..k], told) + s[k..]
  }

  lemma {:induction false} MessagesPush(ids: seq<NodeId>, id: NodeId)
    ensures Removals(ids + [id]) == Removals(ids) + [RemoveMe(id)]
  {
  }

  lemma {:induction false} GreetingsPush(cfg: Config, ids: seq<NodeId>, k: nat, told: seq<Message>)
    requires k < |ids|
    ensures told + Greetings(cfg, ids[..k + 1]) ==
      told + Greetings(cfg, ids[..k]) + Greeting(ids[k], cfg.topoOut, cfg.topoIn)
  {
    hide Greeting;
    assert ids[..k + 1][..k] == ids[..k];
  }

  lemma {:induction false} ExaminedStep(s: seq<Peer>, told: int, k: nat)
    requires k < |s| && Distinct(Ids(s))
    ensures var i := |Live(s[..k], told)|;
            && i < |Examined(s, told, k)| && Examined(s, told, k)[i] == s[k]
            && Examined(s, told, k + 1) ==
              (if Stale(s[k], told) then Removed(Examined(s, told, k), s[k].id) else Examined(s, told, k))
            && |Live(s[..k + 1], told)| == if Stale(s[k], told) then i else i + 1
  {
    hide Live, Removed, Distinct, Ids, Cut, Stale;
    PruneStep(s, told, k);
    var now := Examined(s, told, k);
    var i := |Live(s[..k], told)|;
    CutJoin(Live(s[..k], told), s, k);
    if Stale(s[k], told) {
      ExaminedDistinct(s, told, k);
      RemovedAt(now, i);
    }
  }

  lemma {:induction false} PartDistinct(s: seq<Peer>, lo: nat, hi: nat)
    requires lo <= hi <= |s| && Distinct(Ids(s))
    ensures Distinct(Ids(s[lo..hi]))
  {
    forall i, j | 0 <= i < j < hi - lo
      ensures Ids(s[lo..hi])[i] != Ids(s[lo..hi])[j]
    {
      assert Ids(s)[lo + i] != Ids(s)[lo + j];
    }
  }

  lemma {:induction false} LaterUnknown(s: seq<Peer>, told: int, k: nat, i: nat)
    requires k <= i < |s| && Distinct(Ids(s))
    ensures s[i].id !in Ids(Live(s[..k], told))
  {
    LiveMembers(s[..k], told);
    var live := Live(s[..k], told);
    forall j | 0 <= j < |live|
      ensures live[j].id != s[i].id
    {
      assert live[j] in s[..k];
      var m :| 0 <= m < k && s[m] == live[j];
      assert Ids(s)[m] != Ids(s)[i];
    }
  }

  lemma {:induction false} ExaminedDistinct(s: seq<Peer>, told: int, k: nat)
    requires k <= |s| && Distinct(Ids(s))
    ensures Distinct(Ids(Examined(s, told, k)))
  {
    hide Distinct, Ids, Live;
    PartDistinct(s, 0, k);
    PartDistinct(s, k, |s|);
    assert s[0..k] == s[..k] && s[k..|s|] == s[k..];
    LiveMembers(s[..k], told);
    forall i | 0 <= i < |s[k..]|
      ensures s[k..][i].id !in Ids(Live(s[..k], told))
    {
      LaterUnknown(s, told, k, k + i);
    }
    JoinDistinct(Live(s[..k], told), s[k..]);
  }

  /** The sweep over `s` has examined `k` peers: `now` is the peer set, `i` the index, `gone` who was dropped. */
  ghost predicate Sweep(s: seq<Peer>, told: int, k: nat, i: int, now: seq<Peer>, gone: seq<NodeId>) {
    && Distinct(Ids(s)) && k <= |s| && i == |Live(s[..k], told)|
    && now == Examined(s, told, k) && gone == Dropped(s[..k], told)
  }

  lemma {:induction false} SweepStart(s: seq<Peer>, told: int)
    requires Distinct(Ids(s))
    ensures Sweep(s, told, 0, 0, s, []) && Removals([]) == []
  {
  }

  lemma {:induction false} SweepStep(s: seq<Peer>, told: int, k: nat, i: int, now: seq<Peer>, gone: seq<NodeId>)
    requires Sweep(s, told, k, i, now, gone) && i < |now|
    ensures 0 <= i && k < |s|
    ensures if Stale(now[i], told) then Sweep(s, told, k + 1, i, Removed(now, now[i].id), gone + [now[i].id])
            else Sweep(s, told, k + 1, i + 1, now, gone)
  {
    ExaminedStep(s, told, k);
    PruneStep(s, told, k);
  }

  lemma {:induction false} SweepEnd(s: seq<Peer>, told: int, k: nat, i: int, now: seq<Peer>, gone: seq<NodeId>)
    requires Sweep(s, told, k, i, now, gone) && i >= |now|
    ensures now == Live(s, told) && gone == Dropped(s, told) && Distinct(Ids(now))
  {
    assert s[..|s|] == s;
    LiveMembers(s, told);
  }

  /** The peer set when the first `k` newcomers have joined. */
  function Joined(s: seq<Peer>, ids: seq<NodeId>, k: nat, newids: seq<NodeId>, metas: seq<Metadata>,
                  now: int): seq<Peer>
    requires k <= |ids|
  {
    s + Newcomers(ids[..k], newids, metas, now)
  }

  lemma {:induction false} JoinedEnds(s: seq<Peer>, ids: seq<NodeId>, newids: seq<NodeId>, metas: seq<Metadata>,
                                      now: int)
    ensures Joined(s, ids, 0, newids, metas, now) == s
    ensures Joined(s, ids, |ids|, newids, metas, now) == s + Newcomers(ids, newids, metas, now)
  {
    assert ids[..|ids|] == ids;
  }

  lemma {:induction false} JoinedStep(s: seq<Peer>, ids: seq<NodeId>, k: nat, newids: seq<NodeId>, j: nat,
                                      metas: seq<Metadata>, now: int)
    requires |metas| == |newids| && k < |ids| && Distinct(ids) && ids[k] !in Ids(s)
    requires j < |newids| && newids[j] == ids[k] && forall i :: 0 <= i < j ==> newids[i] != ids[k]
    ensures Added(Joined(s, ids, k, newids, metas, now), newids[j], Some(metas[j]), now) ==
      Joined(s, ids, k + 1, newids, metas, now)
  {
    hide Ids, Distinct, Added, Newcomers, IndexOf;
    NewcomerAt(newids, j, metas, now);
    StillUnknown(s, ids, k, newids, metas, now);
    AddedNew(s + Newcomers(ids[..k], newids, metas, now), ids[k], metas[j], now);
    NewcomersPush(ids, k, newids, metas, now);
    var before := Newcomers(ids[..k], newids, metas, now);
    var last := [Newcomer(ids[k], newids, metas, now)];
    assert s + before + last == s + (before + last);
  }

  lemma {:induction false} NewcomerAt(newids: seq<NodeId>, j: nat, metas: seq<Metadata>, now: int)
    requires |metas| == |newids| && j < |newids| && forall i :: 0 <= i < j ==> newids[i] != newids[j]
    ensures Newcomer(newids[j], newids, metas, now) == Peer(newids[j], 0, now, metas[j].cbSize, metas[j].capacity)
  {
    FirstIndex(newids, j);
  }

  /** The first `k` newcomers have joined and have been told. */
  ghost predicate JoinedSoFar(cfg: Config, was: seq<Peer>, told: seq<Message>, ids: seq<NodeId>, k: nat,
                              news: seq<NodeId>, metas: seq<Metadata>, now: int, pset: seq<Peer>, sent: seq<Message>)
  {
    && k <= |ids|
    && pset == (if cfg.topoOut then Joined(was, ids, k, news, metas, now) else was)
    && sent == told + Greetings(cfg, ids[..k])
  }

  lemma {:induction false} JoinedRound(cfg: Config, was: seq<Peer>, told: seq<Message>, ids: seq<NodeId>, k: nat,
                                       news: seq<NodeId>,
                                       j: nat, metas: seq<Metadata>, now: int, pset: seq<Peer>, sent: seq<Message>)
    requires JoinedSoFar(cfg, was, told, ids, k, news, metas, now, pset, sent) && k < |ids|
    requires |metas| == |news| && Distinct(ids) && (cfg.topoOut ==> ids[k] !in Ids(was))
    requires j < |news| && news[j] == ids[k] && forall i :: 0 <= i < j ==> news[i] != ids[k]
    ensures JoinedSoFar(cfg, was, told, ids, k + 1, news, metas, now,
                        if cfg.topoOut then Added(pset, news[j], Some(metas[j]), now) else pset,
                        sent + Greeting(news[j], cfg.topoOut, cfg.topoIn))
  {
    hide Added, Joined, Greetings, Greeting, Ids;
    if cfg.topoOut {
      JoinedStep(was, ids, k, news, j, metas, now);
    }
    GreetingsPush(cfg, ids, k, told);
  }

  lemma {:induction false} JoinedAll(cfg: Config, was: seq<Peer>, told: seq<Message>, ids: seq<NodeId>,
                                     news: seq<NodeId>,
                                     metas: seq<Metadata>, now: int, pset: seq<Peer>, sent: seq<Message>)
    ensures JoinedSoFar(cfg, was, told, ids, 0, news, metas, now, was, told)
    ensures JoinedSoFar(cfg, was, told, ids, |ids|, news, metas, now, pset, sent) ==>
      pset == (if cfg.topoOut then was + Newcomers(ids, news, metas, now) else was) &&
      sent == told + Greetings(cfg, ids)
  {
    JoinedEnds(was, ids, news, metas, now);
    assert ids[..|ids|] == ids && ids[..0] == [];
    assert told + [] == told;
  }

  lemma {:induction false} NewcomersPush(ids: seq<NodeId>, k: nat, newids: seq<NodeId>, metas: seq<Metadata>, now: int)
    requires k < |ids|
    ensures Newcomers(ids[..k + 1], newids, metas, now)
         == Newcomers(ids[..k], newids, metas, now) + [Newcomer(ids[k], newids, metas, now)]
  {
  }

  lemma {:induction false} FirstIndex(ids: seq<NodeId>, j: nat)
    requires j < |ids| && forall k :: 0 <= k < j ==> ids[k] != ids[j]
    ensures IndexOf(ids, ids[j]) == j
  {
    var i := IndexOf(ids, ids[j]);
    assert forall k :: 0 <= k < i ==> ids[..i][k] == ids[k];
  }

  lemma {:induction false} StillUnknown(s: seq<Peer>, ids: seq<NodeId>, k: nat, newids: seq<NodeId>,
                                        metas: seq<Metadata>, now: int)
    requires k < |ids| && Distinct(ids) && ids[k] !in Ids(s)
    ensures ids[k] !in Ids(s + Newcomers(ids[..k], newids, metas, now))
  {
    var all := s + Newcomers(ids[..k], newids, metas, now);
    forall i | 0 <= i < |all|
      ensures Ids(all)[i] != ids[k]
    {
      if i < |s| {
        assert Ids(s)[i] == Ids(all)[i];
      } else {
        assert Ids(all)[i] == ids[i - |s|];
      }
    }
  }

  /** The peer set after the step. */
  ghost function Reselected(s: seq<Peer>, st: Step, newids: seq<NodeId>, metas: seq<Metadata>, now: int): seq<Peer> {
    RemovedAll(s + Newcomers(Joining(st), newids, metas, now), Leaving(st))
  }

  lemma {:induction false} NewcomerIds(ids: seq<NodeId>, newids: seq<NodeId>, metas: seq<Metadata>, now: int)
    ensures Ids(Newcomers(ids, newids, metas, now)) == ids
  {
  }

  lemma {:induction false} IdsMembers(s: seq<Peer>)
    ensures forall p :: p in s ==> p.id in Ids(s)
    ensures forall x :: x in Ids(s) ==> exists p :: p in s && p.id == x
  {
    forall x | x in Ids(s)
      ensures exists p :: p in s && p.id == x
    {
      var i :| 0 <= i < |s| && Ids(s)[i] == x;
      assert s[i] in s && s[i].id == x;
    }
    forall p | p in s
      ensures p.id in Ids(s)
    {
      var i :| 0 <= i < |s| && s[i] == p;
      assert Ids(s)[i] == p.id;
    }
  }

  /** The peer set after a step holds exactly the selected ids: those who stay keep their records, those who
      join get theirs from the metadata. */
  lemma {:induction false} ReselectedPeers(s: seq<Peer>, st: Step, newids: seq<NodeId>, metas: seq<Metadata>, now: int)
    requires |metas| == |newids| && Distinct(Ids(s)) && Distinct(st.selected)
    requires forall x :: x in st.olds <==> x in Ids(s)
    requires forall x :: x in st.selected ==> x in Ids(s) || x in newids
    ensures forall x :: x in Joining(st) ==> x in newids
    ensures var r := Reselected(s, st, newids, metas, now);
            && Distinct(Ids(r)) && (forall x :: x in Ids(r) <==> x in st.selected)
            && (forall p :: p in s && p.id in st.selected ==> p in r)
            && forall p :: p in r ==> p in s || (p.id in newids && p == Newcomer(p.id, newids, metas, now))
  {
    hide *;
    LeavingMembers(st);
    JoinersApart(s, st, newids, metas, now);
    var joiners := Newcomers(Joining(st), newids, metas, now);
    var r := Reselected(s, st, newids, metas, now);
    RemovedAllMembers(s + joiners, Leaving(st));
    ReselectedIs(s, st, newids, metas, now);
    forall x
      ensures x in Ids(r) <==> x in st.selected
    {
      ReselectedId(s, joiners, r, st, x);
    }
    IdsMembers(s);
  }

  lemma {:induction false} ReselectedIs(s: seq<Peer>, st: Step, newids: seq<NodeId>, metas: seq<Metadata>, now: int)
    ensures Reselected(s, st, newids, metas, now) ==
      RemovedAll(s + Newcomers(Joining(st), newids, metas, now), Leaving(st))
  {
  }

  lemma {:induction false} LeavingMembers(st: Step)
    ensures forall x :: x in Leaving(st) <==> x in st.olds && x !in st.selected
    ensures forall x :: x in Joining(st) <==> x in st.selected && x !in st.olds
  {
    MinusMembers(st.olds, st.selected);
    MinusMembers(st.selected, st.olds);
  }

  /** The newcomers are new to the peer set and have their records from the metadata. */
  lemma {:induction false} JoinersApart(s: seq<Peer>, st: Step, newids: seq<NodeId>, metas: seq<Metadata>, now: int)
    requires Distinct(Ids(s)) && Distinct(st.selected) && forall x :: x in st.olds <==> x in Ids(s)
    requires forall x :: x in st.selected ==> x in Ids(s) || x in newids
    ensures forall x :: x in Joining(st) ==> x in newids
    ensures var joiners := Newcomers(Joining(st), newids, metas, now);
            && Distinct(Ids(s + joiners)) && Ids(joiners) == Joining(st)
            && forall p :: p in joiners ==> p.id in newids && p == Newcomer(p.id, newids, metas, now)
  {
    hide Distinct, Ids, Joining, Newcomer;
    JoiningNew(Ids(s), newids, st);
    var joiners := Newcomers(Joining(st), newids, metas, now);
    NewcomerIds(Joining(st), newids, metas, now);
    NewcomerRecords(Joining(st), newids, metas, now);
    assert forall i :: 0 <= i < |joiners| ==> Joining(st)[i] in Joining(st);
    JoinDistinct(s, joiners);
  }

  lemma {:induction false} NewcomerRecords(ids: seq<NodeId>, newids: seq<NodeId>, metas: seq<Metadata>, now: int)
    ensures forall i :: 0 <= i < |ids| ==> Newcomers(ids, newids, metas, now)[i].id == ids[i]
    ensures forall p :: p in Newcomers(ids, newids, metas, now) ==>
      p.id in ids && p == Newcomer(p.id, newids, metas, now)
  {
  }

  lemma {:induction false} ReselectedId(s: seq<Peer>, joiners: seq<Peer>, r: seq<Peer>, st: Step, x: NodeId)
    requires forall p :: p in r <==> (p in s || p in joiners) && p.id !in Leaving(st)
    requires forall y :: y in Leaving(st) <==> y in st.olds && y !in st.selected
    requires forall y :: y in Joining(st) <==> y in st.selected && y !in st.olds
    requires (forall y :: y in st.olds <==> y in Ids(s)) && Ids(joiners) == Joining(st)
    ensures x in Ids(r) <==> x in st.selected
  {
    IdsMembers(s);
    IdsMembers(joiners);
    IdsMembers(r);
    if x in Ids(r) {
      var p :| p in r && p.id == x;
      assert p in s ==> x in Ids(s);
      assert p in joiners ==> x in Ids(joiners);
    }
    if x in st.selected {
      if x in st.olds {
        var p :| p in s && p.id == x;
        assert p in r;
      } else {
        assert x in Ids(joiners);
        var p :| p in joiners && p.id == x;
        assert p in r;
      }
    }
  }

  /** One whole step of a peer that selects its out-neighbours, from any peer set and any candidates. */
  lemma {:induction false} StepExact(cfg: Config, s: seq<Peer>, news: seq<NodeId>, metas: seq<Metadata>,
                                     desired: NodeId -> bool, ch: seq<Chance>, now: int)
    requires Ready(cfg, ch) && Distinct(Ids(s)) && Distinct(news) && |metas| == |news|
    ensures var st := Choose(cfg, Ids(s), news, desired, ch);
            var r := Reselected(s, st, news, metas, now);
            && Distinct(Ids(r)) && (forall x :: x in Ids(r) <==> x in st.selected)
            && Subset(st.kept, Ids(r)) && |st.kept| == KeepSize(cfg, |s|)
            && |r| == FinalSize(cfg, |st.kept|, |Elements(Ids(s)) + Elements(news)|)
  {
    hide *;
    var st := Choose(cfg, Ids(s), news, desired, ch);
    SelectionExact(cfg, Ids(s), news, desired, ch);
    SelectionSize(cfg, Ids(s), news, desired, ch);
    ReselectedPeers(s, st, news, metas, now);
    SameMembersSize(Ids(Reselected(s, st, news, metas, now)), st.selected);
    SubsetTrans(st.kept, st.selected, Ids(Reselected(s, st, news, metas, now)));
  }

  lemma {:induction false} SubsetTrans<T(!new)>(s: seq<T>, t: seq<T>, u: seq<T>)
    requires Subset(s, t) && forall x :: x in u <==> x in t
    ensures Subset(s, u)
  {
  }

  lemma {:induction false} SameMembersSize<T(!new)>(s: seq<T>, t: seq<T>)
    requires Distinct(s) && Distinct(t) && forall x :: x in s <==> x in t
    ensures |s| == |t|
  {
    SubsetSize(s, t);
    SubsetSize(t, s);
  }

  /** What a step needs to know about its lists before it touches the peer set. */
  ghost predicate StepOk(olds: seq<NodeId>, news: seq<NodeId>, st: Step) {
    && Distinct(st.selected) && Distinct(Joining(st)) && (forall x :: x in st.olds <==> x in olds)
    && (forall x :: x in st.selected ==> x in olds || x in news)
    && (forall x :: x in Joining(st) ==> x in news && x !in olds)
  }

  lemma {:induction false} ChooseOk(cfg: Config, olds: seq<NodeId>, news: seq<NodeId>, desired: NodeId -> bool,
                                    ch: seq<Chance>, st: Step)
    requires Ready(cfg, ch) && Distinct(olds) && Distinct(news) && st == Choose(cfg, olds, news, desired, ch)
    ensures StepOk(olds, news, st) && Distinct(st.selected)
  {
    SelectionExact(cfg, olds, news, desired, ch);
    JoiningNew(olds, news, st);
  }

  lemma {:induction false} AddsOk(olds: seq<NodeId>, news: seq<NodeId>, st: Step, adds: seq<NodeId>)
    requires StepOk(olds, news, st) && adds == Joining(st)
    ensures Distinct(adds) && forall k :: 0 <= k < |adds| ==> adds[k] in news && adds[k] !in olds
  {
    assert forall k :: 0 <= k < |adds| ==> adds[k] in adds;
  }

  lemma {:induction false} ReselectedOk(s: seq<Peer>, st: Step, news: seq<NodeId>, metas: seq<Metadata>, now: int)
    requires Distinct(Ids(s)) && StepOk(Ids(s), news, st) && |metas| == |news|
    ensures Distinct(Ids(Reselected(s, st, news, metas, now)))
    ensures Reselected(s, st, news, metas, now) == RemovedAll(s + Newcomers(Joining(st), news, metas, now), Leaving(st))
  {
    ReselectedPeers(s, st, news, metas, now);
  }

  lemma {:induction false} MessagesOf(cfg: Config, told: seq<Message>, joining: seq<NodeId>, leaving: seq<NodeId>)
    ensures told + StepMessages(cfg, joining, leaving) ==
      if cfg.topoIn then told + Greetings(cfg, joining) + Removals(leaving) else told + Greetings(cfg, joining)
  {
  }

  /** Newcomers get the buffer map of a peer that selects its out-neighbours; a peer that selects its in-neighbours asks
      newcomers to add it and leavers to remove it. Nobody gets anything else. */
  lemma {:induction false} StepMessagesMembers(cfg: Config, joining: seq<NodeId>, leaving: seq<NodeId>)
    ensures forall x :: BufferMap(x) in StepMessages(cfg, joining, leaving) <==> cfg.topoOut && x in joining
    ensures forall x :: AddMe(x) in StepMessages(cfg, joining, leaving) <==> cfg.topoIn && x in joining
    ensures forall x :: RemoveMe(x) in StepMessages(cfg, joining, leaving) <==> cfg.topoIn && x in leaving
    ensures |StepMessages(cfg, joining, leaving)| ==
      (if cfg.topoOut then |joining| else 0) + if cfg.topoIn then |joining| + |leaving| else 0
  {
    hide Greetings;
    GreetingsMembers(cfg, joining);
    var gone := Removals(leaving);
    assert forall i :: 0 <= i < |gone| ==> gone[i] == RemoveMe(leaving[i]);
    forall x
      ensures RemoveMe(x) in gone <==> x in leaving
    {
      if x in leaving {
        var i :| 0 <= i < |leaving| && leaving[i] == x;
        assert gone[i] == RemoveMe(x);
      }
    }
  }

  lemma {:induction false} LeftEnds(s: seq<Peer>, told: seq<Message>, ids: seq<NodeId>)
    ensures RemovedAll(s, ids[..0]) == s && told + Removals(ids[..0]) == told && ids[..|ids|] == ids
  {
  }

  lemma {:induction false} LeftPush(s: seq<Peer>, told: seq<Message>, ids: seq<NodeId>, k: nat)
    requires k < |ids|
    ensures RemovedAll(s, ids[..k + 1]) == Removed(RemovedAll(s, ids[..k]), ids[k])
    ensures told + Removals(ids[..k + 1]) == told + Removals(ids[..k]) + [RemoveMe(ids[k])]
  {
    hide Removals;
    assert ids[..k + 1] == ids[..k] + [ids[k]] && ids[..k + 1][..k] == ids[..k];
    MessagesPush(ids[..k], ids[k]);
  }

  /** What update_peers was called with: a timer tick, an explicit message, or any other message. */
  datatype Incoming = Nothing | Explicit(sender: NodeId, msg: seq<byte>) | Gossip

  class Neighbourhood {
    const cfg: Config
    var pset: seq<Peer>
    var savedids: seq<NodeId>
    var sent: seq<Message>
    var blacklist: seq<NodeId>

    constructor (cfg: Config)
      ensures this.cfg == cfg && pset == [] && savedids == [] && sent == [] && blacklist == []
    {
      this.cfg := cfg;
      pset, savedids, sent, blacklist := [], [], [], [];
    }

    method AddPeer(id: NodeId, m: Option<Metadata>, local: bool, remote: bool, now: int)
      modifies this`pset, this`sent
      ensures pset == if local then Added(old(pset), id, m, now) else old(pset)
      ensures sent == old(sent) + Greeting(id, local, remote)
    {
      if local {
        if id !in Ids(pset) {
          pset := pset + [Peer(id, 0, now, 0, 0.0)];
        }
        if m.Some? {
          pset := WithMetadata(pset, id, m.value);
        }
        sent := sent + [BufferMap(id)];
      }
      if remote {
        sent := sent + [AddMe(id)];
      }
    }

    method RemovePeer(id: NodeId, local: bool, remote: bool)
      modifies this`pset, this`sent
      ensures pset == if local then Removed(old(pset), id) else old(pset)
      ensures sent == if remote then old(sent) + [RemoveMe(id)] else old(sent)
    {
      if local {
        pset := Removed(pset, id);
      }
      if remote {
        sent := sent + [RemoveMe(id)];
      }
    }

    /** Peers not heard of for the timeout are dropped, told so, and blacklisted; no one else is. */
    method DropInactive(now: int)
      requires Distinct(Ids(pset))
      modifies this`pset, this`sent, this`blacklist
      ensures Distinct(Ids(pset))
      ensures pset == Live(old(pset), now - 20_000_000)
      ensures blacklist == old(blacklist) + Dropped(old(pset), now - 20_000_000)
      ensures sent == old(sent) + Removals(Dropped(old(pset), now - 20_000_000))
    {
      hide *;
      Timeout();
      var told := now - TOUT_BMAP;
      var i := 0;
      ghost var (s, k, gone) := (pset, 0, []);
      SweepStart(s, told);
      while i < |pset|
        invariant Sweep(s, told, k, i, pset, gone) && k <= |s|
        invariant blacklist == old(blacklist) + gone && sent == old(sent) + Removals(gone)
        decreases |s| - k
      {
        SweepStep(s, told, k, i, pset, gone);
        if Stale(pset[i], told) {
          MessagesPush(gone, pset[i].id);
          gone := gone + [pset[i].id];
          blacklist := blacklist + [pset[i].id];
          RemovePeer(pset[i].id, true, true);
          i := i - 1;
        }
        i := i + 1;
        k := k + 1;
      }
      SweepEnd(s, told, k, i, pset, gone);
    }

    method OnTopologyMessage(sender: NodeId, msg: seq<byte>, now: int)
      requires Distinct(Ids(pset))
      modifies this`pset, this`sent
      ensures Distinct(Ids(pset))
      ensures |msg| == 2 && msg[1] == 0 ==>
        pset == if sender in Ids(old(pset)) then old(pset) else old(pset) + [Peer(sender, 0, now, 0, 0.0)]
      ensures |msg| == 2 && msg[1] == 1 ==>
        pset == Removed(old(pset), sender) && forall p :: p in pset <==> p in old(pset) && p.id != sender
      ensures |msg| != 2 || msg[1] > 1 ==> pset == old(pset)
      ensures sent ==
        if |msg| == 2 && msg[1] == 0 && sender !in Ids(old(pset)) then old(sent) + [BufferMap(sender)] else old(sent)
    {
      if |msg| != 2 {
        return;
      }
      if msg[1] == 0 {
        if sender !in Ids(pset) {
          AddedDistinct(pset, sender, None, now);
          AddedUnknown(pset, sender, now);
          AddPeer(sender, None, true, false, now);
        }
      } else if msg[1] == 1 {
        RemovedMembers(pset, sender);
        RemovePeer(sender, true, false);
      }
    }

    /** Lines 408-419: the newcomers join with their metadata; `missing` tells that the error branch ran. */
    method AddNewcomers(toadds: array<NodeId>, n: nat, newids: array<NodeId>, newSize: nat, metas: seq<Metadata>,
                        now: int)
      returns (missing: bool)
      requires n <= toadds.Length && newSize <= newids.Length && |metas| == newSize
      requires Distinct(toadds[..n]) && forall k :: 0 <= k < n ==> toadds[..n][k] in newids[..newSize]
      requires cfg.topoOut ==> forall k :: 0 <= k < n ==> toadds[..n][k] !in Ids(pset)
      modifies this`pset, this`sent
      ensures !missing
      ensures pset ==
        if cfg.topoOut then old(pset) + Newcomers(toadds[..n], newids[..newSize], metas, now) else old(pset)
      ensures sent == old(sent) + Greetings(cfg, toadds[..n])
    {
      hide *;
      missing := false;
      ghost var (ids, news, was, told) := (toadds[..n], newids[..newSize], pset, sent);
      JoinedAll(cfg, was, told, ids, news, metas, now, was, told);
      for i := 0 to n
        invariant !missing && JoinedSoFar(cfg, was, told, ids, i, news, metas, now, pset, sent)
      {
        assert ids[i] == toadds[i] && ids[i] in news;
        var j, found := NidsetFind(newids, newSize, toadds[i]);
        if found {
          assert news[j] == ids[i];
          JoinedRound(cfg, was, told, ids, i, news, j, metas, now, pset, sent);
          AddPeer(newids[j], Some(metas[j]), cfg.topoOut, cfg.topoIn, now);
        } else {
          missing := true;
        }
      }
      JoinedAll(cfg, was, told, ids, news, metas, now, pset, sent);
    }

    /** Lines 421-427: those not selected any more leave. */
    method RemoveOthers(toremoves: array<NodeId>, n: nat)
      requires n <= toremoves.Length
      modifies this`pset, this`sent
      ensures pset == if cfg.topoOut then RemovedAll(old(pset), toremoves[..n]) else old(pset)
      ensures sent == if cfg.topoIn then old(sent) + Removals(toremoves[..n]) else old(sent)
    {
      hide *;
      ghost var (ids, was, told) := (toremoves[..n], pset, sent);
      LeftEnds(was, told, ids);
      for i := 0 to n
        invariant pset == if cfg.topoOut then RemovedAll(was, ids[..i]) else was
        invariant sent == if cfg.topoIn then told + Removals(ids[..i]) else told
      {
        LeftPush(was, told, ids, i);
        assert ids[i] == toremoves[i];
        RemovePeer(toremoves[i], cfg.topoOut, cfg.topoIn);
      }
    }

    /** Lines 346-438: choose with one step's luck, tell the newcomers, let the others go. */
    method Reselect(newids: array<NodeId>, newSize: nat, metas: seq<Metadata>, desired: NodeId -> bool,
                    ch: seq<Chance>, now: int)
      returns (ghost st: Step, missing: bool, failed: bool)
      requires Distinct(Ids(pset)) && Distinct(savedids) && Ready(cfg, ch) && newSize <= newids.Length
        && |metas| == newSize
      requires Distinct(newids[..newSize])
      modifies this`pset, this`sent, this`savedids
      ensures Distinct(Ids(pset)) && Distinct(savedids) && !missing && !failed
      ensures st == Choose(cfg, if cfg.topoOut then Ids(old(pset)) else old(savedids), newids[..newSize], desired, ch)
      ensures StepOk(if cfg.topoOut then Ids(old(pset)) else old(savedids), newids[..newSize], st)
      ensures pset == if cfg.topoOut then Reselected(old(pset), st, newids[..newSize], metas, now) else old(pset)
      ensures savedids == if cfg.topoOut then old(savedids) else st.selected
      ensures sent == old(sent) + StepMessages(cfg, Joining(st), Leaving(st))
    {
      hide *;
      var oldList := if cfg.topoOut then Ids(pset) else savedids;
      ghost var (news, was) := (newids[..newSize], pset);
      st := Choose(cfg, oldList, news, desired, ch);
      ChooseOk(cfg, oldList, news, desired, ch, st);
      if cfg.topoOut {
        ReselectedOk(was, st, news, metas, now);
      }
      var maxIds := |pset| + |savedids| + newSize;
      var oldids := new NodeId[|oldList|](i requires 0 <= i < |oldList| => oldList[i]);
      assert oldids[..|oldList|] == oldList;
      var selecteds, size, toadds, adds, toremoves, removes;
      selecteds, size, toadds, adds, toremoves, removes, failed :=
        Plan(cfg, oldids, |oldList|, newids, newSize, maxIds, desired, ch);
      AddsOk(oldList, news, st, toadds[..adds]);
      missing := AddNewcomers(toadds, adds, newids, newSize, metas, now);
      RemoveOthers(toremoves, removes);
      MessagesOf(cfg, old(sent), Joining(st), Leaving(st));
      if !cfg.topoOut {
        savedids := selecteds[..size];
      }
    }

    /** Lines 282-442: inactive peers go first, in every case; then an explicit message is obeyed, or a step is made. */
    method UpdatePeers(incoming: Incoming, newids: array<NodeId>, newSize: nat, metas: seq<Metadata>,
                       desired: NodeId -> bool, ch: seq<Chance>, now: int)
      requires Distinct(Ids(pset)) && Distinct(savedids) && Ready(cfg, ch) && newSize <= newids.Length
        && |metas| == newSize
      requires Distinct(newids[..newSize])
      modifies this`pset, this`sent, this`savedids, this`blacklist
      ensures Distinct(Ids(pset)) && Distinct(savedids)
      ensures blacklist == old(blacklist) + Dropped(old(pset), now - 20_000_000)
      ensures incoming.Nothing? ==> pset == Live(old(pset), now - 20_000_000)
      ensures incoming.Explicit? && cfg.topoIn ==>
        var (live, x, msg) := (Live(old(pset), now - 20_000_000), incoming.sender, incoming.msg);
        && (|msg| == 2 && msg[1] == 0 ==> pset == if x in Ids(live) then live else live + [Peer(x, 0, now, 0, 0.0)])
        && (|msg| == 2 && msg[1] == 1 ==> pset == Removed(live, x) && forall p :: p in pset <==> p in live && p.id != x)
        && (|msg| != 2 || msg[1] > 1 ==> pset == live)
      ensures incoming.Nothing? || (incoming.Explicit? && cfg.topoIn) ==>
        savedids == old(savedids)
      ensures incoming.Nothing? ==> sent == old(sent) + Removals(Dropped(old(pset), now - 20_000_000))
      ensures incoming.Explicit? && cfg.topoIn ==>
        var told := old(sent) + Removals(Dropped(old(pset), now - 20_000_000));
        sent == if |incoming.msg| == 2 && incoming.msg[1] == 0
          && incoming.sender !in Ids(Live(old(pset), now - 20_000_000))
                then told + [BufferMap(incoming.sender)] else told
      ensures incoming.Gossip? || (incoming.Explicit? && !cfg.topoIn) ==>
        var live := Live(old(pset), now - 20_000_000);
        var st := Choose(cfg, if cfg.topoOut then Ids(live) else old(savedids), newids[..newSize], desired, ch);
        && sent == old(sent) + Removals(Dropped(old(pset), now - 20_000_000))
                   + StepMessages(cfg, Joining(st), Leaving(st))
        && if cfg.topoOut then
          pset == Reselected(live, st, newids[..newSize], metas, now) && savedids == old(savedids)
          && |pset| == FinalSize(cfg, KeepSize(cfg, |live|), |Elements(Ids(live)) + Elements(newids[..newSize])|)
        else pset == live && savedids == st.selected
    {
      hide *;
      ghost var (live, news) := (Live(pset, now - 20_000_000), newids[..newSize]);
      DropInactive(now);
      if incoming.Explicit? && cfg.topoIn {
        OnTopologyMessage(incoming.sender, incoming.msg, now);
      } else if !incoming.Nothing? {
        ghost var st;
        var missing, failed;
        st, missing, failed := Reselect(newids, newSize, metas, desired, ch, now);
        if cfg.topoOut {
          StepExact(cfg, live, news, metas, desired, ch, now);
        }
      }
    }
  }
}
