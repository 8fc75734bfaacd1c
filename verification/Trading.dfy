/** What streaming.c accepts, sends and offers, as functions of what it knows. Times are microseconds. */
module Trading {
  import opened Common
  import opened NodeIdSet
  import opened ChunkLock

  /** Playout limits from this one on mean "unlimited". */
  const CB_SIZE_TIME_UNLIMITED := 1_000_000_000_000
  const TWO64 := 0x1_0000_0000_0000_0000

  /** A chunk in the chunk buffer. */
  datatype Stored = Stored(id: int, timestamp: int)

  /** What a peer is known to hold; `bmap` is missing when nothing is known. */
  datatype Known = Known(bmap: Option<set<int>>, cbSize: int)

  // ---------------------------------------------------------------- the chunk buffer

  function FindChunk(cb: seq<Stored>, id: int): (r: Option<Stored>)
    ensures r.None? <==> id !in Ids(cb)
    ensures r.Some? ==> r.value in cb && r.value.id == id
  {
    if cb == [] then None
    else if cb[0].id == id then Some(cb[0])
    else
      assert cb == [cb[0]] + cb[1..];
      FindChunk(cb[1..], id)
  }

  function Ids(cb: seq<Stored>): set<int> {
    set c | c in cb :: c.id
  }

  function ChunkTimestamp(cb: seq<Stored>, id: int): int {
    match FindChunk(cb, id)
    case None => 0
    case Some(c) => c.timestamp
  }

  // ---------------------------------------------------------------- who needs what

  /** The subtraction is in unsigned 64-bit arithmetic; time stamp 0 stands for an unknown one. */
  predicate TooOld(timestamp: int, now: int, limit: int) {
    limit < CB_SIZE_TIME_UNLIMITED && timestamp != 0 && timestamp < (now - limit) % TWO64
  }

  /** Up to 2^64 microseconds: with a limit, a chunk of known time is too old once it has aged past the limit. A clock
      behind the limit wraps around and makes every such chunk too old. */
  lemma {:induction false} TooOldMeaning(timestamp: int, now: int, limit: int)
    requires 0 <= timestamp < TWO64 && 0 <= now < TWO64 && 0 <= limit < TWO64
    ensures limit <= now ==>
      (TooOld(timestamp, now, limit) <==> limit < 1_000_000_000_000 && timestamp != 0 && timestamp + limit < now)
    ensures now < limit ==>
      (TooOld(timestamp, now, limit) <==>
         limit < 1_000_000_000_000 && timestamp != 0 && timestamp + limit < now + 0x1_0000_0000_0000_0000)
  {
    if limit <= now {
      Division(now - limit, 0, now - limit, TWO64);
    } else {
      Division(now - limit, -1, now - limit + TWO64, TWO64);
    }
  }

  /** A held chunk has its own time stamp, any other the unknown one. */
  lemma {:induction false} TimestampOf(cb: seq<Stored>, id: int)
    requires forall i, j :: 0 <= i < j < |cb| ==> cb[i].id != cb[j].id
    ensures forall k :: 0 <= k < |cb| && cb[k].id == id ==> ChunkTimestamp(cb, id) == cb[k].timestamp
    ensures (forall k :: 0 <= k < |cb| ==> cb[k].id != id) ==> ChunkTimestamp(cb, id) == 0
  {
    var c := FindChunk(cb, id);
    if c.Some? {
      var i :| 0 <= i < |cb| && cb[i] == c.value;
    }
  }

  predicate IsEarliest(s: set<int>, m: int) {
    m in s && forall k :: k in s ==> m <= k
  }

  lemma {:induction false} NoMembers(s: set<int>)
    ensures (forall k :: k !in s) ==> s == {}
  {
    if forall k :: k !in s {
      assert s == {};
    }
  }

  lemma {:induction false} EarliestExists(s: set<int>)
    requires s != {}
    ensures exists m :: IsEarliest(s, m)
  {
    NoMembers(s);
    var x :| x in s;
    var rest := s - {x};
    assert forall k :: k in s <==> k in rest || k == x;
    if rest == {} {
      assert IsEarliest(s, x);
    } else {
      EarliestExists(rest);
      var m :| IsEarliest(rest, m);
      assert IsEarliest(s, if m < x then m else x);
    }
  }

  function Earliest(s: set<int>): (m: int)
    requires s != {}
    ensures IsEarliest(s, m)
  {
    EarliestExists(s);
    var m :| IsEarliest(s, m);
    m
  }

  /** How many more chunks fit the buffer that `bmap` describes. */
  function Missing(bmap: set<int>, cbSize: int): nat {
    Max(0, cbSize - |bmap|)
  }

  predicate NeedsChunk(bmap: set<int>, cbSize: int, id: int, timestamp: int, now: int, limit: int) {
    if cbSize == 0 then false
    else if TooOld(timestamp, now, limit) then false
    else if id in bmap then false
    else bmap == {} || id >= Earliest(bmap) - Missing(bmap, cbSize)
  }

  predicate PeerNeeds(p: Known, id: int, timestamp: int, now: int, limit: int) {
    !TooOld(timestamp, now, limit) && (p.bmap.Some? ==> NeedsChunk(p.bmap.value, p.cbSize, id, timestamp, now, limit))
  }

  /** The buffer that `bmap` describes, completed with the chunks just before its earliest one. */
  ghost function Completed(bmap: set<int>, cbSize: int): set<int>
    requires bmap != {}
  {
    bmap + Range(Earliest(bmap) - Missing(bmap, cbSize), Missing(bmap, cbSize))
  }

  /** A peer with a non-empty buffer map needs a chunk it lacks exactly when the chunk is not older than everything in
      its completed buffer, and that buffer is exactly full. */
  lemma {:induction false} NeededUnlessOutdated(bmap: set<int>, cbSize: int, id: int, timestamp: int, now: int,
                                                limit: int)
    requires bmap != {} && id !in bmap && cbSize != 0 && !TooOld(timestamp, now, limit)
    ensures |Completed(bmap, cbSize)| == Max(cbSize, |bmap|)
    ensures NeedsChunk(bmap, cbSize, id, timestamp, now, limit) <==> exists k :: k in Completed(bmap, cbSize) && k <= id
  {
    var (first, n) := (Earliest(bmap), Missing(bmap, cbSize));
    assert bmap !! Range(first - n, n);
    if NeedsChunk(bmap, cbSize, id, timestamp, now, limit) {
      assert (if id < first then id else first) in Completed(bmap, cbSize);
    }
  }

  /** The peer takes part, lacks the chunk, and would not find it older than everything in its completed buffer. */
  ghost predicate InDemand(p: Known, id: int) {
    p.bmap.Some? ==>
      && p.cbSize != 0 && id !in p.bmap.value
      && (p.bmap.value == {} || exists k :: k in Completed(p.bmap.value, p.cbSize) && k <= id)
  }

  /** What a peer needs is told by its last report alone, whatever was believed or sent before: it gets an accepted
      chunk exactly if the chunk is owned, not too old for playout, and in demand by that report. */
  lemma {:induction false} ReportDecides(p: Known, bmap: set<int>, size: Option<int>, id: int, cb: seq<Stored>,
                                         now: int, limit: int)
    ensures var k := Known(Some(bmap), if size.Some? then size.value else p.cbSize);
            Sending(Some(k), 1, [id], [true], [now], cb, limit).ids ==
            if id in Ids(cb) && !TooOld(ChunkTimestamp(cb, id), now, limit) && InDemand(k, id) then [id] else []
  {
    hide Ids, ChunkTimestamp, Completed, TooOld, Sending;
    var k := Known(Some(bmap), if size.Some? then size.value else p.cbSize);
    var ts := ChunkTimestamp(cb, id);
    SendingStep(Some(k), 1, [id], [true], [now], cb, limit);
    SendingNone(WithChunk(Some(k), id), 0, [], [], [], cb, limit);
    SendingNone(Some(k), 1, [], [], [], cb, limit);
    assert [id][1..] == [] && [true][1..] == [] && [now][1..] == [];
    if bmap != {} && id !in bmap && k.cbSize != 0 && !TooOld(ts, now, limit) {
      NeededUnlessOutdated(bmap, k.cbSize, id, ts, now, limit);
    }
  }

  // ---------------------------------------------------------------- what is accepted

  /** The deciding peer's own chunk buffer and limits. */
  datatype Holdings = Holdings(cb: seq<Stored>, cbSize: int, limit: int)

  predicate Wants(h: Holdings, id: int, now: int) {
    NeedsChunk(Ids(h.cb), h.cbSize, id, ChunkTimestamp(h.cb, id), now, h.limit)
  }

  /** The playout limit plays no part in accepting: a chunk that is not held has no known time stamp. */
  lemma {:induction false} WantsExactly(h: Holdings, id: int, now: int)
    ensures Wants(h, id, now) <==>
      h.cbSize != 0 && id !in Ids(h.cb) &&
      (h.cb == [] || forall m :: IsEarliest(Ids(h.cb), m) ==> id >= m - Missing(Ids(h.cb), h.cbSize))
  {
    if h.cb != [] {
      assert h.cb[0].id in Ids(h.cb);
    }
  }

  /** An acceptance of a chunk or the arrival of one. */
  datatype Entry = Accepted(id: int, at: int) | Got(id: int)

  function IdsOf(s: seq<Entry>): (r: seq<int>)
    ensures |r| == |s| && forall i :: 0 <= i < |s| ==> r[i] == s[i].id
  {
    seq(|s|, i requires 0 <= i < |s| => s[i].id)
  }

  datatype Outcome = Outcome(locks: seq<Lock>, accepted: seq<Entry>)

  /** The acceptance loop; `clock` holds one reading per round. */
  function Accepting(locks: seq<Lock>, budget: int, offer: seq<int>, clock: seq<int>, from: Option<NodeId>,
                     h: Holdings): Outcome
    requires |clock| == |offer|
    decreases |offer|
  {
    if offer == [] || budget <= 0 then Outcome(locks, [])
    else
      var (id, now) := (offer[0], clock[0]);
      var kept := Cleaned(locks, now);
      if !Holds(kept, id) && Wants(h, id, now) then
        var o := Accepting(kept + [Lock(id, from, now)], budget - 1, offer[1..], clock[1..], from, h);
        Outcome(o.locks, [Accepted(id, now)] + o.accepted)
      else Accepting(kept, budget, offer[1..], clock[1..], from, h)
  }

  predicate LiveLock(locks: seq<Lock>, id: int, now: int) {
    exists i :: 0 <= i < |locks| && locks[i].chunkId == id && !TimedOut(locks[i], now)
  }

  /** The offered chunks that are missing and were not on request when the offer came, with the time of their round. */
  function Wanted(locks: seq<Lock>, offer: seq<int>, clock: seq<int>, h: Holdings): (r: seq<Entry>)
    requires |clock| == |offer|
    ensures |r| <= |offer|
  {
    if offer == [] then []
    else
      (if Wants(h, offer[0], clock[0]) && !LiveLock(locks, offer[0], clock[0])
       then [Accepted(offer[0], clock[0])] else [])
      + Wanted(locks, offer[1..], clock[1..], h)
  }

  ghost predicate Rising(clock: seq<int>) {
    forall i, j :: 0 <= i < j < |clock| ==> clock[i] <= clock[j]
  }

  function Taken<T>(s: seq<T>, n: int): (r: seq<T>)
    ensures r <= s && |r| == Max(0, Min(n, |s|))
  {
    s[..Max(0, Min(n, |s|))]
  }

  lemma {:induction false} LiveCleaned(locks: seq<Lock>, id: int, now: int)
    ensures Holds(Cleaned(locks, now), id) <==> LiveLock(locks, id, now)
  {
    CleanedMembers(locks, now);
    if LiveLock(locks, id, now) {
      var i :| 0 <= i < |locks| && locks[i].chunkId == id && !TimedOut(locks[i], now);
      assert locks[i] in Cleaned(locks, now);
    }
    if Holds(Cleaned(locks, now), id) {
      var i :| 0 <= i < |Cleaned(locks, now)| && Cleaned(locks, now)[i].chunkId == id;
      assert Cleaned(locks, now)[i] in locks;
    }
  }

  /** A round for one chunk does not change which other chunks are on request. */
  lemma {:induction false} LiveAfterRound(locks: seq<Lock>, at: int, extra: seq<Lock>, id: int, now: int)
    requires at <= now && forall l :: l in extra ==> l.chunkId != id
    ensures LiveLock(Cleaned(locks, at) + extra, id, now) <==> LiveLock(locks, id, now)
  {
    var kept := Cleaned(locks, at);
    CleanedMembers(locks, at);
    if LiveLock(locks, id, now) {
      var i :| 0 <= i < |locks| && locks[i].chunkId == id && !TimedOut(locks[i], now);
      assert locks[i] in kept;
      var j :| 0 <= j < |kept| && kept[j] == locks[i];
      assert (kept + extra)[j] == locks[i];
    }
    if LiveLock(kept + extra, id, now) {
      var i :| 0 <= i < |kept + extra| && (kept + extra)[i].chunkId == id && !TimedOut((kept + extra)[i], now);
      var l := (kept + extra)[i];
      assert l in kept + extra;
      assert l in locks;
    }
  }

  lemma {:induction false} WantedAfterRound(locks: seq<Lock>, at: int, extra: seq<Lock>, offer: seq<int>,
                                            clock: seq<int>, h: Holdings)
    requires |clock| == |offer| && forall t :: t in clock ==> at <= t
    requires forall l :: l in extra ==> l.chunkId !in offer
    ensures Wanted(Cleaned(locks, at) + extra, offer, clock, h) == Wanted(locks, offer, clock, h)
  {
    hide *;
    if offer != [] {
      assert forall t :: t in clock[1..] ==> t in clock;
      assert forall x :: x in offer[1..] ==> x in offer;
      assert offer[0] in offer && clock[0] in clock;
      WantedAfterRound(locks, at, extra, offer[1..], clock[1..], h);
      LiveAfterRound(locks, at, extra, offer[0], clock[0]);
      WantedStep(locks, offer, clock, h);
      WantedStep(Cleaned(locks, at) + extra, offer, clock, h);
    } else {
      WantedNone(locks, h);
      WantedNone(Cleaned(locks, at) + extra, h);
    }
  }

  lemma {:induction false} WantedNone(locks: seq<Lock>, h: Holdings)
    ensures Wanted(locks, [], [], h) == []
  {
  }

  lemma {:induction false} WantedStep(locks: seq<Lock>, offer: seq<int>, clock: seq<int>, h: Holdings)
    requires |clock| == |offer| > 0
    ensures Wanted(locks, offer, clock, h) ==
      (if Wants(h, offer[0], clock[0]) && !LiveLock(locks, offer[0], clock[0])
       then [Accepted(offer[0], clock[0])] else [])
      + Wanted(locks, offer[1..], clock[1..], h)
  {
  }

  /** An offer is answered with the first `budget` of its chunks that are missing and not on request already. */
  lemma {:induction false} AcceptsFirstWanted(locks: seq<Lock>, budget: int, offer: seq<int>, clock: seq<int>,
                                              from: Option<NodeId>, h: Holdings)
    requires |clock| == |offer| && Distinct(offer) && forall i, j :: 0 <= i < j < |clock| ==> clock[i] <= clock[j]
    ensures Accepting(locks, budget, offer, clock, from, h).accepted == Taken(Wanted(locks, offer, clock, h), budget)
    decreases |offer|
  {
    hide *;
    ClockRises(clock);
    if offer != [] && budget > 0 {
      var (id, now) := (offer[0], clock[0]);
      var (ids, times) := (offer[1..], clock[1..]);
      TailOf(offer);
      TailRises(clock);
      LiveCleaned(locks, id, now);
      var kept := Cleaned(locks, now);
      WantedStep(locks, offer, clock, h);
      AcceptingStep(locks, budget, offer, clock, from, h);
      if !Holds(kept, id) && Wants(h, id, now) {
        var l := [Lock(id, from, now)];
        WantedAfterRound(locks, now, l, ids, times, h);
        AcceptsFirstWanted(kept + l, budget - 1, ids, times, from, h);
        TakenCons(Accepted(id, now), Wanted(locks, ids, times, h), budget);
      } else {
        WantedAfterRound(locks, now, [], ids, times, h);
        assert kept + [] == kept;
        AcceptsFirstWanted(kept, budget, ids, times, from, h);
        assert [] + Wanted(locks, ids, times, h) == Wanted(locks, ids, times, h);
      }
    } else {
      AcceptingNone(locks, budget, offer, clock, from, h);
      TakenNone(locks, budget, offer, clock, h);
    }
  }

  lemma {:induction false} TailOf(s: seq<int>)
    requires s != [] && Distinct(s)
    ensures Distinct(s[1..]) && s[0] !in s[1..]
  {
    assert forall i :: 0 <= i < |s| - 1 ==> s[1..][i] == s[i + 1];
  }

  lemma {:induction false} ClockRises(clock: seq<int>)
    requires forall i, j :: 0 <= i < j < |clock| ==> clock[i] <= clock[j]
    ensures Rising(clock)
  {
  }

  lemma {:induction false} TailRises(s: seq<int>)
    requires s != [] && Rising(s)
    ensures Rising(s[1..]) && forall t :: t in s[1..] ==> s[0] <= t
  {
    assert forall i :: 0 <= i < |s| - 1 ==> s[1..][i] == s[i + 1];
  }

  lemma {:induction false} TakenCons<T>(x: T, s: seq<T>, n: int)
    requires n > 0
    ensures Taken([x] + s, n) == [x] + Taken(s, n - 1)
  {
  }

  lemma {:induction false} TakenNone(locks: seq<Lock>, budget: int, offer: seq<int>, clock: seq<int>, h: Holdings)
    requires |clock| == |offer| && (offer == [] || budget <= 0)
    ensures Taken(Wanted(locks, offer, clock, h), budget) == []
  {
  }

  lemma {:induction false} AcceptingNone(locks: seq<Lock>, budget: int, offer: seq<int>, clock: seq<int>,
                                         from: Option<NodeId>, h: Holdings)
    requires |clock| == |offer| && (offer == [] || budget <= 0)
    ensures Accepting(locks, budget, offer, clock, from, h) == Outcome(locks, [])
  {
  }

  lemma {:induction false} AcceptingStep(locks: seq<Lock>, budget: int, offer: seq<int>, clock: seq<int>,
                                         from: Option<NodeId>, h: Holdings)
    requires |clock| == |offer| > 0 && budget > 0
    ensures var (id, now) := (offer[0], clock[0]);
            var kept := Cleaned(locks, now);
            Accepting(locks, budget, offer, clock, from, h) ==
            if !Holds(kept, id) && Wants(h, id, now) then
              var o := Accepting(kept + [Lock(id, from, now)], budget - 1, offer[1..], clock[1..], from, h);
              Outcome(o.locks, [Accepted(id, now)] + o.accepted)
            else Accepting(kept, budget, offer[1..], clock[1..], from, h)
  {
  }

  /** Where the wanted chunks come from. */
  lemma {:induction false} WantedMembers(locks: seq<Lock>, offer: seq<int>, clock: seq<int>, h: Holdings)
    requires |clock| == |offer|
    ensures forall e :: e in Wanted(locks, offer, clock, h) ==> e.Accepted? && e.id in offer && e.at in clock &&
                                                                Wants(h, e.id, e.at) && !LiveLock(locks, e.id, e.at)
    ensures Distinct(offer) ==> forall i, j :: 0 <= i < j < |Wanted(locks, offer, clock, h)| ==>
      Wanted(locks, offer, clock, h)[i].id != Wanted(locks, offer, clock, h)[j].id
  {
    WantedFrom(locks, offer, clock, h);
    if Distinct(offer) {
      WantedDistinct(locks, offer, clock, h);
    }
  }

  lemma {:induction false} WantedFrom(locks: seq<Lock>, offer: seq<int>, clock: seq<int>, h: Holdings)
    requires |clock| == |offer|
    ensures forall e :: e in Wanted(locks, offer, clock, h) ==>
      e.Accepted? && e.id in offer && e.at in clock && Wants(h, e.id, e.at) && !LiveLock(locks, e.id, e.at)
  {
    hide Wants, LiveLock;
    if offer != [] {
      WantedFrom(locks, offer[1..], clock[1..], h);
      WantedStep(locks, offer, clock, h);
      hide Wanted;
      assert offer[0] in offer && clock[0] in clock;
      assert (forall x :: x in offer[1..] ==> x in offer) && forall t :: t in clock[1..] ==> t in clock;
    }
  }

  lemma {:induction false} WantedDistinct(locks: seq<Lock>, offer: seq<int>, clock: seq<int>, h: Holdings)
    requires |clock| == |offer| && Distinct(offer)
    ensures var all := Wanted(locks, offer, clock, h);
            forall i, j :: 0 <= i < j < |all| ==> all[i].id != all[j].id
  {
    hide Wants, LiveLock;
    if offer != [] {
      var rest := Wanted(locks, offer[1..], clock[1..], h);
      TailOf(offer);
      WantedDistinct(locks, offer[1..], clock[1..], h);
      WantedFrom(locks, offer[1..], clock[1..], h);
      WantedStep(locks, offer, clock, h);
      hide Wanted, Distinct;
      assert forall i :: 0 <= i < |rest| ==> rest[i] in rest;
      FreshFirst(Accepted(offer[0], clock[0]), rest);
    }
  }

  lemma {:induction false} FreshFirst(e: Entry, rest: seq<Entry>)
    requires forall i, j :: 0 <= i < j < |rest| ==> rest[i].id != rest[j].id
    requires forall i :: 0 <= i < |rest| ==> rest[i].id != e.id
    ensures forall i, j :: 0 <= i < j < |[e] + rest| ==> ([e] + rest)[i].id != ([e] + rest)[j].id
    ensures [] + rest == rest
  {
  }

  lemma {:induction false} WantedAll(locks: seq<Lock>, offer: seq<int>, clock: seq<int>, h: Holdings, i: nat)
    requires |clock| == |offer| && i < |offer| && Wants(h, offer[i], clock[i]) && !LiveLock(locks, offer[i], clock[i])
    ensures Accepted(offer[i], clock[i]) in Wanted(locks, offer, clock, h)
  {
    hide Wants, LiveLock;
    WantedStep(locks, offer, clock, h);
    if i > 0 {
      WantedAll(locks, offer[1..], clock[1..], h, i - 1);
    }
  }

  /** An offered chunk is wanted if and only if this peer takes part, does not hold it, would not find it older than its
      window, and no request for it is less than two seconds old. */
  lemma {:induction false} WantedExactly(locks: seq<Lock>, offer: seq<int>, clock: seq<int>, h: Holdings, i: nat)
    requires |clock| == |offer| && i < |offer| && Distinct(offer)
    ensures (exists e :: e in Wanted(locks, offer, clock, h) && e.id == offer[i]) <==>
      && h.cbSize != 0 && offer[i] !in Ids(h.cb)
      && (h.cb == [] || forall m :: IsEarliest(Ids(h.cb), m) ==> offer[i] >= m - Missing(Ids(h.cb), h.cbSize))
      && forall l :: l in locks && l.chunkId == offer[i] ==> clock[i] > l.timestamp + 2_000_000
  {
    hide Wanted, Wants, IsEarliest, Missing, Ids;
    var (id, now) := (offer[i], clock[i]);
    WantsExactly(h, id, now);
    LiveMeaning(locks, id, now);
    if Wants(h, id, now) && !LiveLock(locks, id, now) {
      WantedAll(locks, offer, clock, h, i);
      assert Accepted(id, now).id == id;
    }
    if e :| e in Wanted(locks, offer, clock, h) && e.id == id {
      var k :| 0 <= k < |Wanted(locks, offer, clock, h)| && Wanted(locks, offer, clock, h)[k] == e;
      var p := WantedFor(locks, offer, clock, h, k);
      assert p == i;
    }
  }

  lemma {:induction false} LiveMeaning(locks: seq<Lock>, id: int, now: int)
    ensures !LiveLock(locks, id, now) <==>
      forall l :: l in locks && l.chunkId == id ==> now > l.timestamp + 2_000_000
  {
    if LiveLock(locks, id, now) {
      var i :| 0 <= i < |locks| && locks[i].chunkId == id && !TimedOut(locks[i], now);
      assert locks[i] in locks;
    }
  }

  /** The position of a wanted chunk in the offer. */
  lemma {:induction false} WantedFor(locks: seq<Lock>, offer: seq<int>, clock: seq<int>, h: Holdings, k: nat)
    returns (p: nat)
    requires |clock| == |offer| && k < |Wanted(locks, offer, clock, h)|
    ensures p < |offer| && Wanted(locks, offer, clock, h)[k] == Accepted(offer[p], clock[p])
    ensures Wants(h, offer[p], clock[p]) && !LiveLock(locks, offer[p], clock[p])
  {
    hide Wants, LiveLock;
    WantedStep(locks, offer, clock, h);
    if Wants(h, offer[0], clock[0]) && !LiveLock(locks, offer[0], clock[0]) {
      if k == 0 {
        p := 0;
      } else {
        p := WantedFor(locks, offer[1..], clock[1..], h, k - 1);
        p := p + 1;
      }
    } else {
      p := WantedFor(locks, offer[1..], clock[1..], h, k);
      p := p + 1;
    }
  }

  /** Wanted chunks come in the order of the offer. */
  lemma {:induction false} WantedInOrder(locks: seq<Lock>, offer: seq<int>, clock: seq<int>, h: Holdings, i: nat,
                                         j: nat)
    returns (p: nat, q: nat)
    requires |clock| == |offer| && i < j < |Wanted(locks, offer, clock, h)|
    ensures p < q < |offer|
    ensures Wanted(locks, offer, clock, h)[i] == Accepted(offer[p], clock[p])
    ensures Wanted(locks, offer, clock, h)[j] == Accepted(offer[q], clock[q])
  {
    hide Wants, LiveLock;
    WantedStep(locks, offer, clock, h);
    if Wants(h, offer[0], clock[0]) && !LiveLock(locks, offer[0], clock[0]) {
      if i == 0 {
        q := WantedFor(locks, offer[1..], clock[1..], h, j - 1);
        p, q := 0, q + 1;
      } else {
        p, q := WantedInOrder(locks, offer[1..], clock[1..], h, i - 1, j - 1);
        p, q := p + 1, q + 1;
      }
    } else {
      p, q := WantedInOrder(locks, offer[1..], clock[1..], h, i, j);
      p, q := p + 1, q + 1;
    }
  }

  /** Every new lock is for an accepted chunk, from its round, and names the peer it was requested from. */
  lemma {:induction false} NewLocks(locks: seq<Lock>, budget: int, offer: seq<int>, clock: seq<int>,
                                    from: Option<NodeId>,
                                    h: Holdings)
    requires |clock| == |offer|
    ensures var o := Accepting(locks, budget, offer, clock, from, h);
            forall l :: l in o.locks ==>
              l in locks || (l.peer == from && Accepted(l.chunkId, l.timestamp) in o.accepted)
    decreases |offer|
  {
    hide Accepting, Cleaned, Holds, Wants;
    if offer == [] || budget <= 0 {
      AcceptingNone(locks, budget, offer, clock, from, h);
    } else {
      var (id, now) := (offer[0], clock[0]);
      var kept := Cleaned(locks, now);
      AcceptingStep(locks, budget, offer, clock, from, h);
      CleanedMembers(locks, now);
      if !Holds(kept, id) && Wants(h, id, now) {
        var l := Lock(id, from, now);
        NewLocks(kept + [l], budget - 1, offer[1..], clock[1..], from, h);
        assert forall k :: k in kept + [l] ==> k in kept || k == l;
      } else {
        NewLocks(kept, budget, offer[1..], clock[1..], from, h);
      }
    }
  }

  // ---------------------------------------------------------------- what is sent

  function WithChunk(p: Option<Known>, id: int): Option<Known> {
    if p.Some? && p.value.bmap.Some? then Some(p.value.(bmap := Some(p.value.bmap.value + {id}))) else p
  }

  predicate Sendable(p: Option<Known>, id: int, now: int, cb: seq<Stored>, limit: int) {
    id in Ids(cb) && (p.None? || PeerNeeds(p.value, id, ChunkTimestamp(cb, id), now, limit))
  }

  datatype Delivery = Delivery(peer: Option<Known>, ids: seq<int>)

  /** The sending loop: `clock` has one reading and `sends` one result of the network per round. */
  function Sending(p: Option<Known>, budget: int, acc: seq<int>, sends: seq<bool>, clock: seq<int>, cb: seq<Stored>,
                   limit: int): Delivery
    requires |sends| == |clock| == |acc|
    decreases |acc|
  {
    if acc == [] || budget <= 0 then Delivery(p, [])
    else if Sendable(p, acc[0], clock[0], cb, limit) && sends[0] then
      var d := Sending(WithChunk(p, acc[0]), budget - 1, acc[1..], sends[1..], clock[1..], cb, limit);
      Delivery(d.peer, [acc[0]] + d.ids)
    else Sending(p, budget, acc[1..], sends[1..], clock[1..], cb, limit)
  }

  /** Only accepted chunks that are owned go out, at most `budget` of them. A peer whose buffer map is known gets no
      chunk of that map and none twice, and the map grows by exactly what was sent. */
  lemma {:induction false} SendsOnce(p: Option<Known>, budget: int, acc: seq<int>, sends: seq<bool>, clock: seq<int>,
                                     cb: seq<Stored>, limit: int)
    requires |sends| == |clock| == |acc|
    ensures var d := Sending(p, budget, acc, sends, clock, cb, limit);
            && (forall id :: id in d.ids ==> id in acc && id in Ids(cb))
            && |d.ids| <= Max(0, budget)
            && (p.Some? && p.value.bmap.Some? ==>
                  && Distinct(d.ids)
                  && (forall id :: id in d.ids ==> id !in p.value.bmap.value)
                  && d.peer == Some(p.value.(bmap := Some(p.value.bmap.value + Elements(d.ids)))))
            && (p.Some? && p.value.bmap.Some? && p.value.cbSize == 0 ==> d.ids == [])
            && (p.Some? <==> d.peer.Some?)
    decreases |acc|
  {
    hide Sendable, Sending, Distinct, Ids, Elements;
    if acc == [] || budget <= 0 {
      SendingNone(p, budget, acc, sends, clock, cb, limit);
    } else {
      SendingStep(p, budget, acc, sends, clock, cb, limit);
      assert forall x :: x in acc[1..] ==> x in acc;
      if Sendable(p, acc[0], clock[0], cb, limit) && sends[0] {
        SendableFacts(p, acc[0], clock[0], cb, limit);
        SendsOnce(WithChunk(p, acc[0]), budget - 1, acc[1..], sends[1..], clock[1..], cb, limit);
        SentFirst(p, acc[0], Sending(WithChunk(p, acc[0]), budget - 1, acc[1..], sends[1..], clock[1..], cb, limit));
      } else {
        SendsOnce(p, budget, acc[1..], sends[1..], clock[1..], cb, limit);
      }
    }
  }

  lemma {:induction false} SendingNone(p: Option<Known>, budget: int, acc: seq<int>, sends: seq<bool>, clock: seq<int>,
                                       cb: seq<Stored>, limit: int)
    requires |sends| == |clock| == |acc| && (acc == [] || budget <= 0)
    ensures Sending(p, budget, acc, sends, clock, cb, limit) == Delivery(p, [])
    ensures p.Some? && p.value.bmap.Some? ==>
      Distinct<int>([]) && p == Some(p.value.(bmap := Some(p.value.bmap.value + Elements<int>([]))))
  {
    assert p.Some? && p.value.bmap.Some? ==> p.value.bmap.value + Elements<int>([]) == p.value.bmap.value;
  }

  lemma {:induction false} SendingStep(p: Option<Known>, budget: int, acc: seq<int>, sends: seq<bool>, clock: seq<int>,
                                       cb: seq<Stored>, limit: int)
    requires |sends| == |clock| == |acc| > 0 && budget > 0
    ensures Sending(p, budget, acc, sends, clock, cb, limit) ==
      if Sendable(p, acc[0], clock[0], cb, limit) && sends[0] then
        var d := Sending(WithChunk(p, acc[0]), budget - 1, acc[1..], sends[1..], clock[1..], cb, limit);
        Delivery(d.peer, [acc[0]] + d.ids)
      else Sending(p, budget, acc[1..], sends[1..], clock[1..], cb, limit)
  {
  }

  lemma {:induction false} SendableFacts(p: Option<Known>, id: int, now: int, cb: seq<Stored>, limit: int)
    requires Sendable(p, id, now, cb, limit)
    ensures id in Ids(cb)
    ensures p.Some? && p.value.bmap.Some? ==> id !in p.value.bmap.value && p.value.cbSize != 0
  {
  }

  lemma {:induction false} SentFirst(p: Option<Known>, id: int, d: Delivery)
    requires p.Some? && p.value.bmap.Some? ==>
      && id !in p.value.bmap.value && Distinct(d.ids)
      && (forall k :: k in d.ids ==> k !in WithChunk(p, id).value.bmap.value)
      && d.peer == Some(p.value.(bmap := Some(WithChunk(p, id).value.bmap.value + Elements(d.ids))))
    ensures p.Some? <==> WithChunk(p, id).Some?
    ensures p.Some? && p.value.bmap.Some? ==>
      && WithChunk(p, id).value.bmap.Some?
      && Distinct([id] + d.ids)
      && (forall k :: k in [id] + d.ids ==> k !in p.value.bmap.value)
      && d.peer == Some(p.value.(bmap := Some(p.value.bmap.value + Elements([id] + d.ids))))
  {
    if p.Some? && p.value.bmap.Some? {
      var all := [id] + d.ids;
      assert forall i :: 0 < i < |all| ==> all[i] == d.ids[i - 1];
      assert p.value.bmap.value + {id} + Elements(d.ids) == p.value.bmap.value + Elements(all);
    }
  }

  /** `q` knows at least what `p` knows. */
  ghost predicate Grown(p: Option<Known>, q: Option<Known>) {
    if p.None? then q.None?
    else
      && q.Some? && q.value.cbSize == p.value.cbSize && (q.value.bmap.Some? <==> p.value.bmap.Some?)
      && (p.value.bmap.Some? ==> p.value.bmap.value <= q.value.bmap.value)
  }

  /** At some point between knowing `p` and knowing `q`, chunk `id` was judged sendable or not. */
  ghost predicate Judged(p: Option<Known>, q: Option<Known>, id: int, now: int, cb: seq<Stored>, limit: int,
                         verdict: bool) {
    exists r :: Grown(p, r) && Grown(r, q) && Sendable(r, id, now, cb, limit) == verdict
  }

  /** A chunk is sent only if it was judged sendable and its send succeeded; while the budget lasts, a chunk is left
      out only if its send failed or it was judged not sendable. */
  lemma {:induction false} SendsWhatItCan(p: Option<Known>, budget: int, acc: seq<int>, sends: seq<bool>,
                                          clock: seq<int>, cb: seq<Stored>, limit: int)
    requires |sends| == |clock| == |acc|
    ensures var d := Sending(p, budget, acc, sends, clock, cb, limit);
            && Grown(p, d.peer)
            && (forall id :: id in d.ids ==>
                  exists i ::
                    0 <= i < |acc| && acc[i] == id && sends[i] && Judged(p, d.peer, id, clock[i], cb, limit, true))
            && (|d.ids| < budget ==> forall i :: 0 <= i < |acc| && acc[i] !in d.ids && sends[i] ==>
                  Judged(p, d.peer, acc[i], clock[i], cb, limit, false))
    decreases |acc|
  {
    hide Sendable, Sending, WithChunk, Grown, Judged;
    GrownSelf(p);
    if acc == [] || budget <= 0 {
      SendingNone(p, budget, acc, sends, clock, cb, limit);
    } else {
      SendingStep(p, budget, acc, sends, clock, cb, limit);
      var sent := Sendable(p, acc[0], clock[0], cb, limit) && sends[0];
      var next := if sent then WithChunk(p, acc[0]) else p;
      var left := if sent then budget - 1 else budget;
      WithChunkGrown(p, acc[0]);
      SendsWhatItCan(next, left, acc[1..], sends[1..], clock[1..], cb, limit);
      var (d, rest) := (Sending(p, budget, acc, sends, clock, cb, limit),
                        Sending(next, left, acc[1..], sends[1..], clock[1..], cb, limit));
      GrownTrans(p, next, d.peer);
      JudgedNow(p, d.peer, acc[0], clock[0], cb, limit);
      forall id | id in d.ids
        ensures exists i ::
          0 <= i < |acc| && acc[i] == id && sends[i] && Judged(p, d.peer, id, clock[i], cb, limit, true)
      {
        if id in rest.ids {
          var i :| 0 <= i < |acc| - 1 && acc[1..][i] == id && sends[1..][i] &&
                   Judged(next, d.peer, id, clock[1..][i], cb, limit, true);
          JudgedEarlier(p, next, d.peer, id, clock[i + 1], cb, limit, true);
          assert acc[i + 1] == id && sends[i + 1];
        } else {
          assert acc[0] == id && sends[0];
        }
      }
      forall i | 0 <= i < |acc| && acc[i] !in d.ids && sends[i] && |d.ids| < budget
        ensures Judged(p, d.peer, acc[i], clock[i], cb, limit, false)
      {
        if i > 0 {
          assert acc[1..][i - 1] == acc[i] && sends[1..][i - 1] && acc[i] !in rest.ids;
          JudgedEarlier(p, next, d.peer, acc[i], clock[i], cb, limit, false);
        }
      }
    }
  }

  /** What is known of a peer only grows while chunks are sent to it. */
  lemma {:induction false} GrownMeaning(p: Known, q: Known)
    requires Grown(Some(p), Some(q))
    ensures q.cbSize == p.cbSize && (p.bmap.None? <==> q.bmap.None?)
    ensures p.bmap.Some? ==> p.bmap.value <= q.bmap.value
  {
  }

  lemma {:induction false} GrownSelf(p: Option<Known>)
    ensures Grown(p, p)
  {
  }

  lemma {:induction false} GrownTrans(p: Option<Known>, q: Option<Known>, r: Option<Known>)
    requires Grown(p, q) && Grown(q, r)
    ensures Grown(p, r)
  {
  }

  lemma {:induction false} WithChunkGrown(p: Option<Known>, id: int)
    ensures Grown(p, WithChunk(p, id))
  {
  }

  lemma {:induction false} JudgedNow(p: Option<Known>, q: Option<Known>, id: int, now: int, cb: seq<Stored>, limit: int)
    requires Grown(p, q)
    ensures Judged(p, q, id, now, cb, limit, Sendable(p, id, now, cb, limit))
  {
    hide Sendable;
    GrownSelf(p);
  }

  lemma {:induction false} JudgedEarlier(p: Option<Known>, p': Option<Known>, q: Option<Known>, id: int, now: int,
                                         cb: seq<Stored>, limit: int, verdict: bool)
    requires Grown(p, p') && Judged(p', q, id, now, cb, limit, verdict)
    ensures Judged(p, q, id, now, cb, limit, verdict)
  {
    hide Sendable, Grown;
    var r :| Grown(p', r) && Grown(r, q) && Sendable(r, id, now, cb, limit) == verdict;
    GrownTrans(p, p', r);
  }

  // ---------------------------------------------------------------- what is offered

  /** The last chunk considered: the source holds back its newest chunks. */
  function LastOffered(n: nat, source: bool): int {
    if source then (n - 1) * 3 / 4 else n - 1
  }

  ghost function Offered(cb: seq<Stored>, last: int, dt: real): set<int>
    requires cb != [] && last < |cb|
  {
    set j | 0 <= j <= last && cb[j].timestamp as real > cb[0].timestamp as real + dt :: cb[j].id
  }

  /** Exactly the chunks more than `dt` younger than the oldest are offered, by the source only from the first three
      quarters of its buffer. */
  lemma {:induction false} OfferedExactly(cb: seq<Stored>, source: bool, dt: real)
    requires cb != [] && forall i, j :: 0 <= i < j < |cb| ==> cb[i].id != cb[j].id
    ensures LastOffered(|cb|, source) < |cb|
    ensures forall k :: 0 <= k < |cb| ==>
      (cb[k].id in Offered(cb, LastOffered(|cb|, source), dt) <==>
         cb[k].timestamp as real > cb[0].timestamp as real + dt && (source ==> 4 * k <= 3 * (|cb| - 1)))
    ensures forall id :: id in Offered(cb, LastOffered(|cb|, source), dt) ==>
      exists k :: 0 <= k < |cb| && cb[k].id == id
  {
  }

  /** Only owned chunks are offered; never the oldest one; and by the source none of its newest quarter. */
  lemma {:induction false} OfferedOwned(cb: seq<Stored>, source: bool, dt: real)
    requires cb != [] && dt >= 0.0 && forall i, j :: 0 <= i < j < |cb| ==> cb[i].id != cb[j].id
    ensures LastOffered(|cb|, source) < |cb|
    ensures var s := Offered(cb, LastOffered(|cb|, source), dt);
            && s <= Ids(cb) && cb[0].id !in s
            && (source ==> forall j :: 0 <= j < |cb| && 4 * j > 3 * (|cb| - 1) ==> cb[j].id !in s)
  {
    assert forall j :: 0 <= j < |cb| ==> cb[j].id in Ids(cb);
  }
}
