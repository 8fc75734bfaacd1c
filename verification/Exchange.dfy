/** Whole runs of the offer / accept / send protocol: one peer's requests over time, and two peers over a network that
    loses, repeats and reorders messages. */
module Exchange {
  import opened Common
  import opened NodeIdSet
  import opened ChunkLock
  import opened Trading

  // ---------------------------------------------------------------- one peer's requests

  /** The lock table, everything accepted or received so far in order, and the latest clock reading. */
  datatype Ledger = Ledger(locks: seq<Lock>, log: seq<Entry>, now: int)

  /** No arrival of chunk `id` in log[i..j]. */
  ghost predicate NoneGot(log: seq<Entry>, i: nat, j: nat, id: int) {
    forall k :: i <= k < j && k < |log| ==> log[k] != Got(id)
  }

  ghost predicate Expired(e: Entry, now: int) {
    e.Accepted? && e.at + TOUTDIFF < now
  }

  /** Two requests for the same chunk are separated by its arrival or by more than the timeout. */
  ghost predicate Separated(log: seq<Entry>) {
    forall i, j :: 0 <= i < j < |log| && SameRequest(log, i, j) ==> Expired(log[i], log[j].at)
  }

  /** Entries `i` and `j` accept the same chunk, which does not arrive in between. */
  ghost predicate SameRequest(log: seq<Entry>, i: nat, j: nat) {
    i < j < |log| && log[i].Accepted? && log[j].Accepted? && log[i].id == log[j].id && NoneGot(log, i, j, log[i].id)
  }

  /** The requests that have not been answered. */
  ghost function Pending(log: seq<Entry>): set<Entry> {
    if log == [] then {}
    else
      var (init, last) := (log[..|log| - 1], log[|log| - 1]);
      if last.Accepted? then Pending(init) + {last} else set e | e in Pending(init) && e.id != last.id
  }

  lemma {:induction false} PendingPush(log: seq<Entry>, e: Entry)
    ensures Pending(log + [e]) == if e.Accepted? then Pending(log) + {e} else set p | p in Pending(log) && p.id != e.id
  {
    assert (log + [e])[..|log|] == log;
  }

  /** A request is pending as long as its chunk has not arrived. */
  lemma {:induction false} PendingUntilGot(log: seq<Entry>, i: nat)
    requires i < |log| && log[i].Accepted? && NoneGot(log, i, |log|, log[i].id)
    ensures log[i] in Pending(log)
  {
    var init := log[..|log| - 1];
    if i < |log| - 1 {
      assert forall k :: 0 <= k < |init| ==> init[k] == log[k];
      PendingUntilGot(init, i);
      assert log[|log| - 1] != Got(log[i].id);
    }
  }

  /** The requests that hold a lock. */
  ghost function Locked(locks: seq<Lock>): set<Entry> {
    set l | l in locks :: Accepted(l.chunkId, l.timestamp)
  }

  lemma {:induction false} LockedCleaned(locks: seq<Lock>, now: int)
    ensures Locked(Cleaned(locks, now)) == set e | e in Locked(locks) && !Expired(e, now)
  {
    CleanedMembers(locks, now);
  }

  lemma {:induction false} LockedUnlocked(locks: seq<Lock>, id: int)
    requires Unique(locks)
    ensures Locked(Unlocked(locks, id)) == set e | e in Locked(locks) && e.id != id
  {
    UnlockedMembers(locks, id);
  }

  lemma {:induction false} LockedPush(locks: seq<Lock>, l: Lock)
    requires !Holds(locks, l.chunkId)
    ensures Locked(locks + [l]) == Locked(locks) + {Accepted(l.chunkId, l.timestamp)}
    ensures forall e :: e in Locked(locks) ==> e.id != l.chunkId
    ensures Unique(locks) ==> Unique(locks + [l])
  {
    assert forall k :: k in locks + [l] <==> k in locks || k == l;
  }

  /** Each lock is an unanswered request, and each unanswered request has its lock or has expired. */
  ghost predicate LocksAgree(l: Ledger) {
    && Unique(l.locks)
    && Locked(l.locks) <= Pending(l.log)
    && forall e :: e in Pending(l.log) ==> e in Locked(l.locks) || Expired(e, l.now)
  }

  ghost predicate Good(l: Ledger) {
    LocksAgree(l) && Separated(l.log)
  }

  function AfterCleanup(l: Ledger, now: int): Ledger {
    Ledger(Cleaned(l.locks, now), l.log, now)
  }

  lemma {:induction false} CleanupGood(l: Ledger, now: int)
    requires Good(l) && l.now <= now
    ensures Good(AfterCleanup(l, now))
  {
    hide Cleaned, Unique, Pending, Locked, Separated;
    CleanedMembers(l.locks, now);
    LockedCleaned(l.locks, now);
  }

  function AfterAccept(l: Ledger, id: int, from: Option<NodeId>): Ledger {
    Ledger(l.locks + [Lock(id, from, l.now)], l.log + [Accepted(id, l.now)], l.now)
  }

  lemma {:induction false} AcceptGood(l: Ledger, id: int, from: Option<NodeId>)
    requires Good(l) && !Holds(l.locks, id)
    ensures Good(AfterAccept(l, id, from))
  {
    hide Unique, Pending, Locked, Separated, Holds;
    LockedPush(l.locks, Lock(id, from, l.now));
    PendingPush(l.log, Accepted(id, l.now));
    AcceptSeparated(l.log, id, l.now);
  }

  lemma {:induction false} AcceptSeparated(log: seq<Entry>, id: int, now: int)
    requires Separated(log) && forall e :: e in Pending(log) && e.id == id ==> Expired(e, now)
    ensures Separated(log + [Accepted(id, now)])
  {
    hide Pending;
    var (all, n) := (log + [Accepted(id, now)], |log|);
    assert forall k :: 0 <= k < n ==> all[k] == log[k];
    forall i, j | 0 <= i < j < |all| && SameRequest(all, i, j)
      ensures Expired(all[i], all[j].at)
    {
      if j < n {
        assert SameRequest(log, i, j);
      } else {
        PendingUntilGot(log, i);
      }
    }
  }

  function AfterArrival(l: Ledger, id: int): Ledger {
    Ledger(Unlocked(l.locks, id), l.log + [Got(id)], l.now)
  }

  lemma {:induction false} ArrivalGood(l: Ledger, id: int)
    requires Good(l)
    ensures Good(AfterArrival(l, id))
  {
    hide Unique, Pending, Locked, Separated, Unlocked;
    UnlockedMembers(l.locks, id);
    LockedUnlocked(l.locks, id);
    PendingPush(l.log, Got(id));
    ArrivalSeparated(l.log, id);
  }

  lemma {:induction false} ArrivalSeparated(log: seq<Entry>, id: int)
    requires Separated(log)
    ensures Separated(log + [Got(id)])
  {
    var all := log + [Got(id)];
    assert forall k :: 0 <= k < |log| ==> all[k] == log[k];
    forall i, j | 0 <= i < j < |all| && SameRequest(all, i, j)
      ensures Expired(all[i], all[j].at)
    {
      assert SameRequest(log, i, j);
    }
  }

  /** The ledger after an offer has been answered. */
  function AfterOffer(l: Ledger, budget: int, offer: seq<int>, clock: seq<int>, from: Option<NodeId>,
                      h: Holdings): Ledger
    requires |clock| == |offer|
  {
    var o := Accepting(l.locks, budget, offer, clock, from, h);
    Ledger(o.locks, l.log + o.accepted, if clock == [] then l.now else clock[|clock| - 1])
  }

  /** The clock does not run backwards. */
  ghost predicate Onwards(now: int, clock: seq<int>) {
    Rising(clock) && forall t :: t in clock ==> now <= t
  }

  lemma {:induction false} LaterGood(l: Ledger, now: int)
    requires Good(l) && l.now <= now
    ensures Good(l.(now := now))
  {
    hide Unique, Pending, Locked, Separated;
  }

  lemma {:induction false} OfferGood(l: Ledger, budget: int, offer: seq<int>, clock: seq<int>, from: Option<NodeId>,
                                     h: Holdings)
    requires |clock| == |offer| && Good(l) && Onwards(l.now, clock)
    ensures Good(AfterOffer(l, budget, offer, clock, from, h))
    decreases |offer|
  {
    hide Good, Accepting, Cleaned, Wants, Holds;
    assert clock != [] ==> clock[0] in clock && clock[|clock| - 1] in clock;
    if offer == [] || budget <= 0 {
      AcceptingNone(l.locks, budget, offer, clock, from, h);
      var a := AfterOffer(l, budget, offer, clock, from, h);
      assert a == l.(now := a.now);
      LaterGood(l, a.now);
    } else {
      var (id, now) := (offer[0], clock[0]);
      AcceptingStep(l.locks, budget, offer, clock, from, h);
      TailRises(clock);
      CleanupGood(l, now);
      var c := AfterCleanup(l, now);
      if !Holds(c.locks, id) && Wants(h, id, now) {
        AcceptGood(c, id, from);
        var p := AfterAccept(c, id, from);
        OfferGood(p, budget - 1, offer[1..], clock[1..], from, h);
        var o := Accepting(p.locks, budget - 1, offer[1..], clock[1..], from, h);
        assert l.log + ([Accepted(id, now)] + o.accepted) == p.log + o.accepted;
        assert AfterOffer(p, budget - 1, offer[1..], clock[1..], from, h) ==
          AfterOffer(l, budget, offer, clock, from, h);
      } else {
        OfferGood(c, budget, offer[1..], clock[1..], from, h);
        assert AfterOffer(c, budget, offer[1..], clock[1..], from, h) == AfterOffer(l, budget, offer, clock, from, h);
      }
    }
  }

  // ---------------------------------------------------------------- two peers and a network

  datatype OfferMsg = OfferMsg(transId: int, ids: seq<int>, maxDeliver: int)
  datatype AcceptMsg = AcceptMsg(transId: int, ids: seq<int>)
  datatype ChunkMsg = ChunkMsg(transId: int, id: int)

  /** The offering peer has `cb`, `limit` and what it knows of the other peer; the accepting peer has `own` and
      `ledger`. Every message ever sent stays in its set: it can arrive late, again or never. */
  datatype World = World(cb: seq<Stored>, limit: int, view: Option<Known>, own: Holdings, ledger: Ledger,
                         offers: set<OfferMsg>, accepts: set<AcceptMsg>, chunks: set<ChunkMsg>)

  datatype Event =
    | Offer(transId: int, ids: seq<int>, maxDeliver: int, source: bool, dt: real)
    | Answer(offer: OfferMsg, from: Option<NodeId>, times: seq<int>)
    | Send(accept: AcceptMsg, sends: seq<bool>, readings: seq<int>)
    | Arrive(chunk: ChunkMsg, held: seq<Stored>)
    | OtherOffer(others: seq<int>, budget: int, other: Option<NodeId>, clock: seq<int>)
    | OtherChunk(id: int, stored: seq<Stored>)
    | Learn(known: Option<Known>)
    | Rebuffer(buffer: seq<Stored>)

  ghost predicate Enabled(w: World, e: Event) {
    match e
    case Offer(_, ids, _, source, dt) =>
      w.cb != [] && Distinct(ids) && LastOffered(|w.cb|, source) < |w.cb|
      && Elements(ids) == Offered(w.cb, LastOffered(|w.cb|, source), dt)
    case Answer(m, _, times) => m in w.offers && |times| == |m.ids| && Onwards(w.ledger.now, times)
    case Send(m, sends, readings) => m in w.accepts && |sends| == |readings| == |m.ids|
    case Arrive(m, _) => m in w.chunks
    case OtherOffer(ids, _, _, clock) => |clock| == |ids| && Onwards(w.ledger.now, clock)
    case OtherChunk(_, _) => true
    case Learn(_) => true
    case Rebuffer(_) => true
  }

  function AcceptFor(w: World, m: OfferMsg, from: Option<NodeId>, times: seq<int>): AcceptMsg
    requires |times| == |m.ids|
  {
    AcceptMsg(m.transId, IdsOf(Accepting(w.ledger.locks, m.maxDeliver, m.ids, times, from, w.own).accepted))
  }

  function DeliveryFor(w: World, m: AcceptMsg, sends: seq<bool>, readings: seq<int>): Delivery
    requires |sends| == |readings| == |m.ids|
  {
    Sending(w.view, |m.ids|, m.ids, sends, readings, w.cb, w.limit)
  }

  ghost function ChunksOf(transId: int, ids: seq<int>): set<ChunkMsg> {
    set id | id in ids :: ChunkMsg(transId, id)
  }

  ghost function Step(w: World, e: Event): World
    requires Enabled(w, e)
  {
    match e
    case Offer(transId, ids, maxDeliver, _, _) => w.(offers := w.offers + {OfferMsg(transId, ids, maxDeliver)})
    case Answer(m, from, times) =>
      w.(ledger := AfterOffer(w.ledger, m.maxDeliver, m.ids, times, from, w.own),
         accepts := w.accepts + {AcceptFor(w, m, from, times)})
    case Send(m, sends, readings) =>
      var d := DeliveryFor(w, m, sends, readings);
      w.(view := d.peer, chunks := w.chunks + ChunksOf(m.transId, d.ids))
    case Arrive(m, held) => w.(ledger := AfterArrival(w.ledger, m.id), own := w.own.(cb := held))
    case OtherOffer(ids, budget, other, clock) =>
      w.(ledger := AfterOffer(w.ledger, budget, ids, clock, other, w.own))
    case OtherChunk(id, stored) => w.(ledger := AfterArrival(w.ledger, id), own := w.own.(cb := stored))
    case Learn(known) => w.(view := known)
    case Rebuffer(buffer) => w.(cb := buffer)
  }

  ghost predicate Start(w: World) {
    w.ledger.locks == [] && w.ledger.log == [] && w.offers == {} && w.accepts == {} && w.chunks == {}
  }

  ghost predicate Possible(w: World, events: seq<Event>)
    decreases |events|, 0
  {
    events == [] ||
    (Possible(w, events[..|events| - 1]) && Enabled(After(w, events[..|events| - 1]), events[|events| - 1]))
  }

  ghost function After(w: World, events: seq<Event>): World
    requires Possible(w, events)
    decreases |events|, 1
  {
    if events == [] then w
    else Step(After(w, events[..|events| - 1]), events[|events| - 1])
  }

  ghost predicate Requested(log: seq<Entry>, id: int) {
    exists i :: 0 <= i < |log| && log[i].Accepted? && log[i].id == id
  }

  ghost predicate AnswerTo(a: AcceptMsg, o: OfferMsg) {
    a.transId == o.transId && Distinct(a.ids) && |a.ids| <= Max(0, o.maxDeliver) && forall id :: id in a.ids ==>
      id in o.ids
  }

  ghost predicate Answered(a: AcceptMsg, offers: set<OfferMsg>, log: seq<Entry>) {
    (exists o :: o in offers && AnswerTo(a, o)) && forall id :: id in a.ids ==> Requested(log, id)
  }

  ghost predicate AskedFor(c: ChunkMsg, accepts: set<AcceptMsg>) {
    exists a :: a in accepts && a.transId == c.transId && c.id in a.ids
  }

  ghost predicate Sound(w: World) {
    && Good(w.ledger)
    && (forall o :: o in w.offers ==> Distinct(o.ids))
    && (forall a :: a in w.accepts ==> Answered(a, w.offers, w.ledger.log))
    && (forall c :: c in w.chunks ==> AskedFor(c, w.accepts))
  }

  lemma {:induction false} AnsweredLater(a: AcceptMsg, offers: set<OfferMsg>, log: seq<Entry>,
                                         moreOffers: set<OfferMsg>, more: seq<Entry>)
    requires Answered(a, offers, log)
    ensures Answered(a, offers + moreOffers, log + more)
  {
    forall id | id in a.ids
      ensures Requested(log + more, id)
    {
      var i :| 0 <= i < |log| && log[i].Accepted? && log[i].id == id;
      assert (log + more)[i] == log[i];
    }
  }

  lemma {:induction false} AnswersFirst(acc: seq<Entry>, all: seq<Entry>, m: OfferMsg, log: seq<Entry>)
    requires acc == Taken(all, m.maxDeliver)
    requires forall e :: e in all ==> e.Accepted? && e.id in m.ids
    requires forall i, j :: 0 <= i < j < |all| ==> all[i].id != all[j].id
    ensures AnswerTo(AcceptMsg(m.transId, IdsOf(acc)), m)
    ensures forall id :: id in IdsOf(acc) ==> Requested(log + acc, id)
  {
    assert forall i :: 0 <= i < |acc| ==> acc[i] == all[i] && all[i] in all;
    forall id | id in IdsOf(acc)
      ensures Requested(log + acc, id)
    {
      var i :| 0 <= i < |acc| && acc[i].id == id;
      assert (log + acc)[|log| + i] == acc[i];
    }
  }

  lemma {:induction false} AcceptAnswers(w: World, m: OfferMsg, from: Option<NodeId>, times: seq<int>)
    requires Sound(w) && m in w.offers && |times| == |m.ids| && Onwards(w.ledger.now, times)
    ensures Answered(AcceptFor(w, m, from, times), w.offers,
                     AfterOffer(w.ledger, m.maxDeliver, m.ids, times, from, w.own).log)
  {
    var o := Accepting(w.ledger.locks, m.maxDeliver, m.ids, times, from, w.own);
    var all := Wanted(w.ledger.locks, m.ids, times, w.own);
    AcceptsFirstWanted(w.ledger.locks, m.maxDeliver, m.ids, times, from, w.own);
    WantedMembers(w.ledger.locks, m.ids, times, w.own);
    AnswersFirst(o.accepted, all, m, w.ledger.log);
  }

  lemma {:induction false} AnswerSound(w: World, e: Event)
    requires Sound(w) && Enabled(w, e) && e.Answer?
    ensures Sound(Step(w, e))
  {
    hide Good, AfterOffer, AcceptFor, Answered, AskedFor, Distinct, Onwards;
    var Answer(m, from, times) := e;
    OfferGood(w.ledger, m.maxDeliver, m.ids, times, from, w.own);
    AcceptAnswers(w, m, from, times);
    var n := Step(w, e);
    LogGrows(w.ledger, m.maxDeliver, m.ids, times, from, w.own);
    ghost var more := n.ledger.log[|w.ledger.log|..];
    forall a | a in n.accepts
      ensures Answered(a, n.offers, n.ledger.log)
    {
      if a in w.accepts {
        AnsweredLater(a, w.offers, w.ledger.log, {}, more);
        assert w.offers + {} == n.offers;
      }
    }
    forall c | c in n.chunks
      ensures AskedFor(c, n.accepts)
    {
      AskedLater(c, w.accepts, {AcceptFor(w, m, from, times)});
    }
  }

  lemma {:induction false} AskedLater(c: ChunkMsg, accepts: set<AcceptMsg>, more: set<AcceptMsg>)
    requires AskedFor(c, accepts)
    ensures AskedFor(c, accepts + more)
  {
    var a :| a in accepts && a.transId == c.transId && c.id in a.ids;
    assert a in accepts + more;
  }

  lemma {:induction false} LogGrows(l: Ledger, budget: int, offer: seq<int>, clock: seq<int>, from: Option<NodeId>,
                                    h: Holdings)
    requires |clock| == |offer|
    ensures var n := AfterOffer(l, budget, offer, clock, from, h);
            |l.log| <= |n.log| && n.log == l.log + n.log[|l.log|..]
  {
  }

  /** The log and the offers may grow. */
  lemma {:induction false} GrowthSound(w: World, n: World, moreOffers: set<OfferMsg>, more: seq<Entry>)
    requires Sound(w) && Good(n.ledger)
    requires n.ledger.log == w.ledger.log + more && n.offers == w.offers + moreOffers
    requires forall o :: o in moreOffers ==> Distinct(o.ids)
    requires n.accepts == w.accepts && n.chunks == w.chunks
    ensures Sound(n)
  {
    hide Good, Answered, AskedFor, Distinct;
    forall a | a in n.accepts
      ensures Answered(a, n.offers, n.ledger.log)
    {
      AnsweredLater(a, w.offers, w.ledger.log, moreOffers, more);
    }
  }

  lemma {:induction false} SendSound(w: World, e: Event)
    requires Sound(w) && Enabled(w, e) && e.Send?
    ensures Sound(Step(w, e))
    ensures forall c :: c in Step(w, e).chunks && c !in w.chunks ==>
      c.transId == e.accept.transId && c.id in e.accept.ids && c.id in Ids(w.cb)
  {
    hide Good, Answered, Distinct, DeliveryFor, Ids;
    var Send(m, sends, readings) := e;
    SendsOnce(w.view, |m.ids|, m.ids, sends, readings, w.cb, w.limit);
    DeliveryIs(w, m, sends, readings);
    var ids := DeliveryFor(w, m, sends, readings).ids;
    forall c | c in ChunksOf(m.transId, ids)
      ensures AskedFor(c, w.accepts) && c.transId == m.transId && c.id in m.ids && c.id in Ids(w.cb)
    {
      assert c.id in ids;
    }
  }

  lemma {:induction false} DeliveryIs(w: World, m: AcceptMsg, sends: seq<bool>, readings: seq<int>)
    requires |sends| == |readings| == |m.ids|
    ensures DeliveryFor(w, m, sends, readings) == Sending(w.view, |m.ids|, m.ids, sends, readings, w.cb, w.limit)
  {
  }

  lemma {:induction false} StepSound(w: World, e: Event)
    requires Sound(w) && Enabled(w, e)
    ensures Sound(Step(w, e))
  {
    hide Sound, Good, AfterOffer, Distinct, Onwards;
    SoundParts(w);
    var n := Step(w, e);
    match e
    case Offer(transId, ids, max, _, _) =>
      assert w.ledger.log + [] == w.ledger.log;
      GrowthSound(w, n, {OfferMsg(transId, ids, max)}, []);
    case Answer(_, _, _) => AnswerSound(w, e);
    case Send(_, _, _) => SendSound(w, e);
    case Arrive(m, _) =>
      ArrivalGood(w.ledger, m.id);
      GrowthSound(w, n, {}, [Got(m.id)]);
    case OtherOffer(ids, budget, other, clock) =>
      OfferGood(w.ledger, budget, ids, clock, other, w.own);
      LogGrows(w.ledger, budget, ids, clock, other, w.own);
      GrowthSound(w, n, {}, n.ledger.log[|w.ledger.log|..]);
    case OtherChunk(id, _) =>
      ArrivalGood(w.ledger, id);
      GrowthSound(w, n, {}, [Got(id)]);
    case Learn(_) =>
      assert w.ledger.log + [] == w.ledger.log;
      GrowthSound(w, n, {}, []);
    case Rebuffer(_) =>
      assert w.ledger.log + [] == w.ledger.log;
      GrowthSound(w, n, {}, []);
  }

  lemma {:induction false} SoundParts(w: World)
    requires Sound(w)
    ensures Good(w.ledger)
  {
  }

  lemma {:induction false} RunSound(w: World, events: seq<Event>)
    requires Start(w) && Possible(w, events)
    ensures Sound(After(w, events))
    decreases |events|
  {
    if events != [] {
      RunSound(w, events[..|events| - 1]);
      StepSound(After(w, events[..|events| - 1]), events[|events| - 1]);
    }
  }

  /** Over every run, two requests for the same chunk, from whichever peer, are separated by its arrival or by more than
      the timeout. */
  lemma {:induction false} NoDoubleRequest(w: World, events: seq<Event>, i: nat, j: nat)
    requires Start(w) && Possible(w, events)
    requires var log := After(w, events).ledger.log;
             i < j < |log| && log[i].Accepted? && log[j].Accepted? && log[i].id == log[j].id
    ensures var log := After(w, events).ledger.log;
            log[j].at > log[i].at + 2_000_000 || exists k :: i < k < j && log[k] == Got(log[i].id)
  {
    hide Possible, After;
    RunSound(w, events);
    var log := After(w, events).ledger.log;
    assert SameRequest(log, i, j) ==> Expired(log[i], log[j].at);
    if k :| i <= k < j && log[k] == Got(log[i].id) {
      assert i < k;
    } else {
      assert NoneGot(log, i, j, log[i].id);
    }
  }

  /** Over every run, each chunk ever sent was requested by an accept, which answers an offer made under the same
      transaction, keeps to its limit, and was entered in the accepting peer's log. */
  lemma {:induction false} ChunksContained(w: World, events: seq<Event>, c: ChunkMsg)
    requires Start(w) && Possible(w, events) && c in After(w, events).chunks
    ensures var n := After(w, events);
            Requested(n.ledger.log, c.id) &&
            exists a, o :: a in n.accepts && o in n.offers && a.transId == o.transId == c.transId && c.id in a.ids
                           && |a.ids| <= Max(0, o.maxDeliver) && forall id :: id in a.ids ==> id in o.ids
  {
    hide Possible, After, Requested, Good;
    RunSound(w, events);
    var n := After(w, events);
    assert AskedFor(c, n.accepts);
    var a :| a in n.accepts && a.transId == c.transId && c.id in a.ids;
    assert Answered(a, n.offers, n.ledger.log);
    var o :| o in n.offers && AnswerTo(a, o);
  }

  /** A chunk leaves only while its sender owns it, and only in answer to an accept that names it. */
  lemma {:induction false} SentWhileOwned(w: World, e: Event, c: ChunkMsg)
    requires Sound(w) && Enabled(w, e) && c in Step(w, e).chunks && c !in w.chunks
    ensures e.Send? && e.accept in w.accepts && c.transId == e.accept.transId && c.id in e.accept.ids
      && c.id in Ids(w.cb)
  {
    hide Sound, Ids, AfterOffer, Distinct, Onwards;
    if e.Send? {
      SendSound(w, e);
    }
  }

  lemma {:induction false} JustAccepted(log: seq<Entry>, acc: seq<Entry>, i: nat)
    requires i < |acc| && forall e :: e in acc ==> e.Accepted?
    ensures acc[i] in Pending(log + acc)
  {
    hide Pending;
    assert forall k :: |log| <= k < |log + acc| ==> (log + acc)[k] == acc[k - |log|] && acc[k - |log|] in acc;
    PendingUntilGot(log + acc, |log| + i);
  }

  lemma {:induction false} AcceptForIs(w: World, m: OfferMsg, from: Option<NodeId>, times: seq<int>)
    requires |times| == |m.ids|
    ensures var o := Accepting(w.ledger.locks, m.maxDeliver, m.ids, times, from, w.own);
            AcceptFor(w, m, from, times).ids == IdsOf(o.accepted) &&
            AfterOffer(w.ledger, m.maxDeliver, m.ids, times, from, w.own).log == w.ledger.log + o.accepted
  {
  }

  lemma {:induction false} SoundOffers(w: World, m: OfferMsg)
    requires Sound(w) && m in w.offers
    ensures Distinct(m.ids)
  {
  }

  lemma {:induction false} GoodPending(l: Ledger, e: Entry)
    requires Good(l) && e in Pending(l.log)
    ensures e in Locked(l.locks) || Expired(e, l.now)
  {
  }

  /** Everything accepted is, at that moment, missing from the acceptor's buffer, within its window and on request from
      nobody; afterwards it holds a lock that dates from its round, unless that has expired in the meantime. */
  lemma {:induction false} AcceptedFresh(w: World, e: Event, id: int)
    requires Sound(w) && Enabled(w, e) && e.Answer?
    requires id in AcceptFor(w, e.offer, e.from, e.times).ids
    ensures w.own.cbSize != 0 && id !in Ids(w.own.cb)
    ensures w.own.cb == [] || forall m :: IsEarliest(Ids(w.own.cb), m) ==>
      id >= m - Missing(Ids(w.own.cb), w.own.cbSize)
    ensures exists t :: t in e.times && !LiveLock(w.ledger.locks, id, t)
                        && (Accepted(id, t) in Locked(Step(w, e).ledger.locks) || t + 2_000_000 < Step(w, e).ledger.now)
  {
    hide Sound, Ids, Missing, IsEarliest, Wants, LiveLock, Locked, AcceptFor, Accepting, Wanted, Good;
    var Answer(m, from, times) := e;
    var (n, o) := (Step(w, e), Accepting(w.ledger.locks, m.maxDeliver, m.ids, times, from, w.own));
    AcceptForIs(w, m, from, times);
    SoundOffers(w, m);
    AcceptsFirstWanted(w.ledger.locks, m.maxDeliver, m.ids, times, from, w.own);
    WantedMembers(w.ledger.locks, m.ids, times, w.own);
    var i :| 0 <= i < |o.accepted| && o.accepted[i].id == id;
    var t := o.accepted[i].at;
    assert o.accepted[i] in Wanted(w.ledger.locks, m.ids, times, w.own);
    WantsExactly(w.own, id, t);
    AnswerSound(w, e);
    JustAccepted(w.ledger.log, o.accepted, i);
    SoundParts(n);
    GoodPending(n.ledger, o.accepted[i]);
  }

  /** What each step of the protocol does, told by the chunks concerned. */
  lemma {:induction false} StepEffects(w: World, e: Event)
    requires Sound(w) && Enabled(w, e)
    ensures var n := Step(w, e);
            match e
            case Offer(transId, ids, maxDeliver, _, _) => n ==
              w.(offers := w.offers + {OfferMsg(transId, ids, maxDeliver)})
            case Answer(m, from, times) =>
              var first := Taken(Wanted(w.ledger.locks, m.ids, times, w.own), m.maxDeliver);
              && n.accepts == w.accepts + {AcceptMsg(m.transId, IdsOf(first))} && n.ledger.log == w.ledger.log + first
              && n == w.(accepts := n.accepts, ledger := n.ledger)
            case Send(m, sends, readings) =>
              var d := Sending(w.view, |m.ids|, m.ids, sends, readings, w.cb, w.limit);
              && (forall c :: c in n.chunks <==> c in w.chunks || (c.transId == m.transId && c.id in d.ids))
              && n == w.(chunks := n.chunks, view := d.peer)
            case Arrive(m, held) =>
              && n.ledger.log == w.ledger.log + [Got(m.id)] && (forall l :: l in n.ledger.locks ==> l.chunkId != m.id)
              && n == w.(ledger := n.ledger, own := w.own.(cb := held))
            case OtherOffer(ids, budget, other, clock) =>
              var more := Accepting(w.ledger.locks, budget, ids, clock, other, w.own).accepted;
              n.ledger.log == w.ledger.log + more && n == w.(ledger := n.ledger)
            case OtherChunk(id, stored) =>
              && n.ledger.log == w.ledger.log + [Got(id)] && (forall l :: l in n.ledger.locks ==> l.chunkId != id)
              && n == w.(ledger := n.ledger, own := w.own.(cb := stored))
            case Learn(known) => n == w.(view := known)
            case Rebuffer(buffer) => n == w.(cb := buffer)
  {
    hide Good, Accepting, Sending, Wanted, Taken, Unlocked, Unique;
    GoodUnique(w.ledger);
    match e
    case Answer(m, from, times) =>
      AcceptForIs(w, m, from, times);
      AcceptsFirstWanted(w.ledger.locks, m.maxDeliver, m.ids, times, from, w.own);
    case Arrive(m, _) => UnlockedMembers(w.ledger.locks, m.id);
    case OtherChunk(id, _) => UnlockedMembers(w.ledger.locks, id);
    case Offer(_, _, _, _, _) =>
    case Send(_, _, _) =>
    case OtherOffer(_, _, _, _) =>
    case Learn(_) =>
    case Rebuffer(_) =>
  }

  lemma {:induction false} GoodUnique(l: Ledger)
    requires Good(l)
    ensures Unique(l.locks)
  {
  }

  /** A whole exchange does take place: of two chunks the younger one is offered, accepted, sent, and arrives. */
  lemma {:induction false} ExchangeHappens()
    ensures var limit := CB_SIZE_TIME_UNLIMITED;
            var w := World([Stored(1, 1), Stored(2, 1_000_001)], limit, Some(Known(Some({}), 10)),
              Holdings([], 10, limit),
                           Ledger([], [], 0), {}, {}, {});
            var run := [Offer(5, [2], 1, false, 500_000.0), Answer(OfferMsg(5, [2], 1), None, [3]),
                        Send(AcceptMsg(5, [2]), [true], [4]), Arrive(ChunkMsg(5, 2), [Stored(2, 1_000_001)])];
            && Start(w) && Possible(w, run) && After(w, run).ledger.log == [Accepted(2, 3), Got(2)]
            && After(w, run).view == Some(Known(Some({2}), 10))
  {
    var limit := CB_SIZE_TIME_UNLIMITED;
    ExchangeFrom(World([Stored(1, 1), Stored(2, 1_000_001)], limit, Some(Known(Some({}), 10)), Holdings([], 10, limit),
                       Ledger([], [], 0), {}, {}, {}));
  }

  lemma {:induction false} ExchangeFrom(w: World)
    requires Start(w) && w.ledger.now == 0 && w.cb == [Stored(1, 1), Stored(2, 1_000_001)]
    requires w.limit == CB_SIZE_TIME_UNLIMITED && w.view == Some(Known(Some({}), 10))
      && w.own == Holdings([], 10, w.limit)
    ensures var run := [Offer(5, [2], 1, false, 500_000.0), Answer(OfferMsg(5, [2], 1), None, [3]),
                        Send(AcceptMsg(5, [2]), [true], [4]), Arrive(ChunkMsg(5, 2), [Stored(2, 1_000_001)])];
            && Possible(w, run) && After(w, run).ledger.log == [Accepted(2, 3), Got(2)]
            && After(w, run).view == Some(Known(Some({2}), 10))
  {
    var (a, b) := (Offer(5, [2], 1, false, 500_000.0), Answer(OfferMsg(5, [2], 1), None, [3]));
    var (c, d) := (Send(AcceptMsg(5, [2]), [true], [4]), Arrive(ChunkMsg(5, 2), [Stored(2, 1_000_001)]));
    hide Possible, After, Accepting, Sending, Offered;
    assert [] + [a] == [a] && [a] + [b] == [a, b] && [a, b] + [c] == [a, b, c] && [a, b, c] + [d] == [a, b, c, d];
    RunNone(w);
    OfferEnabled(w);
    RunPush(w, [], a);
    var w1 := After(w, [a]);
    assert w1 == w.(offers := {OfferMsg(5, [2], 1)});
    AcceptsTwo(w.own);
    RunPush(w, [a], b);
    var w2 := After(w, [a, b]);
    assert IdsOf([Accepted(2, 3)]) == [2];
    assert w2 == w1.(ledger := Ledger([Lock(2, None, 3)], [Accepted(2, 3)], 3), accepts := {AcceptMsg(5, [2])});
    SendsTwo(w.cb, w.limit);
    RunPush(w, [a, b], c);
    var w3 := After(w, [a, b, c]);
    assert ChunkMsg(5, 2) in ChunksOf(5, [2]);
    assert w3 == w2.(view := Some(Known(Some({2}), 10)), chunks := ChunksOf(5, [2]));
    RunPush(w, [a, b, c], d);
  }

  lemma {:induction false} RunNone(w: World)
    ensures Possible(w, []) && After(w, []) == w
  {
  }

  lemma {:induction false} RunPush(w: World, events: seq<Event>, e: Event)
    requires Possible(w, events) && Enabled(After(w, events), e)
    ensures Possible(w, events + [e]) && After(w, events + [e]) == Step(After(w, events), e)
  {
    assert (events + [e])[..|events|] == events;
  }

  lemma {:induction false} OfferEnabled(w: World)
    requires w.cb == [Stored(1, 1), Stored(2, 1_000_001)]
    ensures Enabled(w, Offer(5, [2], 1, false, 500_000.0))
  {
    OfferedExactly(w.cb, false, 500_000.0);
    assert w.cb[1].id == 2 && w.cb[0].id == 1;
    assert Elements([2]) == Offered(w.cb, LastOffered(2, false), 500_000.0);
  }

  lemma {:induction false} AcceptsTwo(h: Holdings)
    requires h == Holdings([], 10, CB_SIZE_TIME_UNLIMITED)
    ensures Accepting([], 1, [2], [3], None, h) == Outcome([Lock(2, None, 3)], [Accepted(2, 3)])
  {
    AcceptingStep([], 1, [2], [3], None, h);
    AcceptingNone([Lock(2, None, 3)], 0, [], [], None, h);
    WantsExactly(h, 2, 3);
    assert Cleaned([], 3) == [] && [] + [Lock(2, None, 3)] == [Lock(2, None, 3)];
    assert [2][1..] == [] && [3][1..] == [];
  }

  lemma {:induction false} SendsTwo(cb: seq<Stored>, limit: int)
    requires cb == [Stored(1, 1), Stored(2, 1_000_001)] && limit == CB_SIZE_TIME_UNLIMITED
    ensures Sending(Some(Known(Some({}), 10)), 1, [2], [true], [4], cb, limit) ==
      Delivery(Some(Known(Some({2}), 10)), [2])
  {
    var p := Some(Known(Some({}), 10));
    assert cb[1] in cb && 2 in Ids(cb);
    SendingStep(p, 1, [2], [true], [4], cb, limit);
    SendingNone(WithChunk(p, 2), 0, [], [], [], cb, limit);
    assert [2][1..] == [] && [true][1..] == [] && [4][1..] == [];
    assert {} + {2} == {2};
  }
}
