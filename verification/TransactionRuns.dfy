/** The transaction table over whole runs: timeouts, ids under wrap-around, and samples of the accept-to-ack delay
    (transaction.c, ratecontrol.c, streaming.c). */
module TransactionRuns {
  import opened Common
  import opened NodeIdSet
  import opened Transactions

  // ---------------------------------------------------------------- the timeout sweep

  /** Newest first: under a clock that does not run backwards, send times never increase from head to tail. */
  ghost predicate NewestFirst(s: seq<Entry>) {
    forall i, j :: 0 <= i < j < |s| ==> s[i].serial > s[j].serial && s[i].st.offerSent >= s[j].st.offerSent
  }

  ghost predicate AllLive(s: seq<Entry>, now: real) {
    forall i :: 0 <= i < |s| ==> !Expired(s[i].st, now)
  }

  lemma {:induction false} LivePrefix(s: seq<Entry>, now: real) returns (k: nat)
    requires NewestFirst(s)
    ensures k <= |s| && LiveOf(s, now) == s[..k] && AllLive(s[..k], now)
    ensures forall i :: k <= i < |s| ==> Expired(s[i].st, now)
  {
    hide LiveOf, AllLive;
    k := |s|;
    assert s[..k] == s;
    if s == [] {
      LiveOfAll(s, now);
    } else if Expired(s[|s| - 1].st, now) {
      var init := s[..|s| - 1];
      LivePush(s, now, |s| - 1);
      k := LivePrefix(init, now);
      assert init[..k] == s[..k];
      assert forall i :: 0 <= i < |init| ==> init[i] == s[i];
    } else {
      OlderLive(s, now);
      LiveOfAll(s, now);
    }
  }

  lemma {:induction false} LiveOfAll(s: seq<Entry>, now: real)
    requires s == [] || AllLive(s, now)
    ensures LiveOf(s, now) == s && (s == [] ==> AllLive(s, now))
  {
    if s != [] {
      LiveOfAll(s[..|s| - 1], now);
      assert s == s[..|s| - 1] + [s[|s| - 1]];
    }
  }

  lemma {:induction false} OlderLive(s: seq<Entry>, now: real)
    requires NewestFirst(s) && s != [] && !Expired(s[|s| - 1].st, now)
    ensures AllLive(s, now)
  {
    assert forall i :: 0 <= i < |s| - 1 ==> s[i].st.offerSent >= s[|s| - 1].st.offerSent;
  }

  /** The sweep leaves exactly the live prefix when the head is live, and drops exactly the head when it is not;
      so it clears all expired elements if and only if the head is live or is the only element. */
  lemma {:induction false} SweepEffect(s: seq<Entry>, now: real)
    requires NewestFirst(s)
    ensures s != [] && Expired(s[0].st, now) ==>
      Swept(s, now) == s[1..] && forall i :: 0 <= i < |s| ==> Expired(s[i].st, now)
    ensures s != [] && !Expired(s[0].st, now) ==>
              exists k :: 0 < k <= |s| && Swept(s, now) == s[..k] && AllLive(s[..k], now)
                          && forall i :: k <= i < |s| ==> Expired(s[i].st, now)
    ensures AllLive(Swept(s, now), now) <==> s == [] || !Expired(s[0].st, now) || |s| == 1
  {
    if s != [] {
      if Expired(s[0].st, now) {
        forall i | 0 <= i < |s|
          ensures Expired(s[i].st, now)
        {
          assert i > 0 ==> s[0].st.offerSent >= s[i].st.offerSent;
        }
        assert |s| > 1 ==> s[1..][0] == s[1];
      } else {
        var k := LivePrefix(s, now);
        assert Swept(s, now) == s[..k];
        assert k > 0 && AllLive(s[..k], now);
      }
    }
  }

  // ---------------------------------------------------------------- ids

  /** With the head at most ten seconds old the sweep keeps exactly the elements at most ten seconds old; else it takes
      out the head and nothing else. */
  lemma {:induction false} SweepSeconds(s: seq<Entry>, now: real)
    requires NewestFirst(s) && s != []
    ensures now - s[0].st.offerSent <= 10.0 ==>
      forall e :: e in Swept(s, now) <==> e in s && now - e.st.offerSent <= 10.0
    ensures now - s[0].st.offerSent > 10.0 ==> Swept(s, now) == s[1..]
  {
    LiveOfMembers(s, now);
  }

  lemma {:induction false} LiveOfMembers(s: seq<Entry>, now: real)
    ensures forall e :: e in LiveOf(s, now) <==> e in s && now - e.st.offerSent <= 10.0
  {
    if s != [] {
      LiveOfMembers(s[..|s| - 1], now);
      assert s == s[..|s| - 1] + [s[|s| - 1]];
    }
  }

  /** Ids of transactions fewer than 65535 creations apart differ. */
  lemma {:induction false} IdsApart(a: nat, b: nat)
    requires a < b < a + 65535
    ensures IdOf(a) != IdOf(b)
  {
    if a % 65535 == b % 65535 {
      SameResidue(a, b, 65535);
    }
  }

  ghost predicate Numbered(s: seq<Entry>, created: nat) {
    forall i :: 0 <= i < |s| ==> 1 <= s[i].serial <= created && s[i].st.transId == IdOf(s[i].serial)
  }

  /** Ids in the list are distinct as long as its newest and oldest elements are fewer than 65535 creations apart. */
  lemma {:induction false} IdsDistinct(s: seq<Entry>, created: nat)
    requires NewestFirst(s) && Numbered(s, created) && s != [] && s[0].serial < s[|s| - 1].serial + 65535
    ensures forall i, j :: 0 <= i < j < |s| ==> s[i].st.transId != s[j].st.transId
  {
    forall i, j | 0 <= i < j < |s|
      ensures s[i].st.transId != s[j].st.transId
    {
      assert i > 0 ==> s[0].serial > s[i].serial;
      assert j < |s| - 1 ==> s[j].serial > s[|s| - 1].serial;
      IdsApart(s[j].serial, s[i].serial);
    }
  }

  /** A lookup hits the most recently created element that carries the id. */
  lemma {:induction false} FindsNewest(s: seq<Entry>, id: int)
    requires NewestFirst(s)
    ensures var i := Find(s, id);
            if i == |s| then forall k :: 0 <= k < |s| ==> s[k].st.transId != id
            else s[i].st.transId == id
                 && forall k :: 0 <= k < |s| && s[k].st.transId == id ==> s[k].serial <= s[i].serial
  {
  }

  // ---------------------------------------------------------------- runs

  /** transaction_create, transaction_reg_accept, and the acknowledgement handled by rc_reg_ack. */
  datatype Event = Offer(peer: NodeId, now: real) | Accept(id: int, now: real) | Ack(id: int, now: real)

  datatype Sample = Sample(serial: nat, accepted: real, acked: real)

  /** `accepts` remembers which transaction each registered accept was recorded for. */
  datatype Run = Run(entries: seq<Entry>, created: nat, clock: real, accepts: seq<(nat, real)>, samples: seq<Sample>)

  const START := Run([], 0, 0.0, [], [])

  function Step(r: Run, e: Event): Run {
    match e
    case Offer(peer, now) =>
      var n := r.created + 1;
      r.(entries := [Entry(n, ServiceTime(IdOf(n), now, -1.0, peer))] + Swept(r.entries, now), created := n,
        clock := now)
    case Accept(id, now) =>
      var i := Find(r.entries, id);
      r.(entries := Accepted(r.entries, id, now), clock := now,
         accepts := if i < |r.entries| then r.accepts + [(r.entries[i].serial, now)] else r.accepts)
    case Ack(id, now) =>
      var i := Find(r.entries, id);
      r.(entries := Dropped(r.entries, id), clock := now,
         samples := if i < |r.entries| && r.entries[i].st.acceptReceived >= 0.0
                    then r.samples + [Sample(r.entries[i].serial, r.entries[i].st.acceptReceived, now)] else r.samples)
  }

  function After(events: seq<Event>): Run {
    if events == [] then START else Step(After(events[..|events| - 1]), events[|events| - 1])
  }

  /** The clock starts at 0 or later and does not run backwards. */
  ghost predicate Monotone(events: seq<Event>) {
    && (forall i :: 0 <= i < |events| ==> 0.0 <= events[i].now)
    && (forall i, j :: 0 <= i < j < |events| ==> events[i].now <= events[j].now)
  }

  /** The time of the last accept recorded for a transaction; -1 if there was none. */
  function LastAccept(accepts: seq<(nat, real)>, serial: nat): real {
    if accepts == [] then -1.0
    else if accepts[|accepts| - 1].0 == serial then accepts[|accepts| - 1].1
    else LastAccept(accepts[..|accepts| - 1], serial)
  }

  ghost predicate Good(r: Run) {
    && NewestFirst(r.entries) && Numbered(r.entries, r.created) && 0.0 <= r.clock
    && (forall i :: 0 <= i < |r.entries| ==>
          r.entries[i].st.offerSent <= r.clock
            && r.entries[i].st.acceptReceived == LastAccept(r.accepts, r.entries[i].serial))
    && (forall k :: 0 <= k < |r.accepts| ==> r.accepts[k].0 <= r.created && 0.0 <= r.accepts[k].1)
    && (forall k :: 0 <= k < |r.samples| ==> SampleOk(r, r.samples[k]))
    && (forall k, m :: 0 <= k < m < |r.samples| ==> r.samples[k].serial != r.samples[m].serial)
  }

  /** A sample belongs to a transaction that is closed, and measures from the last accept recorded for it. */
  ghost predicate SampleOk(r: Run, s: Sample) {
    && 1 <= s.serial <= r.created && s.accepted == LastAccept(r.accepts, s.serial) >= 0.0
    && (forall i :: 0 <= i < |r.entries| ==> r.entries[i].serial != s.serial)
  }

  lemma {:induction false} NoAccept(accepts: seq<(nat, real)>, serial: nat)
    requires forall k :: 0 <= k < |accepts| ==> accepts[k].0 != serial
    ensures LastAccept(accepts, serial) == -1.0
  {
    if accepts != [] {
      NoAccept(accepts[..|accepts| - 1], serial);
    }
  }

  /** The sweep keeps some of the elements in their order. */
  lemma {:induction false} SweptPart(s: seq<Entry>, now: real) returns (lo: nat, hi: nat)
    requires NewestFirst(s)
    ensures lo <= hi <= |s| && Swept(s, now) == s[lo..hi]
  {
    if s == [] {
      lo, hi := 0, 0;
    } else if Expired(s[0].st, now) {
      lo, hi := 1, |s|;
    } else {
      var k := LivePrefix(s, now);
      lo, hi := 0, k;
    }
  }

  lemma {:induction false} PartGood(r: Run, lo: nat, hi: nat)
    requires Good(r) && lo <= hi <= |r.entries|
    ensures Good(r.(entries := r.entries[lo..hi]))
  {
    hide LastAccept, IdOf;
    var part := r.entries[lo..hi];
    assert forall i :: 0 <= i < |part| ==> part[i] == r.entries[lo + i];
  }

  lemma {:induction false} PushGood(r: Run, peer: NodeId, now: real)
    requires Good(r) && r.clock <= now
    ensures var n := r.created + 1;
            Good(r.(entries := [Entry(n, ServiceTime(IdOf(n), now, -1.0, peer))] + r.entries, created := n,
              clock := now))
  {
    hide LastAccept, IdOf;
    var n := r.created + 1;
    var all := [Entry(n, ServiceTime(IdOf(n), now, -1.0, peer))] + r.entries;
    NoAccept(r.accepts, n);
    assert forall i :: 0 < i < |all| ==> all[i] == r.entries[i - 1];
  }

  lemma {:induction false} OfferGood(r: Run, peer: NodeId, now: real)
    requires Good(r) && r.clock <= now
    ensures Good(Step(r, Offer(peer, now)))
  {
    hide LastAccept, IdOf, Swept;
    var lo, hi := SweptPart(r.entries, now);
    PartGood(r, lo, hi);
    PushGood(r.(entries := r.entries[lo..hi]), peer, now);
  }

  lemma {:induction false} AcceptGood(r: Run, id: int, now: real)
    requires Good(r) && r.clock <= now
    ensures Good(Step(r, Accept(id, now)))
  {
    var r' := Step(r, Accept(id, now));
    var i := Find(r.entries, id);
    hide LastAccept, IdOf, Find;
    if i < |r.entries| {
      forall serial
        ensures LastAccept(r'.accepts, serial) ==
          if serial == r.entries[i].serial then now else LastAccept(r.accepts, serial)
      {
        LastAcceptPush(r.accepts, r.entries[i].serial, now, serial);
      }
    }
  }

  lemma {:induction false} LastAcceptPush(accepts: seq<(nat, real)>, n: nat, now: real, serial: nat)
    ensures LastAccept(accepts + [(n, now)], serial) == if serial == n then now else LastAccept(accepts, serial)
  {
    assert (accepts + [(n, now)])[..|accepts|] == accepts;
  }

  lemma {:induction false} CutGood(r: Run, i: nat)
    requires Good(r) && i < |r.entries|
    ensures Good(r.(entries := Cut(r.entries, i)))
    ensures forall k :: 0 <= k < |r.entries| - 1 ==> Cut(r.entries, i)[k].serial != r.entries[i].serial
  {
    hide LastAccept, NewestFirst, Numbered, Cut, SampleOk;
    CutOrder(r.entries, r.created, i);
    CutFrom(r.entries, i);
    var r' := r.(entries := Cut(r.entries, i));
    forall k | 0 <= k < |r.samples|
      ensures SampleOk(r', r.samples[k])
    {
      assert SampleOk(r, r.samples[k]);
      SampleCut(r, r.samples[k], i);
    }
  }

  lemma {:induction false} CutFrom<T>(s: seq<T>, i: nat)
    requires i < |s|
    ensures forall k :: 0 <= k < |s| - 1 ==> Cut(s, i)[k] == s[if k < i then k else k + 1]
  {
  }

  lemma {:induction false} CutOrder(s: seq<Entry>, created: nat, i: nat)
    requires NewestFirst(s) && Numbered(s, created) && i < |s|
    ensures NewestFirst(Cut(s, i)) && Numbered(Cut(s, i), created)
    ensures forall k :: 0 <= k < |s| - 1 ==> Cut(s, i)[k].serial != s[i].serial
  {
    hide Cut, IdOf;
    CutFrom(s, i);
  }

  lemma {:induction false} SampleCut(r: Run, sample: Sample, i: nat)
    requires SampleOk(r, sample) && i < |r.entries|
    ensures SampleOk(r.(entries := Cut(r.entries, i)), sample)
  {
    hide Cut, LastAccept;
    CutFrom(r.entries, i);
  }

  lemma {:induction false} AckGood(r: Run, id: int, now: real)
    requires Good(r) && r.clock <= now
    ensures Good(Step(r, Ack(id, now)))
  {
    hide LastAccept, IdOf, Cut, Find;
    var i := Find(r.entries, id);
    if i < |r.entries| {
      CutGood(r, i);
    }
  }

  /** Over any interleaving each transaction yields at most one sample, measured from the latest accept recorded
      for it, and everything else the table promises holds at every point. */
  lemma {:induction false} RunsGood(events: seq<Event>)
    requires Monotone(events)
    ensures Good(After(events)) && (events != [] ==> After(events).clock == events[|events| - 1].now)
  {
    if events != [] {
      var (before, e) := (events[..|events| - 1], events[|events| - 1]);
      RunsGood(before);
      var r := After(before);
      assert before != [] ==> before[|before| - 1].now <= e.now;
      match e
      case Offer(peer, now) => OfferGood(r, peer, now);
      case Accept(id, now) => AcceptGood(r, id, now);
      case Ack(id, now) => AckGood(r, id, now);
    }
  }

  /** An ack yields a sample exactly when the newest open transaction with its id has been accepted. Unknown ids,
      id 0, transactions never accepted and repeated acks yield none. */
  lemma {:induction false} AckYields(events: seq<Event>, id: int, now: real)
    requires Monotone(events + [Ack(id, now)])
    ensures var r := After(events);
            var r' := After(events + [Ack(id, now)]);
            var i := Find(r.entries, id);
            && (|r'.samples| == |r.samples| + 1 <==>
              i < |r.entries| && LastAccept(r.accepts, r.entries[i].serial) >= 0.0)
            && (r'.samples != r.samples ==>
                  r'.samples ==
                    r.samples + [Sample(r.entries[i].serial, LastAccept(r.accepts, r.entries[i].serial), now)])
            && (id == 0 ==> r' == r.(clock := now))
            && (i < |r.entries| ==> forall k :: 0 <= k < |r'.entries| ==> r'.entries[k].serial != r.entries[i].serial)
  {
    var r := After(events);
    assert (events + [Ack(id, now)])[..|events|] == events;
    forall i | 0 <= i < |events|
      ensures events[i] == (events + [Ack(id, now)])[i]
    {
    }
    RunsGood(events);
    AckEffect(r, id, now);
  }

  lemma {:induction false} AckEffect(r: Run, id: int, now: real)
    requires Good(r)
    ensures var r' := Step(r, Ack(id, now));
            var i := Find(r.entries, id);
            && (|r'.samples| == |r.samples| + 1 <==>
              i < |r.entries| && LastAccept(r.accepts, r.entries[i].serial) >= 0.0)
            && (r'.samples != r.samples ==>
                  r'.samples ==
                    r.samples + [Sample(r.entries[i].serial, LastAccept(r.accepts, r.entries[i].serial), now)])
            && (id == 0 ==> r' == r.(clock := now))
            && (i < |r.entries| ==> forall k :: 0 <= k < |r'.entries| ==> r'.entries[k].serial != r.entries[i].serial)
  {
    hide LastAccept, IdOf, Cut, Find;
    var i := Find(r.entries, id);
    if i < |r.entries| {
      IdStep(r.entries[i].serial - 1);
      CutGood(r, i);
    }
  }

  /** Over every run, creating a transaction leaves only live ones if and only if the newest one was live or the only
      one. */
  lemma {:induction false} OfferClearsIff(events: seq<Event>, q: NodeId, now: real)
    requires Monotone(events + [Offer(q, now)])
    ensures var s := After(events).entries;
            AllLive(After(events + [Offer(q, now)]).entries, now) <==> |s| <= 1 || !Expired(s[0].st, now)
  {
    hide Swept, AllLive, IdOf, Good;
    var all := events + [Offer(q, now)];
    assert all[..|events|] == events;
    assert forall i :: 0 <= i < |events| ==> events[i] == all[i];
    RunsGood(events);
    GoodNewest(After(events));
    var s := After(events).entries;
    SweepEffect(s, now);
    var e := After(all).entries[0];
    LiveFront(e, Swept(s, now), now);
  }

  lemma {:induction false} GoodNewest(r: Run)
    requires Good(r)
    ensures NewestFirst(r.entries)
  {
  }

  lemma {:induction false} LiveFront(e: Entry, s: seq<Entry>, now: real)
    requires e.st.offerSent == now
    ensures AllLive([e] + s, now) <==> AllLive(s, now)
  {
    assert forall i :: 0 < i < |[e] + s| ==> ([e] + s)[i] == s[i - 1];
    assert forall i :: 0 <= i < |s| ==> ([e] + s)[i + 1] == s[i];
  }

  /** However long the table was left alone, two offers within the lifetime of the first leave only live
      transactions behind. */
  lemma {:induction false} TwoOffersClear(events: seq<Event>, p: NodeId, q: NodeId, t1: real, t2: real)
    requires Monotone(events + [Offer(p, t1), Offer(q, t2)]) && t2 - t1 <= TRANS_ID_MAX_LIFETIME
    ensures AllLive(After(events + [Offer(p, t1), Offer(q, t2)]).entries, t2)
  {
    hide AllLive, Swept, IdOf;
    var one := events + [Offer(p, t1)];
    assert one + [Offer(q, t2)] == events + [Offer(p, t1), Offer(q, t2)];
    assert one[..|events|] == events;
    OfferClearsIff(one, q, t2);
  }

  /** The sweep does leave expired transactions behind: three offers at 0, 1 and 20 seconds keep the first one, which
      has been open for 20 seconds. */
  lemma {:induction false} ExpiredLeft(p: NodeId)
    ensures var r := After([Offer(p, 0.0), Offer(p, 1.0), Offer(p, 20.0)]);
            && Monotone([Offer(p, 0.0), Offer(p, 1.0), Offer(p, 20.0)])
            && |r.entries| == 2 && r.entries[1].serial == 1 && Expired(r.entries[1].st, 20.0)
  {
    hide IdOf, After, LiveOf;
    var (a, b, c) := (Offer(p, 0.0), Offer(p, 1.0), Offer(p, 20.0));
    TwoOffers(p);
    AfterPush([a, b], c);
    assert [a, b] + [c] == [a, b, c];
  }

  lemma {:induction false} TwoOffers(p: NodeId)
    ensures var r := After([Offer(p, 0.0), Offer(p, 1.0)]);
            && |r.entries| == 2 && r.entries[0].st.offerSent == 1.0
            && r.entries[1].serial == 1 && r.entries[1].st.offerSent == 0.0
  {
    hide IdOf, After, LiveOf;
    var (a, b) := (Offer(p, 0.0), Offer(p, 1.0));
    AfterNone();
    AfterPush([], a);
    assert [] + [a] == [a] && [a] + [b] == [a, b];
    LiveOfAll(After([a]).entries, 1.0);
    AfterPush([a], b);
  }

  lemma {:induction false} AfterPush(events: seq<Event>, e: Event)
    ensures After(events + [e]) == Step(After(events), e)
  {
    assert (events + [e])[..|events|] == events;
  }

  lemma {:induction false} AfterNone()
    ensures After([]) == START
  {
  }
}
