/** The chunk trading side of a peer (streaming.c) and its signalling handlers (chunk_signaling.c). */
module Trader {
  import opened Common
  import opened NodeIdSet
  import opened ChunkLock
  import opened Trading
  import T = Transactions
  import R = RateControl
  import P = Playout

  /** A neighbour's record; its identity is not needed here, only a lock remembers it. */
  class Peer {
    const id: NodeId
    var known: Known
    var bmapTimestamp: int

    constructor (id: NodeId)
      ensures this.id == id && known == Known(Some({}), 0)
    {
      this.id, known, bmapTimestamp := id, Known(Some({}), 0), 0;
    }

    /** The buffer map is replaced as a whole. */
    method SetBmap(bmap: set<int>, now: int)
      modifies this`known, this`bmapTimestamp
      ensures known == old(known).(bmap := Some(bmap)) && bmapTimestamp == now
    {
      known, bmapTimestamp := known.(bmap := Some(bmap)), now;
    }
  }

  function Joined(done: seq<Entry>, o: Outcome): Outcome {
    Outcome(o.locks, done + o.accepted)
  }

  lemma {:induction false} AcceptRound(locks: seq<Lock>, max: int, d: int, offer: seq<int>, clock: seq<int>, i: nat,
                                       from: Option<NodeId>, h: Holdings, done: seq<Entry>)
    requires |clock| == |offer| && i < |offer| && d < max
    ensures var (id, now) := (offer[i], clock[i]);
            var kept := Cleaned(locks, now);
            var all := Joined(done, Accepting(locks, max - d, offer[i..], clock[i..], from, h));
            if !Holds(kept, id) && Wants(h, id, now) then
              all == Joined(done + [Accepted(id, now)],
                            Accepting(kept + [Lock(id, from, now)], max - (d + 1), offer[i + 1..], clock[i + 1..],
                              from, h))
            else all == Joined(done, Accepting(kept, max - d, offer[i + 1..], clock[i + 1..], from, h))
  {
    hide Accepting, Cleaned, Holds, Wants;
    AcceptingStep(locks, max - d, offer[i..], clock[i..], from, h);
    assert offer[i..][1..] == offer[i + 1..] && clock[i..][1..] == clock[i + 1..];
    var (id, now) := (offer[i], clock[i]);
    var o := Accepting(Cleaned(locks, now) + [Lock(id, from, now)], max - d - 1, offer[i + 1..], clock[i + 1..],
      from, h);
    assert done + ([Accepted(id, now)] + o.accepted) == done + [Accepted(id, now)] + o.accepted;
  }

  lemma {:induction false} JoinedStart(o: Outcome)
    ensures Joined([], o) == o && IdsOf([]) == []
  {
  }

  lemma {:induction false} JoinedEnd(done: seq<Entry>, locks: seq<Lock>)
    ensures Joined(done, Outcome(locks, [])) == Outcome(locks, done)
  {
  }

  lemma {:induction false} IdsOfPush(done: seq<Entry>, id: int, at: int)
    ensures IdsOf(done + [Accepted(id, at)]) == IdsOf(done) + [id]
  {
  }

  function Followed(done: seq<int>, d: Delivery): Delivery {
    Delivery(d.peer, done + d.ids)
  }

  lemma {:induction false} FollowedEnds(done: seq<int>, d: Delivery)
    ensures Followed([], d) == d
    ensures Followed(done, Delivery(d.peer, [])) == Delivery(d.peer, done)
  {
  }

  lemma {:induction false} SendRound(p: Option<Known>, max: int, d: int, acc: seq<int>, sends: seq<bool>,
                                     clock: seq<int>, i: nat, cb: seq<Stored>, limit: int, done: seq<int>)
    requires |sends| == |clock| == |acc| && i < |acc| && d < max
    ensures var all := Followed(done, Sending(p, max - d, acc[i..], sends[i..], clock[i..], cb, limit));
            if Sendable(p, acc[i], clock[i], cb, limit) && sends[i] then
              all == Followed(done + [acc[i]],
                              Sending(WithChunk(p, acc[i]), max - (d + 1), acc[i + 1..], sends[i + 1..],
                                clock[i + 1..], cb, limit))
            else all == Followed(done, Sending(p, max - d, acc[i + 1..], sends[i + 1..], clock[i + 1..], cb, limit))
  {
    hide Sending, Sendable, WithChunk;
    SendingStep(p, max - d, acc[i..], sends[i..], clock[i..], cb, limit);
    assert acc[i..][1..] == acc[i + 1..] && clock[i..][1..] == clock[i + 1..] && sends[i..][1..] == sends[i + 1..];
    var s := Sending(WithChunk(p, acc[i]), max - d - 1, acc[i + 1..], sends[i + 1..], clock[i + 1..], cb, limit);
    assert done + ([acc[i]] + s.ids) == done + [acc[i]] + s.ids;
  }

  ghost function KnownOf(p: Peer?): Option<Known>
    reads p
  {
    if p == null then None else Some(p.known)
  }

  class Trader {
    var cb: seq<Stored>
    var cbSize: int
    const limit: int
    const table: LockTable
    const rates: R.RateController
    const output: P.OutputBuffer

    constructor (cbSize: int, limit: int, rates: R.RateController, output: P.OutputBuffer)
      ensures table.Valid() && table.Contents() == [] && fresh(table) && cb == []
      ensures this.cbSize == cbSize && this.limit == limit && this.rates == rates && this.output == output
    {
      this.cb, this.cbSize, this.limit, this.rates, this.output := [], cbSize, limit, rates, output;
      table := new LockTable();
    }

    method CbToBmap() returns (bmap: set<int>)
      ensures bmap == Ids(cb)
    {
      bmap := {};
      var i := |cb| - 1;
      while i >= 0
        invariant -1 <= i < |cb| && bmap == Ids(cb[i + 1..])
      {
        assert cb[i..] == [cb[i]] + cb[i + 1..];
        bmap := bmap + {cb[i].id};
        i := i - 1;
      }
      assert cb[0..] == cb;
    }

    /** Accepts the first `maxDeliver` chunks that are missing and not on request, and locks them. */
    method GetChunksToAccept(from: Option<NodeId>, offer: seq<int>, maxDeliver: int, clock: seq<int>)
        returns (acc: seq<int>)
      requires table.Valid() && |clock| == |offer|
      modifies table, table.locks
      ensures table.Valid()
      ensures var o := Accepting(old(table.Contents()), maxDeliver, offer, clock, from, Holdings(cb, cbSize, limit));
              acc == IdsOf(o.accepted) && table.Contents() == o.locks
    {
      hide Accepting, Cleaned, Holds, NeedsChunk, Ids, ChunkTimestamp, Joined, IdsOf, TimedOut;
      ghost var h := Holdings(cb, cbSize, limit);
      ghost var all := Accepting(table.Contents(), maxDeliver, offer, clock, from, h);
      ghost var done: seq<Entry> := [];
      var myBmap := CbToBmap();
      acc := [];
      var i, d := 0, 0;
      assert offer[0..] == offer && clock[0..] == clock;
      JoinedStart(all);
      while i < |offer| && d < maxDeliver
        invariant i <= |offer| && table.Valid()
        invariant fresh(table.locks) || table.locks == old(table.locks)
        invariant acc == IdsOf(done)
        invariant all == Joined(done, Accepting(table.Contents(), maxDeliver - d, offer[i..], clock[i..], from, h))
      {
        AcceptRound(table.Contents(), maxDeliver, d, offer, clock, i, from, h, done);
        var id := offer[i];
        var locked := table.IsLocked(id, clock[i]);
        if !locked && NeedsChunk(myBmap, cbSize, id, ChunkTimestamp(cb, id), clock[i], limit) {
          acc := acc + [id];
          IdsOfPush(done, id, clock[i]);
          table.LockChunk(id, from, clock[i]);
          done := done + [Accepted(id, clock[i])];
          d := d + 1;
        }
        i := i + 1;
      }
      AcceptingNone(table.Contents(), maxDeliver - d, offer[i..], clock[i..], from, h);
      JoinedEnd(done, table.Contents());
    }

    /** Records the accept, then sends what was accepted, is still owned and is needed; `sends` are the results of the
        network. */
    method SendAcceptedChunks(p: Peer?, acc: seq<int>, maxDeliver: int, transId: int, now: int, sends: seq<bool>,
                              clock: seq<int>)
        returns (sent: seq<int>)
      requires rates.table.Valid() && |sends| == |clock| == |acc|
      requires p != null ==> p.known.bmap.Some?
      modifies p, rates.table.repr`st
      ensures rates.table.Valid()
        && rates.table.Abs() == T.Accepted(old(rates.table.Abs()), transId, now as real / 1_000_000.0)
      ensures p != null ==> p.bmapTimestamp == old(p.bmapTimestamp)
      ensures Delivery(KnownOf(p), sent) == Sending(old(KnownOf(p)), maxDeliver, acc, sends, clock, cb, limit)
    {
      var found := rates.table.TransactionRegAccept(transId, R.Seconds(now));
      sent := SendLoop(p, acc, maxDeliver, sends, clock);
    }

    method SendLoop(p: Peer?, acc: seq<int>, maxDeliver: int, sends: seq<bool>, clock: seq<int>)
      returns (sent: seq<int>)
      requires |sends| == |clock| == |acc|
      requires p != null ==> p.known.bmap.Some?
      modifies p
      ensures p != null ==> p.bmapTimestamp == old(p.bmapTimestamp)
      ensures Delivery(KnownOf(p), sent) == Sending(old(KnownOf(p)), maxDeliver, acc, sends, clock, cb, limit)
    {
      hide Sending, PeerNeeds, Elements, Followed;
      ghost var all := Sending(KnownOf(p), maxDeliver, acc, sends, clock, cb, limit);
      sent := [];
      FollowedEnds(sent, all);
      assert acc[0..] == acc && sends[0..] == sends && clock[0..] == clock;
      var i, d := 0, 0;
      while i < |acc| && d < maxDeliver
        invariant i <= |acc|
        invariant p != null ==> p.known.bmap.Some? && p.bmapTimestamp == old(p.bmapTimestamp)
        invariant all ==
          Followed(sent, Sending(KnownOf(p), maxDeliver - d, acc[i..], sends[i..], clock[i..], cb, limit))
      {
        SendRound(KnownOf(p), maxDeliver, d, acc, sends, clock, i, cb, limit, sent);
        var c := FindChunk(cb, acc[i]);
        if c.Some? && (p == null || PeerNeeds(p.known, acc[i], c.value.timestamp, clock[i], limit)) && sends[i] {
          if p != null {
            p.known := p.known.(bmap := Some(p.known.bmap.value + {acc[i]}));
          }
          d := d + 1;
          sent := sent + [acc[i]];
        }
        i := i + 1;
      }
      SendingNone(KnownOf(p), maxDeliver - d, acc[i..], sends[i..], clock[i..], cb, limit);
      FollowedEnds(sent, Delivery(KnownOf(p), []));
    }

    /** `dt` is the round-trip time to the peer, in microseconds. */
    method ComposeOfferCset(source: bool, dt: real) returns (offer: set<int>)
      requires cb != []
      ensures LastOffered(|cb|, source) < |cb|
      ensures offer == Offered(cb, LastOffered(|cb|, source), dt)
      ensures (forall i, j :: 0 <= i < j < |cb| ==> cb[i].id != cb[j].id) ==> forall k :: 0 <= k < |cb| ==>
        (cb[k].id in offer <==>
           cb[k].timestamp as real > cb[0].timestamp as real + dt && (source ==> 4 * k <= 3 * (|cb| - 1)))
    {
      offer := {};
      ghost var last := LastOffered(|cb|, source);
      var j := if source then (|cb| - 1) * 3 / 4 else |cb| - 1;
      while j >= 0
        invariant -1 <= j <= last < |cb|
        invariant offer == set k | j < k <= last && cb[k].timestamp as real > cb[0].timestamp as real + dt :: cb[k].id
      {
        if cb[j].timestamp as real > cb[0].timestamp as real + dt {
          offer := offer + {cb[j].id};
        }
        j := j - 1;
      }
      if forall i, j :: 0 <= i < j < |cb| ==> cb[i].id != cb[j].id {
        OfferedExactly(cb, source, dt);
      }
    }

    /** `stored` is the chunk buffer after the arrived chunk has been handed to it, `lossy` tells that the answer is
        suppressed because of losses on the path. */
    method ReceivedChunk(from: Peer?, c: Chunk, stored: seq<Stored>, now: int, lossy: bool)
      returns (ack: Option<set<int>>)
      requires table.Valid() && output.Valid() && (from != null ==> from.known.bmap.Some?)
      modifies this`cb, table`lcount, table.locks, output, output.buff, from
      ensures table.Valid() && table.Contents() == Unlocked(old(table.Contents()), c.id)
      ensures output.Valid() && P.Keyed(old(output.pending))
        && output.Abs() == P.Delivered(output.cfg, old(output.Abs()), c)
      ensures cb == stored && KnownOf(from) == WithChunk(old(KnownOf(from)), c.id)
      ensures from != null ==> from.bmapTimestamp == now
      ensures ack == if lossy then None else Some(Ids(stored))
    {
      hide P.Delivered, P.Keyed, P.Tied, Unlocked, Ids;
      table.UnlockChunk(c.id);
      var outcome := output.Deliver(c);
      cb := stored;
      if from != null {
        from.SetBmap(from.known.bmap.value + {c.id}, now);
      }
      if lossy {
        return None;
      }
      var bmap := CbToBmap();
      ack := Some(bmap);
    }

    /** The offered chunks replace what was known of the sender. The answer is the accepted chunks. */
    method OfferReceived(from: Peer?, offer: seq<int>, maxDeliver: int, clock: seq<int>, now: int)
      returns (acc: seq<int>)
      requires table.Valid() && |clock| == |offer|
      modifies table, table.locks, from
      ensures table.Valid()
      ensures var o := Accepting(old(table.Contents()), maxDeliver, offer, clock,
                                 if from == null then None else Some(from.id),
                                 Holdings(cb, cbSize, limit));
              acc == IdsOf(o.accepted) && table.Contents() == o.locks
      ensures from != null ==>
        from.known == Known(Some(Elements(offer)), old(from.known.cbSize)) && from.bmapTimestamp == now
    {
      if from != null {
        from.SetBmap((set id | id in offer), now);
      }
      acc := GetChunksToAccept(if from == null then None else Some(from.id), offer, maxDeliver, clock);
    }

    /** An accept counts for the estimate of accepted offers unless it is empty, is recorded for its transaction, and is
        answered up to its own size. */
    method AcceptReceived(from: Peer?, acc: seq<int>, transId: int, sends: seq<bool>, clock: seq<int>, now: int)
        returns (sent: seq<int>)
      requires rates.table.Valid() && |sends| == |clock| == |acc|
      requires from != null ==> from.known.bmap.Some?
      modifies from, rates`offerAccept, rates.table.repr`st
      ensures rates.State() ==
        old(rates.State()).(offerAccept := 0.9 * old(rates.offerAccept) + if acc != [] then 0.1 else 0.0)
      ensures rates.table.Valid()
        && rates.table.Abs() == T.Accepted(old(rates.table.Abs()), transId, now as real / 1_000_000.0)
      ensures Delivery(KnownOf(from), sent) == Sending(old(KnownOf(from)), |acc|, acc, sends, clock, cb, limit)
      ensures from != null ==> from.bmapTimestamp == now
    {
      hide Sending, T.Accepted, R.Smoothed, R.TvToInt, T.Linked, T.Entries;
      if from != null {
        from.bmapTimestamp := now;
      }
      rates.RcRegAccept(|acc| > 0);
      sent := SendAcceptedChunks(from, acc, |acc|, transId, now, sends, clock);
    }

    /** An acknowledgement replaces the sender's buffer map and closes its transaction. */
    method AckReceived(from: Peer?, bmap: set<int>, transId: int, now: int, ln: int -> real)
      requires rates.table.Valid() && R.Sane(rates.State(), now) && R.Increasing(ln)
      modifies from, rates, rates.table`head, rates.table`nodes, rates.table.repr`forward, rates.table.repr`backward
      ensures from != null ==> from.known == Known(Some(bmap), old(from.known.cbSize)) && from.bmapTimestamp == now
      ensures rates.table.Valid() && rates.table.Abs() == T.Dropped(old(rates.table.Abs()), transId)
      ensures var (es, i) := (old(rates.table.Abs()), T.Find(old(rates.table.Abs()), transId));
              rates.State() == if i < |es| && es[i].st.acceptReceived >= 0.0
                               then R.Step(old(rates.State()), ln, rates.autotune,
                                           R.Acked(now as real / 1_000_000.0 - es[i].st.acceptReceived, now))
                               else old(rates.State())
    {
      hide T.Dropped, T.Find, R.Step, R.TvToInt, R.Increasing, R.Sane, T.Linked, T.Entries;
      if from != null {
        from.SetBmap(bmap, now);
      }
      rates.RcRegAck(transId, now, ln);
    }

    /** A buffer map comes with the owner's buffer size. */
    method BmapReceived(owner: Peer?, bmap: set<int>, size: int, now: int)
      modifies owner
      ensures owner != null ==>
        owner.known == Known(Some(bmap), size) && owner.bmapTimestamp == now
      ensures owner != null ==> forall id :: id in bmap || size == 0 ==> !InDemand(owner.known, id)
    {
      if owner != null {
        owner.SetBmap(bmap, now);
        owner.known := owner.known.(cbSize := size);
      }
    }
  }
}
