/** The playout reorder buffer of output-grapes.c. */
module Playout {
  import opened Common

  datatype Config = Config(size: nat, startId: int, endId: int, reorder: bool)

  /** One call of reg_chunk_playout. */
  datatype Registration = Registration(id: int, played: bool, timestamp: int)

  /** What the ring stands for: `pending` holds the stored chunks by id, `next` is -1 until a chunk was seen.
      `written` and `regs` are the calls made to the output stream and to the playout measures so far. */
  datatype State = State(
    next: int, last: int, sflag: bool, eflag: bool,
    pending: map<int, Chunk>,
    written: seq<Chunk>, regs: seq<Registration>, duplicates: nat)

  const INITIAL := State(-1, -1, false, false, map[], [], [], 0)

  /** The ring position of a chunk id. */
  function Slot(id: int, size: nat): (i: nat)
    requires size > 0
    ensures i < size
  {
    id % size
  }

  predicate InRange(cfg: Config, id: int) {
    (cfg.startId == -1 || id >= cfg.startId) && (cfg.endId == -1 || id <= cfg.endId)
  }

  predicate Keyed(pending: map<int, Chunk>) {
    forall id :: id in pending ==> pending[id].id == id
  }

  /** A chunk leaves the buffer: filter, write, register, advance. */
  function Play(cfg: Config, s: State, c: Chunk): State {
    var tooLate := (cfg.startId == -1 || c.id >= cfg.startId) && !(cfg.endId == -1 || c.id <= cfg.endId);
    s.(written := if InRange(cfg, c.id) && cfg.reorder then s.written + [c] else s.written,
       last := if InRange(cfg, c.id) then c.id else s.last,
       sflag := s.sflag || InRange(cfg, c.id),
       eflag := s.eflag || (tooLate && s.last != -1),
       regs := s.regs + [Registration(c.id, true, c.timestamp)],
       pending := s.pending - {c.id},
       next := c.id + 1)
  }

  /** Chunk `s.next` is given up because `c` needs the room. */
  function Lose(s: State, c: Chunk): State {
    s.(regs := s.regs + [Registration(c.id, false, c.timestamp)], next := s.next + 1)
  }

  /** Move the window so that it starts after `limit`. */
  function Skip(cfg: Config, s: State, limit: int, c: Chunk): (r: State)
    requires Keyed(s.pending)
    ensures Keyed(r.pending) && r.next == Max(s.next, limit + 1)
    decreases limit + 1 - s.next
  {
    if s.next > limit then s
    else if s.next in s.pending then Skip(cfg, Play(cfg, s, s.pending[s.next]), limit, c)
    else Skip(cfg, Lose(s, c), limit, c)
  }

  /** Play the run of consecutive pending chunks that starts at `s.next`. */
  function Flush(cfg: Config, s: State): (r: State)
    requires Keyed(s.pending)
    ensures Keyed(r.pending) && r.next !in r.pending && r.next >= s.next
    decreases |s.pending|
  {
    if s.next in s.pending then
      var p := Play(cfg, s, s.pending[s.next]);
      RemoveKey(s.pending, s.next);
      Flush(cfg, p)
    else s
  }

  /** The window is moved, if need be, until it has room for `c`. */
  function Opened(cfg: Config, s: State, c: Chunk): (r: State)
    requires Keyed(s.pending)
    ensures Keyed(r.pending)
  {
    if c.id >= s.next + cfg.size then Flush(cfg, Skip(cfg, s, c.id - cfg.size, c)) else s
  }

  /** A chunk inside the window is played if it is the awaited one, kept otherwise. */
  function Settled(cfg: Config, s: State, c: Chunk): (r: State)
    requires Keyed(s.pending)
    ensures Keyed(r.pending)
  {
    if c.id == s.next then Flush(cfg, Play(cfg, s, c))
    else if c.id in s.pending then s.(duplicates := s.duplicates + 1)
    else s.(pending := s.pending[c.id := c])
  }

  function Delivered(cfg: Config, s: State, c: Chunk): (r: State)
    requires Keyed(s.pending)
    ensures Keyed(r.pending)
  {
    var s0 := if cfg.reorder then s else s.(written := s.written + [c]);
    if c.id < s0.next then s0
    else
      var s1 := if s0.next == -1 then s0.(next := c.id) else s0;
      Settled(cfg, Opened(cfg, s1, c), c)
  }

  function Run(cfg: Config, cs: seq<Chunk>): (s: State)
    ensures Keyed(s.pending)
  {
    if cs == [] then INITIAL else Delivered(cfg, Run(cfg, cs[..|cs| - 1]), cs[|cs| - 1])
  }

  // ---------------------------------------------------------------- the ring

  /** Slots and pending chunks agree: each chunk sits in the slot its id selects, all ids in [lo, hi). */
  ghost predicate Tied(slots: seq<Option<Chunk>>, pending: map<int, Chunk>, lo: int, hi: int) {
    && 1 <= |slots| && hi <= lo + |slots| && Keyed(pending)
    && (forall i :: 0 <= i < |slots| && slots[i].Some? ==>
          var c := slots[i].value; Slot(c.id, |slots|) == i && c.id in pending && pending[c.id] == c)
    && (forall id :: id in pending ==> lo <= id < hi && slots[Slot(id, |slots|)] == Some(pending[id]))
  }

  lemma {:induction false} TiedBounds(slots: seq<Option<Chunk>>, pending: map<int, Chunk>, lo: int, hi: int)
    requires Tied(slots, pending, lo, hi)
    ensures Keyed(pending) && 1 <= |slots| && hi <= lo + |slots|
    ensures forall id :: id in pending ==> lo <= id < hi
  {
  }

  /** A slot holds a chunk exactly when the id that selects it inside the window is pending. */
  lemma {:induction false} SlotHolds(slots: seq<Option<Chunk>>, pending: map<int, Chunk>, lo: int, hi: int, id: int)
    requires Tied(slots, pending, lo, hi) && lo <= id < lo + |slots|
    ensures Keyed(pending) && 1 <= |slots|
    ensures slots[Slot(id, |slots|)] == if id in pending then Some(pending[id]) else None
  {
    var slot := slots[Slot(id, |slots|)];
    if slot.Some? {
      SameResidue(slot.value.id, id, |slots|);
    }
  }

  lemma {:induction false} TiedAfterFree(slots: seq<Option<Chunk>>, pending: map<int, Chunk>, lo: int, hi: int)
    requires Tied(slots, pending, lo, hi) && lo in pending
    ensures Tied(slots[Slot(lo, |slots|) := None], pending - {lo}, lo + 1, hi)
    ensures lo < hi
  {
  }

  lemma {:induction false} TiedAfterStore(slots: seq<Option<Chunk>>, pending: map<int, Chunk>, lo: int, hi: int,
                                          c: Chunk)
    requires Tied(slots, pending, lo, hi) && c.id !in pending && lo <= c.id < hi
    ensures Tied(slots[Slot(c.id, |slots|) := Some(c)], pending[c.id := c], lo, hi)
  {
    SlotHolds(slots, pending, lo, hi, c.id);
  }

  lemma {:induction false} TiedMove(slots: seq<Option<Chunk>>, pending: map<int, Chunk>, lo: int, hi: int, lo': int,
                                    hi': int)
    requires Tied(slots, pending, lo, hi) && hi' <= lo' + |slots|
    requires forall id :: id in pending && lo <= id < hi ==> lo' <= id < hi'
    ensures Tied(slots, pending, lo', hi')
  {
  }

  lemma {:induction false} SkipOn(cfg: Config, s: State, limit: int, c: Chunk)
    requires Keyed(s.pending) && s.next <= limit
    ensures var s' := if s.next in s.pending then Play(cfg, s, s.pending[s.next]) else Lose(s, c);
            Keyed(s'.pending) && s'.next == s.next + 1 && Skip(cfg, s, limit, c) == Skip(cfg, s', limit, c)
    ensures s.next in s.pending ==> Play(cfg, s, s.pending[s.next]).pending == s.pending - {s.next}
  {
  }

  lemma {:induction false} SkipStop(cfg: Config, s: State, limit: int, c: Chunk)
    requires Keyed(s.pending) && s.next > limit
    ensures Skip(cfg, s, limit, c) == s
  {
  }

  lemma {:induction false} FlushOn(cfg: Config, s: State, c: Chunk)
    requires Keyed(s.pending) && s.next in s.pending && s.pending[s.next] == c
    ensures Play(cfg, s, c).next == s.next + 1 && Play(cfg, s, c).pending == s.pending - {s.next}
    ensures Keyed(Play(cfg, s, c).pending) && Flush(cfg, s) == Flush(cfg, Play(cfg, s, c))
  {
  }

  lemma {:induction false} FlushStop(cfg: Config, s: State)
    requires Keyed(s.pending) && s.next !in s.pending
    ensures Flush(cfg, s) == s
  {
  }

  datatype Outcome = TooOld | PlayedOut | Stored | Duplicate | Clash

  lemma {:induction false} SameSlot(a: int, b: int, size: nat)
    requires size > 0 && Slot(a, size) == Slot(b, size) && a - size < b < a + size
    ensures a == b
  {
    SameResidue(a, b, size);
  }

  lemma {:induction false} NextSlot(a: int, size: nat)
    requires size > 0
    ensures Slot(a + 1, size) == Slot(Slot(a, size) + 1, size)
  {
    NextResidue(a, size);
  }

  class OutputBuffer {
    const cfg: Config
    const buff: array<Option<Chunk>>
    var nextChunk: int
    var lastChunk: int
    var sflag: bool
    var eflag: bool
    var written: seq<Chunk>
    var regs: seq<Registration>
    var duplicates: nat
    ghost var pending: map<int, Chunk>

    ghost predicate Within(lo: int, hi: int)
      reads this, buff
    {
      buff.Length == cfg.size && Tied(buff[..], pending, lo, hi)
    }

    ghost predicate Valid()
      reads this, buff
    {
      Within(nextChunk + 1, nextChunk + cfg.size) && -1 <= nextChunk && (nextChunk == -1 ==> pending == map[])
    }

    ghost function Abs(): State
      reads this
    {
      State(nextChunk, lastChunk, sflag, eflag, pending, written, regs, duplicates)
    }

    constructor (cfg: Config)
      requires cfg.size >= 1
      ensures Valid() && fresh(buff) && this.cfg == cfg && Abs() == INITIAL
    {
      this.cfg := cfg;
      buff := new Option<Chunk>[cfg.size](_ => None);
      nextChunk, lastChunk, sflag, eflag := -1, -1, false, false;
      written, regs, duplicates, pending := [], [], 0, map[];
    }

    method BufferFree(i: nat)
      requires i < buff.Length && buff[i].Some?
      modifies this, buff
      ensures buff[..] == old(buff[..])[i := None]
      ensures Abs() == Play(cfg, old(Abs()), old(buff[i].value))
    {
      var c := buff[i].value;
      if cfg.startId == -1 || c.id >= cfg.startId {
        if cfg.endId == -1 || c.id <= cfg.endId {
          if !sflag {
            sflag := true;
          }
          if cfg.reorder {
            written := written + [c];
          }
          lastChunk := c.id;
        } else if !eflag && lastChunk != -1 {
          eflag := true;
        }
      }
      buff[i] := None;
      pending := pending - {c.id};
      regs := regs + [Registration(c.id, true, c.timestamp)];
      nextChunk := c.id + 1;
    }

    /** `wrapped` tells that the guard against a second turn around the ring stopped the loop. */
    method BufferFlush(id: int) returns (wrapped: bool)
      requires id == nextChunk >= 0 && Within(id, id + buff.Length - 1)
      modifies this, buff
      ensures Abs() == Flush(cfg, old(Abs())) && Within(nextChunk, id + buff.Length - 1)
      ensures !wrapped && nextChunk - id <= buff.Length - 1
    {
      hide Tied, Keyed, Slot, Flush, Play;
      var hi := id + buff.Length - 1;
      TiedBounds(buff[..], pending, id, hi);
      SlotHolds(buff[..], pending, id, hi, id);
      var i := Slot(id, buff.Length);
      wrapped := false;
      ghost var goal := Flush(cfg, Abs());
      while buff[i].Some?
        invariant buff.Length >= 1 && i == Slot(nextChunk, buff.Length) && !wrapped
        invariant Within(nextChunk, hi) && nextChunk <= hi
        invariant Keyed(pending) && Flush(cfg, Abs()) == goal
        invariant buff[i] == if nextChunk in pending then Some(pending[nextChunk]) else None
        decreases hi - nextChunk
      {
        TiedAfterFree(buff[..], pending, nextChunk, hi);
        FlushOn(cfg, Abs(), buff[i].value);
        NextSlot(nextChunk, buff.Length);
        BufferFree(i);
        SlotHolds(buff[..], pending, nextChunk, hi, nextChunk);
        i := Slot(i + 1, buff.Length);
        if i == Slot(id, buff.Length) {
          SameSlot(nextChunk, id, buff.Length);
          assert false;
          wrapped := true;
          break;
        }
      }
      FlushStop(cfg, Abs());
    }

    /** The loop that makes room for `c`, whose id lies beyond the window. */
    method MakeRoom(c: Chunk)
      requires Valid() && nextChunk >= 0 && c.id >= nextChunk + cfg.size
      modifies this, buff
      ensures Keyed(old(pending)) && Abs() == Skip(cfg, old(Abs()), c.id - cfg.size, c)
      ensures nextChunk == c.id - cfg.size + 1 && Within(nextChunk, c.id)
    {
      hide Tied, Keyed, Slot, Skip, Play;
      var limit := c.id - cfg.size;
      ghost var hi := nextChunk + cfg.size;
      TiedBounds(buff[..], pending, nextChunk + 1, hi);
      TiedMove(buff[..], pending, nextChunk + 1, hi, nextChunk, hi);
      ghost var goal := Skip(cfg, Abs(), limit, c);
      for i := nextChunk to limit + 1
        invariant cfg.size >= 1 && i == nextChunk && Within(nextChunk, hi)
        invariant Keyed(pending) && Skip(cfg, Abs(), limit, c) == goal
      {
        SkipOn(cfg, Abs(), limit, c);
        SlotHolds(buff[..], pending, nextChunk, hi, i);
        if buff[Slot(i, buff.Length)].Some? {
          TiedAfterFree(buff[..], pending, nextChunk, hi);
          BufferFree(Slot(i, buff.Length));
        } else {
          TiedMove(buff[..], pending, nextChunk, hi, nextChunk + 1, hi);
          regs := regs + [Registration(c.id, false, c.timestamp)];
          nextChunk := nextChunk + 1;
        }
      }
      TiedMove(buff[..], pending, nextChunk, hi, nextChunk, c.id);
      SkipStop(cfg, Abs(), limit, c);
    }

    method Deliver(c: Chunk) returns (outcome: Outcome)
      requires Valid()
      modifies this, buff
      ensures Valid() && Keyed(old(pending)) && Abs() == Delivered(cfg, old(Abs()), c)
      ensures outcome != Clash
    {
      hide Tied, Keyed, Flush, Skip, Settled;
      TiedBounds(buff[..], pending, nextChunk + 1, nextChunk + cfg.size);
      if !cfg.reorder {
        written := written + [c];
      }
      if c.id < nextChunk {
        return TooOld;
      }
      if nextChunk == -1 {
        TiedMove(buff[..], pending, nextChunk + 1, nextChunk + cfg.size, c.id + 1, c.id + cfg.size);
        nextChunk := c.id;
      }
      if c.id >= nextChunk + cfg.size {
        MakeRoom(c);
        var wrapped := BufferFlush(nextChunk);
        TiedMove(buff[..], pending, nextChunk, c.id, nextChunk + 1, nextChunk + cfg.size);
      }
      outcome := Settle(c);
    }

    /** The second half of a delivery: `c` lies inside the window. */
    method Settle(c: Chunk) returns (outcome: Outcome)
      requires Within(nextChunk + 1, nextChunk + cfg.size) && -1 <= nextChunk <= c.id < nextChunk + cfg.size
      requires nextChunk == -1 ==> c.id == -1
      modifies this, buff
      ensures Valid() && Keyed(old(pending)) && Abs() == Settled(cfg, old(Abs()), c)
      ensures outcome != Clash
    {
      hide Tied, Keyed, Slot, Flush, Play;
      TiedBounds(buff[..], pending, nextChunk + 1, nextChunk + cfg.size);
      if c.id == nextChunk {
        PlayDirect(c);
        var wrapped := BufferFlush(nextChunk);
        TiedMove(buff[..], pending, nextChunk, c.id + cfg.size, nextChunk + 1, nextChunk + cfg.size);
        outcome := PlayedOut;
      } else {
        var slot := Slot(c.id, buff.Length);
        SlotHolds(buff[..], pending, nextChunk + 1, nextChunk + cfg.size, c.id);
        if buff[slot].Some? {
          if buff[slot].value.id == c.id {
            duplicates := duplicates + 1;
            return Duplicate;
          }
          assert false;
          return Clash;
        }
        TiedAfterStore(buff[..], pending, nextChunk + 1, nextChunk + cfg.size, c);
        buff[slot] := Some(c);
        pending := pending[c.id := c];
        outcome := Stored;
      }
    }

    /** The awaited chunk goes out without entering the ring. */
    method PlayDirect(c: Chunk)
      requires c.id == nextChunk && c.id !in pending
      modifies this
      ensures Abs() == Play(cfg, old(Abs()), c) && nextChunk == c.id + 1 && pending == old(pending)
    {
      if cfg.startId == -1 || c.id >= cfg.startId {
        if cfg.endId == -1 || c.id <= cfg.endId {
          if !sflag {
            sflag := true;
          }
          if cfg.reorder {
            written := written + [c];
          }
          lastChunk := c.id;
        } else if !eflag && lastChunk != -1 {
          eflag := true;
        }
      }
      regs := regs + [Registration(c.id, true, c.timestamp)];
      nextChunk := nextChunk + 1;
      assert pending - {c.id} == pending;
    }
  }
}
