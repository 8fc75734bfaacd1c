/** The table of open transactions, a doubly linked list (transaction.c). */
module Transactions {
  import opened Common
  import opened NodeIdSet

  const TRANS_ID_MAX_LIFETIME := 10.0

  datatype ServiceTime = ServiceTime(transId: int, offerSent: real, acceptReceived: real, peer: NodeId)

  /** A list element with the number of its creation, which the program does not store. */
  datatype Entry = Entry(serial: nat, st: ServiceTime)

  predicate Expired(st: ServiceTime, now: real) {
    now - st.offerSent > TRANS_ID_MAX_LIFETIME
  }

  // ---------------------------------------------------------------- the list as a sequence

  function LiveOf(s: seq<Entry>, now: real): (r: seq<Entry>)
    ensures |r| <= |s|
  {
    if s == [] then []
    else LiveOf(s[..|s| - 1], now) + if Expired(s[|s| - 1].st, now) then [] else [s[|s| - 1]]
  }

  /** The timeout sweep as the code performs it: unlinking an expired head ends the sweep. */
  function Swept(s: seq<Entry>, now: real): seq<Entry> {
    if s == [] then []
    else if Expired(s[0].st, now) then s[1..]
    else LiveOf(s, now)
  }

  /** Position of the first element that carries `id`; the length if there is none. */
  function Find(s: seq<Entry>, id: int): (i: nat)
    ensures i <= |s| && (forall k :: 0 <= k < i ==> s[k].st.transId != id)
    ensures i < |s| ==> s[i].st.transId == id
  {
    if s == [] || s[0].st.transId == id then 0 else 1 + Find(s[1..], id)
  }

  /** Finding is unique, so any search that stops at the first match agrees with it. */
  lemma {:induction false} FindUnique(s: seq<Entry>, id: int, i: nat)
    requires i <= |s| && (forall k :: 0 <= k < i ==> s[k].st.transId != id)
    requires i < |s| ==> s[i].st.transId == id
    ensures Find(s, id) == i
  {
  }

  function Accepted(s: seq<Entry>, id: int, now: real): seq<Entry> {
    var i := Find(s, id);
    if i == |s| then s else s[i := Entry(s[i].serial, s[i].st.(acceptReceived := now))]
  }

  function Dropped(s: seq<Entry>, id: int): seq<Entry> {
    var i := Find(s, id);
    if i == |s| then s else Cut(s, i)
  }

  /** With element `i` the first that carries `id`: an accept changes its accept time and nothing else, and removal
      takes it out and nothing else. */
  lemma {:induction false} FirstMatch(s: seq<Entry>, id: int, now: real, i: nat)
    requires i < |s| && s[i].st.transId == id && forall k :: 0 <= k < i ==> s[k].st.transId != id
    ensures Accepted(s, id, now) == s[i := Entry(s[i].serial, s[i].st.(acceptReceived := now))]
    ensures Dropped(s, id) == s[..i] + s[i + 1..]
  {
    FindUnique(s, id, i);
  }

  lemma {:induction false} NoMatch(s: seq<Entry>, id: int, now: real)
    requires forall k :: 0 <= k < |s| ==> s[k].st.transId != id
    ensures Accepted(s, id, now) == s == Dropped(s, id)
  {
    FindUnique(s, id, |s|);
  }

  /** The sweep over `es` has passed `k` elements, `i` of them stayed; `cur` is what the list holds. */
  ghost predicate Sweeping(es: seq<Entry>, now: real, k: nat, i: nat, cur: seq<Entry>) {
    && k <= |es| && cur == LiveOf(es[..k], now) + es[k..] && i == |LiveOf(es[..k], now)|
    && (k > 0 ==> !Expired(es[0].st, now))
  }

  lemma {:induction false} LivePush(es: seq<Entry>, now: real, k: nat)
    requires k < |es|
    ensures LiveOf(es[..k + 1], now) ==
      if Expired(es[k].st, now) then LiveOf(es[..k], now) else LiveOf(es[..k], now) + [es[k]]
  {
    assert es[..k + 1][..k] == es[..k];
  }

  lemma {:induction false} LiveHead(es: seq<Entry>, now: real, k: nat)
    requires 0 < k <= |es| && !Expired(es[0].st, now)
    ensures |LiveOf(es[..k], now)| > 0
  {
    if k == 1 {
      assert es[..1] == [es[0]];
    } else {
      LiveHead(es, now, k - 1);
      LivePush(es, now, k - 1);
    }
  }

  lemma {:induction false} SweepingStart(es: seq<Entry>, now: real)
    ensures Sweeping(es, now, 0, 0, es)
  {
    assert LiveOf(es[..0], now) + es[0..] == es;
  }

  lemma {:induction false} SweepingStep(es: seq<Entry>, now: real, k: nat, i: nat, cur: seq<Entry>)
    requires Sweeping(es, now, k, i, cur) && i < |cur|
    ensures k < |es|
    ensures if !Expired(cur[i].st, now) then Sweeping(es, now, k + 1, i + 1, cur)
            else if i > 0 then Sweeping(es, now, k + 1, i, Cut(cur, i))
            else Cut(cur, i) == Swept(es, now)
  {
    hide LiveOf, Cut;
    LivePush(es, now, k);
    var live := LiveOf(es[..k], now);
    LiveBefore(es, now, k, i, cur);
    CutJoin(live, es, k);
    if Expired(es[k].st, now) {
      if k > 0 {
        LiveHead(es, now, k);
      } else {
        SweptHead(es, now, live);
      }
    }
  }

  lemma {:induction false} LiveBefore(es: seq<Entry>, now: real, k: nat, i: nat, cur: seq<Entry>)
    requires Sweeping(es, now, k, i, cur) && i < |cur|
    ensures k < |es| && cur == LiveOf(es[..k], now) + es[k..]
  {
  }

  lemma {:induction false} SweptHead(es: seq<Entry>, now: real, live: seq<Entry>)
    requires es != [] && Expired(es[0].st, now) && live == LiveOf(es[..0], now)
    ensures live == [] && live + es[1..] == Swept(es, now)
  {
  }

  lemma {:induction false} SweepingEnd(es: seq<Entry>, now: real, k: nat, i: nat, cur: seq<Entry>)
    requires Sweeping(es, now, k, i, cur) && i >= |cur|
    ensures cur == Swept(es, now)
  {
    assert es[..|es|] == es;
  }

  /** Lines 122-124: the 16-bit counter is increased, and once more if that made it 0. */
  function NextId(id: int): int {
    var once := (id + 1) % 0x1_0000;
    if once == 0 then (once + 1) % 0x1_0000 else once
  }

  function IdOf(serial: nat): int {
    serial % 65535 + 1
  }

  // ---------------------------------------------------------------- the linked list

  class Node {
    var st: ServiceTime
    var backward: Node?
    var forward: Node?
    ghost var serial: nat

    constructor (st: ServiceTime, forward: Node?, ghost serial: nat)
      ensures this.st == st && this.backward == null && this.forward == forward && this.serial == serial
    {
      this.st, this.backward, this.forward, this.serial := st, null, forward, serial;
    }
  }

  /** `nodes` are the elements from the head on, each pointing to its neighbours. */
  ghost predicate Linked(head: Node?, nodes: seq<Node>)
    reads nodes`forward, nodes`backward
  {
    && (forall i, j :: 0 <= i < j < |nodes| ==> nodes[i] != nodes[j])
    && head == (if nodes == [] then null else nodes[0])
    && (forall i {:trigger nodes[i].backward} :: 0 <= i < |nodes| ==>
      nodes[i].backward == if i == 0 then null else nodes[i - 1])
    && (forall i {:trigger nodes[i].forward} :: 0 <= i < |nodes| ==>
      nodes[i].forward == if i == |nodes| - 1 then null else nodes[i + 1])
  }

  ghost function Entries(nodes: seq<Node>): (r: seq<Entry>)
    reads nodes`st, nodes`serial
    ensures |r| == |nodes| && forall i :: 0 <= i < |nodes| ==> r[i] == Entry(nodes[i].serial, nodes[i].st)
  {
    if nodes == [] then []
    else Entries(nodes[..|nodes| - 1]) + [Entry(nodes[|nodes| - 1].serial, nodes[|nodes| - 1].st)]
  }

  /** Element `i` is out of the list once its neighbours point past it. */
  lemma {:induction false} Relinked(head: Node?, was: seq<Node>, i: nat)
    requires i < |was| && forall k, m :: 0 <= k < m < |was| ==> was[k] != was[m]
    requires head == if i > 0 then was[0] else if |was| > 1 then was[1] else null
    requires forall k {:trigger was[k].forward} :: 0 <= k < |was| && k != i - 1 && k != i ==>
               was[k].forward == if k == |was| - 1 then null else was[k + 1]
    requires forall k {:trigger was[k].backward} :: 0 <= k < |was| && k != i + 1 && k != i ==>
               was[k].backward == if k == 0 then null else was[k - 1]
    requires i > 0 ==> was[i - 1].forward == if i + 1 < |was| then was[i + 1] else null
    requires i + 1 < |was| ==> was[i + 1].backward == if i > 0 then was[i - 1] else null
    ensures Linked(head, Cut(was, i))
  {
    var now := Cut(was, i);
    assert forall k :: 0 <= k < |now| ==> now[k] == was[if k < i then k else k + 1];
  }

  lemma {:induction false} CutWithin(nodes: seq<Node>, i: nat, repr: set<Node>)
    requires i < |nodes| && forall j :: 0 <= j < |nodes| ==> nodes[j] in repr
    ensures forall j :: 0 <= j < |nodes| - 1 ==> Cut(nodes, i)[j] in repr
  {
  }

  lemma {:induction false} LinkedHead(head: Node?, nodes: seq<Node>)
    requires Linked(head, nodes)
    ensures head == if nodes == [] then null else nodes[0]
  {
  }

  lemma {:induction false} LinkedAt(head: Node?, nodes: seq<Node>, i: nat)
    requires Linked(head, nodes) && i < |nodes|
    ensures nodes[i].forward == if i == |nodes| - 1 then null else nodes[i + 1]
  {
  }

  lemma {:induction false} LinkedApart(head: Node?, nodes: seq<Node>, i: nat)
    requires Linked(head, nodes) && i < |nodes|
    ensures forall k :: 0 <= k < |nodes| && k != i ==> nodes[k] != nodes[i]
  {
  }

  lemma {:induction false} LinkedAll(head: Node?, nodes: seq<Node>)
    requires Linked(head, nodes)
    ensures Chained(nodes)
    ensures nodes != [] ==> nodes[0].backward == null
  {
  }

  /** All links but the first element's backward link. */
  ghost predicate Chained(nodes: seq<Node>)
    reads nodes`forward, nodes`backward
  {
    && (forall i, j :: 0 <= i < j < |nodes| ==> nodes[i] != nodes[j])
    && (forall i {:trigger nodes[i].backward} :: 0 < i < |nodes| ==> nodes[i].backward == nodes[i - 1])
    && (forall i {:trigger nodes[i].forward} :: 0 <= i < |nodes| ==>
      nodes[i].forward == if i == |nodes| - 1 then null else nodes[i + 1])
  }

  lemma {:induction false} Prepended(x: Node, nodes: seq<Node>)
    requires Chained(nodes) && (forall k :: 0 <= k < |nodes| ==> nodes[k] != x) && x.backward == null
    requires x.forward == (if nodes == [] then null else nodes[0]) && (nodes != [] ==> nodes[0].backward == x)
    ensures Linked(x, [x] + nodes)
  {
    var all := [x] + nodes;
    assert forall k :: 0 < k < |all| ==> all[k] == nodes[k - 1];
  }

  lemma {:induction false} PrependedEntries(x: Node, nodes: seq<Node>)
    ensures Entries([x] + nodes) == [Entry(x.serial, x.st)] + Entries(nodes)
  {
    hide Entries;
    var all := [x] + nodes;
    assert forall k :: 0 < k < |all| ==> all[k] == nodes[k - 1];
  }

  lemma {:induction false} UpdatedAt(nodes: seq<Node>, i: nat, was: seq<Entry>)
    requires i < |nodes| == |was| && nodes[i].serial == was[i].serial
    requires forall k :: 0 <= k < |nodes| && k != i ==> nodes[k].serial == was[k].serial && nodes[k].st == was[k].st
    ensures Entries(nodes) == was[i := Entry(was[i].serial, nodes[i].st)]
  {
  }

  /** The n-th id created is n mod 65535 + 1, so it is never 0. */
  lemma {:induction false} IdStep(serial: nat)
    ensures NextId(IdOf(serial)) == IdOf(serial + 1) && 0 < IdOf(serial) < 0x1_0000
    ensures IdOf(serial) == serial % 65535 + 1
  {
    var r := serial % 65535;
    NextResidue(serial, 65535);
    if r == 65534 {
      Division(65535, 1, 0, 65535);
    } else {
      Division(r + 1, 0, r + 1, 65535);
    }
  }

  lemma {:induction false} CutEntries(nodes: seq<Node>, i: nat)
    requires i < |nodes|
    ensures Entries(Cut(nodes, i)) == Cut(Entries(nodes), i)
    ensures forall j :: 0 <= j < |nodes| - 1 ==> Cut(nodes, i)[j] in nodes
    ensures i < |nodes| - 1 ==> Cut(nodes, i)[i] == nodes[i + 1]
  {
  }

  class TransactionTable {
    var head: Node?
    var transId: int
    ghost var nodes: seq<Node>
    ghost var repr: set<Node>
    ghost var created: nat

    ghost predicate Valid()
      reads this, nodes`forward, nodes`backward
    {
      InOrder() && transId == IdOf(created)
    }

    /** The list is well linked and made of the table's own nodes. */
    ghost predicate InOrder()
      reads this, nodes`forward, nodes`backward
    {
      Linked(head, nodes) && forall j :: 0 <= j < |nodes| ==> nodes[j] in repr
    }

    ghost function Abs(): seq<Entry>
      reads this, nodes`st, nodes`serial
    {
      Entries(nodes)
    }

    constructor ()
      ensures Valid() && Abs() == [] && created == 0
    {
      head, transId, nodes, repr, created := null, 1, [], {}, 0;
    }

    /** The surgery shared by lines 75-91 and 197-214; `i` is where `x` stands. A head loses its forward link. */
    method Unlink(x: Node, ghost i: nat)
      requires InOrder() && i < |nodes| && nodes[i] == x
      modifies this`head, this`nodes, repr`forward, repr`backward
      ensures nodes == Cut(old(nodes), i) && InOrder()
      ensures x.forward == if i == 0 then null else old(x.forward)
    {
      ghost var was := nodes;
      hide Cut;
      assert was[i].forward == if i == |was| - 1 then null else was[i + 1];
      assert was[i].backward == if i == 0 then null else was[i - 1];
      if x.backward == null {
        head := x.forward;
        if x.forward != null {
          x.forward.backward := null;
        }
        x.forward := null;
      } else {
        if x.forward == null {
          x.backward.forward := null;
        } else {
          x.backward.forward := x.forward;
          x.forward.backward := x.backward;
        }
      }
      nodes := Cut(was, i);
      Relinked(head, was, i);
      CutWithin(was, i, repr);
    }

    /** Unlinking, told by the entries. */
    method UnlinkEntry(x: Node, ghost i: nat)
      requires InOrder() && i < |nodes| && nodes[i] == x
      modifies this`head, this`nodes, repr`forward, repr`backward
      ensures InOrder() && Abs() == Cut(old(Abs()), i)
      ensures x.forward == if 0 < i < |nodes| then nodes[i] else null
    {
      hide Cut;
      ghost var (was, cur) := (nodes, Abs());
      assert x.forward == if i == |was| - 1 then null else was[i + 1];
      Unlink(x, i);
      CutEntries(was, i);
      assert Entries(was) == cur;
    }

    /** Lines 49-105. */
    method CheckNeighborStatusList(now: real)
      requires InOrder()
      modifies this`head, this`nodes, repr`forward, repr`backward
      ensures InOrder() && Abs() == Swept(old(Abs()), now)
    {
      hide Swept, Sweeping, LiveOf, Cut, Expired, Linked, Entries;
      LinkedHead(head, nodes);
      var it := head;
      ghost var es := Abs();
      ghost var k: nat, i: nat := 0, 0;
      SweepingStart(es, now);
      if nodes == [] {
        SweepingEnd(es, now, k, i, es);
      }
      while it != null
        invariant InOrder() && k <= |es|
        invariant it != null ==> i < |nodes| && it == nodes[i] && Sweeping(es, now, k, i, Abs())
        invariant it == null ==> Abs() == Swept(es, now)
        decreases it != null, |es| - k
      {
        it, i := SweepOne(it, now, es, k, i);
        k := k + 1;
      }
    }

    /** One round of the sweep; there is no next element after an expired head. */
    method SweepOne(it: Node, now: real, ghost es: seq<Entry>, ghost k: nat, ghost i: nat)
      returns (next: Node?, ghost i': nat)
      requires InOrder() && i < |nodes| && it == nodes[i] && Sweeping(es, now, k, i, Abs())
      modifies this`head, this`nodes, repr`forward, repr`backward
      ensures InOrder() && k < |es|
      ensures next != null ==> i' < |nodes| && next == nodes[i'] && Sweeping(es, now, k + 1, i', Abs())
      ensures next == null ==> Abs() == Swept(es, now)
    {
      hide Swept, Sweeping, LiveOf, Cut, Expired, Linked, Entries;
      SweepingStep(es, now, k, i, Abs());
      LinkedAt(head, nodes, i);
      i' := i;
      assert Abs()[i].st == it.st;
      if Expired(it.st, now) {
        UnlinkEntry(it, i);
      } else {
        i' := i + 1;
      }
      next := it.forward;
      if next == null && i' > 0 {
        SweepingEnd(es, now, k + 1, i', Abs());
      }
    }

    /** Line 180-186 and its like: the first element that carries the id. */
    method Search(id: int) returns (it: Node?, ghost i: nat)
      requires InOrder()
      ensures i == Find(Abs(), id) && it == if i < |nodes| then nodes[i] else null
    {
      hide Linked, Entries, Find;
      LinkedHead(head, nodes);
      it, i := head, 0;
      while it != null
        invariant i <= |nodes| && it == (if i < |nodes| then nodes[i] else null)
        invariant forall k :: 0 <= k < i ==> Abs()[k].st.transId != id
        decreases |nodes| - i
      {
        LinkedAt(head, nodes, i);
        if it.st.transId == id {
          FindUnique(Abs(), id, i);
          return;
        }
        it, i := it.forward, i + 1;
      }
      FindUnique(Abs(), id, i);
    }

    method TransactionRegAccept(id: int, now: real) returns (found: bool)
      requires Valid()
      modifies repr`st
      ensures Valid() && Abs() == Accepted(old(Abs()), id, now)
      ensures found <==> Find(old(Abs()), id) < |old(Abs())|
    {
      hide Linked, Entries, Find;
      var it, i := Search(id);
      found := it != null;
      if found {
        ghost var was := Abs();
        it.st := it.st.(acceptReceived := now);
        LinkedApart(head, nodes, i);
        UpdatedAt(nodes, i, was);
      }
    }

    /** The accept time of the removed transaction, -2 when there is none. */
    method TransactionRemove(id: int) returns (accepted: real)
      requires Valid()
      modifies this`head, this`nodes, repr`forward, repr`backward
      ensures Valid() && Abs() == Dropped(old(Abs()), id)
      ensures var i := Find(old(Abs()), id);
              accepted == if i < |old(Abs())| then old(Abs())[i].st.acceptReceived else -2.0
    {
      hide Linked, Entries, Find, Cut;
      var it, i := Search(id);
      if it == null {
        return -2.0;
      }
      accepted := it.st.acceptReceived;
      assert Abs()[i].st == it.st;
      UnlinkEntry(it, i);
    }

    method TransactionCreate(peer: NodeId, now: real) returns (id: int)
      requires Valid()
      modifies this, repr`forward, repr`backward
      ensures Valid() && fresh(repr - old(repr)) && created == old(created) + 1
      ensures id == IdOf(created)
      ensures Abs() == [Entry(created, ServiceTime(id, now, -1.0, peer))] + Swept(old(Abs()), now)
    {
      hide NextId, IdOf, Linked, Entries, Swept;
      CheckNeighborStatusList(now);
      IdStep(created);
      transId := NextId(transId);
      created := created + 1;
      id := transId;
      PushFront(ServiceTime(id, now, -1.0, peer), created);
    }

    /** Lines 127-142. */
    method PushFront(st: ServiceTime, ghost serial: nat)
      requires InOrder()
      modifies this`head, this`nodes, this`repr, repr`backward
      ensures InOrder() && fresh(repr - old(repr)) && Abs() == [Entry(serial, st)] + old(Abs())
    {
      hide Linked, Entries;
      LinkedHead(head, nodes);
      ghost var (was, es) := (nodes, Abs());
      LinkedAll(head, nodes);
      var x := new Node(st, head, serial);
      if head != null {
        head.backward := x;
      }
      head := x;
      nodes := [x] + was;
      repr := repr + {x};
      Prepended(x, was);
      PrependedEntries(x, was);
      assert Entries(was) == es;
    }
  }
}
