/** The PCB lists of SW_stub/lwtcp/tcp.c and tcp_input.c, the TCP state machine that moves PCBs between them, and
    demultiplexing with move-to-front. */
module PcbLists {
  import opened SeqNum

  datatype State =
    | CLOSED | LISTEN | SYN_SENT | SYN_RCVD | ESTABLISHED | FIN_WAIT_1 | FIN_WAIT_2 | CLOSE_WAIT | CLOSING | LAST_ACK
    | TIME_WAIT

  type Id = nat

  datatype Pcb = Pcb(state: State, localIp: u32, localPort: u16, remoteIp: u32, remotePort: u16)

  /** Addresses and ports of an incoming segment. */
  datatype Tuple = Tuple(src: u32, srcPort: u16, dest: u32, destPort: u16)

  datatype Stack = Stack(listen: seq<Id>, active: seq<Id>, tw: seq<Id>, pcbs: map<Id, Pcb>)

  // ----- Lists

  /** TCP_RMV: unlinks the first occurrence, if there is one. */
  function Without(q: seq<Id>, id: Id): seq<Id> {
    if q == [] then [] else if q[0] == id then q[1..] else [q[0]] + Without(q[1..], id)
  }

  function Index(q: seq<Id>, accepts: Id -> bool): (i: nat)
    ensures i <= |q| && (i < |q| ==> accepts(q[i]))
    ensures forall k :: 0 <= k < i ==> !accepts(q[k])
  {
    if q == [] || accepts(q[0]) then 0 else 1 + Index(q[1..], accepts)
  }

  function ToFront(q: seq<Id>, i: nat): seq<Id>
    requires i < |q|
  {
    [q[i]] + q[..i] + q[i + 1..]
  }

  /** The PCBs of a list that the slow timer does not remove. */
  function Sweep(q: seq<Id>, expired: set<Id>): seq<Id> {
    if q == [] then [] else if q[0] in expired then Sweep(q[1..], expired) else [q[0]] + Sweep(q[1..], expired)
  }

  lemma {:induction false} WithoutIs(q: seq<Id>, id: Id)
    ensures multiset(Without(q, id)) == multiset(q) - multiset{id}
    decreases |q|
  {
    hide Without;
    WithoutCons(q, id);
    if q != [] {
      assert q == [q[0]] + q[1..];
      if q[0] == id {
        assert multiset(q) == multiset{id} + multiset(q[1..]);
      } else {
        WithoutIs(q[1..], id);
        assert multiset(q) == multiset{q[0]} + multiset(q[1..]);
      }
    }
  }

  lemma WithoutCons(q: seq<Id>, id: Id)
    ensures q == [] ==> Without(q, id) == []
    ensures q != [] && q[0] == id ==> Without(q, id) == q[1..]
    ensures q != [] && q[0] != id ==>
              Without(q, id) == [q[0]] + Without(q[1..], id)
              && multiset(Without(q, id)) == multiset{q[0]} + multiset(Without(q[1..], id))
  {
  }

  lemma ToFrontIs(q: seq<Id>, i: nat)
    requires i < |q|
    ensures multiset(ToFront(q, i)) == multiset(q)
  {
    assert q == q[..i] + [q[i]] + q[i + 1..];
  }

  lemma {:induction false} SweepIs(q: seq<Id>, expired: set<Id>, id: Id)
    ensures multiset(Sweep(q, expired))[id] == if id in expired then 0 else multiset(q)[id]
    decreases |q|
  {
    if q != [] {
      assert q == [q[0]] + q[1..];
      SweepIs(q[1..], expired, id);
    }
  }

  // ----- Demultiplexing

  predicate ActiveMatch(p: Pcb, t: Tuple) {
    p.remotePort == t.srcPort && p.localPort == t.destPort && p.remoteIp == t.src && p.localIp == t.dest
  }

  predicate ListenMatch(p: Pcb, t: Tuple) {
    (p.localIp == 0 || p.localIp == t.dest) && p.localPort == t.destPort
  }

  function ActiveTest(pcbs: map<Id, Pcb>, t: Tuple): Id -> bool {
    (id: Id) => id in pcbs && ActiveMatch(pcbs[id], t)
  }

  function ListenTest(pcbs: map<Id, Pcb>, t: Tuple): Id -> bool {
    (id: Id) => id in pcbs && ListenMatch(pcbs[id], t)
  }

  datatype Found = NotFound | Found(id: Id)

  function Lookup(q: seq<Id>, f: Id -> bool): Found {
    if Index(q, f) < |q| then Found(q[Index(q, f)]) else NotFound
  }

  /** The list after one lookup: the match, if any, moves to the front. */
  function AfterLookup(q: seq<Id>, f: Id -> bool): seq<Id> {
    if Index(q, f) < |q| then ToFront(q, Index(q, f)) else q
  }

  lemma IndexIs(q: seq<Id>, f: Id -> bool, i: nat)
    requires i <= |q| && (i < |q| ==> f(q[i])) && forall k :: 0 <= k < i ==> !f(q[k])
    ensures Index(q, f) == i
  {
  }

  predicate Distinct(q: seq<Id>) {
    forall j, k :: 0 <= j < k < |q| ==> q[j] != q[k]
  }

  lemma ToFrontAt(q: seq<Id>, i: nat, j: nat)
    requires i < |q| && j < |q|
    ensures |ToFront(q, i)| == |q|
    ensures ToFront(q, i)[j] == if j == 0 then q[i] else if j <= i then q[j - 1] else q[j]
  {
  }

  lemma ToFrontDistinct(q: seq<Id>, i: nat)
    requires i < |q| && Distinct(q)
    ensures Distinct(ToFront(q, i))
  {
    hide ToFront;
    var q' := ToFront(q, i);
    ToFrontAt(q, i, 0);
    forall j, k | 0 <= j < k < |q'| ensures q'[j] != q'[k] {
      ToFrontAt(q, i, j);
      ToFrontAt(q, i, k);
    }
  }

  /** Moving an element that g rejects to the front does not change what g finds. */
  lemma RejectedToFront(q: seq<Id>, i: nat, g: Id -> bool)
    requires i < |q| && !g(q[i])
    ensures Lookup(ToFront(q, i), g) == Lookup(q, g)
  {
    hide ToFront, Index;
    var q', n := ToFront(q, i), Index(q, g);
    ToFrontAt(q, i, 0);
    var n' := if n < i then n + 1 else n;
    if n < |q| {
      ToFrontAt(q, i, n');
    }
    forall k | 0 <= k < n' ensures !g(q'[k]) {
      ToFrontAt(q, i, k);
    }
    IndexIs(q', g, n');
  }

  /** Moving element i of a duplicate-free list to the front changes what g finds exactly when g accepts both that
      element and one before it. */
  lemma MoveToFrontLookup(q: seq<Id>, i: nat, g: Id -> bool)
    requires i < |q| && Distinct(q)
    ensures Lookup(ToFront(q, i), g) == Lookup(q, g) <==> !(g(q[i]) && Index(q, g) < i)
  {
    hide ToFront;
    if g(q[i]) {
      ToFrontAt(q, i, 0);
      IndexIs(ToFront(q, i), g, 0);
      assert Index(q, g) <= i;
    } else {
      RejectedToFront(q, i, g);
    }
  }

  /** Two listeners that tcp_bind() would not admit together. */
  predicate Conflict(p: Pcb, r: Pcb) {
    p.localPort == r.localPort && (p.localIp == 0 || r.localIp == 0 || p.localIp == r.localIp)
  }

  ghost predicate NoConflicts(q: seq<Id>, pcbs: map<Id, Pcb>) {
    && (forall id :: id in q ==> id in pcbs)
    && Distinct(q)
    && forall a, b :: a in q && b in q && a != b ==> !Conflict(pcbs[a], pcbs[b])
  }

  function ActiveRun(q: seq<Id>, pcbs: map<Id, Pcb>, ts: seq<Tuple>): seq<Id>
    decreases |ts|
  {
    if ts == [] then q else ActiveRun(AfterLookup(q, ActiveTest(pcbs, ts[0])), pcbs, ts[1..])
  }

  function ListenRun(q: seq<Id>, pcbs: map<Id, Pcb>, ts: seq<Tuple>): seq<Id>
    decreases |ts|
  {
    if ts == [] then q else ListenRun(AfterLookup(q, ListenTest(pcbs, ts[0])), pcbs, ts[1..])
  }

  /** However the active list has been reordered by earlier lookups, every 4-tuple still finds the same PCB. */
  lemma {:induction false} ActiveLookupStable(q: seq<Id>, pcbs: map<Id, Pcb>, ts: seq<Tuple>, t: Tuple)
    requires Distinct(q)
    ensures Lookup(ActiveRun(q, pcbs, ts), ActiveTest(pcbs, t)) == Lookup(q, ActiveTest(pcbs, t))
    decreases |ts|
  {
    if ts != [] {
      var f := ActiveTest(pcbs, ts[0]);
      var i := Index(q, f);
      if i < |q| {
        MoveToFrontLookup(q, i, ActiveTest(pcbs, t));
        ToFrontDistinct(q, i);
      }
      ActiveLookupStable(AfterLookup(q, f), pcbs, ts[1..], t);
    }
  }

  /** The same for listeners, none of which conflict. */
  lemma {:induction false} ListenLookupStable(q: seq<Id>, pcbs: map<Id, Pcb>, ts: seq<Tuple>, t: Tuple)
    requires NoConflicts(q, pcbs)
    ensures Lookup(ListenRun(q, pcbs, ts), ListenTest(pcbs, t)) == Lookup(q, ListenTest(pcbs, t))
    decreases |ts|
  {
    if ts != [] {
      var f, g := ListenTest(pcbs, ts[0]), ListenTest(pcbs, t);
      var i := Index(q, f);
      if i < |q| {
        ListenMatchOnce(q, pcbs, i, Index(q, g), t);
        MoveToFrontLookup(q, i, g);
        ToFrontDistinct(q, i);
        ToFrontNoConflicts(q, pcbs, i);
      }
      ListenLookupStable(AfterLookup(q, f), pcbs, ts[1..], t);
    }
  }

  lemma ListenMatchOnce(q: seq<Id>, pcbs: map<Id, Pcb>, i: nat, k: nat, t: Tuple)
    requires NoConflicts(q, pcbs) && i < |q| && k <= |q|
    ensures k < i && ListenMatch(pcbs[q[i]], t) ==> !ListenMatch(pcbs[q[k]], t)
  {
    if k < i {
      assert q[k] != q[i] && q[k] in q && q[i] in q;
    }
  }

  lemma ToFrontNoConflicts(q: seq<Id>, pcbs: map<Id, Pcb>, i: nat)
    requires NoConflicts(q, pcbs) && i < |q|
    ensures NoConflicts(ToFront(q, i), pcbs)
  {
    ToFrontDistinct(q, i);
    assert forall id :: id in ToFront(q, i) ==> id in q;
  }
}
