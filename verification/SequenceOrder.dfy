/**
 Ordering the packets of a group by their wrapping distance before the marker, and the adjacency
 check that follows: together they accept exactly the unbroken runs that end at the marker.
 */
module SequenceOrder {
  import opened Bytes
  import opened DepacketizerModel
  import opened Sums

  predicate Keyed(packets: map<u16, Packet>) {
    forall q <- packets :: packets[q].seqno == q
  }

  /** The `k`-th sequence number before `end`. */
  function Before(end: u16, k: nat): (q: u16)
    ensures k < 0x1_0000 ==> Distance(end, q) == k
  {
    (end - k) % 0x1_0000
  }

  lemma DistanceInverts(end: u16, q: u16)
    ensures Before(end, Distance(end, q)) == q && Distance(end, q) < 0x1_0000
  {
  }

  predicate Descending(ps: seq<Packet>, end: u16) {
    forall i, j :: 0 <= i < j < |ps| ==> Distance(end, ps[i].seqno) > Distance(end, ps[j].seqno)
  }

  lemma AtDistance(end: u16, q: u16, k: nat)
    requires Distance(end, q) == k
    ensures q == Before(end, k)
  {
    DistanceInverts(end, q);
  }

  lemma InOrderStep(packets: map<u16, Packet>, end: u16, d: nat)
    requires 0 < d <= 0x1_0000
    ensures var q := Before(end, d - 1);
            InOrder(packets, end, d) == (if q in packets then [packets[q]] else []) + InOrder(packets, end, d - 1)
  {
  }

  /** `ps` lists, farthest first, the packets at a distance below `d`. */
  predicate Lists(packets: map<u16, Packet>, end: u16, d: nat, ps: seq<Packet>) {
    && Descending(ps, end)
    && (forall p <- ps :: p.seqno in packets && packets[p.seqno] == p && Distance(end, p.seqno) < d)
    && forall q <- packets :: Distance(end, q) < d ==> packets[q] in ps
  }

  lemma Farther(ps: seq<Packet>, end: u16, i: nat, j: nat)
    requires Descending(ps, end) && j < |ps|
    ensures i < j ==> Distance(end, ps[i].seqno) > Distance(end, ps[j].seqno)
  {
  }

  lemma {:induction false} InOrderLists(packets: map<u16, Packet>, end: u16, d: nat)
    requires Keyed(packets) && d <= 0x1_0000
    ensures Lists(packets, end, d, InOrder(packets, end, d))
  {
    if d > 0 {
      InOrderLists(packets, end, d - 1);
      var q := Before(end, d - 1);
      forall x <- packets | Distance(end, x) == d - 1 ensures x == q {
        AtDistance(end, x, d - 1);
      }
      InOrderStep(packets, end, d);
      hide Distance, Before, InOrder;
      var rest := InOrder(packets, end, d - 1);
      assert InOrder(packets, end, d) == (if q in packets then [packets[q]] else []) + rest;
    }
  }

  lemma ListsHead(packets: map<u16, Packet>, end: u16, d: nat, ps: seq<Packet>)
    requires Keyed(packets) && 0 < d <= 0x1_0000 && Lists(packets, end, d, ps) && Before(end, d - 1) in packets
    ensures ps != [] && ps[0] == packets[Before(end, d - 1)] && Lists(packets, end, d - 1, ps[1..])
  {
    var q := Before(end, d - 1);
    hide Distance, Before;
    assert packets[q] in ps;
    var i :| 0 <= i < |ps| && ps[i] == packets[q];
    assert i == 0 by {
      assert ps[0] in ps;
      Farther(ps, end, 0, i);
    }
    forall p | p in ps[1..] ensures p in ps && Distance(end, p.seqno) < d - 1 {
      var j :| 0 < j < |ps| && ps[j] == p;
      assert Distance(end, ps[0].seqno) > Distance(end, ps[j].seqno);
    }
    forall x <- packets | Distance(end, x) < d - 1 ensures packets[x] in ps[1..] {
      var j :| 0 <= j < |ps| && ps[j] == packets[x];
      assert j != 0;
    }
  }

  lemma ListsNoHead(packets: map<u16, Packet>, end: u16, d: nat, ps: seq<Packet>)
    requires Keyed(packets) && 0 < d <= 0x1_0000 && Lists(packets, end, d, ps) && Before(end, d - 1) !in packets
    ensures Lists(packets, end, d - 1, ps)
  {
    forall p <- ps ensures Distance(end, p.seqno) != d - 1 {
      if Distance(end, p.seqno) == d - 1 {
        AtDistance(end, p.seqno, d - 1);
      }
    }
  }

  /**
   The library sort is pinned down by its key: whatever order the hash map hands the packets over in,
   sorting them by descending distance gives `InOrder`.
   */
  lemma {:induction false} SortIsInOrder(packets: map<u16, Packet>, end: u16, d: nat, ps: seq<Packet>)
    requires Keyed(packets) && d <= 0x1_0000 && Lists(packets, end, d, ps)
    ensures ps == InOrder(packets, end, d)
  {
    if d == 0 {
      assert forall p <- ps :: false;
    } else {
      InOrderStep(packets, end, d);
      var q := Before(end, d - 1);
      if q in packets {
        ListsHead(packets, end, d, ps);
        hide Lists, Distance, Before;
        SortIsInOrder(packets, end, d - 1, ps[1..]);
        assert ps == [ps[0]] + ps[1..];
      } else {
        ListsNoHead(packets, end, d, ps);
        hide Lists, Distance, Before;
        SortIsInOrder(packets, end, d - 1, ps);
      }
    }
  }

  // ----- runs

  /** The packets are exactly the last `|packets|` sequence numbers up to `end`. */
  predicate IsRun(packets: map<u16, Packet>, end: u16) {
    forall k :: 0 <= k < |packets| ==> Before(end, k) in packets
  }

  function Nearer(packets: map<u16, Packet>, end: u16, d: nat): map<u16, Packet> {
    map q | q in packets && Distance(end, q) < d :: packets[q]
  }

  lemma {:induction false} InOrderSize(packets: map<u16, Packet>, end: u16, d: nat)
    requires d <= 0x1_0000
    ensures |InOrder(packets, end, d)| == |Nearer(packets, end, d)|
  {
    if d > 0 {
      InOrderSize(packets, end, d - 1);
      var q := Before(end, d - 1);
      var near, all := Nearer(packets, end, d - 1), Nearer(packets, end, d);
      forall x <- all ensures x in near || x == q {
        DistanceInverts(end, x);
      }
      if q in packets {
        SizePut(near, q, packets[q]);
        assert all == near[q := packets[q]];
      } else {
        assert all == near;
      }
    } else {
      assert Nearer(packets, end, 0) == map[];
    }
  }

  lemma AllInOrder(packets: map<u16, Packet>, end: u16)
    ensures |InOrder(packets, end, 0x1_0000)| == |packets|
  {
    InOrderSize(packets, end, 0x1_0000);
    assert Nearer(packets, end, 0x1_0000) == packets;
  }

  /** With every nearer number present, the order is the plain sequence of them. */
  lemma {:induction false} FullOrder(packets: map<u16, Packet>, end: u16, d: nat)
    requires Keyed(packets) && d <= 0x1_0000 && forall k :: 0 <= k < d ==> Before(end, k) in packets
    ensures var ps := InOrder(packets, end, d);
            |ps| == d && forall i :: 0 <= i < d ==> ps[i] == packets[Before(end, d - 1 - i)]
  {
    if d > 0 {
      FullOrder(packets, end, d - 1);
      assert Before(end, d - 1) in packets;
    }
  }

  lemma {:induction false} OrderSuffix(packets: map<u16, Packet>, end: u16, d: nat, more: nat)
    requires d <= more <= 0x1_0000
    ensures |InOrder(packets, end, d)| <= |InOrder(packets, end, more)|
    ensures InOrder(packets, end, more)[|InOrder(packets, end, more)| - |InOrder(packets, end, d)|..]
         == InOrder(packets, end, d)
    decreases more
  {
    if d < more {
      OrderSuffix(packets, end, d, more - 1);
    }
  }

  /** A run is put into its original order. */
  lemma RunOrder(packets: map<u16, Packet>, end: u16)
    requires Keyed(packets) && |packets| <= 0x1_0000 && IsRun(packets, end)
    ensures var ps := InOrder(packets, end, 0x1_0000);
            |ps| == |packets| && forall i :: 0 <= i < |ps| ==> ps[i] == packets[Before(end, |ps| - 1 - i)]
  {
    AllInOrder(packets, end);
    FullOrder(packets, end, |packets|);
    OrderSuffix(packets, end, |packets|, 0x1_0000);
  }

  lemma {:induction false} AdjacentDistances(ps: seq<Packet>, end: u16, i: nat)
    requires Adjacent(ps) && Descending(ps, end) && i < |ps| && Distance(end, ps[|ps| - 1].seqno) == 0
    ensures Distance(end, ps[i].seqno) == |ps| - 1 - i
    decreases |ps| - i
  {
    if i < |ps| - 1 {
      AdjacentDistances(ps, end, i + 1);
      assert Distance(end, ps[i].seqno) > Distance(end, ps[i + 1].seqno);
      OneStep(end, ps[i].seqno, ps[i + 1].seqno);
    }
  }

  lemma OneStep(end: u16, q: u16, r: u16)
    requires r == (q + 1) % 0x1_0000 && Distance(end, q) > Distance(end, r)
    ensures Distance(end, q) == Distance(end, r) + 1
  {
  }

  lemma NextInRun(end: u16, k: nat)
    requires k + 1 < 0x1_0000
    ensures Before(end, k) == (Before(end, k + 1) + 1) % 0x1_0000
  {
  }

  /** A run holds no number from before it. */
  lemma RunHoldsNoOther(packets: map<u16, Packet>, end: u16, q: u16)
    requires Keyed(packets) && |packets| <= 0x1_0000 && IsRun(packets, end) && q in packets
    ensures Distance(end, q) < |packets|
  {
    InOrderLists(packets, end, 0x1_0000);
    RunOrder(packets, end);
    DistanceInverts(end, q);
    hide InOrder, Distance, Descending;
    var ps := InOrder(packets, end, 0x1_0000);
    assert packets[q] in ps;
    var i :| 0 <= i < |ps| && ps[i] == packets[q];
    assert q == Before(end, |ps| - 1 - i);
  }

  lemma RunIsAdjacent(packets: map<u16, Packet>, end: u16)
    requires Keyed(packets) && |packets| <= 0x1_0000 && IsRun(packets, end)
    ensures Adjacent(InOrder(packets, end, 0x1_0000))
  {
    var ps := InOrder(packets, end, 0x1_0000);
    RunOrder(packets, end);
    forall i | 0 < i < |ps| ensures ps[i].seqno == (ps[i - 1].seqno + 1) % 0x1_0000 {
      NextInRun(end, |ps| - 1 - i);
      assert Before(end, |ps| - 1 - i) in packets && Before(end, |ps| - i) in packets;
    }
  }

  lemma MarkerIsLast(packets: map<u16, Packet>, end: u16, ps: seq<Packet>)
    requires Keyed(packets) && end in packets && Lists(packets, end, 0x1_0000, ps)
    ensures ps != [] && Distance(end, ps[|ps| - 1].seqno) == 0
  {
    assert Distance(end, end) == 0;
    hide Distance;
    assert packets[end] in ps;
    var m :| 0 <= m < |ps| && ps[m] == packets[end];
    assert m == |ps| - 1 by {
      Farther(ps, end, m, |ps| - 1);
    }
  }

  lemma AdjacentHas(packets: map<u16, Packet>, end: u16, ps: seq<Packet>, k: nat)
    requires Keyed(packets) && Lists(packets, end, 0x1_0000, ps) && Adjacent(ps)
    requires ps != [] && Distance(end, ps[|ps| - 1].seqno) == 0 && k < |ps|
    ensures Before(end, k) in packets
  {
    hide Distance, Before, Adjacent;
    var p := ps[|ps| - 1 - k];
    assert p in ps;
    AdjacentDistances(ps, end, |ps| - 1 - k);
    DistanceInverts(end, p.seqno);
  }

  lemma AdjacentIsRun(packets: map<u16, Packet>, end: u16)
    requires Keyed(packets) && |packets| <= 0x1_0000 && end in packets
    requires Adjacent(InOrder(packets, end, 0x1_0000))
    ensures IsRun(packets, end)
  {
    var ps := InOrder(packets, end, 0x1_0000);
    hide InOrder, Distance, Before, Adjacent, Lists, Keyed;
    AllInOrder(packets, end);
    InOrderLists(packets, end, 0x1_0000);
    MarkerIsLast(packets, end, ps);
    forall k | 0 <= k < |packets| ensures Before(end, k) in packets {
      AdjacentHas(packets, end, ps, k);
    }
  }

  /** The sort and the adjacency check accept a group exactly when it is the run that ends at the marker. */
  lemma AcceptsExactlyRuns(packets: map<u16, Packet>, end: u16)
    requires Keyed(packets) && |packets| <= 0x1_0000 && end in packets
    ensures Adjacent(InOrder(packets, end, 0x1_0000)) <==> IsRun(packets, end)
  {
    hide Adjacent, IsRun, InOrder;
    if IsRun(packets, end) {
      RunIsAdjacent(packets, end);
    }
    if Adjacent(InOrder(packets, end, 0x1_0000)) {
      AdjacentIsRun(packets, end);
    }
  }
}
