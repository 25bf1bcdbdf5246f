/** The request queue of the disk-scheduling client (disk.cc): a bounded queue
    kept in Shortest-Seek-Time-First order relative to the last serviced track. */
module DiskQueue {

  /** `struct request`: the requester's id and the track it asks for. */
  datatype Request = Request(id: int, track: int)

  /** Every value of a C `size_t` (64 bits wide) is below this. */
  const SizeTModulus: int := 0x1_0000_0000_0000_0000

  function Abs(x: int): nat
  {
    if x < 0 then -x else x
  }

  /** How far the head must move from `lasttrack` to reach the request. */
  function SeekDistance(r: Request, lasttrack: int): nat
  {
    Abs(r.track - lasttrack)
  }

  /** `mysort`, the comparator handed to `std::sort`: `i` is strictly nearer than `j`.
      Requests on the same track are never ordered, and a request on the head's own
      track comes before any other. */
  function Closer(i: Request, j: Request, lasttrack: int): (closer: bool)
    ensures closer ==> i.track != j.track
    ensures i.track == lasttrack && j.track != lasttrack ==> closer
  {
    SeekDistance(i, lasttrack) < SeekDistance(j, lasttrack)
  }

  /** `mysort` is a strict weak ordering, which `std::sort` demands of its comparator:
      irreflexive, transitive, and "neither is nearer" is transitive too. */
  lemma CloserIsStrictWeakOrder(a: Request, b: Request, c: Request, lasttrack: int)
    ensures !Closer(a, a, lasttrack)
    ensures Closer(a, b, lasttrack) && Closer(b, c, lasttrack) ==> Closer(a, c, lasttrack)
    ensures !Closer(a, b, lasttrack) && !Closer(b, a, lasttrack) &&
            !Closer(b, c, lasttrack) && !Closer(c, b, lasttrack) ==>
            !Closer(a, c, lasttrack) && !Closer(c, a, lasttrack)
  {
  }

  /** What `std::sort` with `Closer` guarantees: no element is strictly nearer than
      one before it (no later `Closer` than an earlier one). Ties may come in any order. */
  predicate SortedBySeek(q: seq<Request>, lasttrack: int)
  {
    forall i, j :: 0 <= i < j < |q| ==> SeekDistance(q[i], lasttrack) <= SeekDistance(q[j], lasttrack)
  }

  /** The front of a queue in seek order is a request of minimal seek distance. */
  lemma SortedFrontIsNearest(q: seq<Request>, lasttrack: int)
    requires SortedBySeek(q, lasttrack) && q != []
    ensures forall r :: r in q ==> SeekDistance(q[0], lasttrack) <= SeekDistance(r, lasttrack)
  {
  }

  /** Putting `x` at position `i` of a queue in seek order keeps it in seek order when
      everything before `i` is no farther than `x` and the request at `i` is farther. */
  lemma InsertKeepsSorted(q: seq<Request>, x: Request, i: nat, lasttrack: int)
    requires SortedBySeek(q, lasttrack) && i <= |q|
    requires forall j :: 0 <= j < i ==> SeekDistance(q[j], lasttrack) <= SeekDistance(x, lasttrack)
    requires i < |q| ==> SeekDistance(x, lasttrack) < SeekDistance(q[i], lasttrack)
    ensures SortedBySeek(q[..i] + [x] + q[i..], lasttrack)
  {
    var r := q[..i] + [x] + q[i..];
    forall a, b | 0 <= a < b < |r|
      ensures SeekDistance(r[a], lasttrack) <= SeekDistance(r[b], lasttrack)
    {
      if b < i {
        assert r[a] == q[a] && r[b] == q[b];
      } else if b == i {
        assert r[a] == q[a] && r[b] == x;
      } else if a < i {
        assert r[a] == q[a] && r[b] == q[b - 1];
      } else if a == i {
        assert r[a] == x && r[b] == q[b - 1];
      } else {
        assert r[a] == q[a - 1] && r[b] == q[b - 1];
      }
    }
  }

  /** One step of the sort: insert `x` into a queue already in seek order, in front
      of the first request strictly farther away than `x`. */
  method InsertBySeek(q: seq<Request>, x: Request, lasttrack: int) returns (r: seq<Request>)
    requires SortedBySeek(q, lasttrack)
    ensures SortedBySeek(r, lasttrack)
    ensures multiset(r) == multiset(q) + multiset{x}
  {
    var i := 0;
    while i < |q| && !Closer(x, q[i], lasttrack)
      invariant 0 <= i <= |q|
      invariant forall j :: 0 <= j < i ==> SeekDistance(q[j], lasttrack) <= SeekDistance(x, lasttrack)
    {
      i := i + 1;
    }
    InsertKeepsSorted(q, x, i, lasttrack);
    r := q[..i] + [x] + q[i..];
    assert q == q[..i] + q[i..];
  }

  /** The effect of `std::sort(diskQ.begin(), diskQ.end(), mysort)`: a permutation of
      the queue in seek order (here by insertion; only this contract is relied on). */
  method SortBySeek(q: seq<Request>, lasttrack: int) returns (r: seq<Request>)
    ensures SortedBySeek(r, lasttrack)
    ensures multiset(r) == multiset(q)
  {
    r := [];
    var i := 0;
    while i < |q|
      invariant 0 <= i <= |q|
      invariant SortedBySeek(r, lasttrack)
      invariant multiset(r) == multiset(q[..i])
    {
      r := InsertBySeek(r, q[i], lasttrack);
      assert q[..i + 1] == q[..i] + [q[i]];
      i := i + 1;
    }
    assert q[..|q|] == q;
  }

  /** `serviceRequest` moves `lasttrack` but does not re-sort: the requests left behind
      need not be in seek order from the new `lasttrack`. */
  lemma ServiceLeavesOldOrder()
    ensures var q := [Request(0, 5), Request(1, -6), Request(2, 10)];
      SortedBySeek(q, 0) && !SortedBySeek(q[1..], q[0].track)
  {
    var q := [Request(0, 5), Request(1, -6), Request(2, 10)];
    assert Closer(q[1..][1], q[1..][0], q[0].track);
  }

  /** The globals of disk.cc that the queue helpers use. */
  class Disk {
    var diskQ: seq<Request>
    var serviced: array<bool>
    var lasttrack: int
    var diskQmax: int

    /** Every queued request belongs to a requester that has a `serviced` entry. */
    ghost predicate Valid()
      reads this
    {
      forall r :: r in diskQ ==> 0 <= r.id < serviced.Length
    }

    /** The set-up in `main`: `numthreads` requesters, none with a pending request,
        head at track 0, an empty queue bounded by `diskQmax`. */
    constructor (numthreads: nat, diskQmax: int)
      ensures Valid() && fresh(serviced)
      ensures diskQ == [] && lasttrack == 0 && this.diskQmax == diskQmax
      ensures serviced.Length == numthreads && forall i :: 0 <= i < numthreads ==> serviced[i]
    {
      this.diskQmax := diskQmax;
      lasttrack := 0;
      diskQ := [];
      serviced := new bool[numthreads](_ => true);
    }

    /** `isdiskQfull`: `diskQ.size() >= diskQmax`, where the `int` bound is converted to
        the queue's unsigned `size_t` first, so a negative bound becomes huge. */
    function IsDiskQFull(): (full: bool)
      reads this
      ensures 0 <= diskQmax < SizeTModulus ==> (full <==> |diskQ| >= diskQmax)
      ensures -SizeTModulus / 2 <= diskQmax < 0 && |diskQ| < SizeTModulus / 2 ==> !full
    {
      |diskQ| >= diskQmax % SizeTModulus
    }

    /** `sendRequest`: queue `r`, restore seek order and mark `r`'s requester as
        waiting. */
    method SendRequest(r: Request)
      requires Valid() && 0 <= r.id < serviced.Length
      modifies this, serviced
      ensures Valid() && serviced == old(serviced)
      ensures multiset(diskQ) == multiset(old(diskQ)) + multiset{r}
      ensures SortedBySeek(diskQ, lasttrack)
      ensures forall x :: x in diskQ ==> SeekDistance(diskQ[0], lasttrack) <= SeekDistance(x, lasttrack)
      ensures lasttrack == old(lasttrack) && diskQmax == old(diskQmax)
      ensures serviced[..] == old(serviced[..])[r.id := false]
    {
      diskQ := diskQ + [r];
      diskQ := SortBySeek(diskQ, lasttrack);
      assert r in multiset(diskQ);
      SortedFrontIsNearest(diskQ, lasttrack);
      serviced[r.id] := false;
      forall x | x in diskQ ensures 0 <= x.id < serviced.Length {
        assert x in multiset(old(diskQ)) + multiset{r};
      }
    }

    /** `serviceRequest`: take the front request, mark its requester serviced and
        move the head to its track. The rest of the queue keeps its order. */
    method ServiceRequest()
      requires Valid() && diskQ != []
      modifies this, serviced
      ensures Valid() && serviced == old(serviced)
      ensures diskQ == old(diskQ)[1..]
      ensures lasttrack == old(diskQ)[0].track && diskQmax == old(diskQmax)
      ensures serviced[..] == old(serviced[..])[old(diskQ)[0].id := true]
    {
      var r := diskQ[0];
      diskQ := diskQ[1..];
      serviced[r.id] := true;
      lasttrack := r.track;
    }
  }
}
