/** The receiver's record of packet numbers and the ACK ranges made from it
    (internal/transport/multiplexer.go). */
module AckRanges {
  import opened Frames

  type PathId = nat

  const ACK_THRESHOLD := 16

  predicate Covers(rs: seq<AckRange>, x: nat) {
    exists i :: 0 <= i < |rs| && rs[i].smallest <= x <= rs[i].largest
  }

  /** Ascending, non-empty, disjoint and non-adjacent. */
  predicate Canonical(rs: seq<AckRange>) {
    && (forall i :: 0 <= i < |rs| ==> rs[i].smallest <= rs[i].largest)
    && (forall i, j :: 0 <= i < j < |rs| ==> rs[i].largest + 1 < rs[j].smallest)
  }

  ghost predicate Describes(rs: seq<AckRange>, s: set<nat>) {
    Canonical(rs) && forall x: nat :: Covers(rs, x) <==> x in s
  }

  /** A set has one description only, so `Describes` fixes the result of GetAckRanges. */
  lemma {:induction false} DescriptionIsUnique(a: seq<AckRange>, b: seq<AckRange>, s: set<nat>)
    requires Describes(a, s) && Describes(b, s)
    ensures a == b
  {
    hide Describes, Canonical, Covers;
    EmptyDescribes(a, s);
    EmptyDescribes(b, s);
    if a != [] && b != [] {
      FirstRangeIncluded(a, b, s);
      FirstRangeIncluded(b, a, s);
      var rest := set x | x in s && !(a[0].smallest <= x <= a[0].largest);
      TailDescribes(a, s, rest);
      TailDescribes(b, s, rest);
      DescriptionIsUnique(a[1..], b[1..], rest);
      assert a == [a[0]] + a[1..] && b == [b[0]] + b[1..];
    }
  }

  lemma EmptyDescribes(a: seq<AckRange>, s: set<nat>)
    requires Describes(a, s)
    ensures a == [] <==> s == {}
  {
    if a != [] {
      assert Covers(a, a[0].smallest);
    }
    if s != {} {
      var x: nat :| x in s;
      assert Covers(a, x);
    }
  }

  lemma FirstRangeIncluded(a: seq<AckRange>, b: seq<AckRange>, s: set<nat>)
    requires Describes(a, s) && Describes(b, s) && a != [] && b != []
    ensures b[0].smallest <= a[0].smallest
    ensures a[0].smallest == b[0].smallest ==> a[0].largest <= b[0].largest
  {
    var gap: nat := b[0].largest + 1;
    assert Covers(a, gap) || !(a[0].smallest <= gap <= a[0].largest);
    assert Covers(a, a[0].smallest);
    assert Covers(b, a[0].smallest);
    assert !Covers(b, gap);
  }

  lemma TailDescribes(a: seq<AckRange>, s: set<nat>, rest: set<nat>)
    requires Describes(a, s) && a != []
    requires rest == set x | x in s && !(a[0].smallest <= x <= a[0].largest)
    ensures Describes(a[1..], rest)
  {
    forall x: nat
      ensures Covers(a[1..], x) <==> x in rest
    {
      assert Covers(a, x) <==> x in s;
      if Covers(a[1..], x) {
        var i :| 0 <= i < |a[1..]| && a[1..][i].smallest <= x <= a[1..][i].largest;
        assert a[i + 1] == a[1..][i];
        assert Covers(a, x);
      }
      if x in rest {
        var i :| 0 <= i < |a| && a[i].smallest <= x <= a[i].largest;
        assert i > 0 && a[1..][i - 1] == a[i];
      }
    }
  }

  /** The scan over the sorted numbers: what is closed off so far plus the run being extended. */
  lemma ExtendRun(rs: seq<AckRange>, start: nat, prev: nat, s: set<nat>)
    requires start <= prev && Describes(rs + [AckRange(start, prev)], s)
    ensures Describes(rs + [AckRange(start, prev + 1)], s + {prev + 1})
  {
    var old' := rs + [AckRange(start, prev)];
    var new' := rs + [AckRange(start, prev + 1)];
    forall x: nat
      ensures Covers(new', x) <==> x in s + {prev + 1}
    {
      assert Covers(old', x) <==> x in s;
      if Covers(old', x) {
        var i :| 0 <= i < |old'| && old'[i].smallest <= x <= old'[i].largest;
        assert new'[i].smallest <= x <= new'[i].largest;
      }
      if Covers(new', x) && x != prev + 1 {
        var i :| 0 <= i < |new'| && new'[i].smallest <= x <= new'[i].largest;
        assert old'[i].smallest <= x <= old'[i].largest;
      }
      assert new'[|rs|] == AckRange(start, prev + 1);
    }
    forall i, j | 0 <= i < j < |new'|
      ensures new'[i].largest + 1 < new'[j].smallest
    {
      assert old'[i].largest + 1 < old'[j].smallest;
    }
    assert old'[|rs|] == AckRange(start, prev);
    assert forall i :: 0 <= i < |rs| ==> new'[i] == old'[i];
  }

  lemma CloseRun(rs: seq<AckRange>, start: nat, prev: nat, next: nat, s: set<nat>)
    requires start <= prev && prev + 1 < next && Describes(rs + [AckRange(start, prev)], s)
    ensures Describes(rs + [AckRange(start, prev)] + [AckRange(next, next)], s + {next})
  {
    var old' := rs + [AckRange(start, prev)];
    var new' := old' + [AckRange(next, next)];
    forall x: nat
      ensures Covers(new', x) <==> x in s + {next}
    {
      assert Covers(old', x) <==> x in s;
      if Covers(old', x) {
        var i :| 0 <= i < |old'| && old'[i].smallest <= x <= old'[i].largest;
        assert new'[i] == old'[i];
      }
      if Covers(new', x) && x != next {
        var i :| 0 <= i < |new'| && new'[i].smallest <= x <= new'[i].largest;
        assert new'[i] == old'[i];
      }
      assert new'[|old'|] == AckRange(next, next);
    }
    forall i, j | 0 <= i < j < |new'|
      ensures new'[i].largest + 1 < new'[j].smallest
    {
      assert old'[|rs|] == AckRange(start, prev);
      if j == |old'| && i < |rs| {
        assert old'[i].largest + 1 < old'[|rs|].smallest;
      }
    }
  }

  predicate Ascending(s: seq<nat>) {
    forall i, j :: 0 <= i < j < |s| ==> s[i] < s[j]
  }

  lemma InsertAt(r: seq<nat>, k: nat, x: nat)
    requires Ascending(r) && k <= |r| && x !in r
    requires (forall i :: 0 <= i < k ==> r[i] < x) && (k < |r| ==> x <= r[k])
    ensures Ascending(r[..k] + [x] + r[k..])
    ensures forall y :: y in r[..k] + [x] + r[k..] <==> y in r || y == x
  {
    assert k < |r| ==> r[k] in r;
    var r' := r[..k] + [x] + r[k..];
    forall y
      ensures y in r' <==> y in r || y == x
    {
      if y in r {
        var i :| 0 <= i < |r| && r[i] == y;
        assert r'[if i < k then i else i + 1] == y;
      }
      assert r'[k] == x;
    }
  }

  /** Collects a set in any order into an ascending list, as the map iteration and sort do. */
  method Sorted(s: set<nat>) returns (r: seq<nat>)
    ensures Ascending(r) && forall x :: x in r <==> x in s
  {
    r := [];
    var todo := s;
    while todo != {}
      invariant todo <= s && Ascending(r)
      invariant forall x :: x in r <==> x in s - todo
      decreases todo
    {
      var x :| x in todo;
      assert x !in r;
      var k := 0;
      while k < |r| && r[k] < x
        invariant k <= |r| && forall i :: 0 <= i < k ==> r[i] < x
      {
        k := k + 1;
      }
      InsertAt(r, k, x);
      r := r[..k] + [x] + r[k..];
      todo := todo - {x};
    }
  }

  function RecordedOn(received: map<PathId, set<nat>>, p: PathId): set<nat> {
    if p in received then received[p] else {}
  }

  function Recording(received: map<PathId, set<nat>>, p: PathId, n: nat): map<PathId, set<nat>> {
    received[p := RecordedOn(received, p) + {n}]
  }

  /** The covered numbers of the path are gone, and the path itself once it is empty. */
  function Cleaned(received: map<PathId, set<nat>>, p: PathId, ranges: seq<AckRange>): map<PathId, set<nat>> {
    if p !in received then received
    else
      var left := set n | n in received[p] && !Covers(ranges, n);
      if left == {} then received - {p} else received[p := left]
  }

  class Multiplexer {
    var received: map<PathId, set<nat>>

    /** Numbers recorded on a path and not yet cleaned up. */
    function Recorded(p: PathId): set<nat>
      reads this
    {
      RecordedOn(received, p)
    }

    constructor ()
      ensures received == map[]
    {
      received := map[];
    }

    method RecordReceivedPacket(path: PathId, packetSeq: nat) returns (shouldSendUrgentAck: bool)
      modifies this
      ensures received == Recording(old(received), path, packetSeq)
      ensures Recorded(path) == old(Recorded(path)) + {packetSeq}
      ensures forall q :: q != path ==> Recorded(q) == old(Recorded(q))
      ensures shouldSendUrgentAck <==> |Recorded(path)| >= 16
    {
      if path !in received {
        received := received[path := {}];
      }
      received := received[path := received[path] + {packetSeq}];
      shouldSendUrgentAck := |received[path]| >= ACK_THRESHOLD;
    }

    method GetAckRanges(path: PathId) returns (ranges: seq<AckRange>)
      ensures Describes(ranges, Recorded(path))
    {
      ranges := [];
      if path !in received || |received[path]| == 0 {
        return;
      }
      var seqs := Sorted(received[path]);
      var witness' :| witness' in received[path];
      assert witness' in seqs;
      var start, prev := seqs[0], seqs[0];
      ghost var seen: set<nat> := {seqs[0]};
      for i := 1 to |seqs|
        invariant start <= prev == seqs[i - 1]
        invariant seen == set k: int | 0 <= k < i :: seqs[k]
        invariant Describes(ranges + [AckRange(start, prev)], seen)
      {
        if seqs[i] == prev + 1 {
          ExtendRun(ranges, start, prev, seen);
          prev := seqs[i];
        } else {
          CloseRun(ranges, start, prev, seqs[i], seen);
          ranges := ranges + [AckRange(start, prev)];
          start, prev := seqs[i], seqs[i];
        }
        seen := seen + {seqs[i]};
      }
      ranges := ranges + [AckRange(start, prev)];
      assert seen == received[path];
    }

    method CleanupAckedPackets(path: PathId, ranges: seq<AckRange>)
      modifies this
      ensures received == Cleaned(old(received), path, ranges)
    {
      if path !in received {
        return;
      }
      var mp: set<nat> := received[path];
      ghost var all: set<nat> := mp;
      for k := 0 to |ranges|
        invariant received == old(received)
        invariant forall x: nat :: x in mp <==> x in all && !Covers(ranges[..k], x)
      {
        var r := ranges[k];
        ghost var before: set<nat> := mp;
        var i: nat := r.smallest;
        while i <= r.largest
          invariant received == old(received)
          invariant r.smallest <= i
          invariant if r.smallest <= r.largest then i <= r.largest + 1 else i == r.smallest
          invariant forall x: nat :: x in mp <==> x in before && !(r.smallest <= x < i)
        {
          mp := mp - {i};
          i := i + 1;
        }
        CoversSnoc(ranges, k);
        assert forall x: nat :: x in mp <==> x in before && !(r.smallest <= x <= r.largest);
      }
      assert ranges[..|ranges|] == ranges;
      assert mp == set n | n in received[path] && !Covers(ranges, n);
      if |mp| == 0 {
        received := map p | p in received && p != path :: received[p];
      } else {
        received := received[path := mp];
      }
    }
  }

  lemma CoversSnoc(rs: seq<AckRange>, k: nat)
    requires k < |rs|
    ensures forall x: nat ::
              Covers(rs[..k + 1], x) <==> Covers(rs[..k], x) || rs[k].smallest <= x <= rs[k].largest
  {
    forall x: nat
      ensures Covers(rs[..k + 1], x) <==> Covers(rs[..k], x) || rs[k].smallest <= x <= rs[k].largest
    {
      if Covers(rs[..k], x) {
        var i :| 0 <= i < k && rs[..k][i].smallest <= x <= rs[..k][i].largest;
        assert rs[..k + 1][i] == rs[i];
      }
      if rs[k].smallest <= x <= rs[k].largest {
        assert rs[..k + 1][k] == rs[k];
      }
      if Covers(rs[..k + 1], x) {
        var i :| 0 <= i < k + 1 && rs[..k + 1][i].smallest <= x <= rs[..k + 1][i].largest;
        if i < k {
          assert rs[..k][i] == rs[i];
        }
      }
    }
  }

  /** Cleaning up with the ranges of a set removes exactly that set from its path, and no other path
      changes; numbers recorded in the meantime stay. */
  lemma CleanedExactly(received: map<PathId, set<nat>>, p: PathId, ranges: seq<AckRange>, taken: set<nat>, q: PathId)
    requires Describes(ranges, taken)
    ensures RecordedOn(Cleaned(received, p, ranges), q)
         == if q == p then RecordedOn(received, p) - taken else RecordedOn(received, q)
    ensures q in Cleaned(received, p, ranges) <==>
              q in received && (q == p ==> RecordedOn(received, p) - taken != {})
  {
    if p in received {
      var left := set n | n in received[p] && !Covers(ranges, n);
      assert forall n: nat :: n in left <==> n in received[p] && n !in taken;
      assert left == received[p] - taken;
    }
  }
}
