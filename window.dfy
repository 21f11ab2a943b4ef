/**
 * The sliding window of a channel's buffer: the timestamps that survive
 * a steady-phase tick are exactly those strictly later than the cutoff
 * `now - 60`, kept in their arrival order.
 */
module Window {

  /** Length of the window in seconds (the page's counter period). */
  const Period: real := 60.0

  /** The buffer filtered to the timestamps strictly greater than `cutoff`. */
  function Prune(buf: seq<real>, cutoff: real): (r: seq<real>)
    ensures |r| <= |buf|
    ensures forall i :: 0 <= i < |r| ==> r[i] > cutoff
    ensures forall x :: x in r ==> x in buf
  {
    if buf == [] then []
    else (if buf[0] > cutoff then [buf[0]] else []) + Prune(buf[1..], cutoff)
  }

  /** `a` can be obtained from `b` by deleting entries: `a` keeps the
      relative order of the entries of `b` it retains. */
  predicate IsSubsequence(a: seq<real>, b: seq<real>)
    decreases |b|
  {
    if a == [] then true
    else if b == [] then false
    else if a[0] == b[0] then IsSubsequence(a[1..], b[1..])
    else IsSubsequence(a, b[1..])
  }

  /** Pruning removes every copy of a timestamp at or before the cutoff and
      keeps every copy of a later one: the multiset of survivors is exactly
      the later timestamps of the buffer. */
  lemma {:induction false} PruneKeepsExactlyLater(buf: seq<real>, cutoff: real)
    ensures forall x :: multiset(Prune(buf, cutoff))[x] == if x > cutoff then multiset(buf)[x] else 0
  {
    if buf != [] {
      PruneKeepsExactlyLater(buf[1..], cutoff);
      assert buf == [buf[0]] + buf[1..];
    }
  }

  /** Pruning preserves the arrival order of the survivors. */
  lemma {:induction false} PruneIsSubsequence(buf: seq<real>, cutoff: real)
    ensures IsSubsequence(Prune(buf, cutoff), buf)
  {
    if buf != [] {
      PruneIsSubsequence(buf[1..], cutoff);
      var rest := Prune(buf[1..], cutoff);
      if buf[0] > cutoff {
        assert Prune(buf, cutoff) == [buf[0]] + rest;
        assert ([buf[0]] + rest)[1..] == rest;
      } else {
        assert Prune(buf, cutoff) == rest;
        if rest != [] {
          assert rest[0] > cutoff;
        }
      }
    }
  }

  /** Filtering distributes over concatenation: an appended suffix is
      pruned independently of what came before it. */
  lemma {:induction false} PruneConcat(a: seq<real>, b: seq<real>, cutoff: real)
    ensures Prune(a + b, cutoff) == Prune(a, cutoff) + Prune(b, cutoff)
  {
    if a != [] {
      PruneConcat(a[1..], b, cutoff);
      assert (a + b)[1..] == a[1..] + b;
    } else {
      assert a + b == b;
    }
  }

  /** A buffer whose timestamps are all later than the cutoff is left as is. */
  lemma {:induction false} PruneKeepsRecent(buf: seq<real>, cutoff: real)
    requires forall i :: 0 <= i < |buf| ==> buf[i] > cutoff
    ensures Prune(buf, cutoff) == buf
  {
    if buf != [] {
      PruneKeepsRecent(buf[1..], cutoff);
      assert buf == [buf[0]] + buf[1..];
    }
  }

  /** Pruning again with the same cutoff changes nothing. */
  lemma {:induction false} PruneIdempotent(buf: seq<real>, cutoff: real)
    ensures Prune(Prune(buf, cutoff), cutoff) == Prune(buf, cutoff)
  {
    PruneKeepsRecent(Prune(buf, cutoff), cutoff);
  }

  /** Pruning at an earlier cutoff and then at a later one is the same as
      pruning once at the later one: successive ticks slide the window. */
  lemma {:induction false} PruneSlides(buf: seq<real>, earlier: real, later: real)
    requires earlier <= later
    ensures Prune(Prune(buf, earlier), later) == Prune(buf, later)
  {
    if buf != [] {
      PruneSlides(buf[1..], earlier, later);
      var head := if buf[0] > earlier then [buf[0]] else [];
      PruneConcat(head, Prune(buf[1..], earlier), later);
      if buf[0] > earlier {
        assert Prune(head, later) == (if buf[0] > later then [buf[0]] else []) by {
          assert head[1..] == [];
        }
      }
    }
  }
}
