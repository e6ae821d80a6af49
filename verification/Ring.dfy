/** The ring buffer of pending slots, read as a sequence. */
module Ring {
  import opened TransferQueue

  /** The pending slots in the order the worker will take them. */
  function Pending(q: Queue): (p: seq<nat>)
    requires Sized(q)
    ensures |p| == q.count
    ensures forall k :: 0 <= k < q.count ==> p[k] == q.ring[(q.head + k) % MAX_TRANSFER_JOBS] < MAX_TRANSFER_JOBS
  {
    seq(q.count, k requires 0 <= k < q.count => q.ring[(q.head + k) % MAX_TRANSFER_JOBS])
  }

  predicate TailFollows(q: Queue) {
    q.tail == (q.head + q.count) % MAX_TRANSFER_JOBS
  }

  /** The ring part of an enqueue. */
  function Push(q: Queue, i: nat): Queue
    requires Sized(q) && q.count < MAX_TRANSFER_JOBS
  {
    q.(ring := q.ring[q.tail := i], tail := (q.tail + 1) % MAX_TRANSFER_JOBS, count := q.count + 1)
  }

  /** The ring part of taking a job. */
  function Pop(q: Queue): Queue
    requires Sized(q) && q.count > 0
  {
    q.(head := (q.head + 1) % MAX_TRANSFER_JOBS, count := q.count - 1)
  }

  lemma PushAppends(q: Queue, i: nat)
    requires Sized(q) && TailFollows(q) && q.count < MAX_TRANSFER_JOBS && i < MAX_TRANSFER_JOBS
    ensures Sized(Push(q, i)) && TailFollows(Push(q, i))
    ensures Pending(Push(q, i)) == Pending(q) + [i]
  {
    var q' := Push(q, i);
    forall k | 0 <= k < q'.count ensures Pending(q')[k] == (Pending(q) + [i])[k] {
      assert k < q.count ==> (q.head + k) % MAX_TRANSFER_JOBS != q.tail;
    }
  }

  lemma PopDropsFirst(q: Queue)
    requires Sized(q) && TailFollows(q) && q.count > 0
    ensures Sized(Pop(q)) && TailFollows(Pop(q))
    ensures q.ring[q.head] == Pending(q)[0]
    ensures Pending(Pop(q)) == Pending(q)[1..]
  {
    var q' := Pop(q);
    forall k | 0 <= k < q'.count ensures Pending(q')[k] == Pending(q)[1..][k] {
      assert (q'.head + k) % MAX_TRANSFER_JOBS == (q.head + (k + 1)) % MAX_TRANSFER_JOBS;
    }
  }

  // ----- counting slots -----

  predicate Distinct(s: seq<nat>) {
    forall i, j :: 0 <= i < j < |s| ==> s[i] != s[j]
  }

  function Elements(s: seq<nat>): (r: set<nat>)
    ensures forall x :: x in r <==> x in s
  {
    set x | x in s
  }

  lemma {:induction false} DistinctSize(s: seq<nat>)
    requires Distinct(s)
    ensures |Elements(s)| == |s|
  {
    if s != [] {
      var n := |s| - 1;
      DistinctSize(s[..n]);
      assert s == s[..n] + [s[n]];
      assert Elements(s) == Elements(s[..n]) + {s[n]};
      assert s[n] !in s[..n];
    }
  }

  function Below(n: nat): (r: set<nat>)
    ensures |r| == n && forall x :: x in r <==> 0 <= x < n
  {
    if n == 0 then {} else Below(n - 1) + {n - 1}
  }

  /** Distinct slots below `n` number at most `n`, and exactly `n` only if none is missing. */
  lemma Pigeonhole(s: seq<nat>, n: nat)
    requires Distinct(s) && forall k :: 0 <= k < |s| ==> s[k] < n
    ensures |s| <= n
    ensures |s| == n ==> forall i :: 0 <= i < n ==> i in s
  {
    var all := Below(n);
    DistinctSize(s);
    var used := Elements(s);
    assert used <= all;
    assert all == used + (all - used);
    if |s| == n {
      assert |all - used| == 0;
      forall i | 0 <= i < n ensures i in s {
        assert i in all;
      }
    }
  }
}
