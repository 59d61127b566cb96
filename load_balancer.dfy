/** Round-robin choice of the next worker (orchestrator/load_balancer.py).
    Each method of the Python class runs under the balancer's lock and is one atomic step here. */
module LoadBalancer {
  import opened Models
  import opened StrOrder

  /** One `get_next_worker` call on list `ws` with cursor `index`:
      the worker handed out (None on an empty list) and the cursor afterwards. */
  function Step(ws: seq<WorkerId>, index: nat): (r: (Option<WorkerId>, nat))
    ensures ws == [] <==> r.0 == None
    ensures ws == [] ==> r.1 == index
    ensures ws != [] ==> r.0.value in ws && r.1 < |ws|
  {
    if ws == [] then (None, index)
    else
      var i := if index >= |ws| then 0 else index;
      (Some(ws[i]), (i + 1) % |ws|)
  }

  /** The workers handed out by `k` consecutive calls starting from cursor `index`. */
  function Picks(ws: seq<WorkerId>, index: nat, k: nat): (r: seq<WorkerId>)
    requires ws != []
    ensures |r| == k
    decreases k
  {
    if k == 0 then []
    else
      var (w, next) := Step(ws, index);
      [w.value] + Picks(ws, next, k - 1)
  }

  /** The cursor after one call from an in-range cursor: the next position, or 0 after the last. */
  lemma NextCursor(ws: seq<WorkerId>, i: nat)
    requires i < |ws|
    ensures Step(ws, i).1 == if i + 1 < |ws| then i + 1 else 0
  {
    if i + 1 == |ws| {
      assert (i + 1) % |ws| == 0;
    } else {
      assert (i + 1) % |ws| == i + 1;
    }
  }

  /** Calls that do not run past the end of the list hand out a contiguous slice of it. */
  lemma {:induction false} PicksSlice(ws: seq<WorkerId>, i: nat, m: nat)
    requires ws != [] && i < |ws| && i + m <= |ws|
    ensures Picks(ws, i, m) == ws[i..i + m]
    decreases m
  {
    if m > 0 {
      NextCursor(ws, i);
      if i + 1 < |ws| {
        PicksSlice(ws, i + 1, m - 1);
      }
    }
  }

  /** Calls from cursor `i` first hand out the rest of the list, then start over at the head. */
  lemma {:induction false} PicksWrap(ws: seq<WorkerId>, i: nat, k: nat)
    requires i < |ws| && k >= |ws| - i
    ensures Picks(ws, i, k) == ws[i..] + Picks(ws, 0, k - (|ws| - i))
    decreases |ws| - i
  {
    NextCursor(ws, i);
    if i + 1 < |ws| {
      PicksWrap(ws, i + 1, k - 1);
      assert ws[i..] == [ws[i]] + ws[i + 1..];
    }
  }

  /** `|ws|` consecutive calls return the list rotated to start at the cursor. */
  lemma OneRoundIsRotation(ws: seq<WorkerId>, index: nat)
    requires index < |ws|
    ensures Picks(ws, index, |ws|) == ws[index..] + ws[..index]
  {
    PicksWrap(ws, index, |ws|);
    if index > 0 {
      PicksSlice(ws, 0, index);
    }
  }

  /** With the list unchanged, `|ws|` consecutive calls hand out every entry of the list exactly once,
      from any cursor. */
  lemma EachWorkerOncePerRound(ws: seq<WorkerId>, index: nat)
    requires ws != []
    ensures multiset(Picks(ws, index, |ws|)) == multiset(ws)
  {
    var i := if index >= |ws| then 0 else index;
    assert Picks(ws, index, |ws|) == Picks(ws, i, |ws|);
    OneRoundIsRotation(ws, i);
    assert ws == ws[..i] + ws[i..];
  }

  class RoundRobinLoadBalancer {
    var workers: seq<WorkerId>
    var currentIndex: nat

    /** The cursor points into the list, or the list is empty and the cursor is 0. */
    ghost predicate Valid()
      reads this
    {
      currentIndex < |workers| || (workers == [] && currentIndex == 0)
    }

    constructor ()
      ensures workers == [] && currentIndex == 0
      ensures Valid()
    {
      workers := [];
      currentIndex := 0;
    }

    /** Replace the list by the sorted worker ids; reset the cursor if it fell off the end. */
    method UpdateWorkers(ws: seq<WorkerId>)
      modifies this
      ensures workers == Sort(ws)
      ensures Sorted(workers) && multiset(workers) == multiset(ws)
      ensures currentIndex == if old(currentIndex) >= |workers| then 0 else old(currentIndex)
      ensures Valid()
    {
      workers := Sort(ws);
      SortSorted(ws);
      SortPermutes(ws);
      assert |workers| == |ws| by { assert |multiset(workers)| == |multiset(ws)|; }
      if currentIndex >= |workers| {
        currentIndex := 0;
      }
    }

    /** Hand out the worker at the cursor and advance the cursor round the ring. */
    method GetNextWorker() returns (w: Option<WorkerId>)
      modifies this
      ensures workers == old(workers)
      ensures (w, currentIndex) == Step(workers, old(currentIndex))
      ensures w == None <==> workers == []
      ensures w == None ==> currentIndex == old(currentIndex)
      ensures w != None ==> var i := if old(currentIndex) >= |workers| then 0 else old(currentIndex);
                            w == Some(workers[i]) && currentIndex == (i + 1) % |workers|
      ensures old(Valid()) ==> Valid()
    {
      if workers == [] {
        return None;
      }
      if currentIndex >= |workers| {
        currentIndex := 0;
      }
      w := Some(workers[currentIndex]);
      currentIndex := (currentIndex + 1) % |workers|;
    }
  }
}
