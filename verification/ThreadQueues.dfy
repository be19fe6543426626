/** The link words of every OSThreadQueue, and the five ways the bridges move a
    thread through them. Each method is proved against the queue contents. */
module ThreadQueues {
  import opened Guest
  import opened IntrusiveList
  import opened Scheduler

  lemma InsertedAt(xs: seq<Ptr>, priority: map<Ptr, int>, pr: int, t: Ptr, k: nat)
    requires k <= |xs| && forall i :: 0 <= i < k ==> At(priority, xs[i]) <= pr
    requires k < |xs| ==> At(priority, xs[k]) > pr
    ensures SortedInsert(xs, priority, pr, t) == xs[..k] + [t] + xs[k..]
    ensures k == |xs| ==> SortedInsert(xs, priority, pr, t) == xs + [t]
  {
    assert InsertionPoint(xs, priority, pr) == k;
  }

  class QueueWords {
    var head: map<Ptr, Ptr>     // per queue address
    var tail: map<Ptr, Ptr>
    var next: map<Ptr, Ptr>     // per thread
    var prev: map<Ptr, Ptr>
    ghost var q: map<Ptr, seq<Ptr>>

    ghost predicate Linked()
      reads this
    {
      Lists(head, tail, next, prev, q) && OnOneList(q)
    }

    ghost predicate Off(t: Ptr)
      reads this
    {
      t != 0 && Nowhere(q, t)
    }

    /** Zero-filled words: the given queue addresses hold empty queues. */
    constructor (ghost empty: map<Ptr, seq<Ptr>>)
      requires forall a | a in empty :: empty[a] == []
      ensures q == empty && Linked()
    {
      head, tail, next, prev := map[], map[], map[], map[];
      q := empty;
    }

    /** Tail append: LinkThreadOnRunQueue, and the last branch of the sorted insert. */
    method Append(a: Ptr, t: Ptr)
      requires Linked() && Off(t)
      modifies this
      ensures Linked()
      ensures q == old(q)[a := ListOf(old(q), a) + [t]]
    {
      LinkLists(head, tail, next, prev, q, a, t);
      OneListStill(q, a, ListOf(q, a) + [t], t);
      hide Lists, OnOneList;
      var last := At(tail, a);
      if last == 0 {
        head := head[a := t];
      } else {
        next := next[last := t];
      }
      prev := prev[t := last];
      next := next[t := 0];
      tail := tail[a := t];
      q := q[a := ListOf(q, a) + [t]];
    }

    /** The middle branch of the sorted insert, before the thread at position k. */
    method LinkBefore(a: Ptr, t: Ptr, before: Ptr, ghost k: nat)
      requires Linked() && Off(t)
      requires k < |ListOf(q, a)| && before == ListOf(q, a)[k]
      modifies this
      ensures Linked()
      ensures var xs := ListOf(old(q), a); q == old(q)[a := xs[..k] + [t] + xs[k..]]
    {
      InsertLists(head, tail, next, prev, q, a, t, k);
      OneListStill(q, a, ListOf(q, a)[..k] + [t] + ListOf(q, a)[k..], t);
      hide Lists, OnOneList;
      next := next[t := before];
      var p := At(prev, before);
      prev := prev[before := t];
      prev := prev[t := p];
      if p == 0 {
        head := head[a := t];
      } else {
        next := next[p := t];
      }
      q := q[a := ListOf(q, a)[..k] + [t] + ListOf(q, a)[k..]];
    }

    /** The search and the link of InsertThreadIntoQueueByPriority. */
    method InsertByPriority(a: Ptr, t: Ptr, pr: int, priority: map<Ptr, int>)
      requires Linked() && Off(t)
      modifies this
      ensures Linked()
      ensures q == old(q)[a := SortedInsert(ListOf(old(q), a), priority, pr, t)]
    {
      hide Linked, Off, IsList, SortedInsert;
      ghost var xs, k := ListOf(q, a), 0;
      Spelled(a);
      HeadIs(a);
      var before := At(head, a);
      while before != 0
        invariant k <= |xs| && before == if k < |xs| then xs[k] else 0
        invariant forall i :: 0 <= i < k ==> At(priority, xs[i]) <= pr
        modifies {}
        decreases |xs| - k
      {
        if At(priority, before) > pr {
          break;
        }
        Walk(At(head, a), At(tail, a), next, prev, xs, k);
        before := At(next, before);
        k := k + 1;
      }
      if k < |xs| { Walk(At(head, a), At(tail, a), next, prev, xs, k); }
      InsertedAt(xs, priority, pr, t, k);
      if before == 0 {
        Append(a, t);
      } else {
        LinkBefore(a, t, before, k);
      }
    }

    /** RemoveThreadFromQueue and UnlinkWaitQueueNode: any position; the links are cleared. */
    method Unlink(a: Ptr, t: Ptr)
      requires Linked() && t in ListOf(q, a)
      modifies this
      ensures Linked() && Off(t) && At(next, t) == 0 && At(prev, t) == 0
      ensures q == old(q)[a := Without(ListOf(old(q), a), t)]
    {
      UnlinkLists(head, tail, next, prev, q, a, t);
      assert IsList(At(head, a), At(tail, a), next, prev, ListOf(q, a));
      assert t != 0 by { NotNull(At(head, a), At(tail, a), next, prev, ListOf(q, a), t); }
      TakenOut(q, a, t);
      hide Lists, Without, ListOf, OnOneList;
      var n, p := At(next, t), At(prev, t);
      if n == 0 {
        tail := tail[a := p];
      } else {
        prev := prev[n := p];
      }
      if p == 0 {
        head := head[a := n];
      } else {
        next := next[p := n];
      }
      assert tail == Rehead(old(tail), a, n, p) && prev == Write(old(prev), n, p);
      assert head == Rehead(old(head), a, p, n) && next == Write(old(next), p, n);
      hide Rehead, Write;
      q := q[a := Without(ListOf(q, a), t)];
      FreeNode(head, tail, next, prev, q, t, 0, 0);
      next := next[t := 0];
      prev := prev[t := 0];
    }

    /** PopThreadQueueHead: the popped thread's own links stay stale. On an empty queue
        and a thread whose links were cleared it rewrites the zeros. */
    method PopHead(a: Ptr, h: Ptr) returns (n: Ptr)
      requires Linked()
      requires if ListOf(q, a) == [] then At(next, h) == 0 else h == ListOf(q, a)[0]
      modifies this
      ensures Linked()
      ensures var xs := ListOf(old(q), a);
              q == old(q)[a := if xs == [] then [] else xs[1..]] && (n == 0 <==> |xs| <= 1)
    {
      if ListOf(q, a) == [] {
        ClearLists(head, tail, next, prev, q, a);
        OneListStill(q, a, [], 0);
      } else {
        PopLists(head, tail, next, prev, q, a);
        OneListStill(q, a, ListOf(q, a)[1..], 0);
      }
      hide Lists, OnOneList;
      n := At(next, h);
      if n == 0 {
        tail := tail[a := 0];
      } else {
        prev := prev[n := 0];
      }
      head := head[a := n];
      q := q[a := if ListOf(q, a) == [] then [] else ListOf(q, a)[1..]];
    }

    /** A queue's two words are zeroed; whatever was on it is forgotten. */
    method Clear(a: Ptr)
      requires Linked()
      modifies this
      ensures Linked() && q == old(q)[a := []]
    {
      ClearLists(head, tail, next, prev, q, a);
      OneListStill(q, a, [], 0);
      hide Lists, OnOneList;
      head := head[a := 0];
      tail := tail[a := 0];
      q := q[a := []];
    }

    lemma Spelled(a: Ptr)
      requires Linked()
      ensures IsList(At(head, a), At(tail, a), next, prev, ListOf(q, a))
    {
    }

    /** The head word is the first thread, or null. */
    lemma HeadIs(a: Ptr)
      requires Linked()
      ensures At(head, a) == if ListOf(q, a) == [] then 0 else ListOf(q, a)[0]
      ensures ListOf(q, a) != [] ==> At(head, a) != 0
    {
      assert IsList(At(head, a), At(tail, a), next, prev, ListOf(q, a));
      if ListOf(q, a) != [] { Walk(At(head, a), At(tail, a), next, prev, ListOf(q, a), 0); }
    }
  }
}
