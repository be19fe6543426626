/** Doubly linked lists threaded through guest records: the head and tail words of
    the list, and a next and a prev word in every node. Thread queues, held-mutex
    lists and the global thread list all have this shape. */
module IntrusiveList {
  import opened Guest

  /** Node i of s: not null, and linked to its neighbours. */
  predicate Node(next: map<Ptr, Ptr>, prev: map<Ptr, Ptr>, s: seq<Ptr>, i: nat)
    requires i < |s|
  {
    && s[i] != 0
    && At(next, s[i]) == (if i + 1 < |s| then s[i + 1] else 0)
    && At(prev, s[i]) == (if i > 0 then s[i - 1] else 0)
  }

  /** The words spell out s, head first. */
  ghost predicate IsList(head: Ptr, tail: Ptr, next: map<Ptr, Ptr>, prev: map<Ptr, Ptr>, s: seq<Ptr>) {
    && head == (if s == [] then 0 else s[0])
    && tail == (if s == [] then 0 else s[|s| - 1])
    && Distinct(s)
    && (forall i :: 0 <= i < |s| ==> Node(next, prev, s, i))
  }

  lemma Frame(head: Ptr, tail: Ptr, next: map<Ptr, Ptr>, prev: map<Ptr, Ptr>,
              next': map<Ptr, Ptr>, prev': map<Ptr, Ptr>, s: seq<Ptr>)
    requires IsList(head, tail, next, prev, s)
    requires forall x | x in s :: At(next', x) == At(next, x) && At(prev', x) == At(prev, x)
    ensures IsList(head, tail, next', prev', s)
  {
    forall i | 0 <= i < |s| ensures Node(next', prev', s, i) {
      assert Node(next, prev, s, i) && s[i] in s;
    }
  }

  /** Writing a word of the null node is skipped by every bridge. */
  function Write(m: map<Ptr, Ptr>, p: Ptr, v: Ptr): map<Ptr, Ptr> {
    if p == 0 then m else m[p := v]
  }

  lemma Append(head: Ptr, tail: Ptr, next: map<Ptr, Ptr>, prev: map<Ptr, Ptr>, s: seq<Ptr>, x: Ptr)
    requires IsList(head, tail, next, prev, s) && x != 0 && x !in s
    ensures IsList(if tail == 0 then x else head, x,
                   Write(next, tail, x)[x := 0], prev[x := tail], s + [x])
  {
    var s', next', prev' := s + [x], Write(next, tail, x)[x := 0], prev[x := tail];
    assert s != [] ==> Node(next, prev, s, |s| - 1) && Node(next, prev, s, 0);
    forall i | 0 <= i < |s'| ensures Node(next', prev', s', i) {
      if i < |s| {
        assert Node(next, prev, s, i) && s[i] in s;
        assert i + 1 < |s| ==> s[i] != tail;
      }
    }
  }

  /** A new node x goes in front of the node at position k. */
  lemma InsertBefore(head: Ptr, tail: Ptr, next: map<Ptr, Ptr>, prev: map<Ptr, Ptr>, s: seq<Ptr>, x: Ptr, k: nat)
    requires IsList(head, tail, next, prev, s) && x != 0 && x !in s && k < |s|
    ensures var p := At(prev, s[k]);
            IsList(if p == 0 then x else head, tail,
                   Write(next[x := s[k]], p, x), prev[s[k] := x][x := p],
                   s[..k] + [x] + s[k..])
  {
    assert Node(next, prev, s, k);
    assert k > 0 ==> Node(next, prev, s, k - 1);
    var p := At(prev, s[k]);
    var s' := s[..k] + [x] + s[k..];
    var next', prev' := Write(next[x := s[k]], p, x), prev[s[k] := x][x := p];
    forall i | 0 <= i < |s'| ensures Node(next', prev', s', i) {
      InsertedNode(next, prev, s, x, k, i);
    }
  }

  lemma InsertedNode(next: map<Ptr, Ptr>, prev: map<Ptr, Ptr>, s: seq<Ptr>, x: Ptr, k: nat, i: nat)
    requires Distinct(s) && x != 0 && x !in s && k < |s| && i <= |s|
    requires forall j :: 0 <= j < |s| ==> Node(next, prev, s, j)
    ensures var p := At(prev, s[k]);
            Node(Write(next[x := s[k]], p, x), prev[s[k] := x][x := p], s[..k] + [x] + s[k..], i)
  {
    var p := At(prev, s[k]);
    assert Node(next, prev, s, k);
    if i < k {
      assert Node(next, prev, s, i);
      assert i != k - 1 ==> s[i] != p;
    } else if i > k {
      assert Node(next, prev, s, i - 1);
      assert s[i - 1] != p;
    }
  }

  /** The node at position k is taken out. */
  lemma Unlink(head: Ptr, tail: Ptr, next: map<Ptr, Ptr>, prev: map<Ptr, Ptr>, s: seq<Ptr>, k: nat)
    requires IsList(head, tail, next, prev, s) && k < |s|
    ensures var n, p := At(next, s[k]), At(prev, s[k]);
            IsList(if p == 0 then n else head, if n == 0 then p else tail,
                   Write(next, p, n), Write(prev, n, p), s[..k] + s[k + 1..])
  {
    assert Node(next, prev, s, k);
    assert k > 0 ==> Node(next, prev, s, k - 1);
    assert k + 1 < |s| ==> Node(next, prev, s, k + 1);
    var n, p := At(next, s[k]), At(prev, s[k]);
    var s' := s[..k] + s[k + 1..];
    var next', prev' := Write(next, p, n), Write(prev, n, p);
    forall i | 0 <= i < |s'| ensures Node(next', prev', s', i) {
      var j := if i < k then i else i + 1;
      assert Node(next, prev, s, j) && s'[i] == s[j];
      assert j != k - 1 ==> s[j] != p;
      assert j != k + 1 ==> s[j] != n;
    }
  }

  /** The head is popped; its own link words are left stale. */
  lemma Pop(head: Ptr, tail: Ptr, next: map<Ptr, Ptr>, prev: map<Ptr, Ptr>, s: seq<Ptr>)
    requires IsList(head, tail, next, prev, s) && s != []
    ensures var n := At(next, head);
            IsList(n, if n == 0 then 0 else tail, next, Write(prev, n, 0), s[1..])
    ensures At(next, head) == 0 <==> |s| == 1
  {
    var n := At(next, head);
    assert Node(next, prev, s, 0);
    assert |s| > 1 ==> Node(next, prev, s, 1);
    forall i | 0 <= i < |s[1..]| ensures Node(next, Write(prev, n, 0), s[1..], i) {
      assert Node(next, prev, s, i + 1);
    }
  }

  // ---------------------------------------------------------------- families of lists

  function ListOf(lists: map<Ptr, seq<Ptr>>, t: Ptr): seq<Ptr> {
    if t in lists then lists[t] else []
  }

  /** A family of lists shares one pair of link words per node: the first and last
      word of every owner spell out its list. */
  ghost predicate Lists(first: map<Ptr, Ptr>, last: map<Ptr, Ptr>, next: map<Ptr, Ptr>, prev: map<Ptr, Ptr>,
                        lists: map<Ptr, seq<Ptr>>) {
    forall t: Ptr :: IsList(At(first, t), At(last, t), next, prev, ListOf(lists, t))
  }

  ghost predicate Nowhere(lists: map<Ptr, seq<Ptr>>, m: Ptr) {
    forall t: Ptr :: m !in ListOf(lists, t)
  }

  ghost predicate OnOneList(lists: map<Ptr, seq<Ptr>>) {
    forall t, u, m: Ptr :: m in ListOf(lists, t) && m in ListOf(lists, u) ==> t == u
  }

  /** Rewriting one owner's list leaves the others, whose nodes are not touched. */
  lemma OneListRewritten(first: map<Ptr, Ptr>, last: map<Ptr, Ptr>, next: map<Ptr, Ptr>, prev: map<Ptr, Ptr>,
                         lists: map<Ptr, seq<Ptr>>, t: Ptr,
                         first': map<Ptr, Ptr>, last': map<Ptr, Ptr>, next': map<Ptr, Ptr>, prev': map<Ptr, Ptr>,
                         s': seq<Ptr>)
    requires Lists(first, last, next, prev, lists)
    requires IsList(At(first', t), At(last', t), next', prev', s')
    requires forall u: Ptr :: u != t ==> At(first', u) == At(first, u) && At(last', u) == At(last, u)
    requires forall u, x: Ptr :: u != t && x in ListOf(lists, u) ==>
               At(next', x) == At(next, x) && At(prev', x) == At(prev, x)
    ensures Lists(first', last', next', prev', lists[t := s'])
  {
    hide IsList;
    var lists' := lists[t := s'];
    forall u: Ptr ensures IsList(At(first', u), At(last', u), next', prev', ListOf(lists', u)) {
      if u != t {
        assert IsList(At(first, u), At(last, u), next, prev, ListOf(lists, u));
        Frame(At(first, u), At(last, u), next, prev, next', prev', ListOf(lists, u));
      }
    }
  }

  lemma LinkLists(first: map<Ptr, Ptr>, last: map<Ptr, Ptr>, next: map<Ptr, Ptr>, prev: map<Ptr, Ptr>,
                  lists: map<Ptr, seq<Ptr>>, t: Ptr, m: Ptr)
    requires Lists(first, last, next, prev, lists) && OnOneList(lists)
    requires m != 0 && Nowhere(lists, m)
    ensures var tail := At(last, t);
            Lists(if tail == 0 then first[t := m] else first, last[t := m],
                  Write(next, tail, m)[m := 0], prev[m := tail], lists[t := ListOf(lists, t) + [m]])
  {
    var tail, s := At(last, t), ListOf(lists, t);
    assert IsList(At(first, t), tail, next, prev, s);
    Append(At(first, t), tail, next, prev, s, m);
    assert tail != 0 ==> tail in s;
    hide IsList, Lists;
    OneListRewritten(first, last, next, prev, lists, t,
                     if tail == 0 then first[t := m] else first, last[t := m],
                     Write(next, tail, m)[m := 0], prev[m := tail], s + [m]);
  }

  /** The head (or tail) word of t's list changes when the node had no neighbour there. */
  function Rehead(ends: map<Ptr, Ptr>, t: Ptr, neighbour: Ptr, v: Ptr): map<Ptr, Ptr> {
    if neighbour == 0 then ends[t := v] else ends
  }

  lemma ReheadAt(ends: map<Ptr, Ptr>, t: Ptr, neighbour: Ptr, v: Ptr)
    ensures At(Rehead(ends, t, neighbour, v), t) == if neighbour == 0 then v else At(ends, t)
    ensures forall u: Ptr :: u != t ==> At(Rehead(ends, t, neighbour, v), u) == At(ends, u)
  {
  }

  /** Nodes of the other lists keep their link words when p and n are relinked. */
  lemma OtherNodesKept(next: map<Ptr, Ptr>, prev: map<Ptr, Ptr>, lists: map<Ptr, seq<Ptr>>, t: Ptr, p: Ptr, n: Ptr)
    requires OnOneList(lists)
    requires p != 0 ==> p in ListOf(lists, t)
    requires n != 0 ==> n in ListOf(lists, t)
    ensures forall u, x: Ptr :: u != t && x in ListOf(lists, u) ==>
              At(Write(next, p, n), x) == At(next, x) && At(Write(prev, n, p), x) == At(prev, x)
  {
  }

  lemma UnlinkList(first: map<Ptr, Ptr>, last: map<Ptr, Ptr>, next: map<Ptr, Ptr>, prev: map<Ptr, Ptr>,
                   s: seq<Ptr>, t: Ptr, m: Ptr)
    requires IsList(At(first, t), At(last, t), next, prev, s) && m in s
    ensures var n, p := At(next, m), At(prev, m);
            && IsList(At(Rehead(first, t, p, n), t), At(Rehead(last, t, n, p), t),
                      Write(next, p, n), Write(prev, n, p), Without(s, m))
            && (p != 0 ==> p in s) && (n != 0 ==> n in s)
  {
    hide Rehead, Write, Without, At;
    var n, p := At(next, m), At(prev, m);
    var k := WithoutElement(s, m);
    Unlink(At(first, t), At(last, t), next, prev, s, k);
    NeighboursListed(At(first, t), At(last, t), next, prev, s, k);
    hide IsList, Distinct;
    ReheadAt(first, t, p, n);
    ReheadAt(last, t, n, p);
  }

  lemma UnlinkLists(first: map<Ptr, Ptr>, last: map<Ptr, Ptr>, next: map<Ptr, Ptr>, prev: map<Ptr, Ptr>,
                    lists: map<Ptr, seq<Ptr>>, t: Ptr, m: Ptr)
    requires Lists(first, last, next, prev, lists) && OnOneList(lists) && m in ListOf(lists, t)
    ensures var n, p := At(next, m), At(prev, m);
            Lists(Rehead(first, t, p, n), Rehead(last, t, n, p),
                  Write(next, p, n), Write(prev, n, p), lists[t := Without(ListOf(lists, t), m)])
  {
    var n, p, s := At(next, m), At(prev, m), ListOf(lists, t);
    assert IsList(At(first, t), At(last, t), next, prev, s);
    hide Lists, OnOneList, Rehead, Write, Without, ListOf, At, IsList;
    UnlinkList(first, last, next, prev, s, t, m);
    OtherNodesKept(next, prev, lists, t, p, n);
    ReheadAt(first, t, p, n);
    ReheadAt(last, t, n, p);
    OneListRewritten(first, last, next, prev, lists, t, Rehead(first, t, p, n), Rehead(last, t, n, p),
                     Write(next, p, n), Write(prev, n, p), Without(s, m));
  }

  lemma NeighboursListed(head: Ptr, tail: Ptr, next: map<Ptr, Ptr>, prev: map<Ptr, Ptr>, s: seq<Ptr>, k: nat)
    requires IsList(head, tail, next, prev, s) && k < |s|
    ensures At(next, s[k]) != 0 ==> At(next, s[k]) in s
    ensures At(prev, s[k]) != 0 ==> At(prev, s[k]) in s
  {
    assert Node(next, prev, s, k);
  }

  /** The links of a node that is on no list are free to change. */
  lemma FreeNode(first: map<Ptr, Ptr>, last: map<Ptr, Ptr>, next: map<Ptr, Ptr>, prev: map<Ptr, Ptr>,
                 lists: map<Ptr, seq<Ptr>>, m: Ptr, n: Ptr, p: Ptr)
    requires Lists(first, last, next, prev, lists) && Nowhere(lists, m)
    ensures Lists(first, last, next[m := n], prev[m := p], lists)
  {
    hide IsList;
    forall u: Ptr ensures IsList(At(first, u), At(last, u), next[m := n], prev[m := p], ListOf(lists, u)) {
      Frame(At(first, u), At(last, u), next, prev, next[m := n], prev[m := p], ListOf(lists, u));
    }
  }

  lemma TakenOut(lists: map<Ptr, seq<Ptr>>, t: Ptr, m: Ptr)
    requires OnOneList(lists) && m in ListOf(lists, t) && Distinct(ListOf(lists, t))
    ensures Nowhere(lists[t := Without(ListOf(lists, t), m)], m)
    ensures OnOneList(lists[t := Without(ListOf(lists, t), m)])
  {
    var s := ListOf(lists, t);
    var k := WithoutElement(s, m);
    OneListStill(lists, t, Without(s, m), 0);
    var lists' := lists[t := Without(s, m)];
    forall u: Ptr ensures m !in ListOf(lists', u) {
      assert u != t ==> ListOf(lists', u) == ListOf(lists, u);
    }
  }

  /** A list may be rearranged and gain a node that is on no list. */
  lemma OneListStill(lists: map<Ptr, seq<Ptr>>, t: Ptr, s: seq<Ptr>, m: Ptr)
    requires OnOneList(lists)
    requires forall x | x in s :: x in ListOf(lists, t) || (x == m && Nowhere(lists, m))
    ensures OnOneList(lists[t := s])
  {
    var lists' := lists[t := s];
    forall u, v, x: Ptr | x in ListOf(lists', u) && x in ListOf(lists', v) ensures u == v {
      assert u != t ==> ListOf(lists', u) == ListOf(lists, u);
      assert v != t ==> ListOf(lists', v) == ListOf(lists, v);
    }
  }

  lemma InsertLists(first: map<Ptr, Ptr>, last: map<Ptr, Ptr>, next: map<Ptr, Ptr>, prev: map<Ptr, Ptr>,
                    lists: map<Ptr, seq<Ptr>>, t: Ptr, m: Ptr, k: nat)
    requires Lists(first, last, next, prev, lists) && OnOneList(lists) && k < |ListOf(lists, t)|
    requires m != 0 && Nowhere(lists, m)
    ensures var s := ListOf(lists, t); var b := s[k]; var p := At(prev, b);
            Lists(Rehead(first, t, p, m), last, Write(next[m := b], p, m), prev[b := m][m := p],
                  lists[t := s[..k] + [m] + s[k..]])
  {
    var s := ListOf(lists, t);
    var b := s[k];
    var p := At(prev, b);
    assert IsList(At(first, t), At(last, t), next, prev, s);
    InsertBefore(At(first, t), At(last, t), next, prev, s, m, k);
    NeighboursListed(At(first, t), At(last, t), next, prev, s, k);
    ReheadAt(first, t, p, m);
    hide IsList, Lists, Rehead;
    OneListRewritten(first, last, next, prev, lists, t, Rehead(first, t, p, m), last,
                     Write(next[m := b], p, m), prev[b := m][m := p], s[..k] + [m] + s[k..]);
  }

  lemma PopLists(first: map<Ptr, Ptr>, last: map<Ptr, Ptr>, next: map<Ptr, Ptr>, prev: map<Ptr, Ptr>,
                 lists: map<Ptr, seq<Ptr>>, t: Ptr)
    requires Lists(first, last, next, prev, lists) && OnOneList(lists) && ListOf(lists, t) != []
    ensures var n := At(next, ListOf(lists, t)[0]);
            && Lists(first[t := n], Rehead(last, t, n, 0), next, Write(prev, n, 0), lists[t := ListOf(lists, t)[1..]])
            && (n == 0 <==> |ListOf(lists, t)| == 1)
  {
    var s := ListOf(lists, t);
    assert IsList(At(first, t), At(last, t), next, prev, s);
    var n := At(next, s[0]);
    Pop(At(first, t), At(last, t), next, prev, s);
    NeighboursListed(At(first, t), At(last, t), next, prev, s, 0);
    ReheadAt(last, t, n, 0);
    hide IsList, Lists, Rehead;
    OneListRewritten(first, last, next, prev, lists, t, first[t := n], Rehead(last, t, n, 0),
                     next, Write(prev, n, 0), s[1..]);
  }

  lemma ClearLists(first: map<Ptr, Ptr>, last: map<Ptr, Ptr>, next: map<Ptr, Ptr>, prev: map<Ptr, Ptr>,
                   lists: map<Ptr, seq<Ptr>>, t: Ptr)
    requires Lists(first, last, next, prev, lists)
    ensures Lists(first[t := 0], last[t := 0], next, prev, lists[t := []])
  {
    var first', last', lists' := first[t := 0], last[t := 0], lists[t := []];
    forall u: Ptr ensures IsList(At(first', u), At(last', u), next, prev, ListOf(lists', u)) {
      assert u != t ==> IsList(At(first, u), At(last, u), next, prev, ListOf(lists, u));
    }
  }

  /** Walking a list: the word read at node k is node k + 1, or null at the end. */
  lemma Walk(head: Ptr, tail: Ptr, next: map<Ptr, Ptr>, prev: map<Ptr, Ptr>, s: seq<Ptr>, k: nat)
    requires IsList(head, tail, next, prev, s) && k < |s|
    ensures s[k] != 0 && At(next, s[k]) == if k + 1 < |s| then s[k + 1] else 0
  {
    assert Node(next, prev, s, k);
  }

  lemma NotNull(head: Ptr, tail: Ptr, next: map<Ptr, Ptr>, prev: map<Ptr, Ptr>, s: seq<Ptr>, x: Ptr)
    requires IsList(head, tail, next, prev, s) && x in s
    ensures x != 0
  {
    var i :| 0 <= i < |s| && s[i] == x;
    assert Node(next, prev, s, i);
  }
}
