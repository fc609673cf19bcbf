/** The checker's doubly linked list of calls and returns, edited in place. */
module LinkedEntries {
  import opened Entries

  /** What a node carries: the input of a call, the output of a return, or nothing (the sentinel). */
  datatype Value<I, O> = Nothing | Input(input: I) | Output(output: O)

  /** A node of the list. A call's `mate` is its return; a return and the sentinel have none. */
  class Node<I, O> {
    const value: Value<I, O>
    const mate: Node?<I, O>
    const id: int
    var next: Node?<I, O>
    var prev: Node?<I, O>

    constructor (value: Value<I, O>, mate: Node?<I, O>, id: int)
      ensures this.value == value && this.mate == mate && this.id == id
      ensures next == null && prev == null
    {
      this.value, this.mate, this.id := value, mate, id;
      next, prev := null, null;
    }
  }

  ghost function Successor<I, O>(list: seq<Node<I, O>>, i: nat): Node?<I, O> {
    if i + 1 < |list| then list[i + 1] else null
  }

  ghost function Predecessor<I, O>(list: seq<Node<I, O>>, i: nat): Node?<I, O>
    requires i <= |list|
  {
    if i > 0 then list[i - 1] else null
  }

  /** The nodes of `list` are linked to each other in this order, both ways, and to nothing else. */
  ghost predicate Linked<I, O>(list: seq<Node<I, O>>)
    reads list
  {
    && (forall i, j :: 0 <= i < j < |list| ==> list[i] != list[j])
    && (forall i {:trigger list[i].next} :: 0 <= i < |list| ==> list[i].next == Successor(list, i))
    && (forall i {:trigger list[i].prev} :: 0 <= i < |list| ==> list[i].prev == Predecessor(list, i))
  }

  /** `list` without its element at `p`. */
  ghost function Without<T>(list: seq<T>, p: nat): (r: seq<T>)
    requires p < |list|
    ensures |r| == |list| - 1
    ensures forall i {:trigger r[i]} :: 0 <= i < |r| ==> r[i] == list[if i < p then i else i + 1]
  {
    list[..p] + list[p + 1..]
  }

  /** Once its neighbours are linked to each other, the node at `p` is out of the list. */
  lemma UnlinkedAt<I, O>(list: seq<Node<I, O>>, p: nat)
    requires 0 < p < |list|
    requires forall i, j :: 0 <= i < j < |list| ==> list[i] != list[j]
    requires forall i {:trigger list[i].next} :: 0 <= i < |list| && i != p ==>
               list[i].next == if i == p - 1 then Successor(list, p) else Successor(list, i)
    requires forall i {:trigger list[i].prev} :: 0 <= i < |list| && i != p ==>
               list[i].prev == if i == p + 1 then list[p - 1] else Predecessor(list, i)
    ensures Linked(Without(list, p))
  {
    var r := Without(list, p);
    forall i | 0 <= i < |r|
      ensures r[i].next == Successor(r, i)
      ensures r[i].prev == Predecessor(r, i)
    {
      assert r[i] == list[if i < p then i else i + 1];
    }
  }

  /** Once its neighbours are linked to it, a node that names them is in the list at `p`. */
  lemma RelinkedAt<I, O>(list: seq<Node<I, O>>, p: nat, rest: seq<Node<I, O>>)
    requires p < |list|
    requires rest == Without(list, p)
    requires list[p] !in rest
    requires list[p].prev == Predecessor(list, p) && list[p].next == Successor(list, p)
    requires forall i, j :: 0 <= i < j < |rest| ==> rest[i] != rest[j]
    requires forall i {:trigger rest[i].next} :: 0 <= i < |rest| ==>
               rest[i].next == if i == p - 1 then list[p] else Successor(rest, i)
    requires forall i {:trigger rest[i].prev} :: 0 <= i < |rest| ==>
               rest[i].prev == if i == p then list[p] else Predecessor(rest, i)
    ensures Linked(list)
  {
    forall j | 0 <= j < |list|
      ensures list[j].next == Successor(list, j)
      ensures list[j].prev == Predecessor(list, j)
    {
      if j != p {
        var i := if j < p then j else j - 1;
        assert list[j] == rest[i];
      }
    }
    DistinctWith(list, p, rest);
  }

  lemma DistinctWith<T>(list: seq<T>, p: nat, rest: seq<T>)
    requires p < |list|
    requires rest == Without(list, p)
    requires list[p] !in rest
    requires forall i, j :: 0 <= i < j < |rest| ==> rest[i] != rest[j]
    ensures forall i, j :: 0 <= i < j < |list| ==> list[i] != list[j]
  {
    forall i, j | 0 <= i < j < |list| ensures list[i] != list[j] {
      assert i != p ==> list[i] == rest[if i < p then i else i - 1];
      assert j != p ==> list[j] == rest[if j < p then j else j - 1];
    }
  }

  /** Puts the unlinked node `n` before `mark`, the head of `rest`; without a mark `n` is a list of
      its own. */
  method InsertBefore<I, O>(n: Node<I, O>, mark: Node?<I, O>, ghost front: seq<Node<I, O>>, ghost rest: seq<Node<I, O>>)
    requires n.next == null && n.prev == null
    requires rest == [] ==> front == []
    requires mark == if rest == [] then null else rest[0]
    requires n !in front + rest && Linked(front + rest)
    modifies n, front, rest
    ensures Linked(front + [n] + rest)
  {
    if mark != null {
      ghost var list := front + [n] + rest;
      ghost var p := |front|;
      assert Without(list, p) == front + rest;
      assert (front + rest)[p] == mark && list[p + 1] == mark;
      var beforeMark := mark.prev;
      mark.prev := n;
      n.next := mark;
      if beforeMark != null {
        n.prev := beforeMark;
        beforeMark.next := n;
        assert (front + rest)[p - 1] == beforeMark == list[p - 1];
      }
      RelinkedAt(list, p, front + rest);
    }
  }

  /** `list` without the call at `i` and the return at `j`. */
  ghost function Lifted<T>(list: seq<T>, i: nat, j: nat): (r: seq<T>)
    requires i < j < |list|
    ensures |r| == |list| - 2
  {
    Without(Without(list, i), j - 1)
  }

  /** The stale links of a lifted call and return: they still name the neighbours the two had, the
      return's as they were once the call was out. */
  ghost predicate Undoable<I, O>(list: seq<Node<I, O>>, i: nat, j: nat, call: Node<I, O>, ret: Node<I, O>)
    reads call, ret
  {
    && 0 < i < j < |list|
    && call.prev == list[i - 1]
    && call.next == list[i + 1]
    && ret.prev == Without(list, i)[j - 2]
    && ret.next == Successor(Without(list, i), j - 1)
  }

  /** Takes a call and its return out of the list. */
  method Lift<I, O>(entry: Node<I, O>, ghost list: seq<Node<I, O>>, ghost i: nat, ghost j: nat)
    requires 0 < i < j < |list|
    requires list[i] == entry && entry.mate == list[j]
    requires Linked(list)
    modifies list
    ensures Linked(Lifted(list, i, j))
    ensures Undoable(list, i, j, entry, entry.mate)
  {
    LiftCall(entry, list, i);
    LiftReturn(entry.mate, Without(list, i), j - 1);
  }

  method LiftCall<I, O>(entry: Node<I, O>, ghost list: seq<Node<I, O>>, ghost i: nat)
    requires 0 < i < |list| - 1
    requires list[i] == entry
    requires Linked(list)
    modifies list
    ensures Linked(Without(list, i))
    ensures entry.prev == list[i - 1] && entry.next == list[i + 1]
  {
    entry.prev.next := entry.next;
    entry.next.prev := entry.prev;
    UnlinkedAt(list, i);
  }

  method LiftReturn<I, O>(mate: Node<I, O>, ghost list: seq<Node<I, O>>, ghost j: nat)
    requires 0 < j < |list|
    requires list[j] == mate
    requires Linked(list)
    modifies list
    ensures Linked(Without(list, j))
    ensures mate.prev == list[j - 1] && mate.next == Successor(list, j)
  {
    mate.prev.next := mate.next;
    if mate.next != null {
      mate.next.prev := mate.prev;
    }
    UnlinkedAt(list, j);
  }

  /** Puts a lifted call and its return back where they were. */
  method Unlift<I, O>(entry: Node<I, O>, ghost list: seq<Node<I, O>>, ghost i: nat, ghost j: nat)
    requires 0 < i < j < |list|
    requires list[i] == entry && entry.mate == list[j]
    requires forall x, y :: 0 <= x < y < |list| ==> list[x] != list[y]
    requires Linked(Lifted(list, i, j))
    requires Undoable(list, i, j, entry, entry.mate)
    modifies list
    ensures Linked(list)
  {
    ghost var half := Without(list, i);
    UnliftReturn(entry.mate, half, j - 1);
    UnliftCall(entry, list, i);
  }

  method UnliftReturn<I, O>(mate: Node<I, O>, ghost list: seq<Node<I, O>>, ghost j: nat)
    requires 0 < j < |list|
    requires list[j] == mate && mate !in Without(list, j)
    requires Linked(Without(list, j))
    requires mate.prev == list[j - 1] && mate.next == Successor(list, j)
    modifies Without(list, j)
    ensures Linked(list)
  {
    ghost var rest := Without(list, j);
    assert rest[j - 1] == mate.prev;
    assert mate.next != null ==> rest[j] == mate.next;
    mate.prev.next := mate;
    if mate.next != null {
      mate.next.prev := mate;
    }
    RelinkedAt(list, j, rest);
  }

  method UnliftCall<I, O>(entry: Node<I, O>, ghost list: seq<Node<I, O>>, ghost i: nat)
    requires 0 < i < |list| - 1
    requires list[i] == entry && entry !in Without(list, i)
    requires Linked(Without(list, i))
    requires entry.prev == list[i - 1] && entry.next == list[i + 1]
    modifies Without(list, i)
    ensures Linked(list)
  {
    ghost var rest := Without(list, i);
    assert rest[i - 1] == entry.prev && rest[i] == entry.next;
    entry.prev.next := entry;
    entry.next.prev := entry;
    RelinkedAt(list, i, rest);
  }

  method Length<I, O>(n: Node?<I, O>, ghost list: seq<Node<I, O>>) returns (l: nat)
    requires Linked(list)
    requires n == if list == [] then null else list[0]
    ensures l == |list|
  {
    l := 0;
    var node := n;
    while node != null
      invariant 0 <= l <= |list|
      invariant node == if l < |list| then list[l] else null
      decreases |list| - l
    {
      node := node.next;
      l := l + 1;
    }
  }

  // ---------------------------------------------------------------- lifting last in, first out

  /** One lifted operation: the list it was lifted from and where its call and return stood. */
  datatype Frame<I, O> = Frame(list: seq<Node<I, O>>, i: nat, j: nat) {
    ghost predicate Valid() {
      && 0 < i < j < |list|
      && list[i].mate == list[j]
      && forall x, y :: 0 <= x < y < |list| ==> list[x] != list[y]
    }
  }

  /** Lifting the operations of `frames` one after the other leads to `list`. */
  ghost predicate Reaches<I, O>(frames: seq<Frame<I, O>>, list: seq<Node<I, O>>) {
    frames == [] ||
    (var f := frames[|frames| - 1];
     && f.Valid()
     && list == Lifted(f.list, f.i, f.j)
     && Reaches(frames[..|frames| - 1], f.list))
  }

  /** ... and the removed nodes, which are among `all`, still hold what it takes to put them back. */
  ghost predicate Stacked<I, O>(frames: seq<Frame<I, O>>, list: seq<Node<I, O>>, all: set<Node<I, O>>)
    reads all
  {
    && Reaches(frames, list)
    && forall f :: f in frames ==> Restorable(f, all)
  }

  ghost predicate Restorable<I, O>(f: Frame<I, O>, all: set<Node<I, O>>)
    reads all
  {
    && f.Valid()
    && f.list[f.i] in all && f.list[f.j] in all
    && Undoable(f.list, f.i, f.j, f.list[f.i], f.list[f.j])
  }

  lemma LiftedMember<T>(list: seq<T>, i: nat, j: nat, k: nat)
    requires i < j < |list|
    requires forall x, y :: 0 <= x < y < |list| ==> list[x] != list[y]
    requires k < |list| - 2
    ensures Lifted(list, i, j)[k] in list && Lifted(list, i, j)[k] != list[i] && Lifted(list, i, j)[k] != list[j]
  {
    var half := Without(list, i);
    var k' := if k < j - 1 then k else k + 1;
    assert Lifted(list, i, j)[k] == half[k'];
    assert half[k'] == list[if k' < i then k' else k' + 1];
  }

  /** Removed nodes are not on the list. */
  lemma {:induction false} RemovedNotLinked<I, O>(frames: seq<Frame<I, O>>, list: seq<Node<I, O>>)
    requires Reaches(frames, list)
    ensures forall f :: f in frames ==> f.Valid() && f.list[f.i] !in list && f.list[f.j] !in list
  {
    if frames != [] {
      var init, f := frames[..|frames| - 1], frames[|frames| - 1];
      RemovedNotLinked(init, f.list);
      forall k: nat | k < |list| ensures list[k] in f.list && list[k] != f.list[f.i] && list[k] != f.list[f.j] {
        LiftedMember(f.list, f.i, f.j, k);
      }
      forall g | g in frames ensures g.Valid() && g.list[g.i] !in list && g.list[g.j] !in list {
        assert g in init || g == f;
      }
    }
  }

  lemma StackedSnoc<I, O>(frames: seq<Frame<I, O>>, f: Frame<I, O>, all: set<Node<I, O>>)
    requires f.Valid()
    ensures Stacked(frames + [f], Lifted(f.list, f.i, f.j), all) <==> Stacked(frames, f.list, all) && Restorable(f, all)
  {
    assert (frames + [f])[..|frames|] == frames;
  }

  /** Lifts an operation: one more frame. */
  method LiftTop<I, O>(entry: Node<I, O>, ghost frames: seq<Frame<I, O>>, ghost list: seq<Node<I, O>>, ghost i: nat,
        ghost j: nat, ghost all: set<Node<I, O>>)
    requires 0 < i < j < |list|
    requires list[i] == entry && entry.mate == list[j] && list[i] in all && list[j] in all
    requires Linked(list) && Stacked(frames, list, all)
    modifies list
    ensures Linked(Lifted(list, i, j))
    ensures Stacked(frames + [Frame(list, i, j)], Lifted(list, i, j), all)
  {
    RemovedNotLinked(frames, list);
    Lift(entry, list, i, j);
    StackedSnoc(frames, Frame(list, i, j), all);
  }

  /** Puts back the operation lifted last: the list is again what it was before. */
  method UnliftTop<I, O>(entry: Node<I, O>, ghost frames: seq<Frame<I, O>>, ghost list: seq<Node<I, O>>, ghost i: nat,
        ghost j: nat, ghost all: set<Node<I, O>>)
    requires 0 < i < j < |list| && list[i] == entry
    requires Linked(Lifted(list, i, j))
    requires Stacked(frames + [Frame(list, i, j)], Lifted(list, i, j), all)
    modifies list
    ensures Linked(list)
    ensures Stacked(frames, list, all)
  {
    assert Frame(list, i, j) in frames + [Frame(list, i, j)];
    assert Restorable(Frame(list, i, j), all);
    StackedSnoc(frames, Frame(list, i, j), all);
    RemovedNotLinked(frames, list);
    Unlift(entry, list, i, j);
  }

  // ---------------------------------------------------------------- the list of a history

  /** Where the entries of a history stand: the operation each position belongs to, and the
      positions of each operation's call and return. */
  datatype Layout = Layout(owner: seq<nat>, call: seq<nat>, ret: seq<nat>) {
    ghost predicate Valid() {
      && |call| == |ret|
      && (forall k :: 0 <= k < |owner| ==> owner[k] < |call| && (k == call[owner[k]] || k == ret[owner[k]]))
      && (forall a :: 0 <= a < |call| ==> call[a] < ret[a] < |owner| && owner[call[a]] == owner[ret[a]] == a)
    }
  }

  /** The entry at position `k` is linked while the operations of `done` are lifted. */
  predicate On(l: Layout, done: seq<nat>, k: nat) {
    k < |l.owner| && l.owner[k] !in done
  }

  /** The positions below `k` that are linked while `done` is lifted, in order. */
  ghost function Positions(l: Layout, done: seq<nat>, k: nat): (r: seq<nat>)
    requires k <= |l.owner|
    ensures forall i :: 0 <= i < |r| ==> r[i] < k && On(l, done, r[i])
  {
    if k == 0 then []
    else Positions(l, done, k - 1) + (if On(l, done, k - 1) then [k - 1] else [])
  }

  /** The place of position `p` in that order. */
  ghost function Rank(l: Layout, done: seq<nat>, p: nat): nat
    requires p <= |l.owner|
  {
    |Positions(l, done, p)|
  }

  lemma {:induction false} RankPlaces(l: Layout, done: seq<nat>, p: nat, k: nat)
    requires p < k <= |l.owner|
    requires On(l, done, p)
    ensures Rank(l, done, p) < Rank(l, done, k)
    ensures Positions(l, done, k)[Rank(l, done, p)] == p
  {
    if p < k - 1 {
      RankPlaces(l, done, p, k - 1);
    }
  }

  lemma {:induction false} RankSkips(l: Layout, done: seq<nat>, p: nat, q: nat)
    requires p <= q <= |l.owner|
    requires forall k: nat :: p <= k < q ==> !On(l, done, k)
    ensures Rank(l, done, q) == Rank(l, done, p)
  {
    if p < q {
      RankSkips(l, done, p, q - 1);
    }
  }

  lemma {:induction false} PositionsIncrease(l: Layout, done: seq<nat>, k: nat)
    requires k <= |l.owner|
    ensures forall i, j :: 0 <= i < j < Rank(l, done, k) ==> Positions(l, done, k)[i] < Positions(l, done, k)[j]
  {
    if k > 0 {
      PositionsIncrease(l, done, k - 1);
    }
  }

  lemma {:induction false} WithoutSnoc<T>(s: seq<T>, x: T, p: nat)
    requires p < |s|
    ensures Without(s + [x], p) == Without(s, p) + [x]
  {
    assert (s + [x])[..p] == s[..p];
    assert (s + [x])[p + 1..] == s[p + 1..] + [x];
  }

  lemma WithoutLast<T>(s: seq<T>, x: T)
    ensures Without(s + [x], |s|) == s
  {
  }

  lemma OnWithout(l: Layout, done: seq<nat>, a: nat, k: nat)
    requires l.Valid() && a < |l.call| && a !in done
    requires k < |l.owner|
    ensures On(l, done + [a], k) <==> On(l, done, k) && k != l.call[a] && k != l.ret[a]
    ensures On(l, done, l.call[a]) && On(l, done, l.ret[a])
  {
  }

  lemma {:induction false} PositionsBefore(l: Layout, done: seq<nat>, a: nat, k: nat)
    requires l.Valid() && a < |l.call| && a !in done
    requires k <= l.call[a]
    ensures Positions(l, done + [a], k) == Positions(l, done, k)
  {
    if k > 0 {
      OnWithout(l, done, a, k - 1);
      PositionsBefore(l, done, a, k - 1);
    }
  }

  lemma {:induction false} PositionsBetween(l: Layout, done: seq<nat>, a: nat, k: nat)
    requires l.Valid() && a < |l.call| && a !in done
    requires l.call[a] < k <= l.ret[a]
    ensures Rank(l, done, l.call[a]) < Rank(l, done, k)
    ensures Positions(l, done + [a], k) == Without(Positions(l, done, k), Rank(l, done, l.call[a]))
  {
    OnWithout(l, done, a, k - 1);
    var s := Positions(l, done, k - 1);
    if k - 1 == l.call[a] {
      PositionsBefore(l, done, a, l.call[a]);
      WithoutLast(s, l.call[a]);
    } else {
      PositionsBetween(l, done, a, k - 1);
      WithoutSnoc(s, k - 1, Rank(l, done, l.call[a]));
    }
  }

  /** Lifting `a` removes exactly its two positions. */
  lemma {:induction false} PositionsLifted(l: Layout, done: seq<nat>, a: nat, k: nat)
    requires l.Valid() && a < |l.call| && a !in done
    requires l.ret[a] < k <= |l.owner|
    ensures Rank(l, done, l.call[a]) < Rank(l, done, l.ret[a]) < Rank(l, done, k)
    ensures Positions(l, done + [a], k) ==
            Lifted(Positions(l, done, k), Rank(l, done, l.call[a]), Rank(l, done, l.ret[a]))
  {
    if k - 1 == l.ret[a] {
      OnWithout(l, done, a, k - 1);
      assert Positions(l, done, k) == Positions(l, done, k - 1) + [k - 1];
      PositionsBetween(l, done, a, l.ret[a]);
      LiftedLast(Positions(l, done, k - 1), k - 1, Rank(l, done, l.call[a]));
    } else {
      PositionsLifted(l, done, a, k - 1);
      LiftedNext(l, done, a, k, Rank(l, done, l.call[a]), Rank(l, done, l.ret[a]));
    }
  }

  lemma LiftedNext(l: Layout, done: seq<nat>, a: nat, k: nat, i: nat, j: nat)
    requires l.Valid() && a < |l.call| && a !in done && l.ret[a] < k - 1 < |l.owner|
    requires i < j < Rank(l, done, k - 1)
    requires Positions(l, done + [a], k - 1) == Lifted(Positions(l, done, k - 1), i, j)
    ensures j < Rank(l, done, k) && Positions(l, done + [a], k) == Lifted(Positions(l, done, k), i, j)
  {
    OnWithout(l, done, a, k - 1);
    PositionsNext(l, done, k);
    PositionsNext(l, done + [a], k);
    if On(l, done, k - 1) {
      LiftedSnoc(Positions(l, done, k - 1), k - 1, i, j);
    }
  }

  lemma PositionsNext(l: Layout, done: seq<nat>, k: nat)
    requires 0 < k <= |l.owner|
    ensures Positions(l, done, k) ==
            if On(l, done, k - 1) then Positions(l, done, k - 1) + [k - 1] else Positions(l, done, k - 1)
  {
  }

  lemma LiftedLast<T>(s: seq<T>, x: T, i: nat)
    requires i < |s|
    ensures Lifted(s + [x], i, |s|) == Without(s, i)
  {
    WithoutSnoc(s, x, i);
    WithoutLast(Without(s, i), x);
  }

  lemma LiftedSnoc<T>(s: seq<T>, x: T, i: nat, j: nat)
    requires i < j < |s|
    ensures Lifted(s + [x], i, j) == Lifted(s, i, j) + [x]
  {
    WithoutSnoc(s, x, i);
    WithoutSnoc(Without(s, i), x, j - 1);
  }

  ghost predicate Within(ps: seq<nat>, n: nat) {
    forall i :: 0 <= i < |ps| ==> ps[i] < n
  }

  /** A sentinel followed by the chosen nodes. */
  ghost function Choose<T>(nodes: seq<T>, head: T, ps: seq<nat>): (list: seq<T>)
    requires Within(ps, |nodes|)
    ensures |list| == 1 + |ps|
    ensures list[0] == head
    ensures forall i :: 0 < i < |list| ==> list[i] == nodes[ps[i - 1]]
  {
    [head] + seq(|ps|, i requires 0 <= i < |ps| => nodes[ps[i]])
  }

  lemma ChooseWithout<T>(nodes: seq<T>, head: T, ps: seq<nat>, p: nat)
    requires Within(ps, |nodes|)
    requires p < |ps|
    ensures Within(Without(ps, p), |nodes|)
    ensures Choose(nodes, head, Without(ps, p)) == Without(Choose(nodes, head, ps), 1 + p)
  {
    var s, t := Choose(nodes, head, Without(ps, p)), Without(Choose(nodes, head, ps), 1 + p);
    forall i | 0 <= i < |s| ensures s[i] == t[i] {
      if i > 0 {
        assert Without(ps, p)[i - 1] == ps[if i - 1 < p then i - 1 else i];
      }
    }
  }

  lemma ChooseLifted<T>(nodes: seq<T>, head: T, ps: seq<nat>, i: nat, j: nat)
    requires Within(ps, |nodes|)
    requires i < j < |ps|
    ensures Within(Lifted(ps, i, j), |nodes|)
    ensures Choose(nodes, head, Lifted(ps, i, j)) == Lifted(Choose(nodes, head, ps), 1 + i, 1 + j)
  {
    ChooseWithout(nodes, head, ps, i);
    ChooseWithout(nodes, head, Without(ps, i), j - 1);
  }

  /** `nodes[k]` is the node of position `k`; the sentinel is none of them. */
  ghost predicate Laid<I, O>(l: Layout, nodes: seq<Node<I, O>>, head: Node<I, O>) {
    && l.Valid()
    && |nodes| == |l.owner|
    && head !in nodes
    && (forall i, j :: 0 <= i < j < |nodes| ==> nodes[i] != nodes[j])
    && (forall a :: 0 <= a < |l.call| ==> nodes[l.call[a]].mate == nodes[l.ret[a]])
    && (forall k :: 0 <= k < |nodes| ==> nodes[k].id == l.owner[k])
    && head.id == -1
  }

  /** The sentinel followed by the nodes still linked while `done` is lifted. */
  ghost function ListAt<I, O>(l: Layout, nodes: seq<Node<I, O>>, head: Node<I, O>,
        done: seq<nat>): (list: seq<Node<I, O>>)
    requires |nodes| == |l.owner|
    ensures |list| == 1 + Rank(l, done, |l.owner|)
    ensures list[0] == head
    ensures forall i :: 0 < i < |list| ==> list[i] == nodes[Positions(l, done, |l.owner|)[i - 1]]
  {
    Choose(nodes, head, Positions(l, done, |l.owner|))
  }

  /** A linked node stands at the place of its position. */
  lemma ListPlaces<I, O>(l: Layout, nodes: seq<Node<I, O>>, head: Node<I, O>, done: seq<nat>, p: nat)
    requires |nodes| == |l.owner|
    requires On(l, done, p)
    ensures Rank(l, done, p) < Rank(l, done, |l.owner|)
    ensures ListAt(l, nodes, head, done)[1 + Rank(l, done, p)] == nodes[p]
  {
    RankPlaces(l, done, p, |l.owner|);
  }

  /** The list of the longer stack is the list of the shorter one with a call and its return lifted. */
  lemma ListLifted<I, O>(l: Layout, nodes: seq<Node<I, O>>, head: Node<I, O>, done: seq<nat>, a: nat)
    requires l.Valid() && a < |l.call| && a !in done
    requires |nodes| == |l.owner|
    ensures Rank(l, done, l.call[a]) < Rank(l, done, l.ret[a]) < Rank(l, done, |l.owner|)
    ensures ListAt(l, nodes, head, done + [a]) ==
            Lifted(ListAt(l, nodes, head, done), 1 + Rank(l, done, l.call[a]), 1 + Rank(l, done, l.ret[a]))
  {
    PositionsLifted(l, done, a, |l.owner|);
    ChooseLifted(nodes, head, Positions(l, done, |l.owner|), Rank(l, done, l.call[a]), Rank(l, done, l.ret[a]));
  }

  /** The place of operation `a`'s call, and of its return, while `done` is lifted. */
  ghost function CallPlace(l: Layout, done: seq<nat>, a: nat): nat
    requires l.Valid() && a < |l.call|
  {
    1 + Rank(l, done, l.call[a])
  }

  ghost function ReturnPlace(l: Layout, done: seq<nat>, a: nat): nat
    requires l.Valid() && a < |l.call|
  {
    1 + Rank(l, done, l.ret[a])
  }

  /** Where the two nodes of `a` stand while `done` is lifted, and what lifting `a` leaves. */
  lemma PlacesOf<I, O>(l: Layout, nodes: seq<Node<I, O>>, head: Node<I, O>, done: seq<nat>, a: nat)
    requires Laid(l, nodes, head)
    requires a < |l.call| && a !in done
    ensures 0 < CallPlace(l, done, a) < ReturnPlace(l, done, a) < |ListAt(l, nodes, head, done)|
    ensures ListAt(l, nodes, head, done)[CallPlace(l, done, a)] == nodes[l.call[a]]
    ensures ListAt(l, nodes, head, done)[ReturnPlace(l, done, a)] == nodes[l.ret[a]]
    ensures ListAt(l, nodes, head, done + [a]) ==
            Lifted(ListAt(l, nodes, head, done), CallPlace(l, done, a), ReturnPlace(l, done, a))
  {
    ListLifted(l, nodes, head, done, a);
    OnWithout(l, done, a, l.ret[a]);
    ListPlaces(l, nodes, head, done, l.call[a]);
    ListPlaces(l, nodes, head, done, l.ret[a]);
  }

  /** The frames of a stack of operations. */
  ghost function FramesOf<I, O>(l: Layout, nodes: seq<Node<I, O>>, head: Node<I, O>, stack: seq<nat>): seq<Frame<I, O>>
    requires Laid(l, nodes, head)
    requires forall k :: 0 <= k < |stack| ==> stack[k] < |l.call|
  {
    if stack == [] then []
    else
      var done, a := stack[..|stack| - 1], stack[|stack| - 1];
      FramesOf(l, nodes, head, done) + [Frame(ListAt(l, nodes, head, done), CallPlace(l, done, a),
          ReturnPlace(l, done, a))]
  }

  // ---------------------------------------------------------------- building the list

  /** `l` is the layout of the history `h`. */
  ghost predicate Describes<I, O>(l: Layout, h: seq<Entry<I, O>>) {
    && l.Valid()
    && |l.owner| == |h|
    && (forall k :: 0 <= k < |h| ==> l.owner[k] == h[k].id)
    && (forall a :: 0 <= a < |l.call| ==> h[l.call[a]].CallEntry? && h[l.ret[a]].ReturnEntry?)
  }

  ghost function LayoutOf<I, O>(h: seq<Entry<I, O>>): (l: Layout)
    requires WellFormed(h)
    ensures |l.call| == |l.ret| == |h| / 2
    ensures forall a :: 0 <= a < |h| / 2 ==> l.call[a] == CallAt(h, a) && l.ret[a] == ReturnAt(h, a)
    ensures Describes(l, h)
  {
    var l := Layout(seq(|h|, k requires 0 <= k < |h| => h[k].id),
                    seq(|h| / 2, a requires 0 <= a < |h| / 2 => CallAt(h, a)),
                    seq(|h| / 2, a requires 0 <= a < |h| / 2 => ReturnAt(h, a)));
    assert forall k :: 0 <= k < |h| ==> IsCall(h, k, h[k].id) || IsReturn(h, k, h[k].id);
    l
  }

  /** `node` carries entry `e`; a call's mate is `ret`. */
  ghost predicate Carries<I, O>(node: Node<I, O>, e: Entry<I, O>, ret: Node?<I, O>) {
    && node.id == e.id
    && match e
       case CallEntry(x, _, _, _) => node.value == Input(x) && node.mate == ret
       case ReturnEntry(y, _, _, _) => node.value == Output(y) && node.mate == null
  }

  /** The node of position `p`, when `nodes` starts at position `i`. */
  ghost function NodeAt<I, O>(i: nat, nodes: seq<Node<I, O>>, p: nat): Node?<I, O> {
    if i <= p < i + |nodes| then nodes[p - i] else null
  }

  /** `nodes` are the nodes of the entries from position `i` on. */
  ghost predicate Built<I, O>(l: Layout, h: seq<Entry<I, O>>, i: nat, nodes: seq<Node<I, O>>) {
    && Describes(l, h)
    && i + |nodes| == |h|
    && forall k {:trigger h[k]} :: i <= k < |h| ==> Carries(nodes[k - i], h[k], NodeAt(i, nodes, l.ret[l.owner[k]]))
  }

  /** The returns from position `i` on can be looked up by id. */
  ghost predicate Indexed<I, O>(l: Layout, i: nat, nodes: seq<Node<I, O>>, mates: map<int, Node<I, O>>) {
    forall a :: 0 <= a < |l.ret| && i <= l.ret[a] ==> a in mates && mates[a] == NodeAt(i, nodes, l.ret[a])
  }

  lemma BuiltCons<I, O>(l: Layout, h: seq<Entry<I, O>>, i: nat, nodes: seq<Node<I, O>>, n: Node<I, O>)
    requires Built(l, h, i + 1, nodes)
    requires Carries(n, h[i], NodeAt(i + 1, nodes, l.ret[l.owner[i]]))
    ensures Built(l, h, i, [n] + nodes)
  {
    var more := [n] + nodes;
    forall k | i <= k < |h| ensures Carries(more[k - i], h[k], NodeAt(i, more, l.ret[l.owner[k]])) {
      assert k > i ==> more[k - i] == nodes[k - (i + 1)];
      assert l.ret[l.owner[k]] > i ==> NodeAt(i, more, l.ret[l.owner[k]]) == NodeAt(i + 1, nodes, l.ret[l.owner[k]]);
    }
  }

  method MakeLinkedEntries<I, O>(entries: seq<Entry<I, O>>, ghost l: Layout)
    returns (root: Node?<I, O>, ghost nodes: seq<Node<I, O>>)
    requires Describes(l, entries)
    ensures forall k :: 0 <= k < |nodes| ==> fresh(nodes[k])
    ensures Linked(nodes)
    ensures root == if nodes == [] then null else nodes[0]
    ensures Built(l, entries, 0, nodes)
  {
    root, nodes := null, [];
    var mates: map<int, Node<I, O>> := map[];
    var i := |entries|;
    while i > 0
      invariant 0 <= i <= |entries|
      invariant forall k :: 0 <= k < |nodes| ==> fresh(nodes[k])
      invariant Linked(nodes)
      invariant root == if nodes == [] then null else nodes[0]
      invariant Built(l, entries, i, nodes)
      invariant Indexed(l, i, nodes, mates)
    {
      i := i - 1;
      root, mates := Prepend(entries, i, root, mates, l, nodes);
      nodes := [root] + nodes;
    }
  }

  /** One turn of the loop: the node of entry `i` goes in front. A return is entered in the index,
      a call looks its return up. */
  method Prepend<I, O>(entries: seq<Entry<I, O>>, i: nat, root: Node?<I, O>, mates: map<int, Node<I, O>>,
                       ghost l: Layout, ghost nodes: seq<Node<I, O>>)
    returns (entry: Node<I, O>, newMates: map<int, Node<I, O>>)
    requires Linked(nodes)
    requires root == if nodes == [] then null else nodes[0]
    requires Built(l, entries, i + 1, nodes)
    requires Indexed(l, i + 1, nodes, mates)
    modifies nodes
    ensures fresh(entry)
    ensures Linked([entry] + nodes)
    ensures Built(l, entries, i, [entry] + nodes)
    ensures Indexed(l, i, [entry] + nodes, newMates)
  {
    entry, newMates := MakeNode(entries, i, mates, l, nodes);
    assert [] + nodes == nodes && [] + [entry] + nodes == [entry] + nodes;
    InsertBefore(entry, root, [], nodes);
  }

  method MakeNode<I, O>(entries: seq<Entry<I, O>>, i: nat, mates: map<int, Node<I, O>>, ghost l: Layout,
        ghost nodes: seq<Node<I, O>>)
    returns (entry: Node<I, O>, newMates: map<int, Node<I, O>>)
    requires Built(l, entries, i + 1, nodes)
    requires Indexed(l, i + 1, nodes, mates)
    ensures fresh(entry) && entry.next == null && entry.prev == null
    ensures Built(l, entries, i, [entry] + nodes)
    ensures Indexed(l, i, [entry] + nodes, newMates)
  {
    var elem := entries[i];
    assert l.owner[i] == elem.id;
    if elem.ReturnEntry? {
      entry := new Node(Output(elem.output), null, elem.id);
      newMates := mates[elem.id := entry];
    } else {
      entry := new Node(Input(elem.input), if elem.id in mates then mates[elem.id] else null, elem.id);
      newMates := mates;
    }
    BuiltCons(l, entries, i, nodes, entry);
    forall a | 0 <= a < |l.ret| && i <= l.ret[a]
      ensures a in newMates && newMates[a] == NodeAt(i, [entry] + nodes, l.ret[a])
    {
      assert l.ret[a] > i ==> NodeAt(i, [entry] + nodes, l.ret[a]) == NodeAt(i + 1, nodes, l.ret[a]);
    }
  }

  lemma BuiltLaid<I, O>(l: Layout, h: seq<Entry<I, O>>, nodes: seq<Node<I, O>>, head: Node<I, O>)
    requires Built(l, h, 0, nodes)
    requires head !in nodes && head.id == -1
    requires forall i, j :: 0 <= i < j < |nodes| ==> nodes[i] != nodes[j]
    ensures Laid(l, nodes, head)
  {
    forall k | 0 <= k < |nodes| ensures nodes[k].id == l.owner[k] {
      assert Carries(nodes[k - 0], h[k], NodeAt(0, nodes, l.ret[l.owner[k]]));
    }
    forall a | 0 <= a < |l.call| ensures nodes[l.call[a]].mate == nodes[l.ret[a]] {
      var k := l.call[a];
      assert Carries(nodes[k - 0], h[k], NodeAt(0, nodes, l.ret[l.owner[k]]));
    }
  }

  /** With nothing lifted the list is the sentinel followed by every node. */
  lemma {:induction false} NothingLifted(l: Layout, k: nat)
    requires k <= |l.owner|
    ensures Rank(l, [], k) == k
    ensures forall i :: 0 <= i < k ==> Positions(l, [], k)[i] == i
  {
    if k > 0 {
      NothingLifted(l, k - 1);
    }
  }

  lemma InitialList<I, O>(l: Layout, nodes: seq<Node<I, O>>, head: Node<I, O>)
    requires |nodes| == |l.owner|
    ensures ListAt(l, nodes, head, []) == [head] + nodes
  {
    NothingLifted(l, |l.owner|);
  }
}
