/** Ordering component sections by what they provide and require (_sort_by_dependencies in pylib/components.py). */
module Dependencies {

  datatype Node = Node(gives: set<string>, needs: set<string>)

  /** Everything the nodes provide. */
  function Provided(nodes: seq<Node>): set<string> {
    set n, p | n in nodes && p in n.gives :: p
  }

  function Needed(nodes: seq<Node>): set<string> {
    set n, p | n in nodes && p in n.needs :: p
  }

  /** Every node comes after nodes that together provide what it needs. */
  ghost predicate InOrder(nodes: seq<Node>) {
    forall k: nat | k < |nodes| :: nodes[k].needs <= Provided(nodes[..k])
  }

  ghost predicate IsOrderOf(order: seq<Node>, nodes: seq<Node>) {
    multiset(order) == multiset(nodes) && InOrder(order)
  }

  ghost predicate Orderable(nodes: seq<Node>) {
    exists order :: IsOrderOf(order, nodes)
  }

  ghost predicate AllProvided(nodes: seq<Node>) {
    Needed(nodes) <= Provided(nodes)
  }

  lemma ProvidedByMore(nodes: seq<Node>, n: Node)
    ensures Provided(nodes + [n]) == Provided(nodes) + n.gives
  {
  }

  lemma SameMembers(a: seq<Node>, b: seq<Node>)
    requires multiset(a) == multiset(b)
    ensures forall n :: n in a <==> n in b
  {
    forall n ensures n in a <==> n in b { assert n in multiset(a) <==> n in multiset(b); }
  }

  lemma AppendInOrder(done: seq<Node>, n: Node)
    requires InOrder(done) && n.needs <= Provided(done)
    ensures InOrder(done + [n])
  {
    forall k: nat | k < |done + [n]| ensures (done + [n])[k].needs <= Provided((done + [n])[..k]) {
      if k < |done| { assert (done + [n])[..k] == done[..k]; } else { assert (done + [n])[..k] == done; }
    }
  }

  /** In an ordered list every need is provided. */
  lemma InOrderProvides(nodes: seq<Node>)
    requires InOrder(nodes)
    ensures AllProvided(nodes)
  {
    forall p | p in Needed(nodes) ensures p in Provided(nodes) {
      var k: nat :| k < |nodes| && p in nodes[k].needs;
      assert p in Provided(nodes[..k]);
    }
  }

  /** The search is stuck: what is done is in order and nothing that is left can follow. */
  ghost predicate Stuck(nodes: seq<Node>, done: seq<Node>, todo: seq<Node>) {
    && multiset(done) + multiset(todo) == multiset(nodes)
    && todo != []
    && forall n | n in todo :: !(n.needs <= Provided(done))
  }

  /** Any prefix of any order provides no more than what is done. */
  lemma {:induction false} PrefixProvidesNoMore(
      nodes: seq<Node>, done: seq<Node>, todo: seq<Node>, order: seq<Node>, k: nat)
    requires Stuck(nodes, done, todo) && IsOrderOf(order, nodes) && k <= |order|
    ensures Provided(order[..k]) <= Provided(done)
  {
    if k > 0 {
      PrefixProvidesNoMore(nodes, done, todo, order, k - 1);
      var n := order[k - 1];
      assert order[..k] == order[..k - 1] + [n];
      ProvidedByMore(order[..k - 1], n);
      assert n in multiset(order) && n !in todo;
      assert n in multiset(done) + multiset(todo);
    }
  }

  /** When the search is stuck, there is no order. */
  lemma StuckMeansNoOrder(nodes: seq<Node>, done: seq<Node>, todo: seq<Node>)
    requires Stuck(nodes, done, todo)
    ensures !Orderable(nodes)
  {
    forall order ensures !IsOrderOf(order, nodes) {
      if IsOrderOf(order, nodes) {
        var n := todo[0];
        assert n in multiset(done) + multiset(todo);
        assert n in multiset(order);
        var k: nat :| k < |order| && order[k] == n;
        PrefixProvidesNoMore(nodes, done, todo, order, k);
        assert false;
      }
    }
  }

  /** The tolerant check looks only at what is left. */
  lemma LeftoversDecide(nodes: seq<Node>, done: seq<Node>, todo: seq<Node>)
    requires multiset(done) + multiset(todo) == multiset(nodes) && InOrder(done)
    ensures Needed(todo) <= Provided(done) + Provided(todo) <==> AllProvided(nodes)
  {
    assert multiset(done + todo) == multiset(nodes);
    SameMembers(done + todo, nodes);
    InOrderProvides(done);
    assert Provided(nodes) == Provided(done) + Provided(todo);
    assert Needed(nodes) == Needed(done) + Needed(todo);
  }

  lemma OrderedMeansOrderable(sorted: seq<Node>, nodes: seq<Node>)
    requires multiset(sorted) == multiset(nodes) && InOrder(sorted)
    ensures Orderable(nodes) && AllProvided(nodes)
  {
    assert IsOrderOf(sorted, nodes);
    InOrderProvides(sorted);
    SameMembers(sorted, nodes);
    assert Provided(nodes) == Provided(sorted) && Needed(nodes) == Needed(sorted);
  }

  lemma StuckResult(nodes: seq<Node>, done: seq<Node>, todo: seq<Node>)
    requires Stuck(nodes, done, todo) && InOrder(done)
    ensures !Orderable(nodes) && multiset(done + todo) == multiset(nodes) && !InOrder(done + todo)
    ensures Needed(todo) <= Provided(done) + Provided(todo) <==> AllProvided(nodes)
  {
    StuckMeansNoOrder(nodes, done, todo);
    LeftoversDecide(nodes, done, todo);
    assert !IsOrderOf(done + todo, nodes);
  }

  /** Removing a node from what is left. */
  lemma Removed(todo: seq<Node>, idx: nat)
    requires idx < |todo|
    ensures multiset(todo[..idx] + todo[idx + 1..]) + multiset{todo[idx]} == multiset(todo)
  {
    assert todo == todo[..idx] + [todo[idx]] + todo[idx + 1..];
  }

  /** In an ordered list the node after those already taken from its front is ready. */
  lemma FrontIsReady(nodes: seq<Node>, done: seq<Node>, todo: seq<Node>)
    requires InOrder(nodes) && done + todo == nodes && todo != []
    ensures todo[0].needs <= Provided(done)
    ensures done + [todo[0]] + (todo[..0] + todo[1..]) == nodes
  {
    assert nodes[|done|] == todo[0] && nodes[..|done|] == done;
    assert todo == [todo[0]] + todo[1..];
  }

  /** Strict mode succeeds if and only if some order of the nodes puts every requirement before its users, and tolerant
      mode if and only if every requirement is provided by some node.  A successful result is a permutation of the
      nodes, in such an order whenever there is one, and the nodes as they were if they are in such an order. */
  method SortByDependencies(nodes: seq<Node>, ignoreCyclicDependencies: bool)
    returns (ok: bool, sorted: seq<Node>)
    ensures ok <==> if ignoreCyclicDependencies then AllProvided(nodes) else Orderable(nodes)
    ensures ok ==> multiset(sorted) == multiset(nodes)
    ensures ok ==> (InOrder(sorted) <==> Orderable(nodes))
    ensures InOrder(nodes) ==> sorted == nodes
  {
    var todo, provided := nodes, {};
    sorted := [];
    assert Provided(sorted) == {} && InOrder(sorted);
    hide Provided, Needed, InOrder, AllProvided, Orderable;
    while todo != []
      invariant multiset(sorted) + multiset(todo) == multiset(nodes)
      invariant InOrder(sorted) && provided == Provided(sorted)
      invariant InOrder(nodes) ==> sorted + todo == nodes
      decreases |todo|
    {
      if InOrder(nodes) { FrontIsReady(nodes, sorted, todo); }
      var idx := 0;
      while idx < |todo| && !(todo[idx].needs <= provided)
        invariant 0 <= idx <= |todo|
        invariant forall k | 0 <= k < idx :: !(todo[k].needs <= provided)
      {
        idx := idx + 1;
      }
      if idx < |todo| {
        var node := todo[idx];
        Removed(todo, idx);
        ProvidedByMore(sorted, node);
        AppendInOrder(sorted, node);
        todo := todo[..idx] + todo[idx + 1..];
        provided := provided + node.gives;
        sorted := sorted + [node];
      } else {
        StuckResult(nodes, sorted, todo);
        ok := ignoreCyclicDependencies && Needed(todo) <= provided + Provided(todo);
        if ok {
          sorted := sorted + todo;
        }
        return;
      }
    }
    OrderedMeansOrderable(sorted, nodes);
    ok := true;
  }
}
