/** Greedy numbering of signals (assign_signal_vals in components/rigel.py). */
module SignalNumbering {
  import opened Ids

  function Signals(sigSets: seq<seq<string>>): set<string> {
    set ss, x | ss in sigSets && x in ss :: x
  }

  predicate Share(sigSets: seq<seq<string>>, x: string, y: string) {
    exists ss :: ss in sigSets && x in ss && y in ss
  }

  /** The other signals that share a set with x. */
  function Neighbours(sigSets: seq<seq<string>>, x: string): set<string> {
    set y | y in Signals(sigSets) && y != x && Share(sigSets, x, y)
  }

  /** The values of the signals in names that have one. */
  function Values(vals: map<string, nat>, names: set<string>): set<nat> {
    set x | x in names && x in vals :: vals[x]
  }

  predicate NoDuplicates(s: seq<string>) {
    forall i, j | 0 <= i < j < |s| :: s[i] != s[j]
  }

  function Members(s: seq<string>): set<string> {
    set x | x in s
  }

  // ----- Counting ----------------------------------------------------------------------------------------------

  /** There are no more values than names, and as many exactly when no two names share a value. */
  lemma {:induction false} CountValues(vals: map<string, nat>, names: set<string>)
    ensures |Values(vals, names)| <= |names|
    ensures names <= vals.Keys ==>
              (|Values(vals, names)| == |names|
               <==> forall x, y | x in names && y in names && x != y :: vals[x] != vals[y])
    decreases |names|
  {
    if names == {} {
      assert Values(vals, names) == {};
    } else {
      var x :| x in names;
      var rest := names - {x};
      CountValues(vals, rest);
      if x in vals {
        assert Values(vals, names) == Values(vals, rest) + {vals[x]};
        if vals[x] in Values(vals, rest) {
          assert Values(vals, names) == Values(vals, rest);
        }
      } else {
        assert Values(vals, names) == Values(vals, rest);
      }
    }
  }

  lemma {:induction false} CountMembers(s: seq<string>)
    ensures |Members(s)| <= |s|
    ensures |Members(s)| == |s| <==> NoDuplicates(s)
  {
    if s == [] {
      assert Members(s) == {};
    } else {
      var n := |s| - 1;
      CountMembers(s[..n]);
      assert s == s[..n] + [s[n]];
      assert Members(s) == Members(s[..n]) + {s[n]};
      if s[n] in Members(s[..n]) {
        var i :| 0 <= i < n && s[i] == s[n];
        assert Members(s) == Members(s[..n]);
      }
    }
  }

  /** Pigeonhole: one of the first |used| + 1 numbers is not used. */
  lemma LowestUnused(n: nat, used: set<nat>)
    requires |used| < n
    ensures Below(n) - used != {} && Lowest(Below(n) - used) <= |used|
  {
    SubsetCard(Below(|used| + 1), used);
    if Below(|used| + 1) <= used {
      assert false;
    }
    var v :| v in Below(|used| + 1) && v !in used;
    assert v in Below(n) - used;
  }

  lemma {:induction false} SubsetCard<T>(a: set<T>, b: set<T>)
    ensures a <= b ==> |a| <= |b|
    decreases a
  {
    if a != {} {
      var x :| x in a;
      SubsetCard(a - {x}, b - {x});
    }
  }

  // ----- The algorithm -----------------------------------------------------------------------------------------

  predicate Distinct(sigSets: seq<seq<string>>, vals: map<string, nat>) {
    forall x, y | x in vals && y in vals && x != y && Share(sigSets, x, y) :: vals[x] != vals[y]
  }

  predicate Small(sigSets: seq<seq<string>>, vals: map<string, nat>) {
    forall x | x in vals :: vals[x] <= |Neighbours(sigSets, x)| && vals[x] < |Signals(sigSets)|
  }

  /** No value could be lower: all lower ones belong to neighbours. */
  ghost predicate Tight(sigSets: seq<seq<string>>, vals: map<string, nat>) {
    forall x, v: nat | x in vals && v < vals[x] :: v in Values(vals, Neighbours(sigSets, x))
  }

  /** Taking the lowest value that no neighbour has keeps the values tight. */
  lemma NextIsTight(sigSets: seq<seq<string>>, vals: map<string, nat>, x: string, v: nat)
    requires x !in vals && Tight(sigSets, vals)
    requires IsLowest(Below(|Signals(sigSets)|) - Values(vals, Neighbours(sigSets, x)), v)
    ensures Tight(sigSets, vals[x := v])
  {
    hide Neighbours, Signals;
    var more := vals[x := v];
    forall y, w: nat | y in more && w < more[y] ensures w in Values(more, Neighbours(sigSets, y)) {
      var below := Below(|Signals(sigSets)|);
      assert y == x ==> w in below && w !in below - Values(vals, Neighbours(sigSets, x));
      assert w in Values(vals, Neighbours(sigSets, y));
      var z :| z in Neighbours(sigSets, y) && z in vals && vals[z] == w;
      assert z in more && more[z] == w;
    }
  }

  /** The lowest value not used by a neighbour exists, is small, and keeps the values distinct. */
  lemma NextValue(sigSets: seq<seq<string>>, vals: map<string, nat>, x: string)
    requires x in Signals(sigSets) && x !in vals
    requires Distinct(sigSets, vals) && Small(sigSets, vals)
    ensures var used := Values(vals, Neighbours(sigSets, x));
            Below(|Signals(sigSets)|) - used != {}
            && Distinct(sigSets, vals[x := Lowest(Below(|Signals(sigSets)|) - used)])
            && Small(sigSets, vals[x := Lowest(Below(|Signals(sigSets)|) - used)])
  {
    var others := Neighbours(sigSets, x);
    var used := Values(vals, others);
    CountValues(vals, others);
    SubsetCard(others, Signals(sigSets) - {x});
    LowestUnused(|Signals(sigSets)|, used);
    var v := Lowest(Below(|Signals(sigSets)|) - used);
    forall y | y in vals && y != x && (Share(sigSets, x, y) || Share(sigSets, y, x)) ensures vals[y] != v {
      var ss :| ss in sigSets && x in ss && y in ss;
      assert y in Signals(sigSets) && Share(sigSets, x, y);
      assert y in others && vals[y] in used;
    }
  }

  /** The values used in those of the given sets that hold x. */
  function UsedBy(vals: map<string, nat>, sets: seq<seq<string>>, x: string): set<nat> {
    set ss, y | ss in sets && x in ss && y in ss && y in vals :: vals[y]
  }

  lemma UsedByMore(vals: map<string, nat>, sets: seq<seq<string>>, ss: seq<string>, x: string)
    ensures UsedBy(vals, sets + [ss], x)
            == UsedBy(vals, sets, x) + if x in ss then Values(vals, Members(ss)) else {}
  {
    var more := UsedBy(vals, sets, x) + if x in ss then Values(vals, Members(ss)) else {};
    forall v | v in more ensures v in UsedBy(vals, sets + [ss], x) {
      if v !in UsedBy(vals, sets, x) {
        var y :| y in Members(ss) && y in vals && vals[y] == v;
        assert ss in sets + [ss];
      }
    }
  }

  lemma UsedByNeighbours(vals: map<string, nat>, sigSets: seq<seq<string>>, x: string)
    requires x !in vals
    ensures UsedBy(vals, sigSets, x) == Values(vals, Neighbours(sigSets, x))
  {
    forall v | v in UsedBy(vals, sigSets, x) ensures v in Values(vals, Neighbours(sigSets, x)) {
      var ss, y :| ss in sigSets && x in ss && y in ss && y in vals && vals[y] == v;
      assert Share(sigSets, x, y) && y in Neighbours(sigSets, x);
    }
  }

  lemma SetAsserted(sigSets: seq<seq<string>>, vals: map<string, nat>, ss: seq<string>)
    requires vals.Keys == Signals(sigSets) && Distinct(sigSets, vals) && ss in sigSets
    ensures |Values(vals, Members(ss))| == |ss| <==> NoDuplicates(ss)
  {
    CountMembers(ss);
    CountValues(vals, Members(ss));
    forall x, y | x in Members(ss) && y in Members(ss) && x != y ensures x in vals && y in vals && vals[x] != vals[y] {
      assert Share(sigSets, x, y);
    }
    assert Members(ss) <= vals.Keys;
  }

  /** Extending the enumerated signals by one. */
  lemma OneMoreMember(order: seq<string>, i: nat)
    requires i < |order| && NoDuplicates(order)
    ensures Members(order[..i + 1]) == Members(order[..i]) + {order[i]}
    ensures order[i] !in Members(order[..i]) && order[i] in Members(order)
  {
    assert order[..i + 1] == order[..i] + [order[i]];
  }

  /** The values that sig's neighbours have already. */
  method UsedValues(sigSets: seq<seq<string>>, vals: map<string, nat>, sig: string) returns (used: set<nat>)
    requires sig !in vals
    ensures used == Values(vals, Neighbours(sigSets, sig))
  {
    used := {};
    var k := 0;
    while k < |sigSets|
      invariant 0 <= k <= |sigSets|
      invariant used == UsedBy(vals, sigSets[..k], sig)
    {
      UsedByMore(vals, sigSets[..k], sigSets[k], sig);
      assert sigSets[..k + 1] == sigSets[..k] + [sigSets[k]];
      if sig in sigSets[k] {
        used := used + Values(vals, Members(sigSets[k]));
      }
      k := k + 1;
    }
    assert sigSets[..k] == sigSets;
    UsedByNeighbours(vals, sigSets, sig);
  }

  /** assign_signal_vals; order is any order of the signals, such as the sorted one.  Candidate values never run out;
      two signals that share a set get different values; the value of a signal is at most the number of its
      neighbours, every lower one being taken by a neighbour; and the final assertion holds if and only if no set
      lists a signal twice. */
  method AssignSignalVals(sigSets: seq<seq<string>>, order: seq<string>)
    returns (vals: map<string, nat>, asserted: bool)
    requires NoDuplicates(order) && Members(order) == Signals(sigSets)
    ensures vals.Keys == Signals(sigSets)
    ensures Distinct(sigSets, vals) && Small(sigSets, vals) && Tight(sigSets, vals)
    ensures asserted <==> forall ss | ss in sigSets :: NoDuplicates(ss)
  {
    var possible := Below(|Signals(sigSets)|);
    vals := map[];
    assert Distinct(sigSets, vals) && Small(sigSets, vals) && Tight(sigSets, vals);
    var i := 0;
    while i < |order|
      invariant 0 <= i <= |order| && vals.Keys == Members(order[..i])
      invariant Distinct(sigSets, vals) && Small(sigSets, vals) && Tight(sigSets, vals)
    {
      hide *;
      var sig := order[i];
      OneMoreMember(order, i);
      var used := UsedValues(sigSets, vals, sig);
      NextValue(sigSets, vals, sig);
      NextIsTight(sigSets, vals, sig, Lowest(possible - used));
      vals := vals[sig := Lowest(possible - used)];
      i := i + 1;
    }
    assert order[..i] == order;
    asserted := forall ss | ss in sigSets :: |Values(vals, Members(ss))| == |ss|;
    forall ss | ss in sigSets ensures |Values(vals, Members(ss))| == |ss| <==> NoDuplicates(ss) {
      SetAsserted(sigSets, vals, ss);
    }
  }
}
