/** Ordering typedefs so that a type is defined before it is used (_sort_typedefs in pylib/components.py), on pairs of
    the new type and the type it is defined by; splitting lines into words is not part of this model. */
module Typedefs {

  datatype Typedef = Typedef(newType: string, oldType: string)

  /** Which typedefs a pass looks for: those whose base type the input does not define, or those with a given one. */
  datatype Base = External | Named(name: string)

  predicate Matches(typedefs: seq<Typedef>, base: Base, d: Typedef) {
    match base
    case External => !Defines(typedefs, d.oldType)
    case Named(name) => d.oldType == name
  }

  predicate Defines(typedefs: seq<Typedef>, name: string) {
    exists d :: d in typedefs && d.newType == name
  }

  /** A chain of definitions that starts outside the input and ends with d. */
  ghost predicate IsChain(typedefs: seq<Typedef>, chain: seq<Typedef>, d: Typedef) {
    && |chain| > 0 && chain[|chain| - 1] == d
    && !Defines(typedefs, chain[0].oldType)
    && forall k: nat | k < |chain| :: chain[k] in typedefs && (k > 0 ==> chain[k].oldType == chain[k - 1].newType)
  }

  ghost predicate Grounded(typedefs: seq<Typedef>, d: Typedef) {
    exists chain :: IsChain(typedefs, chain, d)
  }

  /** The k-th typedef is defined by a type from outside the input or one whose definition comes before it. */
  ghost predicate BaseComesFirst(typedefs: seq<Typedef>, sorted: seq<Typedef>, k: nat)
    requires k < |sorted|
  {
    !Defines(typedefs, sorted[k].oldType) || exists j: nat :: j < k && sorted[j].newType == sorted[k].oldType
  }

  lemma ExtendChain(typedefs: seq<Typedef>, base: Typedef, d: Typedef)
    requires Grounded(typedefs, base) && d in typedefs && d.oldType == base.newType
    ensures Grounded(typedefs, d)
  {
    var chain :| IsChain(typedefs, chain, base);
    var longer := chain + [d];
    assert forall k: nat | k < |chain| :: longer[k] == chain[k];
    assert IsChain(typedefs, longer, d);
  }

  lemma StartChain(typedefs: seq<Typedef>, d: Typedef)
    requires d in typedefs && !Defines(typedefs, d.oldType)
    ensures Grounded(typedefs, d)
  {
    assert IsChain(typedefs, [d], d);
  }

  /** list.remove: without its first occurrence of d. */
  function Remove(s: seq<Typedef>, d: Typedef): (r: seq<Typedef>)
    requires d in s
    ensures multiset(r) + multiset{d} == multiset(s) && |r| == |s| - 1
  {
    if s[0] == d then assert s == [s[0]] + s[1..]; s[1..]
    else assert s == [s[0]] + s[1..]; [s[0]] + Remove(s[1..], d)
  }

  /** What matches has left rest up to the i-th typedef of start, and nothing else has. */
  ghost predicate CountsAt(typedefs: seq<Typedef>, base: Base, start: seq<Typedef>, i: nat, rest: seq<Typedef>)
    requires i <= |start|
  {
    forall d :: multiset(rest)[d] == if Matches(typedefs, base, d) then multiset(start[i..])[d] else multiset(start)[d]
  }

  /** What one pass over start has done up to its i-th typedef. */
  ghost predicate PassedTo(typedefs: seq<Typedef>, base: Base, start: seq<Typedef>, done: seq<Typedef>, i: nat,
                           rest: seq<Typedef>, sorted: seq<Typedef>) {
    && i <= |start| && multiset(rest) + multiset(sorted) == multiset(start) + multiset(done)
    && |done| <= |sorted| && sorted[..|done|] == done && |rest| + |sorted| == |start| + |done|
    && CountsAt(typedefs, base, start, i, rest)
    && forall k | |done| <= k < |sorted| :: sorted[k] in start && Matches(typedefs, base, sorted[k])
  }

  lemma CountNext(typedefs: seq<Typedef>, base: Base, start: seq<Typedef>, i: nat, rest: seq<Typedef>)
    requires i < |start| && CountsAt(typedefs, base, start, i, rest)
    ensures !Matches(typedefs, base, start[i]) ==> CountsAt(typedefs, base, start, i + 1, rest)
    ensures Matches(typedefs, base, start[i]) ==>
              start[i] in rest && CountsAt(typedefs, base, start, i + 1, Remove(rest, start[i]))
  {
    hide Matches, Remove;
    assert start[i..] == [start[i]] + start[i + 1..];
    if Matches(typedefs, base, start[i]) {
      assert multiset(rest)[start[i]] > 0;
    }
  }

  lemma PassNext(typedefs: seq<Typedef>, base: Base, start: seq<Typedef>, done: seq<Typedef>, i: nat,
                 rest: seq<Typedef>, sorted: seq<Typedef>)
    requires PassedTo(typedefs, base, start, done, i, rest, sorted) && i < |start|
    ensures !Matches(typedefs, base, start[i]) ==> PassedTo(typedefs, base, start, done, i + 1, rest, sorted)
    ensures Matches(typedefs, base, start[i]) ==>
              start[i] in rest
              && PassedTo(typedefs, base, start, done, i + 1, Remove(rest, start[i]), sorted + [start[i]])
  {
    hide Matches, Remove, CountsAt;
    CountNext(typedefs, base, start, i, rest);
  }

  lemma PassStart(typedefs: seq<Typedef>, base: Base, start: seq<Typedef>, done: seq<Typedef>)
    ensures PassedTo(typedefs, base, start, done, 0, start, done)
  {
    assert start[0..] == start;
  }

  lemma PassDone(typedefs: seq<Typedef>, base: Base, start: seq<Typedef>, done: seq<Typedef>,
                 rest: seq<Typedef>, sorted: seq<Typedef>)
    requires PassedTo(typedefs, base, start, done, |start|, rest, sorted)
    ensures multiset(rest) + multiset(sorted) == multiset(start) + multiset(done)
    ensures |done| <= |sorted| && sorted[..|done|] == done && |rest| + |sorted| == |start| + |done|
    ensures forall d | d in rest :: d in start && !Matches(typedefs, base, d)
    ensures forall k | |done| <= k < |sorted| :: sorted[k] in start && Matches(typedefs, base, sorted[k])
  {
    hide Matches;
    forall d | d in rest ensures d in start && !Matches(typedefs, base, d) {
      assert d in multiset(rest);
      assert multiset(start[|start|..])[d] == 0;
      if !Matches(typedefs, base, d) { assert d in multiset(start); }
    }
  }

  /** One pass: what matches moves from rest to the end of sorted. */
  method MoveMatching(typedefs: seq<Typedef>, start: seq<Typedef>, done: seq<Typedef>, base: Base)
    returns (rest: seq<Typedef>, sorted: seq<Typedef>)
    ensures multiset(rest) + multiset(sorted) == multiset(start) + multiset(done)
    ensures |done| <= |sorted| && sorted[..|done|] == done && |rest| + |sorted| == |start| + |done|
    ensures forall d | d in rest :: d in start && !Matches(typedefs, base, d)
    ensures forall k | |done| <= k < |sorted| :: sorted[k] in start && Matches(typedefs, base, sorted[k])
  {
    hide Remove, PassedTo, Matches;
    rest, sorted := start, done;
    PassStart(typedefs, base, start, done);
    var i := 0;
    while i < |start|
      invariant 0 <= i <= |start| && PassedTo(typedefs, base, start, done, i, rest, sorted)
    {
      PassNext(typedefs, base, start, done, i, rest, sorted);
      if Matches(typedefs, base, start[i]) {
        sorted := sorted + [start[i]];
        rest := Remove(rest, start[i]);
      }
      i := i + 1;
    }
    PassDone(typedefs, base, start, done, rest, sorted);
  }

  /** Between two rounds: nothing that is left is based on the first i sorted typedefs. */
  ghost predicate Progress(typedefs: seq<Typedef>, rest: seq<Typedef>, sorted: seq<Typedef>, i: nat) {
    && i <= |sorted| && multiset(rest) + multiset(sorted) == multiset(typedefs)
    && (forall d | d in rest :: Defines(typedefs, d.oldType))
    && (forall d, j: nat | d in rest && j < i :: sorted[j].newType != d.oldType)
    && forall k: nat | k < |sorted| :: Grounded(typedefs, sorted[k]) && BaseComesFirst(typedefs, sorted, k)
  }

  lemma Moved(typedefs: seq<Typedef>, start: seq<Typedef>, done: seq<Typedef>, rest: seq<Typedef>,
              sorted: seq<Typedef>, i: nat)
    requires Progress(typedefs, start, done, i) && i < |done|
    requires multiset(rest) + multiset(sorted) == multiset(start) + multiset(done)
    requires |done| <= |sorted| && sorted[..|done|] == done
    requires forall d | d in rest :: d in start && d.oldType != done[i].newType
    requires forall k | |done| <= k < |sorted| :: sorted[k] in start && sorted[k].oldType == done[i].newType
    ensures Progress(typedefs, rest, sorted, i + 1)
  {
    hide Grounded, Defines, IsChain;
    assert forall j: nat | j < |done| :: sorted[j] == done[j];
    forall d, j: nat | d in rest && j < i + 1 ensures sorted[j].newType != d.oldType {
      assert sorted[j] == done[j];
    }
    forall k: nat | k < |sorted| ensures Grounded(typedefs, sorted[k]) && BaseComesFirst(typedefs, sorted, k) {
      if k < |done| {
        assert BaseComesFirst(typedefs, done, k);
      } else {
        assert sorted[k] in multiset(start) + multiset(done);
        assert sorted[k] in multiset(typedefs);
        ExtendChain(typedefs, done[i], sorted[k]);
        assert sorted[i].newType == sorted[k].oldType;
      }
    }
  }

  /** At the end no typedef of a chain is left over. */
  lemma {:induction false} ChainIsSorted(typedefs: seq<Typedef>, rest: seq<Typedef>, sorted: seq<Typedef>,
                                         chain: seq<Typedef>, d: Typedef, k: nat)
    requires Progress(typedefs, rest, sorted, |sorted|) && IsChain(typedefs, chain, d) && k < |chain|
    ensures chain[k] !in rest
  {
    if k > 0 {
      ChainIsSorted(typedefs, rest, sorted, chain, d, k - 1);
      assert chain[k - 1] in multiset(rest) + multiset(sorted);
    }
  }

  /** The result holds exactly the typedefs that are grounded outside the input, as often as the input does; typedefs
      that depend on a cycle are dropped.  Each comes after a definition of its base type. */
  method SortTypedefs(typedefs: seq<Typedef>) returns (sorted: seq<Typedef>)
    ensures forall d :: multiset(sorted)[d] == if Grounded(typedefs, d) then multiset(typedefs)[d] else 0
    ensures forall k: nat | k < |sorted| :: BaseComesFirst(typedefs, sorted, k)
  {
    var rest;
    rest, sorted := MoveMatching(typedefs, typedefs, [], External);
    forall k: nat | k < |sorted| ensures Grounded(typedefs, sorted[k]) { StartChain(typedefs, sorted[k]); }
    var i := 0;
    while i < |sorted|
      invariant Progress(typedefs, rest, sorted, i) && |rest| + |sorted| == |typedefs|
      decreases |typedefs| - i
    {
      ghost var start, done := rest, sorted;
      rest, sorted := MoveMatching(typedefs, rest, sorted, Named(sorted[i].newType));
      Moved(typedefs, start, done, rest, sorted, i);
      i := i + 1;
    }
    forall d ensures multiset(sorted)[d] == if Grounded(typedefs, d) then multiset(typedefs)[d] else 0 {
      if Grounded(typedefs, d) {
        var chain :| IsChain(typedefs, chain, d);
        ChainIsSorted(typedefs, rest, sorted, chain, d, |chain| - 1);
        assert multiset(rest)[d] == 0;
      } else {
        assert d !in sorted;
      }
    }
  }
}
