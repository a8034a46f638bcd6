/** Loops that append zero or more results per element, as functions. */
module Lists {

  /** The results of f over s, in order. */
  function Collect<A, B>(f: A -> seq<B>, s: seq<A>): seq<B> {
    if s == [] then [] else Collect(f, s[..|s| - 1]) + f(s[|s| - 1])
  }

  lemma CollectSnoc<A, B>(f: A -> seq<B>, s: seq<A>, x: A)
    ensures Collect(f, s + [x]) == Collect(f, s) + f(x)
  {
    assert (s + [x])[..|s|] == s;
  }

  lemma CollectStep<A, B>(f: A -> seq<B>, s: seq<A>, k: nat)
    requires k < |s|
    ensures Collect(f, s[..k + 1]) == Collect(f, s[..k]) + f(s[k])
  {
    assert s[..k + 1] == s[..k] + [s[k]];
    CollectSnoc(f, s[..k], s[k]);
  }

  lemma {:induction false} CollectConcat<A, B>(f: A -> seq<B>, s: seq<A>, t: seq<A>)
    ensures Collect(f, s + t) == Collect(f, s) + Collect(f, t)
  {
    if t == [] {
      assert s + t == s;
    } else {
      var init, last := t[..|t| - 1], t[|t| - 1];
      assert s + t == (s + init) + [last];
      CollectConcat(f, s, init);
      CollectSnoc(f, s + init, last);
    }
  }

  lemma {:induction false} CollectMembers<A, B>(f: A -> seq<B>, s: seq<A>, y: B)
    ensures y in Collect(f, s) <==> exists k :: 0 <= k < |s| && y in f(s[k])
  {
    if s != [] {
      var init := s[..|s| - 1];
      CollectMembers(f, init, y);
      if k :| 0 <= k < |init| && y in f(init[k]) {
        assert y in f(s[k]);
      }
      if k :| 0 <= k < |s| && y in f(s[k]) {
        assert k < |init| ==> y in f(init[k]);
      }
    }
  }

  lemma RemoveOne<A>(s: seq<A>, k: nat)
    requires k < |s|
    ensures multiset(s[..k] + s[k + 1..]) == multiset(s) - multiset{s[k]}
  {
    assert s == s[..k] + [s[k]] + s[k + 1..];
  }

  lemma CollectInsert<A, B>(f: A -> seq<B>, left: seq<A>, x: A, right: seq<A>)
    ensures multiset(Collect(f, left + [x] + right)) == multiset(Collect(f, left + right)) + multiset(f(x))
  {
    CollectConcat(f, left, right);
    CollectConcat(f, left + [x], right);
    CollectSnoc(f, left, x);
  }

  /** The multiset of results depends only on the multiset of elements. */
  lemma {:induction false} CollectOrderFree<A, B>(f: A -> seq<B>, s: seq<A>, t: seq<A>)
    requires multiset(s) == multiset(t)
    ensures multiset(Collect(f, s)) == multiset(Collect(f, t))
    decreases |s|
  {
    if s == [] {
      assert |t| == |multiset(t)| == 0;
    } else {
      var last := s[|s| - 1];
      var k := LocateLast(s, t);
      CollectOrderFree(f, s[..|s| - 1], t[..k] + t[k + 1..]);
      CollectInsert(f, t[..k], last, t[k + 1..]);
      assert t == t[..k] + [last] + t[k + 1..];
    }
  }

  /** Where a permutation t of s keeps the last element of s. */
  lemma LocateLast<A>(s: seq<A>, t: seq<A>) returns (k: nat)
    requires multiset(s) == multiset(t) && s != []
    ensures k < |t| && t[k] == s[|s| - 1]
    ensures multiset(s[..|s| - 1]) == multiset(t[..k] + t[k + 1..])
  {
    assert s == s[..|s| - 1] + [s[|s| - 1]];
    assert s[|s| - 1] in multiset(t);
    k :| 0 <= k < |t| && t[k] == s[|s| - 1];
    RemoveOne(t, k);
  }

  /** Two functions that agree on the elements collect the same. */
  lemma {:induction false} CollectSame<A, B>(f: A -> seq<B>, g: A -> seq<B>, s: seq<A>)
    requires forall x :: x in s ==> f(x) == g(x)
    ensures Collect(f, s) == Collect(g, s)
  {
    if s != [] {
      CollectSame(f, g, s[..|s| - 1]);
    }
  }

  ghost predicate NoRepeats<A>(s: seq<A>) {
    forall i, j :: 0 <= i < j < |s| ==> s[i] != s[j]
  }

  lemma {:induction false} NoRepeatsCount<A>(s: seq<A>, x: A)
    requires NoRepeats(s)
    ensures multiset(s)[x] == if x in s then 1 else 0
  {
    if s != [] {
      var init, last := s[..|s| - 1], s[|s| - 1];
      assert s == init + [last];
      NoRepeatsCount(init, x);
    }
  }

  /** Repetition-free lists with the same members are permutations of each other. */
  lemma SameMembers<A>(s: seq<A>, t: seq<A>)
    requires NoRepeats(s) && NoRepeats(t)
    requires forall x :: x in s <==> x in t
    ensures multiset(s) == multiset(t)
  {
    forall x ensures multiset(s)[x] == multiset(t)[x] {
      NoRepeatsCount(s, x);
      NoRepeatsCount(t, x);
    }
  }

  /** s without later repetitions. */
  function Distinct<A(==)>(s: seq<A>): seq<A> {
    if s == [] then []
    else
      var init := Distinct(s[..|s| - 1]);
      if s[|s| - 1] in init then init else init + [s[|s| - 1]]
  }

  lemma {:induction false} DistinctMembers<A>(s: seq<A>)
    ensures NoRepeats(Distinct(s))
    ensures forall x :: x in Distinct(s) <==> x in s
  {
    if s != [] {
      DistinctMembers(s[..|s| - 1]);
      assert s == s[..|s| - 1] + [s[|s| - 1]];
    }
  }

  /** How many elements have tag x. */
  function Tally<A, K(==)>(tag: A -> K, s: seq<A>, x: K): nat {
    if s == [] then 0 else Tally(tag, s[..|s| - 1], x) + (if tag(s[|s| - 1]) == x then 1 else 0)
  }

  lemma TallyStep<A, K>(tag: A -> K, s: seq<A>, a: A, x: K)
    ensures Tally(tag, s + [a], x) == Tally(tag, s, x) + if tag(a) == x then 1 else 0
  {
    assert (s + [a])[..|s|] == s;
  }

  lemma {:induction false} TallyInMultiset<A, K>(tag: A -> K, s: seq<A>, t: seq<A>, x: K)
    requires multiset(s) == multiset(t)
    ensures Tally(tag, s, x) == Tally(tag, t, x)
  {
    var mark: A -> seq<int> := a => if tag(a) == x then [0] else [];
    TallyIsCollect(tag, s, x, mark);
    TallyIsCollect(tag, t, x, mark);
    CollectOrderFree(mark, s, t);
    assert |Collect(mark, s)| == |multiset(Collect(mark, s))| == |Collect(mark, t)|;
  }

  lemma {:induction false} TallyIsCollect<A, K>(tag: A -> K, s: seq<A>, x: K, mark: A -> seq<int>)
    requires forall a :: a in s ==> mark(a) == if tag(a) == x then [0] else []
    ensures Tally(tag, s, x) == |Collect(mark, s)|
  {
    if s != [] {
      TallyIsCollect(tag, s[..|s| - 1], x, mark);
    }
  }

  lemma {:induction false} TallyPositive<A, K>(tag: A -> K, s: seq<A>, x: K)
    ensures Tally(tag, s, x) > 0 <==> exists k :: 0 <= k < |s| && tag(s[k]) == x
  {
    if s != [] {
      var init := s[..|s| - 1];
      TallyPositive(tag, init, x);
      if k :| 0 <= k < |init| && tag(init[k]) == x {
        assert tag(s[k]) == x;
      }
      if k :| 0 <= k < |s| && tag(s[k]) == x {
        assert k < |init| ==> tag(init[k]) == x;
      }
    }
  }

  /** A count map holds the tally of every tag that occurs, and nothing else. */
  ghost predicate Counts<A, K(!new)>(tag: A -> K, s: seq<A>, counts: map<K, nat>) {
    && (forall x :: x in counts ==> counts[x] == Tally(tag, s, x) > 0)
    && (forall x :: x !in counts ==> Tally(tag, s, x) == 0)
  }

  function Bump<K>(counts: map<K, nat>, x: K): map<K, nat> {
    counts[x := (if x in counts then counts[x] else 0) + 1]
  }

  lemma CountsStep<A, K(!new)>(tag: A -> K, s: seq<A>, counts: map<K, nat>, a: A)
    requires Counts(tag, s, counts)
    ensures Counts(tag, s + [a], Bump(counts, tag(a)))
  {
    forall x ensures Tally(tag, s + [a], x) == Tally(tag, s, x) + if tag(a) == x then 1 else 0 {
      TallyStep(tag, s, a, x);
    }
  }

  lemma CountsUnique<A, K(!new)>(tag: A -> K, s: seq<A>, t: seq<A>, c: map<K, nat>, d: map<K, nat>)
    requires multiset(s) == multiset(t)
    requires Counts(tag, s, c) && Counts(tag, t, d)
    ensures c == d
  {
    forall x ensures Tally(tag, s, x) == Tally(tag, t, x) { TallyInMultiset(tag, s, t, x); }
    assert c.Keys == d.Keys;
  }

  /** The count map of a list. */
  function Tallied<A, K>(tag: A -> K, s: seq<A>): map<K, nat> {
    if s == [] then map[] else Bump(Tallied(tag, s[..|s| - 1]), tag(s[|s| - 1]))
  }

  lemma {:induction false} TalliedCounts<A, K(!new)>(tag: A -> K, s: seq<A>)
    ensures Counts(tag, s, Tallied(tag, s))
  {
    if s != [] {
      TalliedCounts(tag, s[..|s| - 1]);
      CountsStep(tag, s[..|s| - 1], Tallied(tag, s[..|s| - 1]), s[|s| - 1]);
      assert s == s[..|s| - 1] + [s[|s| - 1]];
    }
  }
}
