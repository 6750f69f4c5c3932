/** In-place ascending sweeps over cells that may refer to each other, the shape of both the fan loop
    in `update_outputs` and the virtual sensor loop of `core1_main`. Cell `i` is recomputed from the
    current contents, so a reference to a lower index sees this round's value and a reference to the
    same or a higher index sees the previous round's. */
module Sweeps {
  import opened Means

  /** A rule computes the new content of a cell from all cells. */
  type Rule = (nat, seq<real>) -> real

  function SweepFrom(rule: Rule, n: nat, s: seq<real>, i: nat): (t: seq<real>)
    requires n <= |s|
    ensures |t| == |s|
    ensures forall k :: 0 <= k < |s| && (k < i || n <= k) ==> t[k] == s[k]
    decreases n - i
  {
    if i >= n then s else SweepFrom(rule, n, s[i := rule(i, s)], i + 1)
  }

  function Sweep(rule: Rule, n: nat, s: seq<real>): (t: seq<real>)
    requires n <= |s|
    ensures |t| == |s|
  {
    SweepFrom(rule, n, s, 0)
  }

  function Rounds(rule: Rule, n: nat, s: seq<real>, r: nat): (t: seq<real>)
    requires n <= |s|
    ensures |t| == |s|
    decreases r
  {
    if r == 0 then s else Rounds(rule, n, Sweep(rule, n, s), r - 1)
  }

  /** Peeling a round off the end instead of the front. */
  lemma {:induction false} RoundsLast(rule: Rule, n: nat, s: seq<real>, r: nat)
    requires n <= |s|
    ensures Rounds(rule, n, s, r + 1) == Sweep(rule, n, Rounds(rule, n, s, r))
    decreases r
  {
    if r > 0 { RoundsLast(rule, n, Sweep(rule, n, s), r - 1); }
  }

  // --------------------------------------------------------------------------------------------
  // Convergence

  /** What a cell reads: `refs[i]` holds the indexes, `held` the cells that keep their content. */
  datatype Graph = Graph(refs: seq<set<nat>>, held: set<nat>)

  predicate Outside(g: Graph, k: nat) { k >= |g.refs| || k in g.held }

  ghost predicate Same(s: seq<real>, t: seq<real>, k: nat)
  {
    |s| == |t| && (k < |s| ==> s[k] == t[k])
  }

  ghost predicate SameOutside(g: Graph, s: seq<real>, t: seq<real>) {
    |s| == |t| && forall k: nat :: Outside(g, k) ==> Same(s, t, k)
  }

  ghost predicate SameRefs(g: Graph, s: seq<real>, t: seq<real>, i: nat)
    requires i < |g.refs|
  {
    |s| == |t| && forall k: nat :: k in g.refs[i] ==> Same(s, t, k)
  }

  /** On these contents the rule for cell `i` reads no more than the graph says. */
  ghost predicate ReadsRefs(rule: Rule, g: Graph, size: nat, i: nat, s: seq<real>, t: seq<real>) {
    i < |g.refs| && |s| == size && i !in g.held && SameRefs(g, s, t, i) ==> rule(i, s) == rule(i, t)
  }

  /** On these contents it leaves cell `i` alone if it is held. */
  ghost predicate KeepsHeld(rule: Rule, g: Graph, size: nat, i: nat, s: seq<real>) {
    i < |g.refs| <= |s| == size && i in g.held ==> rule(i, s) == s[i]
  }

  /** The rule reads no more than the graph says and leaves held cells alone. */
  ghost predicate Follows(rule: Rule, g: Graph, size: nat) {
    && |g.refs| <= size
    && (forall i: nat, s: seq<real>, t: seq<real> :: ReadsRefs(rule, g, size, i, s, t))
    && (forall i: nat, s: seq<real> :: KeepsHeld(rule, g, size, i, s))
  }

  /** A ranking that rises on every reference to the same or a later cell and never falls: it counts
      the rounds a value needs to travel. References that form a cycle cannot be ranked. */
  ghost predicate Ranked(g: Graph, rank: seq<nat>) {
    && |rank| == |g.refs|
    && forall i: nat, j: nat :: i < |g.refs| && !Outside(g, i) && !Outside(g, j) && j in g.refs[i] ==>
         if j < i then rank[j] <= rank[i] else rank[j] < rank[i]
  }

  ghost predicate Settled(g: Graph, rank: seq<nat>, s: seq<real>, t: seq<real>, k: nat)
    requires |rank| == |g.refs|
  {
    && SameOutside(g, s, t)
    && forall i: nat :: i < |g.refs| && rank[i] < k ==> Same(s, t, i)
  }

  ghost predicate SettledBelow(g: Graph, rank: seq<nat>, s: seq<real>, t: seq<real>, k: nat, i: nat)
    requires |rank| == |g.refs|
  {
    && Settled(g, rank, s, t, k)
    && forall j: nat :: j < i && j < |g.refs| && rank[j] <= k ==> Same(s, t, j)
  }

  lemma StepSettles(rule: Rule, g: Graph, rank: seq<nat>, s: seq<real>, t: seq<real>, k: nat, i: nat)
    requires Follows(rule, g, |s|) && Ranked(g, rank) && SettledBelow(g, rank, s, t, k, i) && i < |g.refs|
    ensures SettledBelow(g, rank, s[i := rule(i, s)], t[i := rule(i, t)], k, i + 1)
  {
    var s', t' := s[i := rule(i, s)], t[i := rule(i, t)];
    assert KeepsHeld(rule, g, |s|, i, s) && KeepsHeld(rule, g, |s|, i, t) && ReadsRefs(rule, g, |s|, i, s, t);
    if i in g.held {
      assert Same(s, t, i) by { assert Outside(g, i); }
      assert s' == s && t' == t;
      assert rank[i] <= k ==> Same(s', t', i);
    } else {
      if rank[i] <= k {
        forall j: nat | j in g.refs[i] ensures Same(s, t, j) {
          if !Outside(g, j) { assert rank[j] < k || (j < i && rank[j] <= k); }
        }
        assert SameRefs(g, s, t, i);
      }
      forall j: nat | Outside(g, j) ensures Same(s', t', j) { assert Same(s, t, j); }
      forall j: nat | j < |g.refs| && (rank[j] < k || (j < i + 1 && rank[j] <= k)) ensures Same(s', t', j) {
        if j != i { assert Same(s, t, j); }
      }
    }
  }

  lemma {:induction false} SweepSettles(rule: Rule, g: Graph, rank: seq<nat>, size: nat, s: seq<real>, t: seq<real>, k: nat, i: nat)
    requires Follows(rule, g, size) && |s| == size && Ranked(g, rank)
    requires SettledBelow(g, rank, s, t, k, i) && i <= |g.refs|
    ensures Settled(g, rank, SweepFrom(rule, |g.refs|, s, i), SweepFrom(rule, |g.refs|, t, i), k + 1)
    decreases |g.refs| - i
  {
    if i < |g.refs| {
      StepSettles(rule, g, rank, s, t, k, i);
      SweepSettles(rule, g, rank, size, s[i := rule(i, s)], t[i := rule(i, t)], k, i + 1);
      SweepNext(rule, |g.refs|, s, i);
      SweepNext(rule, |g.refs|, t, i);
    } else {
      AllSettled(g, rank, s, t, k);
    }
  }

  lemma SweepNext(rule: Rule, n: nat, s: seq<real>, i: nat)
    requires i < n <= |s|
    ensures SweepFrom(rule, n, s, i) == SweepFrom(rule, n, s[i := rule(i, s)], i + 1)
  {
  }

  lemma AllSettled(g: Graph, rank: seq<nat>, s: seq<real>, t: seq<real>, k: nat)
    requires |rank| == |g.refs| && SettledBelow(g, rank, s, t, k, |g.refs|)
    ensures Settled(g, rank, s, t, k + 1)
  {
    forall j: nat | j < |g.refs| && rank[j] < k + 1 ensures Same(s, t, j) { assert rank[j] <= k; }
  }

  lemma RoundSettles(rule: Rule, g: Graph, rank: seq<nat>, s: seq<real>, t: seq<real>, k: nat)
    requires Follows(rule, g, |s|) && Ranked(g, rank) && Settled(g, rank, s, t, k)
    ensures Settled(g, rank, Sweep(rule, |g.refs|, s), Sweep(rule, |g.refs|, t), k + 1)
  {
    SweepSettles(rule, g, rank, |s|, s, t, k, 0);
  }

  /** Two starts that agree on every cell of rank below `k` agree `r` rounds later on every cell of
      rank below `k + r`. */
  lemma {:induction false} RoundsSettle(rule: Rule, g: Graph, rank: seq<nat>, size: nat, s: seq<real>, t: seq<real>, k: nat, r: nat)
    requires Follows(rule, g, size) && |s| == size && Ranked(g, rank) && Settled(g, rank, s, t, k)
    ensures Settled(g, rank, Rounds(rule, |g.refs|, s, r), Rounds(rule, |g.refs|, t, r), k + r)
    decreases r
  {
    if r > 0 {
      RoundSettles(rule, g, rank, s, t, k);
      RoundsSettle(rule, g, rank, size, Sweep(rule, |g.refs|, s), Sweep(rule, |g.refs|, t), k + 1, r - 1);
    }
  }

  lemma SettledEverywhere(g: Graph, rank: seq<nat>, s: seq<real>, t: seq<real>, k: nat)
    requires |rank| == |g.refs| && Settled(g, rank, s, t, k)
    requires forall i :: 0 <= i < |rank| ==> rank[i] < k
    ensures s == t
  {
    forall i: nat | i < |s| ensures s[i] == t[i] {
      assert Same(s, t, i) by { if i >= |g.refs| { assert Outside(g, i); } }
    }
  }

  lemma {:induction false} SweepKeepsOutside(rule: Rule, g: Graph, s: seq<real>, i: nat)
    requires Follows(rule, g, |s|) && i <= |g.refs|
    ensures SameOutside(g, s, SweepFrom(rule, |g.refs|, s, i))
    decreases |g.refs| - i
  {
    if i < |g.refs| {
      var s' := s[i := rule(i, s)];
      assert KeepsHeld(rule, g, |s|, i, s);
      SweepKeepsOutside(rule, g, s', i + 1);
      forall k: nat | Outside(g, k) ensures Same(s, SweepFrom(rule, |g.refs|, s, i), k) {
        assert Same(s', SweepFrom(rule, |g.refs|, s', i + 1), k);
      }
    }
  }

  /** With ranks up to `d`, `d + 1` rounds from any start reach a state that further sweeps keep, and
      that every other start with the same held cells, fixed points included, reaches too. */
  lemma Converges(rule: Rule, g: Graph, rank: seq<nat>, d: nat, s: seq<real>, t: seq<real>)
    requires Follows(rule, g, |s|) && Ranked(g, rank) && SameOutside(g, s, t)
    requires forall i :: 0 <= i < |rank| ==> rank[i] <= d
    ensures var f := Rounds(rule, |g.refs|, s, d + 1);
            && Sweep(rule, |g.refs|, f) == f
            && Rounds(rule, |g.refs|, t, d + 1) == f
            && (Sweep(rule, |g.refs|, t) == t ==> t == f)
  {
    var n := |g.refs|;
    SameAfter(rule, g, rank, d, s, t);
    SweepKeepsOutside(rule, g, s, 0);
    SameAfter(rule, g, rank, d, s, Sweep(rule, n, s));
    RoundsLast(rule, n, s, d + 1);
    if Sweep(rule, n, t) == t { RoundsOfFixedPoint(rule, n, t, d + 1); }
  }

  lemma SameAfter(rule: Rule, g: Graph, rank: seq<nat>, d: nat, s: seq<real>, t: seq<real>)
    requires Follows(rule, g, |s|) && Ranked(g, rank) && SameOutside(g, s, t)
    requires forall i :: 0 <= i < |rank| ==> rank[i] <= d
    ensures Rounds(rule, |g.refs|, s, d + 1) == Rounds(rule, |g.refs|, t, d + 1)
  {
    RoundsSettle(rule, g, rank, |s|, s, t, 0, d + 1);
    SettledEverywhere(g, rank, Rounds(rule, |g.refs|, s, d + 1), Rounds(rule, |g.refs|, t, d + 1), d + 1);
  }

  lemma {:induction false} RoundsOfFixedPoint(rule: Rule, n: nat, s: seq<real>, r: nat)
    requires n <= |s| && Sweep(rule, n, s) == s
    ensures Rounds(rule, n, s, r) == s
    decreases r
  {
    if r > 0 { RoundsOfFixedPoint(rule, n, s, r - 1); }
  }

  // --------------------------------------------------------------------------------------------
  // Order

  /** `low` never exceeds `high` on ordered contents. */
  ghost predicate RulesOrdered(low: Rule, high: Rule, n: nat, size: nat) {
    forall i: nat, s: seq<real>, t: seq<real> :: i < n && |s| == size && Below(s, t) ==> low(i, s) <= high(i, t)
  }

  /** Ordered rules on ordered starts give ordered results, cycles or not. */
  lemma {:induction false} SweepOrdered(low: Rule, high: Rule, n: nat, s: seq<real>, t: seq<real>, i: nat)
    requires n <= |s| && Below(s, t) && RulesOrdered(low, high, n, |s|)
    ensures Below(SweepFrom(low, n, s, i), SweepFrom(high, n, t, i))
    decreases n - i
  {
    if i < n {
      assert low(i, s) <= high(i, t);
      SweepOrdered(low, high, n, s[i := low(i, s)], t[i := high(i, t)], i + 1);
    }
  }

  lemma {:induction false} RoundsOrdered(low: Rule, high: Rule, n: nat, s: seq<real>, t: seq<real>, r: nat)
    requires n <= |s| && Below(s, t) && RulesOrdered(low, high, n, |s|)
    ensures Below(Rounds(low, n, s, r), Rounds(high, n, t, r))
    decreases r
  {
    if r > 0 {
      SweepOrdered(low, high, n, s, t, 0);
      RoundsOrdered(low, high, n, Sweep(low, n, s), Sweep(high, n, t), r - 1);
    }
  }
}
