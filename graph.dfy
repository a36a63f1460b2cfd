/** The container's contents as a value: the stored constructions in
    storage order, each with its variant, what it shows its children and the
    positions of its parents. Edit propagation and cascading removal are
    defined here as functions over that value; the GeoComponents class is
    proved against them. */
module Graph {
  import opened Geometry
  import opened Steps

  /** One stored construction: its variant and formula, its access vector
      and flag, and the storage positions of its parents. */
  datatype Entry = Entry(kind: Kind, view: View, parents: seq<nat>)

  /** Storage order is topological: every parent is stored before its
      child. */
  predicate WellFormed(g: seq<Entry>) {
    forall i, q | 0 <= i < |g| && 0 <= q < |g[i].parents| :: g[i].parents[q] < i
  }

  /** What the parents at positions ps show. */
  function ViewsAt(g: seq<Entry>, ps: seq<nat>): seq<View> {
    seq(|ps|, q requires 0 <= q < |ps| => if ps[q] < |g| then g[ps[q]].view else View([], false))
  }

  /** Entry i after its update(): the step on its own payload and on what
      its parents show at that moment. */
  function Refresh(g: seq<Entry>, i: nat, env: Env): seq<Entry>
    requires i < |g|
  {
    g[i := g[i].(view := Step(g[i].kind, g[i].view.data, ViewsAt(g, g[i].parents), env))]
  }

  /** The forward pass: update() on every entry from position i to the end,
      one after the other in storage order. */
  function Replay(g: seq<Entry>, i: nat, env: Env): (r: seq<Entry>)
    decreases |g| - i
    ensures |r| == |g|
  {
    if i >= |g| then g else Replay(Refresh(g, i, env), i + 1, env)
  }

  /** The pass from i is update() at i followed by the pass from i + 1. */
  lemma ReplayAdvance(g: seq<Entry>, refreshed: seq<Entry>, i: nat, env: Env)
    requires i < |g| && refreshed == Refresh(g, i, env)
    ensures Replay(refreshed, i + 1, env) == Replay(g, i, env)
  {
  }

  /** edit_construction on the entry at position k: mutate(data) on it,
      then the forward pass over everything stored after it. */
  function Edit(g: seq<Entry>, k: nat, data: seq<real>, env: Env): (r: seq<Entry>)
    requires k < |g| && |data| >= Width(g[k].kind)
    ensures |r| == |g|
  {
    Replay(g[k := g[k].(view := MutateStep(g[k].kind, data, ViewsAt(g, g[k].parents), env))], k + 1, env)
  }

  /** The pass changes no variant, no parent link and nothing stored
      before position i. */
  lemma {:induction false} ReplayShape(g: seq<Entry>, i: nat, env: Env)
    decreases |g| - i
    ensures forall j | 0 <= j < |g| ::
      Replay(g, i, env)[j].kind == g[j].kind && Replay(g, i, env)[j].parents == g[j].parents
    ensures forall j | 0 <= j < i && j < |g| :: Replay(g, i, env)[j] == g[j]
  {
    if i < |g| {
      var h := Refresh(g, i, env);
      ReplayShape(h, i + 1, env);
      var r := Replay(h, i + 1, env);
      assert Replay(g, i, env) == r;
      forall j | 0 <= j < |g|
        ensures r[j].kind == g[j].kind && r[j].parents == g[j].parents
        ensures j < i ==> r[j] == g[j]
      {
        assert h[j].kind == g[j].kind && h[j].parents == g[j].parents;
        assert j < i ==> h[j] == g[j];
      }
    }
  }

  /** A single pass suffices: when the pass is over, every entry it visited
      holds the step of its old payload against the views its parents hold
      at the end, because those parents were visited before it. */
  lemma {:induction false} ReplayConsistent(g: seq<Entry>, i: nat, env: Env)
    requires WellFormed(g)
    decreases |g| - i
    ensures forall j | i <= j < |g| ::
      Replay(g, i, env)[j].view == Step(g[j].kind, g[j].view.data, ViewsAt(Replay(g, i, env), g[j].parents), env)
  {
    if i < |g| {
      var h := Refresh(g, i, env);
      var r := Replay(h, i + 1, env);
      assert WellFormed(h) by {
        forall j, q | 0 <= j < |h| && 0 <= q < |h[j].parents| ensures h[j].parents[q] < j {
          assert h[j].parents == g[j].parents;
        }
      }
      ReplayConsistent(h, i + 1, env);
      ReplayShape(h, i + 1, env);
      assert ViewsAt(r, g[i].parents) == ViewsAt(g, g[i].parents) by {
        forall q | 0 <= q < |g[i].parents| ensures r[g[i].parents[q]] == g[g[i].parents[q]] {
          assert g[i].parents[q] < i;
        }
      }
      forall j | i <= j < |g|
        ensures r[j].view == Step(g[j].kind, g[j].view.data, ViewsAt(r, g[j].parents), env)
      {
        if j > i {
          assert h[j] == g[j];
        }
      }
    }
  }

  /** edit_construction changes no variant, no parent link and nothing
      stored before the edited entry, so the storage order stays
      topological. */
  lemma EditShape(g: seq<Entry>, k: nat, data: seq<real>, env: Env)
    requires WellFormed(g)
    requires k < |g| && |data| >= Width(g[k].kind)
    ensures WellFormed(Edit(g, k, data, env))
    ensures forall j | 0 <= j < |g| ::
      Edit(g, k, data, env)[j].kind == g[j].kind && Edit(g, k, data, env)[j].parents == g[j].parents
    ensures forall j | 0 <= j < k :: Edit(g, k, data, env)[j] == g[j]
  {
    var h := g[k := g[k].(view := MutateStep(g[k].kind, data, ViewsAt(g, g[k].parents), env))];
    ReplayShape(h, k + 1, env);
    forall j | 0 <= j < |g| ensures h[j].kind == g[j].kind && h[j].parents == g[j].parents {
    }
  }

  /** edit_construction changes exactly the edited entry and what is stored
      after it: the edited entry holds mutate(data) against its parents'
      views, every later entry is consistent with its parents, and the
      storage order stays topological. */
  lemma EditSpec(g: seq<Entry>, k: nat, data: seq<real>, env: Env)
    requires WellFormed(g)
    requires k < |g| && |data| >= Width(g[k].kind)
    ensures WellFormed(Edit(g, k, data, env))
    ensures forall j | 0 <= j < |g| ::
      Edit(g, k, data, env)[j].kind == g[j].kind && Edit(g, k, data, env)[j].parents == g[j].parents
    ensures forall j | 0 <= j < k :: Edit(g, k, data, env)[j] == g[j]
    ensures Edit(g, k, data, env)[k].view == MutateStep(g[k].kind, data, ViewsAt(Edit(g, k, data, env), g[k].parents), env)
    ensures forall j | k < j < |g| ::
      Edit(g, k, data, env)[j].view
        == Step(g[j].kind, g[j].view.data, ViewsAt(Edit(g, k, data, env), g[j].parents), env)
  {
    EditShape(g, k, data, env);
    var h := g[k := g[k].(view := MutateStep(g[k].kind, data, ViewsAt(g, g[k].parents), env))];
    var r := Replay(h, k + 1, env);
    assert WellFormed(h) by {
      forall j, q | 0 <= j < |h| && 0 <= q < |h[j].parents| ensures h[j].parents[q] < j {
        assert h[j].parents == g[j].parents;
      }
    }
    ReplayConsistent(h, k + 1, env);
    assert r[k] == h[k] by {
      ReplayShape(h, k + 1, env);
    }
    assert ViewsAt(r, g[k].parents) == ViewsAt(g, g[k].parents) by {
      forall q | 0 <= q < |g[k].parents| ensures r[g[k].parents[q]] == g[g[k].parents[q]] {
        assert g[k].parents[q] < k;
      }
    }
    forall j | k < j < |g|
      ensures r[j].view == Step(g[j].kind, g[j].view.data, ViewsAt(r, g[j].parents), env)
    {
      assert h[j] == g[j];
    }
  }

  /** Entry j is entry k or is derived from it through a chain of parents. */
  predicate Descends(g: seq<Entry>, j: nat, k: nat)
    decreases j
  {
    && j < |g|
    && (|| j == k
        || exists q | 0 <= q < |g[j].parents| :: g[j].parents[q] < j && Descends(g, g[j].parents[q], k))
  }

  /** Nothing stored before k is derived from k. */
  lemma {:induction false} DescendsFromEarlier(g: seq<Entry>, j: nat, k: nat)
    requires Descends(g, j, k)
    decreases j
    ensures k <= j
  {
    if j != k {
      var q :| 0 <= q < |g[j].parents| && g[j].parents[q] < j && Descends(g, g[j].parents[q], k);
      DescendsFromEarlier(g, g[j].parents[q], k);
    }
  }

  /** Propagation monotonicity: when the edited entry ends up ill-defined,
      so does every construction derived from it, and each of them keeps
      the payload it had before the edit. */
  lemma {:induction false} EditIllDefinedSpreads(g: seq<Entry>, k: nat, data: seq<real>, env: Env, j: nat)
    requires WellFormed(g)
    requires k < |g| && |data| >= Width(g[k].kind)
    requires !Edit(g, k, data, env)[k].view.wellDefined
    requires Descends(g, j, k)
    decreases j
    ensures !Edit(g, k, data, env)[j].view.wellDefined
    ensures j != k ==> Edit(g, k, data, env)[j].view.data == g[j].view.data
  {
    EditSpec(g, k, data, env);
    if j != k {
      var r := Edit(g, k, data, env);
      var q :| 0 <= q < |g[j].parents| && g[j].parents[q] < j && Descends(g, g[j].parents[q], k);
      DescendsFromEarlier(g, j, k);
      EditIllDefinedSpreads(g, k, data, env, g[j].parents[q]);
      assert !ViewsAt(r, g[j].parents)[q].wellDefined;
    }
  }

  /** The positions below n that survive the removal of entry k, in
      storage order. */
  function Survivors(g: seq<Entry>, k: nat, n: nat): (s: seq<nat>)
    requires n <= |g|
    ensures forall r | 0 <= r < |s| :: s[r] < n
  {
    if n == 0 then []
    else Survivors(g, k, n - 1) + (if Descends(g, n - 1, k) then [] else [n - 1])
  }

  /** The new position of the entry stored at position p: the number of
      survivors before it. */
  function Rank(g: seq<Entry>, k: nat, p: nat): nat {
    if p <= |g| then |Survivors(g, k, p)| else 0
  }

  /** Parent positions renumbered for the shortened sequence. */
  function Relink(g: seq<Entry>, k: nat, ps: seq<nat>): seq<nat> {
    seq(|ps|, q requires 0 <= q < |ps| => Rank(g, k, ps[q]))
  }

  /** remove_construction on the entry at position k: drop it and every
      entry derived from it, keeping the others in their order. */
  function Remove(g: seq<Entry>, k: nat): seq<Entry> {
    var s := Survivors(g, k, |g|);
    seq(|s|, r requires 0 <= r < |s| => g[s[r]].(parents := Relink(g, k, g[s[r]].parents)))
  }

  /** The survivors are exactly the entries below n not derived from k,
      listed in increasing order. */
  lemma {:induction false} SurvivorsSpec(g: seq<Entry>, k: nat, n: nat)
    requires n <= |g|
    ensures forall j: nat :: j in Survivors(g, k, n) <==> j < n && !Descends(g, j, k)
    ensures forall r1, r2 | 0 <= r1 < r2 < |Survivors(g, k, n)| :: Survivors(g, k, n)[r1] < Survivors(g, k, n)[r2]
  {
    if n > 0 {
      SurvivorsSpec(g, k, n - 1);
    }
  }

  /** Survivors below m come first among the survivors below n. */
  lemma {:induction false} SurvivorsPrefix(g: seq<Entry>, k: nat, m: nat, n: nat)
    requires m <= n <= |g|
    decreases n - m
    ensures Survivors(g, k, m) <= Survivors(g, k, n)
  {
    if m < n {
      SurvivorsPrefix(g, k, m, n - 1);
    }
  }

  /** A surviving entry is found again at its rank. */
  lemma SurvivorAtRank(g: seq<Entry>, k: nat, n: nat, p: nat)
    requires p < n <= |g| && !Descends(g, p, k)
    ensures Rank(g, k, p) < |Survivors(g, k, n)| && Survivors(g, k, n)[Rank(g, k, p)] == p
  {
    SurvivorsPrefix(g, k, p + 1, n);
    assert Survivors(g, k, p + 1) == Survivors(g, k, p) + [p];
  }

  /** remove_construction removes the target and exactly the entries
      derived from it; the others stay, in their order, with the same
      variant and payload; each survivor's parents survive, so every
      survivor sees the same parents as before and stays consistent, and
      the storage order stays topological. */
  lemma RemoveSpec(g: seq<Entry>, k: nat)
    requires WellFormed(g) && k < |g|
    ensures k !in Survivors(g, k, |g|)
    ensures forall j: nat :: j in Survivors(g, k, |g|) <==> j < |g| && !Descends(g, j, k)
    ensures forall r1, r2 | 0 <= r1 < r2 < |Survivors(g, k, |g|)| ::
      Survivors(g, k, |g|)[r1] < Survivors(g, k, |g|)[r2]
    ensures |Remove(g, k)| == |Survivors(g, k, |g|)| < |g|
    ensures WellFormed(Remove(g, k))
    ensures forall r | 0 <= r < |Remove(g, k)| ::
      && Remove(g, k)[r].kind == g[Survivors(g, k, |g|)[r]].kind
      && Remove(g, k)[r].view == g[Survivors(g, k, |g|)[r]].view
      && ViewsAt(Remove(g, k), Remove(g, k)[r].parents) == ViewsAt(g, g[Survivors(g, k, |g|)[r]].parents)
  {
    SurvivorsSpec(g, k, |g|);
    assert Descends(g, k, k);
    RemoveShorter(g, k);
    RemoveParents(g, k);
  }

  /** Each survivor's renumbered parents are stored before it and show
      what its old parents showed. */
  lemma RemoveParents(g: seq<Entry>, k: nat)
    requires WellFormed(g) && k < |g|
    ensures forall r, q | 0 <= r < |Remove(g, k)| && 0 <= q < |Remove(g, k)[r].parents| ::
      && Remove(g, k)[r].parents[q] < r
      && Remove(g, k)[Remove(g, k)[r].parents[q]].view == g[g[Survivors(g, k, |g|)[r]].parents[q]].view
  {
    forall r, q | 0 <= r < |Remove(g, k)| && 0 <= q < |Remove(g, k)[r].parents|
      ensures Remove(g, k)[r].parents[q] < r
      ensures Remove(g, k)[Remove(g, k)[r].parents[q]].view == g[g[Survivors(g, k, |g|)[r]].parents[q]].view
    {
      RemoveLink(g, k, r, q);
    }
  }

  /** The target itself is removed, so the sequence gets shorter. */
  lemma RemoveShorter(g: seq<Entry>, k: nat)
    requires k < |g|
    ensures |Survivors(g, k, |g|)| < |g|
  {
    assert Descends(g, k, k);
    SurvivorsLength(g, k, k);
    assert Survivors(g, k, k + 1) == Survivors(g, k, k);
    SurvivorsSkip(g, k, k + 1, |g|);
  }

  /** Parent q of survivor r is itself a survivor, stored before r in the
      shortened sequence. */
  lemma RemoveLink(g: seq<Entry>, k: nat, r: nat, q: nat)
    requires WellFormed(g)
    requires r < |Survivors(g, k, |g|)|
    requires q < |g[Survivors(g, k, |g|)[r]].parents|
    ensures Rank(g, k, g[Survivors(g, k, |g|)[r]].parents[q]) < r
    ensures Survivors(g, k, |g|)[Rank(g, k, g[Survivors(g, k, |g|)[r]].parents[q])] == g[Survivors(g, k, |g|)[r]].parents[q]
  {
    var s := Survivors(g, k, |g|);
    var j := s[r];
    var p := g[j].parents[q];
    SurvivorsSpec(g, k, |g|);
    assert p < j;
    assert !Descends(g, p, k) by {
      assert j in s;
      assert !Descends(g, j, k);
    }
    SurvivorAtRank(g, k, |g|, p);
  }

  /** At most one survivor per position. */
  lemma {:induction false} SurvivorsLength(g: seq<Entry>, k: nat, n: nat)
    requires n <= |g|
    ensures |Survivors(g, k, n)| <= n
  {
    if n > 0 {
      SurvivorsLength(g, k, n - 1);
    }
  }

  /** From m on there are at most n - m further survivors. */
  lemma {:induction false} SurvivorsSkip(g: seq<Entry>, k: nat, m: nat, n: nat)
    requires m <= n <= |g|
    decreases n - m
    ensures |Survivors(g, k, n)| <= |Survivors(g, k, m)| + (n - m)
  {
    if m < n {
      SurvivorsSkip(g, k, m, n - 1);
    }
  }
}
