/** The construction container of GeoComponents.h: the stored constructions
    in storage order and the pid counter. Every method is proved against the
    value model of module Graph through Snapshot(). */
module Components {
  import opened Geometry
  import opened Steps
  import opened Nodes
  import G = Graph

  /** The unsigned -1 that get_pid returns when no construction carries the
      label. */
  const NoPid: nat := 0xFFFF_FFFF

  /** Storage positions within cs of the constructions ps. */
  ghost function Positions(cs: seq<Construction>, ps: seq<Construction>): (r: seq<nat>)
    requires forall p | p in ps :: p in cs
    ensures |r| == |ps|
    ensures forall q | 0 <= q < |ps| :: r[q] < |cs| && cs[r[q]] == ps[q]
  {
    if ps == [] then []
    else
      assert ps[0] in ps;
      var j :| 0 <= j < |cs| && cs[j] == ps[0];
      [j] + Positions(cs, ps[1..])
  }

  /** The constructions of cs at the positions s. */
  function Pick(cs: seq<Construction>, s: seq<nat>): (r: seq<Construction>)
    requires forall t | 0 <= t < |s| :: s[t] < |cs|
    ensures |r| == |s|
  {
    seq(|s|, t requires 0 <= t < |s| => cs[s[t]])
  }

  /** Every stored node is well formed and stored once, and each node's
      parents are stored before it, at the positions ls gives. None of this
      depends on the nodes' mutable state. */
  ghost predicate Linked(cs: seq<Construction>, ls: seq<seq<nat>>) {
    && |ls| == |cs|
    && (forall i | 0 <= i < |cs| :: cs[i].Valid())
    && (forall i, j | 0 <= i < j < |cs| :: cs[i].Obj() != cs[j].Obj())
    && (forall i | 0 <= i < |cs| :: |ls[i]| == |cs[i].Parents()|)
    && (forall i, q {:trigger ls[i][q]} | 0 <= i < |cs| && 0 <= q < |ls[i]| :: ls[i][q] < i && cs[ls[i][q]] == cs[i].Parents()[q])
  }

  /** The pids of cs in storage order. */
  ghost function Pids(cs: seq<Construction>): (r: seq<nat>)
    reads Objects(cs)
    ensures |r| == |cs|
  {
    seq(|cs|, i requires 0 <= i < |cs| reads Objects(cs) => cs[i].Pid())
  }

  /** The labels of cs in storage order. */
  ghost function Labels(cs: seq<Construction>): (r: seq<string>)
    reads Objects(cs)
    ensures |r| == |cs|
  {
    seq(|cs|, i requires 0 <= i < |cs| reads Objects(cs) => cs[i].Label())
  }

  /** Pids handed out in increasing order, each below the next one's, the
      last below the counter, and the counter below the unsigned -1. */
  predicate Ascending(pids: seq<nat>, nextPid: nat)
    decreases |pids|
  {
    && nextPid <= NoPid
    && (pids != [] ==> pids[|pids| - 1] < nextPid && Ascending(pids[..|pids| - 1], pids[|pids| - 1]))
  }

  /** The same requirement stated over all pairs of positions. */
  predicate Increasing(pids: seq<nat>, nextPid: nat) {
    && nextPid <= NoPid
    && (forall i, j | 0 <= i < j < |pids| :: pids[i] < pids[j])
    && (forall i | 0 <= i < |pids| :: pids[i] < nextPid)
  }

  /** The recursive numbering and the pairwise one agree. */
  lemma {:induction false} AscendingIncreasing(pids: seq<nat>, nextPid: nat)
    decreases |pids|
    ensures Ascending(pids, nextPid) <==> Increasing(pids, nextPid)
  {
    if pids != [] {
      var init, last := pids[..|pids| - 1], pids[|pids| - 1];
      AscendingIncreasing(init, last);
    }
  }

  /** The stored pids are numbered by the counter. */
  ghost predicate Numbered(cs: seq<Construction>, nextPid: nat)
    reads Objects(cs)
  {
    Ascending(Pids(cs), nextPid)
  }

  ghost predicate Stored(cs: seq<Construction>, ls: seq<seq<nat>>, nextPid: nat)
    reads Objects(cs)
  {
    Linked(cs, ls) && Numbered(cs, nextPid)
  }

  /** The constructions cs, linked by ls, as a value. */
  ghost function Entries(cs: seq<Construction>, ls: seq<seq<nat>>): (g: seq<G.Entry>)
    reads Objects(cs)
    ensures |g| == |cs|
  {
    seq(|cs|, i requires 0 <= i < |cs| reads Objects(cs) =>
      G.Entry(cs[i].Kind(), cs[i].Current(), if i < |ls| then ls[i] else []))
  }

  /** The value g has the links ls. */
  ghost predicate Shaped(g: seq<G.Entry>, ls: seq<seq<nat>>) {
    |g| == |ls| && forall i | 0 <= i < |g| :: g[i].parents == ls[i]
  }

  /** The links of the constructions at positions s, renumbered for the
      removal of the construction at k. */
  ghost function Relinked(g: seq<G.Entry>, k: nat, ls: seq<seq<nat>>, s: seq<nat>): (r: seq<seq<nat>>)
    requires forall t | 0 <= t < |s| :: s[t] < |ls|
    ensures |r| == |s|
  {
    seq(|s|, t requires 0 <= t < |s| => G.Relink(g, k, ls[s[t]]))
  }

  /** A value with the links of linked constructions is topological. */
  lemma ShapedWellFormed(cs: seq<Construction>, ls: seq<seq<nat>>, g: seq<G.Entry>)
    requires Linked(cs, ls) && Shaped(g, ls)
    ensures G.WellFormed(g)
  {
    forall i, q | 0 <= i < |g| && 0 <= q < |g[i].parents| ensures g[i].parents[q] < i {
      assert g[i].parents[q] == ls[i][q];
    }
  }

  /** The value is topological, and the parents each node reads in update()
      are the entries its links point to. */
  lemma EntriesSpec(cs: seq<Construction>, ls: seq<seq<nat>>)
    requires Linked(cs, ls)
    ensures G.WellFormed(Entries(cs, ls))
    ensures forall i | 0 <= i < |cs| :: Views(cs[i].Parents()) == G.ViewsAt(Entries(cs, ls), ls[i])
  {
    forall i | 0 <= i < |cs| ensures Views(cs[i].Parents()) == G.ViewsAt(Entries(cs, ls), ls[i]) {
      var ps := cs[i].Parents();
      forall q | 0 <= q < |ps| ensures Views(ps)[q] == G.ViewsAt(Entries(cs, ls), ls[i])[q] {
        ViewAt(ps, q);
      }
    }
  }

  /** One step of the marking scan: construction i has a marked parent
      exactly when it is derived from the target. */
  lemma MarkStep(cs: seq<Construction>, ls: seq<seq<nat>>, g: seq<G.Entry>, k: nat, i: nat, marked: set<object>)
    requires Linked(cs, ls) && Shaped(g, ls) && k < i < |cs|
    requires forall j | 0 <= j < |cs| :: cs[j].Obj() in marked <==> j < i && G.Descends(g, j, k)
    ensures (exists q | 0 <= q < |cs[i].Parents()| :: cs[i].Parents()[q].Obj() in marked)
        <==> G.Descends(g, i, k)
  {
    var ps := cs[i].Parents();
    assert g[i].parents == ls[i];
    if q :| 0 <= q < |ps| && ps[q].Obj() in marked {
      assert cs[ls[i][q]] == ps[q];
      assert g[i].parents[q] < i && G.Descends(g, g[i].parents[q], k);
    }
    if G.Descends(g, i, k) {
      var q :| 0 <= q < |g[i].parents| && g[i].parents[q] < i && G.Descends(g, g[i].parents[q], k);
      assert cs[ls[i][q]] == ps[q];
      assert ps[q].Obj() in marked;
    }
  }

  /** The node at i is stored nowhere else. */
  lemma StoredOnce(cs: seq<Construction>, ls: seq<seq<nat>>, i: nat)
    requires Linked(cs, ls) && i < |cs|
    ensures forall j | 0 <= j < |cs| && j != i :: cs[j].Obj() != cs[i].Obj()
  {
    forall j | 0 <= j < |cs| && j != i ensures cs[j].Obj() != cs[i].Obj() {
      if j < i {
        assert cs[j].Obj() != cs[i].Obj();
      }
    }
  }

  /** Erasing the marked constructions keeps every survivor's parents
      stored before it, at the renumbered positions. */
  lemma RemoveLinked(cs: seq<Construction>, ls: seq<seq<nat>>, g: seq<G.Entry>, k: nat,
                     kept: seq<Construction>, keptLinks: seq<seq<nat>>)
    requires Linked(cs, ls) && Shaped(g, ls) && k < |cs|
    requires kept == Pick(cs, G.Survivors(g, k, |cs|))
    requires keptLinks == Relinked(g, k, ls, G.Survivors(g, k, |cs|))
    ensures Linked(kept, keptLinks)
  {
    var s := G.Survivors(g, k, |cs|);
    assert forall t1, t2 | 0 <= t1 < t2 < |s| :: s[t1] < s[t2] by {
      G.SurvivorsSpec(g, k, |cs|);
    }
    PickDistinct(cs, s);
    KeptLinks(cs, ls, g, k, kept, keptLinks);
  }

  /** A subsequence in storage order of distinct well-formed nodes is made
      of distinct well-formed nodes. */
  lemma PickDistinct(cs: seq<Construction>, s: seq<nat>)
    requires forall i | 0 <= i < |cs| :: cs[i].Valid()
    requires forall i, j | 0 <= i < j < |cs| :: cs[i].Obj() != cs[j].Obj()
    requires forall t | 0 <= t < |s| :: s[t] < |cs|
    requires forall t1, t2 | 0 <= t1 < t2 < |s| :: s[t1] < s[t2]
    ensures forall r | 0 <= r < |Pick(cs, s)| :: Pick(cs, s)[r].Valid()
    ensures forall r1, r2 | 0 <= r1 < r2 < |Pick(cs, s)| :: Pick(cs, s)[r1].Obj() != Pick(cs, s)[r2].Obj()
  {
    var kept := Pick(cs, s);
    forall r1, r2 | 0 <= r1 < r2 < |kept| ensures kept[r1].Obj() != kept[r2].Obj() {
      assert kept[r1] == cs[s[r1]] && kept[r2] == cs[s[r2]];
    }
  }

  /** Each survivor's renumbered links point at its parents among the
      survivors, all stored before it. */
  lemma KeptLinks(cs: seq<Construction>, ls: seq<seq<nat>>, g: seq<G.Entry>, k: nat,
                  kept: seq<Construction>, keptLinks: seq<seq<nat>>)
    requires Linked(cs, ls) && Shaped(g, ls) && k < |cs|
    requires kept == Pick(cs, G.Survivors(g, k, |cs|))
    requires keptLinks == Relinked(g, k, ls, G.Survivors(g, k, |cs|))
    ensures forall r | 0 <= r < |kept| :: |keptLinks[r]| == |kept[r].Parents()|
    ensures forall r, q {:trigger keptLinks[r][q]} | 0 <= r < |kept| && 0 <= q < |keptLinks[r]| ::
      keptLinks[r][q] < r && kept[keptLinks[r][q]] == kept[r].Parents()[q]
  {
    var s := G.Survivors(g, k, |cs|);
    ShapedWellFormed(cs, ls, g);
    forall r, q | 0 <= r < |kept| && 0 <= q < |keptLinks[r]|
      ensures keptLinks[r][q] < r && kept[keptLinks[r][q]] == kept[r].Parents()[q]
    {
      assert g[s[r]].parents == ls[s[r]];
      G.RemoveLink(g, k, r, q);
    }
  }

  /** A subsequence in storage order keeps the pids increasing. */
  lemma PickNumbered(cs: seq<Construction>, n: nat, s: seq<nat>)
    requires Numbered(cs, n)
    requires forall t | 0 <= t < |s| :: s[t] < |cs|
    requires forall t1, t2 | 0 <= t1 < t2 < |s| :: s[t1] < s[t2]
    ensures Objects(Pick(cs, s)) <= Objects(cs)
    ensures Numbered(Pick(cs, s), n)
  {
    var kept := Pick(cs, s);
    forall o | o in Objects(kept) ensures o in Objects(cs) {
      var r :| 0 <= r < |kept| && kept[r].Obj() == o;
      assert cs[s[r]].Obj() == o;
    }
    AscendingIncreasing(Pids(cs), n);
    AscendingIncreasing(Pids(kept), n);
    forall r | 0 <= r < |kept| ensures Pids(kept)[r] == Pids(cs)[s[r]] {
      assert kept[r] == cs[s[r]];
    }
  }

  /** What is left after erasing is the value model's removal. */
  lemma RemoveEntries(cs: seq<Construction>, ls: seq<seq<nat>>, g: seq<G.Entry>, k: nat,
                      kept: seq<Construction>, keptLinks: seq<seq<nat>>)
    requires Linked(cs, ls) && g == Entries(cs, ls) && k < |cs|
    requires kept == Pick(cs, G.Survivors(g, k, |cs|))
    requires keptLinks == Relinked(g, k, ls, G.Survivors(g, k, |cs|))
    ensures Entries(kept, keptLinks) == G.Remove(g, k)
  {
    var s := G.Survivors(g, k, |cs|);
    forall r | 0 <= r < |kept| ensures Entries(kept, keptLinks)[r] == G.Remove(g, k)[r] {
      assert g[s[r]].parents == ls[s[r]];
    }
  }

  /** Erasing the constructions derived from the one at k from stored
      constructions leaves stored constructions whose value is the value
      model's removal. */
  lemma RemovePlan(cs: seq<Construction>, ls: seq<seq<nat>>, n: nat, g: seq<G.Entry>, k: nat)
    requires Stored(cs, ls, n) && g == Entries(cs, ls) && k < |cs|
    ensures Objects(Pick(cs, G.Survivors(g, k, |cs|))) <= Objects(cs)
    ensures Stored(Pick(cs, G.Survivors(g, k, |cs|)), Relinked(g, k, ls, G.Survivors(g, k, |cs|)), n)
    ensures Entries(Pick(cs, G.Survivors(g, k, |cs|)), Relinked(g, k, ls, G.Survivors(g, k, |cs|))) == G.Remove(g, k)
  {
    var s := G.Survivors(g, k, |cs|);
    var kept, keptLinks := Pick(cs, s), Relinked(g, k, ls, s);
    assert forall t1, t2 | 0 <= t1 < t2 < |s| :: s[t1] < s[t2] by {
      G.SurvivorsSpec(g, k, |cs|);
    }
    RemoveLinked(cs, ls, g, k, kept, keptLinks);
    RemoveEntries(cs, ls, g, k, kept, keptLinks);
    PickNumbered(cs, n, s);
  }

  /** Appending a node whose parents are stored keeps the links. */
  lemma AppendLinked(cs: seq<Construction>, ls: seq<seq<nat>>, geo: Construction, l: seq<nat>)
    requires Linked(cs, ls) && geo.Valid() && geo.Obj() !in Objects(cs)
    requires |l| == |geo.Parents()|
    requires forall q | 0 <= q < |l| :: l[q] < |cs| && cs[l[q]] == geo.Parents()[q]
    ensures Linked(cs + [geo], ls + [l])
  {
    var cs', ls' := cs + [geo], ls + [l];
    forall i, j | 0 <= i < j < |cs'| ensures cs'[i].Obj() != cs'[j].Obj() {
      if j == |cs| {
        assert cs'[i] == cs[i];
      }
    }
    forall i, q | 0 <= i < |cs'| && 0 <= q < |ls'[i]|
      ensures ls'[i][q] < i && cs'[ls'[i][q]] == cs'[i].Parents()[q]
    {
      if i < |cs| {
        assert ls'[i] == ls[i] && cs'[i] == cs[i] && cs'[ls[i][q]] == cs[ls[i][q]];
      } else {
        assert ls'[i] == l && cs'[l[q]] == cs[l[q]];
      }
    }
  }

  /** Appending a node with the counter's pid keeps the numbering. */
  lemma AppendNumbered(cs: seq<Construction>, n: nat, geo: Construction)
    requires Numbered(cs, n) && geo.Pid() == n < NoPid
    ensures Numbered(cs + [geo], n + 1)
  {
    var cs' := cs + [geo];
    assert Pids(cs')[..|cs|] == Pids(cs) by {
      forall i | 0 <= i < |cs| ensures Pids(cs')[i] == Pids(cs)[i] {
        assert cs'[i] == cs[i];
      }
    }
  }

  /** Appending a node appends its entry to the value. */
  lemma AppendEntries(cs: seq<Construction>, ls: seq<seq<nat>>, geo: Construction, l: seq<nat>)
    requires |ls| == |cs|
    ensures Objects(cs + [geo]) == Objects(cs) + {geo.Obj()}
    ensures Entries(cs + [geo], ls + [l]) == Entries(cs, ls) + [G.Entry(geo.Kind(), geo.Current(), l)]
  {
    var cs', ls' := cs + [geo], ls + [l];
    assert Objects(cs') == Objects(cs) + {geo.Obj()} by {
      assert cs'[|cs|] == geo;
      forall o | o in Objects(cs) ensures o in Objects(cs') {
        var i :| 0 <= i < |cs| && cs[i].Obj() == o;
        assert cs'[i] == cs[i];
      }
    }
    forall i | 0 <= i < |cs| ensures Entries(cs', ls')[i] == Entries(cs, ls)[i] {
      assert cs'[i] == cs[i] && ls'[i] == ls[i];
    }
  }

  /** set_label on a node that is not stored yet, together with the pid
      it is about to receive; nothing stored changes. */
  method Label(geo: Construction, ghost cs: seq<Construction>, ghost ls: seq<seq<nat>>, pid: nat, newLabel: string)
    requires geo.Obj() !in Objects(cs)
    modifies geo.Obj()
    ensures Pids(cs) == old(Pids(cs)) && Entries(cs, ls) == old(Entries(cs, ls))
    ensures geo.Label() == newLabel && geo.Pid() == pid && geo.Current() == old(geo.Current())
  {
    geo.Register(newLabel, pid);
  }

  /** mutate(data) on the construction stored at k: its entry takes the
      mutated view, read against the values its parents have now; every
      label and pid stays. */
  method MutateAt(cs: seq<Construction>, ghost ls: seq<seq<nat>>, k: nat, data: seq<real>, env: Env)
    requires Linked(cs, ls) && k < |cs| && |data| >= Width(cs[k].Kind())
    modifies cs[k].Obj()
    ensures Entries(cs, ls) == old(Entries(cs, ls))[k := old(Entries(cs, ls))[k].(view :=
      MutateStep(cs[k].Kind(), data, G.ViewsAt(old(Entries(cs, ls)), ls[k]), env))]
    ensures Pids(cs) == old(Pids(cs)) && Labels(cs) == old(Labels(cs))
  {
    EntriesSpec(cs, ls);
    cs[k].Mutate(data, env);
    forall j | 0 <= j < |cs| && j != k
      ensures cs[j].Current() == old(cs[j].Current()) && cs[j].Pid() == old(cs[j].Pid()) && cs[j].Label() == old(cs[j].Label())
    {
      assert cs[j].Obj() != cs[k].Obj();
    }
  }

  /** update() on the construction stored at i: its entry is refreshed from
      its parents' entries; every label and pid stays. */
  method UpdateAt(cs: seq<Construction>, ghost ls: seq<seq<nat>>, i: nat, env: Env)
    requires Linked(cs, ls) && i < |cs|
    modifies cs[i].Obj()
    ensures Entries(cs, ls) == G.Refresh(old(Entries(cs, ls)), i, env)
    ensures Pids(cs) == old(Pids(cs)) && Labels(cs) == old(Labels(cs))
  {
    EntriesSpec(cs, ls);
    cs[i].Update(env);
    forall j | 0 <= j < |cs| && j != i
      ensures cs[j].Current() == old(cs[j].Current()) && cs[j].Pid() == old(cs[j].Pid()) && cs[j].Label() == old(cs[j].Label())
    {
      assert cs[j].Obj() != cs[i].Obj();
    }
  }

  /** The propagation pass of edit_construction on the stored constructions
      cs: mutate(data) on the one at k, then update() on every one after it,
      in storage order. The stored value becomes the value model's edit. */
  method Propagate(cs: seq<Construction>, ghost ls: seq<seq<nat>>, k: nat, data: seq<real>, env: Env)
    requires Linked(cs, ls) && k < |cs| && |data| >= Width(cs[k].Kind())
    modifies Objects(cs)
    ensures Entries(cs, ls) == G.Edit(old(Entries(cs, ls)), k, data, env)
    ensures Pids(cs) == old(Pids(cs)) && Labels(cs) == old(Labels(cs))
  {
    ghost var g := Entries(cs, ls);
    ghost var edited := G.Edit(g, k, data, env);
    MutateAt(cs, ls, k, data, env);
    assert G.Replay(Entries(cs, ls), k + 1, env) == edited;
    var i := k + 1;
    while i < |cs|
      invariant k + 1 <= i <= |cs|
      invariant Pids(cs) == old(Pids(cs)) && Labels(cs) == old(Labels(cs))
      invariant G.Replay(Entries(cs, ls), i, env) == edited
    {
      ghost var before := Entries(cs, ls);
      UpdateAt(cs, ls, i, env);
      G.ReplayAdvance(before, Entries(cs, ls), i, env);
      i := i + 1;
    }
  }

  /** The first position at or after i holding a construction with that
      pid, if any. */
  function Find(cs: seq<Construction>, pid: nat, i: nat): (k: Option<nat>)
    reads Objects(cs)
    decreases |cs| - i
    ensures k.None? <==> forall j | i <= j < |cs| :: cs[j].Pid() != pid
    ensures k.Some? ==> i <= k.value < |cs| && cs[k.value].Pid() == pid
    ensures k.Some? ==> forall j | i <= j < k.value :: cs[j].Pid() != pid
  {
    if i >= |cs| then None
    else if cs[i].Pid() == pid then Some(i)
    else Find(cs, pid, i + 1)
  }

  /** Pids are distinct, so the construction with a given pid is unique. */
  lemma PidUnique(cs: seq<Construction>, n: nat, i: nat, j: nat)
    requires Numbered(cs, n) && i < |cs| && j < |cs| && cs[i].Pid() == cs[j].Pid()
    ensures i == j
  {
    AscendingIncreasing(Pids(cs), n);
    assert Pids(cs)[i] == cs[i].Pid() && Pids(cs)[j] == cs[j].Pid();
  }

  /** The container is not one of the nodes it stores. */
  lemma NotStored(cs: seq<Construction>, c: GeoComponents)
    ensures c !in Objects(cs)
  {
  }

  class GeoComponents {
    var geoComponents: seq<Construction>
    var nextPid: nat
    /** For each stored construction, the storage positions of its parents. */
    ghost var links: seq<seq<nat>>

    /** The container invariant: see Stored. */
    ghost predicate Valid()
      reads this, Objects(geoComponents)
    {
      Stored(geoComponents, links, nextPid)
    }

    /** The stored constructions as a value. */
    ghost function Snapshot(): (g: seq<G.Entry>)
      reads this, Objects(geoComponents)
      ensures |g| == |geoComponents|
    {
      Entries(geoComponents, links)
    }

    /** GeoComponents(): nothing stored, next_pid at 0. */
    constructor ()
      ensures Valid()
      ensures geoComponents == [] && nextPid == 0
    {
      geoComponents, nextPid, links := [], 0, [];
    }

    /** get_construction(pid): the construction with that pid, or None (the
        null pointer) when there is none. */
    method GetConstruction(pid: nat) returns (c: Option<Construction>)
      requires Valid()
      ensures c.None? <==> forall i | 0 <= i < |geoComponents| :: geoComponents[i].Pid() != pid
      ensures c.Some? ==> c.value in geoComponents && c.value.Pid() == pid
    {
      var k := Find(geoComponents, pid, 0);
      if k.Some? {
        c := Some(geoComponents[k.value]);
      } else {
        c := None;
      }
    }

    /** get_pid(label): the pid of the first construction in storage order
        carrying that label, or the unsigned -1 when none does. */
    method GetPid(name: string) returns (pid: nat)
      requires Valid()
      ensures pid == NoPid <==> forall i | 0 <= i < |geoComponents| :: geoComponents[i].Label() != name
      ensures pid != NoPid ==>
        exists i | 0 <= i < |geoComponents| ::
          && geoComponents[i].Label() == name && geoComponents[i].Pid() == pid
          && forall j | 0 <= j < i :: geoComponents[j].Label() != name
    {
      AscendingIncreasing(Pids(geoComponents), nextPid);
      var i := 0;
      while i < |geoComponents|
        invariant 0 <= i <= |geoComponents|
        invariant forall j | 0 <= j < i :: geoComponents[j].Label() != name
      {
        if geoComponents[i].Label() == name {
          assert Pids(geoComponents)[i] == geoComponents[i].Pid();
          return geoComponents[i].Pid();
        }
        i := i + 1;
      }
      return NoPid;
    }

    /** add_construction(geo, label): set the label, hand out next_pid and
        append at the back. The parents must already be stored, which keeps
        the storage order topological; earlier entries are untouched. */
    method Add(geo: Construction, newLabel: string)
      requires Valid() && geo.Valid()
      requires geo.Obj() !in Objects(geoComponents)
      requires forall p | p in geo.Parents() :: p in geoComponents
      requires nextPid < NoPid
      modifies this, geo.Obj()
      ensures Valid()
      ensures geoComponents == old(geoComponents) + [geo]
      ensures nextPid == old(nextPid) + 1
      ensures geo.Label() == newLabel && geo.Pid() == old(nextPid)
      ensures Snapshot() == old(Snapshot()) + [G.Entry(geo.Kind(), old(geo.Current()), links[|links| - 1])]
    {
      ghost var cs, ls, l := geoComponents, links, Positions(geoComponents, geo.Parents());
      ghost var g, pids, current := Entries(cs, ls), Pids(cs), geo.Current();
      var pid := nextPid;
      NotStored(cs, this);
      Label(geo, cs, ls, pid, newLabel);
      AppendLinked(cs, ls, geo, l);
      AppendNumbered(cs, pid, geo);
      AppendEntries(cs, ls, geo, l);
      Install(geoComponents + [geo], ls + [l], pid + 1, Pids(cs + [geo]), g + [G.Entry(geo.Kind(), current, l)]);
    }

    /** edit_construction(pid, data): mutate(data) on the construction with
        that pid, then update() on every construction stored after it, in
        order. Nothing happens when no construction has that pid. */
    method Edit(pid: nat, data: seq<real>, env: Env)
      requires Valid()
      requires forall k | 0 <= k < |geoComponents| && geoComponents[k].Pid() == pid ::
        |data| >= Width(geoComponents[k].Kind())
      modifies Objects(geoComponents)
      ensures Valid()
      ensures geoComponents == old(geoComponents) && nextPid == old(nextPid) && links == old(links)
      ensures Pids(geoComponents) == old(Pids(geoComponents)) && Labels(geoComponents) == old(Labels(geoComponents))
      ensures (forall k | 0 <= k < |geoComponents| :: geoComponents[k].Pid() != pid) ==> Snapshot() == old(Snapshot())
      ensures forall k | 0 <= k < |geoComponents| && old(geoComponents[k].Pid()) == pid ::
        Snapshot() == G.Edit(old(Snapshot()), k, data, env)
    {
      ghost var cs, ls := geoComponents, links;
      ghost var pids, labels, g := Pids(cs), Labels(cs), Entries(cs, ls);
      NotStored(cs, this);
      var found := Find(geoComponents, pid, 0);
      if found.None? {
        return;
      }
      var k := found.value;
      forall j | 0 <= j < |cs| && cs[j].Pid() == pid ensures j == k {
        PidUnique(cs, nextPid, j, k);
      }
      assert pids[k] == pid;
      Propagate(geoComponents, links, k, data, env);
      assert geoComponents[k].Pid() == Pids(cs)[k];
    }

    /** remove_construction(pid): one forward scan from the target marks it
        and every construction with a marked parent; then every marked
        construction is erased, the others keeping their order and pids.
        Nothing happens when no construction has that pid. */
    method Remove(pid: nat)
      requires Valid()
      modifies this
      ensures Valid()
      ensures nextPid == old(nextPid)
      ensures (forall k | 0 <= k < |old(geoComponents)| :: old(geoComponents[k].Pid()) != pid) ==>
        geoComponents == old(geoComponents) && Snapshot() == old(Snapshot())
      ensures forall k | 0 <= k < |old(geoComponents)| && old(geoComponents[k].Pid()) == pid ::
        && Snapshot() == G.Remove(old(Snapshot()), k)
        && geoComponents == Pick(old(geoComponents), G.Survivors(old(Snapshot()), k, |old(geoComponents)|))
    {
      var found := Find(geoComponents, pid, 0);
      if found.None? {
        return;
      }
      var k := found.value;
      forall j | 0 <= j < |geoComponents| && geoComponents[j].Pid() == pid ensures j == k {
        PidUnique(geoComponents, nextPid, j, k);
      }
      RemoveAt(k);
    }

    /** The cascade of remove_construction on the construction stored at k. */
    method RemoveAt(k: nat)
      requires Valid() && k < |geoComponents|
      modifies this
      ensures Valid()
      ensures nextPid == old(nextPid)
      ensures Snapshot() == G.Remove(old(Snapshot()), k)
      ensures geoComponents == Pick(old(geoComponents), G.Survivors(old(Snapshot()), k, |old(geoComponents)|))
    {
      ghost var cs, g := geoComponents, Snapshot();
      NotStored(cs, this);
      var kept, keptLinks := Erase(geoComponents, links, nextPid, Pids(geoComponents), g, k);
      Install(kept, keptLinks, nextPid, Pids(kept), Entries(kept, keptLinks));
    }

    /** Stores cs, linked by ls, with n as the next pid. */
    method Install(cs: seq<Construction>, ghost ls: seq<seq<nat>>, n: nat, ghost pids: seq<nat>, ghost entries: seq<G.Entry>)
      requires this !in Objects(cs) && Linked(cs, ls)
      requires Pids(cs) == pids && Ascending(pids, n) && Entries(cs, ls) == entries
      modifies this
      ensures geoComponents == cs && links == ls && nextPid == n
      ensures Valid() && Snapshot() == entries
    {
      geoComponents, links, nextPid := cs, ls, n;
      assert Pids(cs) == pids && Entries(cs, ls) == entries;
    }
  }

  /** Whether some construction of ps is marked. */
  method AnyMarked(ps: seq<Construction>, marked: set<object>) returns (b: bool)
    ensures b <==> exists q | 0 <= q < |ps| :: ps[q].Obj() in marked
  {
    var q := 0;
    while q < |ps|
      invariant 0 <= q <= |ps|
      invariant forall t | 0 <= t < q :: ps[t].Obj() !in marked
    {
      if ps[q].Obj() in marked {
        return true;
      }
      q := q + 1;
    }
    return false;
  }

  /** The first pass of remove_construction on the stored constructions cs,
      whose value is g: the target at k, and every construction after it
      with a marked parent, marked in storage order. Exactly the
      constructions derived from the target are marked. */
  method Mark(cs: seq<Construction>, ghost ls: seq<seq<nat>>, ghost g: seq<G.Entry>, k: nat) returns (marked: set<object>)
    requires Linked(cs, ls) && Shaped(g, ls) && k < |cs|
    ensures forall j | 0 <= j < |cs| :: cs[j].Obj() in marked <==> G.Descends(g, j, k)
  {
    marked := {cs[k].Obj()};
    forall j | 0 <= j < k ensures !G.Descends(g, j, k) {
      if G.Descends(g, j, k) {
        G.DescendsFromEarlier(g, j, k);
      }
    }
    assert G.Descends(g, k, k);
    var i := k + 1;
    while i < |cs|
      invariant k + 1 <= i <= |cs|
      invariant forall j | 0 <= j < |cs| :: cs[j].Obj() in marked <==> j < i && G.Descends(g, j, k)
    {
      var derived := AnyMarked(cs[i].Parents(), marked);
      MarkStep(cs, ls, g, k, i, marked);
      StoredOnce(cs, ls, i);
      if derived {
        marked := marked + {cs[i].Obj()};
      }
      i := i + 1;
    }
  }

  /** Both passes of remove_construction: the survivors of removing the
      construction at k, in storage order, with their parents' positions
      renumbered. They are stored constructions again, and their value is
      the value model's removal. */
  method Erase(cs: seq<Construction>, ghost ls: seq<seq<nat>>, ghost n: nat, ghost pids: seq<nat>, ghost g: seq<G.Entry>, k: nat)
    returns (kept: seq<Construction>, ghost keptLinks: seq<seq<nat>>)
    requires Linked(cs, ls) && Pids(cs) == pids && Ascending(pids, n)
    requires g == Entries(cs, ls) && k < |cs|
    ensures kept == Pick(cs, G.Survivors(g, k, |cs|))
    ensures keptLinks == Relinked(g, k, ls, G.Survivors(g, k, |cs|))
    ensures Objects(kept) <= Objects(cs)
    ensures Stored(kept, keptLinks, n) && Entries(kept, keptLinks) == G.Remove(g, k)
  {
    assert forall o | o in Objects(cs) :: allocated(o);
    var marked := Mark(cs, ls, g, k);
    kept, keptLinks := Sweep(cs, ls, g, k, marked);
    assert Entries(cs, ls) == g && Pids(cs) == pids;
    RemovePlan(cs, ls, n, g, k);
  }

  /** One step of the sweep: the construction at i is dropped if it is
      derived from k, and otherwise kept with its renumbered links. */
  lemma SweepStep(cs: seq<Construction>, ls: seq<seq<nat>>, g: seq<G.Entry>, k: nat, i: nat)
    requires |g| == |cs| == |ls| && i < |cs|
    ensures G.Descends(g, i, k) ==> G.Survivors(g, k, i + 1) == G.Survivors(g, k, i)
    ensures !G.Descends(g, i, k) ==>
      && Pick(cs, G.Survivors(g, k, i + 1)) == Pick(cs, G.Survivors(g, k, i)) + [cs[i]]
      && Relinked(g, k, ls, G.Survivors(g, k, i + 1)) == Relinked(g, k, ls, G.Survivors(g, k, i)) + [G.Relink(g, k, ls[i])]
  {
    var s := G.Survivors(g, k, i);
    if !G.Descends(g, i, k) {
      assert G.Survivors(g, k, i + 1) == s + [i];
      assert (s + [i])[..|s|] == s;
    }
  }

  /** The second pass of remove_construction: the unmarked constructions in
      storage order, which are the survivors of the removal, with their
      parents' positions renumbered. */
  method Sweep(cs: seq<Construction>, ghost ls: seq<seq<nat>>, ghost g: seq<G.Entry>, k: nat, marked: set<object>)
    returns (kept: seq<Construction>, ghost keptLinks: seq<seq<nat>>)
    requires |g| == |cs| && Shaped(g, ls) && k < |cs|
    requires forall j | 0 <= j < |cs| :: cs[j].Obj() in marked <==> G.Descends(g, j, k)
    ensures kept == Pick(cs, G.Survivors(g, k, |cs|))
    ensures keptLinks == Relinked(g, k, ls, G.Survivors(g, k, |cs|))
  {
    kept, keptLinks := [], [];
    var i := 0;
    while i < |cs|
      invariant 0 <= i <= |cs|
      invariant kept == Pick(cs, G.Survivors(g, k, i))
      invariant keptLinks == Relinked(g, k, ls, G.Survivors(g, k, i))
    {
      SweepStep(cs, ls, g, k, i);
      if cs[i].Obj() !in marked {
        kept := kept + [cs[i]];
        keptLinks := keptLinks + [G.Relink(g, k, ls[i])];
      }
      i := i + 1;
    }
  }
}
