/**
 * `PluginManager`: the known and loaded plugin sets of one shared target,
 * the load check, and the cascading unload.
 *
 * Both sets are insertion-ordered hash sets; they are modelled as sequences
 * without duplicates (`Seqs.Insert` adds, `Seqs.Without` removes). The target
 * is the test fixture's list of applied plugins.
 *
 * The unload cascade of the source recurses with no guard against dependency
 * cycles. The invariant `Inv` below holds from construction on and rules such
 * cycles out: every dependency of a loaded plugin was known earlier than the
 * plugin itself. The cascade therefore terminates, measured by the position in
 * `known` of the first plugin holding the unloaded identity.
 */
module PluginManagers {
  import opened Seqs
  import opened Requirements
  import opened Plugins

  datatype Manager = Manager(target: Target, known: seq<Plugin>, loaded: seq<Plugin>)

  /** Some plugin of `ls` satisfies the requirement. */
  predicate Met(r: Requirement, ls: seq<Plugin>) {
    exists q | q in ls :: Matches(r, q.descriptor)
  }

  /** No plugin of `ks` holds identity `id`. */
  predicate IdFree(ks: seq<Plugin>, id: string) {
    forall k | k in ks :: Id(k) != id
  }

  /** `canLoad`: no known plugin shares the identity, and every requirement is
      met by a loaded plugin. */
  function CanLoad(m: Manager, p: Plugin): (b: bool)
    ensures b ==> p !in m.known
  {
    IdFree(m.known, Id(p)) && forall r | r in p.requirements :: Met(r, m.loaded)
  }

  /** `isLoaded`. Under the invariant, a loaded plugin is known and so can
      never be loaded a second time. */
  function IsLoaded(m: Manager, p: Plugin): (b: bool)
    ensures Inv(m) && b ==> p in m.known && !CanLoad(m, p)
  {
    p in m.loaded
  }

  /** `load`: apply and record as loaded when loadable; record as known always. */
  function Load(m: Manager, p: Plugin): (r: Manager)
    ensures p in r.known
    ensures IsLoaded(r, p) <==> CanLoad(m, p) || IsLoaded(m, p)
  {
    var m1 := if CanLoad(m, p) then m.(target := ApplyTo(m.target, p), loaded := Insert(m.loaded, p)) else m;
    m1.(known := Insert(m1.known, p))
  }

  // ---------------------------------------------------------------------------
  // The invariant
  // ---------------------------------------------------------------------------

  /** Position in `ks` of the first plugin holding identity `id`, or `|ks|`. */
  ghost function IdRank(ks: seq<Plugin>, id: string): (i: nat)
    ensures i <= |ks|
    ensures i < |ks| ==> Id(ks[i]) == id
    ensures forall j | 0 <= j < i :: Id(ks[j]) != id
  {
    if |ks| == 0 then 0
    else if Id(ks[0]) == id then 0
    else 1 + IdRank(ks[1..], id)
  }

  /** Both sets are sets, and every loaded plugin is known. */
  ghost predicate Bookkept(m: Manager) {
    NoDup(m.known) && NoDup(m.loaded) && forall q | q in m.loaded :: q in m.known
  }

  /** A loaded plugin is the first known plugin of its identity. */
  ghost predicate FirstHolders(m: Manager) {
    forall q | q in m.loaded :: IdRank(m.known, Id(q)) == IndexOf(m.known, q)
  }

  /** Every requirement of a loaded plugin is met by a loaded plugin. */
  ghost predicate Satisfied(m: Manager) {
    forall q, r | q in m.loaded && r in q.requirements :: Met(r, m.loaded)
  }

  /** A loaded plugin became known after every loaded plugin it depends on. */
  ghost predicate Ordered(m: Manager) {
    forall d, q | d in m.loaded && q in m.loaded && DependsOn(d, q) :: IndexOf(m.known, q) < IndexOf(m.known, d)
  }

  ghost predicate Inv(m: Manager) {
    Bookkept(m) && FirstHolders(m) && Satisfied(m) && Ordered(m)
  }

  /** No plugin of `ls` depends on `x`. */
  ghost predicate NoneDependOn(ls: seq<Plugin>, x: Plugin) {
    forall d | d in ls :: !DependsOn(d, x)
  }

  /** No plugin of `after` depends on a plugin of `before` that is gone from it. */
  ghost predicate Detached(after: seq<Plugin>, before: seq<Plugin>) {
    forall x | x in before && x !in after :: NoneDependOn(after, x)
  }

  /** `new PluginManager(target)`: nothing known, nothing loaded. */
  function New(target: Target): (m: Manager)
    ensures Inv(m) && m.target == target
    ensures forall p :: !IsLoaded(m, p)
  {
    Manager(target, [], [])
  }

  /** On a fresh manager exactly the plugins without requirements can load. */
  lemma NewCanLoad(target: Target, p: Plugin)
    ensures CanLoad(New(target), p) <==> p.requirements == []
  {
    if p.requirements != [] {
      assert p.requirements[0] in p.requirements;
    }
  }

  /** Two distinct loaded plugins never share an identity. */
  lemma DistinctIds(m: Manager, p: Plugin, q: Plugin)
    requires Inv(m) && p in m.loaded && q in m.loaded && Id(p) == Id(q)
    ensures p == q
  {
  }

  /** A loaded plugin's dependency holds an identity whose first holder became
      known strictly before the dependent's. */
  lemma DependencyRanksLower(m: Manager, p: Plugin, d: Plugin)
    requires Inv(m) && d in m.loaded && DependsOn(d, p)
    ensures IdRank(m.known, Id(p)) < IdRank(m.known, Id(d))
  {
    var r :| r in d.requirements && Matches(r, p.descriptor);
    assert Met(r, m.loaded);
    var x :| x in m.loaded && Matches(r, x.descriptor);
    DependsOnSameId(d, p, r);
    DependsOnSameId(d, x, r);
  }

  lemma DependentsRankHigher(m: Manager, p: Plugin)
    requires Inv(m)
    ensures forall d | d in m.loaded && DependsOn(d, p) :: IdRank(m.known, Id(p)) < IdRank(m.known, Id(d))
  {
    forall d | d in m.loaded && DependsOn(d, p)
      ensures IdRank(m.known, Id(p)) < IdRank(m.known, Id(d))
    {
      DependencyRanksLower(m, p, d);
    }
  }

  /** Dropping loaded plugins keeps the invariant, provided no survivor depends
      on a dropped plugin. */
  lemma ShrinkKeepsInv(m: Manager, r: Manager)
    requires Inv(m) && r.known == m.known && NoDup(r.loaded)
    requires forall q | q in r.loaded :: q in m.loaded
    requires Detached(r.loaded, m.loaded)
    ensures Inv(r)
  {
    forall q, req | q in r.loaded && req in q.requirements
      ensures Met(req, r.loaded)
    {
      assert Met(req, m.loaded);
      var x :| x in m.loaded && Matches(req, x.descriptor);
      assert DependsOn(q, x);
    }
  }

  // ---------------------------------------------------------------------------
  // Load
  // ---------------------------------------------------------------------------

  /** A plugin holding an identity no known plugin holds is not known itself. */
  lemma IdFreeNotKnown(m: Manager, p: Plugin)
    requires IdFree(m.known, Id(p))
    ensures p !in m.known && IdRank(m.known, Id(p)) == |m.known|
  {
  }

  lemma {:induction false} IdRankAppend(ks: seq<Plugin>, x: Plugin, id: string)
    requires IdRank(ks, id) < |ks|
    ensures IdRank(ks + [x], id) == IdRank(ks, id)
  {
    if Id(ks[0]) != id {
      assert (ks + [x])[1..] == ks[1..] + [x];
      IdRankAppend(ks[1..], x, id);
    }
  }

  lemma {:induction false} IdRankAppendFresh(ks: seq<Plugin>, x: Plugin)
    requires IdFree(ks, Id(x))
    ensures IdRank(ks + [x], Id(x)) == |ks|
  {
    if |ks| > 0 {
      assert (ks + [x])[1..] == ks[1..] + [x];
      IdRankAppendFresh(ks[1..], x);
    }
  }

  /** Appending a new plugin to `known` keeps the invariant of the loaded
      plugins that were already there. */
  lemma AppendKnownKeepsInv(m: Manager, p: Plugin)
    requires Inv(m) && p !in m.known
    ensures Inv(m.(known := m.known + [p]))
  {
    var k := m.known + [p];
    forall q | q in m.loaded
      ensures IdRank(k, Id(q)) == IndexOf(m.known, q) && IndexOf(k, q) == IndexOf(m.known, q)
    {
      IdRankAppend(m.known, p, Id(q));
      IndexOfAppend(m.known, p, q);
    }
  }

  /** A plugin depending on `p` needs `p`'s identity to be held by a loaded,
      hence known, plugin. */
  lemma DependentNeedsKnownId(m: Manager, d: Plugin, p: Plugin)
    requires Inv(m)
    requires d in m.loaded || CanLoad(m, d)
    ensures DependsOn(d, p) ==> !IdFree(m.known, Id(p))
  {
    if DependsOn(d, p) {
      var req :| req in d.requirements && Matches(req, p.descriptor);
      assert Met(req, m.loaded);
      var x :| x in m.loaded && Matches(req, x.descriptor);
      DependsOnSameId(d, p, req);
      DependsOnSameId(d, x, req);
      assert x in m.known;
    }
  }

  /** Accepting a loadable plugin keeps the invariant. */
  lemma AcceptKeepsInv(m: Manager, p: Plugin, t: Target)
    requires Inv(m) && CanLoad(m, p)
    ensures Inv(Manager(t, m.known + [p], m.loaded + [p]))
  {
    var r := Manager(t, m.known + [p], m.loaded + [p]);
    IdFreeNotKnown(m, p);
    assert Bookkept(r);
    AcceptFirstHolders(m, p, r);
    AcceptSatisfied(m, p, r);
    AcceptOrdered(m, p, r);
  }

  lemma AcceptFirstHolders(m: Manager, p: Plugin, r: Manager)
    requires Inv(m) && CanLoad(m, p) && r.known == m.known + [p] && r.loaded == m.loaded + [p]
    ensures FirstHolders(r)
  {
    IdFreeNotKnown(m, p);
    AppendKnownKeepsInv(m, p);
    IdRankAppendFresh(m.known, p);
    IndexOfAppendFresh(m.known, p);
  }

  lemma AcceptSatisfied(m: Manager, p: Plugin, r: Manager)
    requires Inv(m) && CanLoad(m, p) && r.loaded == m.loaded + [p]
    ensures Satisfied(r)
  {
    forall q, req | q in r.loaded && req in q.requirements
      ensures Met(req, r.loaded)
    {
      assert Met(req, m.loaded);
    }
  }

  lemma AcceptOrdered(m: Manager, p: Plugin, r: Manager)
    requires Inv(m) && CanLoad(m, p) && r.known == m.known + [p] && r.loaded == m.loaded + [p]
    ensures Ordered(r)
  {
    IdFreeNotKnown(m, p);
    IndexOfAppendFresh(m.known, p);
    forall d, q | d in r.loaded && q in r.loaded && DependsOn(d, q)
      ensures IndexOf(r.known, q) < IndexOf(r.known, d)
    {
      DependentNeedsKnownId(m, d, p);
      assert q != p;
      IndexOfAppend(m.known, p, q);
      if d != p {
        IndexOfAppend(m.known, p, d);
      }
    }
  }

  /** `load` keeps the invariant. */
  lemma LoadKeepsInv(m: Manager, p: Plugin)
    requires Inv(m)
    ensures Inv(Load(m, p))
  {
    if p !in m.known {
      if CanLoad(m, p) {
        IdFreeNotKnown(m, p);
        AcceptKeepsInv(m, p, ApplyTo(m.target, p));
      } else {
        AppendKnownKeepsInv(m, p);
      }
    }
  }

  /** What `load` does: the plugin becomes known; it is applied and loaded
      exactly when `canLoad` held, and otherwise nothing else changes. */
  lemma LoadOutcome(m: Manager, p: Plugin)
    requires Inv(m)
    ensures Load(m, p).known == if p in m.known then m.known else m.known + [p]
    ensures CanLoad(m, p) ==> Load(m, p).loaded == m.loaded + [p] && Load(m, p).target == m.target + [p]
    ensures !CanLoad(m, p) ==> Load(m, p).loaded == m.loaded && Load(m, p).target == m.target
  {
    if CanLoad(m, p) {
      IdFreeNotKnown(m, p);
      assert p !in m.loaded;
    }
  }

  /** Loading a plugin that is already known does nothing at all. */
  lemma LoadKnownIsNoOp(m: Manager, p: Plugin)
    requires p in m.known
    ensures Load(m, p) == m
  {
    assert !IdFree(m.known, Id(p));
  }

  /** A plugin sharing its identity with a known plugin cannot be loaded. */
  lemma IdTakenBlocksLoad(m: Manager, p: Plugin, k: Plugin)
    requires k in m.known && Id(k) == Id(p)
    ensures !CanLoad(m, p)
    ensures IsLoaded(Load(m, p), p) == IsLoaded(m, p)
  {
  }

  // ---------------------------------------------------------------------------
  // Unload
  // ---------------------------------------------------------------------------

  /** The loaded plugins that depend on `p`, in loaded order. */
  function Dependents(ls: seq<Plugin>, p: Plugin): (ds: seq<Plugin>)
    ensures forall d | d in ds :: d in ls && DependsOn(d, p)
    ensures forall d | d in ls && DependsOn(d, p) :: d in ds
    ensures (forall d | d in ls :: !DependsOn(d, p)) ==> ds == []
  {
    if |ls| == 0 then []
    else if DependsOn(ls[0], p) then [ls[0]] + Dependents(ls[1..], p)
    else Dependents(ls[1..], p)
  }

  /** `unload`: remove `p` from the target, unload every plugin that depended on
      it when the call began, then drop `p` from the loaded set. The known set
      never changes; no surviving plugin depends on `p` or on anything the call
      removed. */
  function Unload(m: Manager, p: Plugin): (r: Manager)
    requires Inv(m)
    ensures Inv(r) && r.known == m.known
    ensures !IsLoaded(r, p)
    ensures forall x | x in r.loaded :: x in m.loaded
    ensures NoneDependOn(r.loaded, p)
    ensures Detached(r.loaded, m.loaded)
    decreases |m.known| - IdRank(m.known, Id(p)), 1
  {
    var m1 := m.(target := RemoveFrom(m.target, p));
    var ds := Dependents(m1.loaded, p);
    DependentsRankHigher(m1, p);
    var m2 := UnloadAll(m1, ds, p);
    var r := m2.(loaded := Without(m2.loaded, {p}));
    UnloadLast(m1, m2, r, p, ds);
    r
  }

  /** The cascade over the dependents snapshot `ds` of `p`, one at a time. */
  function UnloadAll(m: Manager, ds: seq<Plugin>, ghost p: Plugin): (r: Manager)
    requires Inv(m)
    requires forall d | d in ds :: IdRank(m.known, Id(p)) < IdRank(m.known, Id(d))
    ensures Inv(r) && r.known == m.known
    ensures forall d | d in ds :: d !in r.loaded
    ensures forall x | x in r.loaded :: x in m.loaded
    ensures Detached(r.loaded, m.loaded)
    decreases |m.known| - IdRank(m.known, Id(p)), 0, |ds|
  {
    if |ds| == 0 then m
    else
      var m1 := Unload(m, ds[0]);
      var r := UnloadAll(m1, ds[1..], p);
      DetachedChain(m.loaded, m1.loaded, r.loaded);
      r
  }

  /** The last step of `unload`: dropping `p` itself. */
  lemma UnloadLast(m1: Manager, m2: Manager, r: Manager, p: Plugin, ds: seq<Plugin>)
    requires Inv(m1) && Inv(m2) && m2.known == m1.known
    requires forall d | d in m1.loaded && DependsOn(d, p) :: d in ds
    requires forall d | d in ds :: d !in m2.loaded
    requires forall x | x in m2.loaded :: x in m1.loaded
    requires Detached(m2.loaded, m1.loaded)
    requires r == m2.(loaded := Without(m2.loaded, {p}))
    ensures Inv(r) && r.known == m1.known && p !in r.loaded
    ensures forall x | x in r.loaded :: x in m1.loaded
    ensures NoneDependOn(r.loaded, p)
    ensures Detached(r.loaded, m1.loaded)
  {
    WithoutNoDup(m2.loaded, {p});
    assert Detached(r.loaded, m2.loaded);
    ShrinkKeepsInv(m2, r);
  }

  /** Removals compose: what is detached from both steps is detached from the whole. */
  lemma DetachedChain(a: seq<Plugin>, b: seq<Plugin>, c: seq<Plugin>)
    requires forall x | x in b :: x in a
    requires forall x | x in c :: x in b
    requires Detached(b, a) && Detached(c, b)
    ensures Detached(c, a)
  {
  }

  /** The target follows the loaded set through `unload`: if it held the loaded
      plugins other than `pend`, it still does afterwards. */
  lemma UnloadTarget(m: Manager, p: Plugin, pend: set<Plugin>)
    requires Inv(m) && m.target == Without(m.loaded, pend)
    ensures Unload(m, p).target == Without(Unload(m, p).loaded, pend)
    decreases |m.known| - IdRank(m.known, Id(p)), 1
  {
    WithoutNoDup(m.loaded, pend);
    RemoveFirstIsWithout(Without(m.loaded, pend), p);
    WithoutWithout(m.loaded, pend, {p});
    var m1 := m.(target := RemoveFrom(m.target, p));
    var ds := Dependents(m1.loaded, p);
    DependentsRankHigher(m1, p);
    UnloadAllTarget(m1, ds, p, pend + {p});
    var m2 := UnloadAll(m1, ds, p);
    WithoutWithout(m2.loaded, {p}, pend);
    assert {p} + pend == pend + {p};
  }

  lemma UnloadAllTarget(m: Manager, ds: seq<Plugin>, p: Plugin, pend: set<Plugin>)
    requires Inv(m)
    requires forall d | d in ds :: IdRank(m.known, Id(p)) < IdRank(m.known, Id(d))
    requires m.target == Without(m.loaded, pend)
    ensures UnloadAll(m, ds, p).target == Without(UnloadAll(m, ds, p).loaded, pend)
    decreases |m.known| - IdRank(m.known, Id(p)), 0, |ds|
  {
    if |ds| > 0 {
      UnloadTarget(m, ds[0], pend);
      UnloadAllTarget(Unload(m, ds[0]), ds[1..], p, pend);
    }
  }

  /** Unloading a plugin nothing depends on removes just that plugin. */
  lemma UnloadLeaf(m: Manager, p: Plugin)
    requires Inv(m) && NoneDependOn(m.loaded, p)
    ensures Unload(m, p).loaded == Without(m.loaded, {p})
  {
  }

  // ---------------------------------------------------------------------------
  // Sessions: any sequence of loads and unloads
  // ---------------------------------------------------------------------------

  datatype Op = LoadOp(plugin: Plugin) | UnloadOp(plugin: Plugin)

  function Step(m: Manager, op: Op): (r: Manager)
    requires Inv(m)
    ensures Inv(r)
    ensures |m.known| <= |r.known| && r.known[..|m.known|] == m.known
  {
    match op
    case LoadOp(p) =>
      LoadKeepsInv(m, p);
      LoadOutcome(m, p);
      Load(m, p)
    case UnloadOp(p) =>
      Unload(m, p)
  }

  /** Every operation keeps the target equal to the loaded set. */
  lemma StepMirrors(m: Manager, op: Op)
    requires Inv(m) && m.target == m.loaded
    ensures Step(m, op).target == Step(m, op).loaded
  {
    match op
    case LoadOp(p) =>
      LoadOutcome(m, p);
    case UnloadOp(p) =>
      WithoutNothing(m.loaded);
      UnloadTarget(m, p, {});
      WithoutNothing(Unload(m, p).loaded);
  }

  function Run(m: Manager, ops: seq<Op>): (r: Manager)
    requires Inv(m)
    ensures Inv(r)
    decreases |ops|
  {
    if |ops| == 0 then m else Run(Step(m, ops[0]), ops[1..])
  }

  lemma {:induction false} RunMirrors(m: Manager, ops: seq<Op>)
    requires Inv(m) && m.target == m.loaded
    ensures Run(m, ops).target == Run(m, ops).loaded
    decreases |ops|
  {
    if |ops| > 0 {
      StepMirrors(m, ops[0]);
      RunMirrors(Step(m, ops[0]), ops[1..]);
    }
  }

  /** The known set only grows, and keeps its order. */
  lemma {:induction false} RunKnownGrows(m: Manager, ops: seq<Op>)
    requires Inv(m)
    ensures |m.known| <= |Run(m, ops).known| && Run(m, ops).known[..|m.known|] == m.known
    decreases |ops|
  {
    if |ops| > 0 {
      var m1 := Step(m, ops[0]);
      RunKnownGrows(m1, ops[1..]);
      var k := Run(m1, ops[1..]).known;
      assert k[..|m.known|] == k[..|m1.known|][..|m.known|];
    }
  }

  /** A plugin that is not loaded while another known plugin holds its identity
      stays unloaded through one operation. */
  lemma StepKeepsBlocked(m: Manager, op: Op, q: Plugin, k: Plugin)
    requires Inv(m) && q !in m.loaded && k in m.known && Id(k) == Id(q)
    ensures q !in Step(m, op).loaded && k in Step(m, op).known
  {
    if op.LoadOp? {
      LoadOutcome(m, op.plugin);
      if op.plugin == q {
        IdTakenBlocksLoad(m, q, k);
      }
    }
  }

  /** Once an identity is known, a plugin holding it that is not loaded now is
      never loaded, whatever is loaded or unloaded later. */
  lemma {:induction false} IdBlockedForever(m: Manager, ops: seq<Op>, q: Plugin, k: Plugin)
    requires Inv(m) && q !in m.loaded && k in m.known && Id(k) == Id(q)
    ensures !IsLoaded(Run(m, ops), q) && !CanLoad(Run(m, ops), q)
    decreases |ops|
  {
    if |ops| > 0 {
      StepKeepsBlocked(m, ops[0], q, k);
      IdBlockedForever(Step(m, ops[0]), ops[1..], q, k);
    } else {
      IdTakenBlocksLoad(m, q, k);
    }
  }

  /** From construction on, the target holds exactly the loaded plugins, in
      load order, and the invariant holds. */
  lemma SessionMirrors(ops: seq<Op>)
    ensures Inv(Run(New([]), ops))
    ensures Run(New([]), ops).target == Run(New([]), ops).loaded
  {
    RunMirrors(New([]), ops);
  }
}
