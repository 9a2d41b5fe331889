/**
 * What `unload` takes out of the loaded set, exactly.
 *
 * `Cascade(ls, p)` is the reference: `p` itself and every plugin of `ls` that
 * depends on `p`, directly or through a chain of other plugins of `ls`. The
 * lemmas below show that `Unload` removes that set and nothing else, keeping
 * the survivors in their loaded order, and that `UnloadAll` does the same for
 * the cascades of all of its dependents.
 */
module PluginManagerFrame {
  import opened Seqs
  import opened Plugins
  import opened PluginManagers

  /** `x` depends on `p` through at most `n` intermediate plugins of `ls`. */
  ghost predicate DependsWithin(ls: seq<Plugin>, x: Plugin, p: Plugin, n: nat)
    decreases n
  {
    DependsOn(x, p) || (n > 0 && exists y | y in ls :: DependsOn(x, y) && DependsWithin(ls, y, p, n - 1))
  }

  /** `x` depends on `p`, directly or through plugins of `ls`. */
  ghost predicate DependsThrough(ls: seq<Plugin>, x: Plugin, p: Plugin) {
    exists n: nat :: DependsWithin(ls, x, p, n)
  }

  /** The plugins of `ls` that unloading `p` must take down, `p` included. */
  ghost function Cascade(ls: seq<Plugin>, p: Plugin): set<Plugin> {
    set x | x in ls && (x == p || DependsThrough(ls, x, p))
  }

  /** The union of the cascades of the plugins of `ds`. */
  ghost function CascadeAll(ls: seq<Plugin>, ds: seq<Plugin>): set<Plugin> {
    set x | x in ls && exists d | d in ds :: x == d || DependsThrough(ls, x, d)
  }

  /** A chain through fewer plugins is still a chain through more. */
  lemma {:induction false} DependsWithinMono(small: seq<Plugin>, big: seq<Plugin>, x: Plugin, p: Plugin, n: nat)
    requires forall y | y in small :: y in big
    requires DependsWithin(small, x, p, n)
    ensures DependsWithin(big, x, p, n)
    decreases n
  {
    if !DependsOn(x, p) {
      var y :| y in small && DependsOn(x, y) && DependsWithin(small, y, p, n - 1);
      DependsWithinMono(small, big, y, p, n - 1);
    }
  }

  /** A chain to `d` followed by a dependency of `d` on `p` is a chain to `p`. */
  lemma {:induction false} DependsWithinExtend(ls: seq<Plugin>, x: Plugin, d: Plugin, p: Plugin, n: nat)
    requires d in ls && DependsOn(d, p)
    requires DependsWithin(ls, x, d, n)
    ensures DependsWithin(ls, x, p, n + 1)
    decreases n
  {
    if DependsOn(x, d) {
      assert DependsWithin(ls, d, p, n);
    } else {
      var y :| y in ls && DependsOn(x, y) && DependsWithin(ls, y, d, n - 1);
      DependsWithinExtend(ls, y, d, p, n - 1);
    }
  }

  /** A removal that leaves nothing depending on `p` or on what it removed
      removes every plugin that depended on `p` through the old loaded set. */
  lemma {:induction false} CascadeGone(after: seq<Plugin>, before: seq<Plugin>, x: Plugin, p: Plugin, n: nat)
    requires forall y | y in after :: y in before
    requires Detached(after, before) && NoneDependOn(after, p)
    requires DependsWithin(before, x, p, n)
    ensures x !in after
    decreases n
  {
    if !DependsOn(x, p) {
      var y :| y in before && DependsOn(x, y) && DependsWithin(before, y, p, n - 1);
      CascadeGone(after, before, y, p, n - 1);
    }
  }

  /** `Unload` keeps the survivors in their loaded order. */
  lemma UnloadThinned(m: Manager, p: Plugin)
    requires Inv(m)
    ensures Thinned(Unload(m, p).loaded, m.loaded)
    decreases |m.known| - IdRank(m.known, Id(p)), 1
  {
    var m1 := m.(target := RemoveFrom(m.target, p));
    var ds := Dependents(m1.loaded, p);
    DependentsRankHigher(m1, p);
    UnloadAllThinned(m1, ds, p);
    var m2 := UnloadAll(m1, ds, p);
    ThinnedWithout(m2.loaded, {p});
    ThinnedTrans(m.loaded, m2.loaded, Unload(m, p).loaded);
  }

  lemma UnloadAllThinned(m: Manager, ds: seq<Plugin>, p: Plugin)
    requires Inv(m)
    requires forall d | d in ds :: IdRank(m.known, Id(p)) < IdRank(m.known, Id(d))
    ensures Thinned(UnloadAll(m, ds, p).loaded, m.loaded)
    decreases |m.known| - IdRank(m.known, Id(p)), 0, |ds|
  {
    if |ds| == 0 {
      ThinnedWithout(m.loaded, {});
      WithoutNothing(m.loaded);
    } else {
      var m1 := Unload(m, ds[0]);
      var r := UnloadAll(m1, ds[1..], p);
      assert UnloadAll(m, ds, p) == r;
      UnloadThinned(m, ds[0]);
      UnloadAllThinned(m1, ds[1..], p);
      ThinnedTrans(m.loaded, m1.loaded, r.loaded);
    }
  }

  /** A plugin that is, or depends through `ls` on, a dependent `d` of `p`
      depends through `ls` on `p`. */
  lemma ThroughDependent(ls: seq<Plugin>, x: Plugin, d: Plugin, p: Plugin)
    requires d in ls && DependsOn(d, p)
    requires x == d || DependsThrough(ls, x, d)
    ensures DependsThrough(ls, x, p)
  {
    if x == d {
      assert DependsWithin(ls, x, p, 0);
    } else {
      var n: nat :| DependsWithin(ls, x, d, n);
      DependsWithinExtend(ls, x, d, p, n);
    }
  }

  /** Removing `p` after a cascade over its dependents removes only `p` and
      what depended on it. */
  lemma LastStepOnlyCascade(ls: seq<Plugin>, mid: seq<Plugin>, ds: seq<Plugin>, p: Plugin)
    requires forall d | d in ds :: d in ls && DependsOn(d, p)
    requires forall x | x in ls && x !in mid :: exists d | d in ds :: x == d || DependsThrough(ls, x, d)
    ensures forall x | x in ls && x !in Without(mid, {p}) :: x == p || DependsThrough(ls, x, p)
  {
    forall x | x in ls && x !in Without(mid, {p}) && x != p
      ensures DependsThrough(ls, x, p)
    {
      var d :| d in ds && (x == d || DependsThrough(ls, x, d));
      ThroughDependent(ls, x, d, p);
    }
  }

  /** Everything `Unload` removes is `p` or depended on it. */
  lemma UnloadRemovesOnlyCascade(m: Manager, p: Plugin)
    requires Inv(m)
    ensures forall x | x in m.loaded && x !in Unload(m, p).loaded :: x == p || DependsThrough(m.loaded, x, p)
    decreases |m.known| - IdRank(m.known, Id(p)), 1
  {
    var m1 := m.(target := RemoveFrom(m.target, p));
    var ds := Dependents(m1.loaded, p);
    DependentsRankHigher(m1, p);
    UnloadAllRemovesOnlyCascade(m1, ds, p);
    var m2 := UnloadAll(m1, ds, p);
    assert Unload(m, p).loaded == Without(m2.loaded, {p});
    LastStepOnlyCascade(m.loaded, m2.loaded, ds, p);
  }

  /** Removing the cascade of `ds[0]` and then the cascades of the rest, taken
      in what remained, removes only the cascades of `ds` in the original set. */
  lemma FirstThenRestOnlyCascade(ls: seq<Plugin>, mid: seq<Plugin>, after: seq<Plugin>, ds: seq<Plugin>)
    requires |ds| > 0
    requires forall y | y in mid :: y in ls
    requires forall x | x in ls && x !in mid :: x == ds[0] || DependsThrough(ls, x, ds[0])
    requires forall x | x in mid && x !in after :: exists d | d in ds[1..] :: x == d || DependsThrough(mid, x, d)
    ensures forall x | x in ls && x !in after :: exists d | d in ds :: x == d || DependsThrough(ls, x, d)
  {
    forall x | x in ls && x !in after
      ensures exists d | d in ds :: x == d || DependsThrough(ls, x, d)
    {
      if x !in mid {
        assert ds[0] in ds;
      } else {
        var d :| d in ds[1..] && (x == d || DependsThrough(mid, x, d));
        assert d in ds;
        if x != d {
          var n: nat :| DependsWithin(mid, x, d, n);
          DependsWithinMono(mid, ls, x, d, n);
        }
      }
    }
  }

  lemma UnloadAllRemovesOnlyCascade(m: Manager, ds: seq<Plugin>, p: Plugin)
    requires Inv(m)
    requires forall d | d in ds :: IdRank(m.known, Id(p)) < IdRank(m.known, Id(d))
    ensures forall x | x in m.loaded && x !in UnloadAll(m, ds, p).loaded ::
      exists d | d in ds :: x == d || DependsThrough(m.loaded, x, d)
    decreases |m.known| - IdRank(m.known, Id(p)), 0, |ds|
  {
    if |ds| > 0 {
      var m1 := Unload(m, ds[0]);
      var r := UnloadAll(m1, ds[1..], p);
      assert UnloadAll(m, ds, p) == r;
      UnloadRemovesOnlyCascade(m, ds[0]);
      UnloadAllRemovesOnlyCascade(m1, ds[1..], p);
      FirstThenRestOnlyCascade(m.loaded, m1.loaded, r.loaded, ds);
    }
  }

  /** After the cascade over `ds`, nothing left depends on any plugin of `ds`. */
  lemma {:induction false} UnloadAllCuts(m: Manager, ds: seq<Plugin>, p: Plugin)
    requires Inv(m)
    requires forall d | d in ds :: IdRank(m.known, Id(p)) < IdRank(m.known, Id(d))
    ensures forall d | d in ds :: NoneDependOn(UnloadAll(m, ds, p).loaded, d)
    decreases |ds|
  {
    if |ds| > 0 {
      var m1 := Unload(m, ds[0]);
      UnloadAllCuts(m1, ds[1..], p);
      var r := UnloadAll(m, ds, p);
      assert NoneDependOn(m1.loaded, ds[0]);
      forall d | d in ds
        ensures NoneDependOn(r.loaded, d)
      {
        if d != ds[0] {
          assert d in ds[1..];
        }
      }
    }
  }

  /** `unload(p)` leaves exactly the loaded plugins outside the cascade of `p`,
      in their loaded order. */
  lemma UnloadFrame(m: Manager, p: Plugin)
    requires Inv(m)
    ensures Unload(m, p).loaded == Without(m.loaded, Cascade(m.loaded, p))
  {
    var r := Unload(m, p);
    UnloadThinned(m, p);
    UnloadRemovesOnlyCascade(m, p);
    forall x | x in m.loaded
      ensures x in Gone(m.loaded, r.loaded) <==> x in Cascade(m.loaded, p)
    {
      if x != p && DependsThrough(m.loaded, x, p) {
        var n: nat :| DependsWithin(m.loaded, x, p, n);
        CascadeGone(r.loaded, m.loaded, x, p, n);
      }
    }
    WithoutSameOn(m.loaded, Gone(m.loaded, r.loaded), Cascade(m.loaded, p));
  }

  /** The cascade over `ds` leaves exactly the loaded plugins outside the
      cascades of the plugins of `ds`, in their loaded order. */
  lemma UnloadAllFrame(m: Manager, ds: seq<Plugin>, p: Plugin)
    requires Inv(m)
    requires forall d | d in ds :: IdRank(m.known, Id(p)) < IdRank(m.known, Id(d))
    ensures UnloadAll(m, ds, p).loaded == Without(m.loaded, CascadeAll(m.loaded, ds))
  {
    var r := UnloadAll(m, ds, p);
    UnloadAllThinned(m, ds, p);
    UnloadAllRemovesOnlyCascade(m, ds, p);
    UnloadAllCuts(m, ds, p);
    forall x | x in m.loaded
      ensures x in Gone(m.loaded, r.loaded) <==> x in CascadeAll(m.loaded, ds)
    {
      if x in CascadeAll(m.loaded, ds) {
        var d :| d in ds && (x == d || DependsThrough(m.loaded, x, d));
        if x != d {
          var n: nat :| DependsWithin(m.loaded, x, d, n);
          CascadeGone(r.loaded, m.loaded, x, d, n);
        }
      }
    }
    WithoutSameOn(m.loaded, Gone(m.loaded, r.loaded), CascadeAll(m.loaded, ds));
  }
}
