/**
 * The `Plugin` capability: a descriptor, a collection of requirements, and
 * `applyTo` / `removeFrom` on the shared target.
 *
 * A plugin is an immutable record. Its `handle` stands for Java object
 * identity: two plugins with equal descriptors and requirements are still
 * different plugins when their handles differ. The target is the test
 * fixture's: a list of applied plugins, where `applyTo` appends the plugin and
 * `removeFrom` deletes its first occurrence.
 */
module Plugins {
  import opened Seqs
  import opened Descriptors
  import opened Requirements

  datatype Plugin = Plugin(handle: nat, descriptor: Descriptor, requirements: seq<Requirement>)

  /** The plugin's `idString`. */
  function Id(p: Plugin): string {
    IdString(p.descriptor)
  }

  /** `p.dependsOn(other)`: some requirement of `p` matches the descriptor of `other`. */
  predicate DependsOn(p: Plugin, other: Plugin) {
    exists r | r in p.requirements :: Matches(r, other.descriptor)
  }

  /** A plugin only depends on plugins that carry the identity it requires. */
  lemma DependsOnSameId(p: Plugin, other: Plugin, r: Requirement)
    requires r in p.requirements && Matches(r, other.descriptor)
    ensures DependsOn(p, other)
    ensures Id(other) == r.groupId + ":" + r.name
  {
    MatchesSameIdString(r, other.descriptor);
  }

  /** The applied plugins of the target, in the order they were applied. */
  type Target = seq<Plugin>

  /** `applyTo`: the target appends the plugin to its applied list. */
  function ApplyTo(t: Target, p: Plugin): (r: Target)
    ensures multiset(r) == multiset(t) + multiset{p}
    ensures |r| == |t| + 1 && r[..|t|] == t && r[|t|] == p
  {
    t + [p]
  }

  /** `removeFrom`: the target drops the first occurrence of the plugin from
      its applied list and keeps the rest in order. */
  function RemoveFrom(t: Target, p: Plugin): (r: Target)
    ensures p !in t ==> r == t
    ensures p in t ==> |r| == |t| - 1
    ensures p in t ==> r == t[..IndexOf(t, p)] + t[IndexOf(t, p) + 1..]
  {
    var r := RemoveFirst(t, p);
    assert p in t ==> r == t[..IndexOf(t, p)] + t[IndexOf(t, p) + 1..] by {
      if p in t {
        RemoveFirstAt(t, p);
      }
    }
    r
  }

  /** The removal contract: removing right after applying restores the applied
      plugins, exactly when the plugin was not applied already, and up to order
      in every case. */
  lemma ApplyThenRemove(t: Target, p: Plugin)
    ensures multiset(RemoveFrom(ApplyTo(t, p), p)) == multiset(t)
    ensures p !in t ==> RemoveFrom(ApplyTo(t, p), p) == t
  {
    RemoveFirstMultiset(ApplyTo(t, p), p);
    if p !in t {
      RemoveFirstAt(t + [p], p);
      assert IndexOf(t + [p], p) == |t|;
    }
  }
}
