/**
 * The scenarios of the plugin manager's unit tests, derived from the general
 * contracts of `load` and `unload` rather than by evaluation.
 */
module PluginManagerScenarios {
  import opened Seqs
  import opened Versions
  import opened Descriptors
  import opened Requirements
  import opened Plugins
  import opened PluginManagers

  const BaseDescriptor: Descriptor := Descriptor("group", "name", Version(1, 0, 0, ""), "summary")
  const BaseRequirement: Requirement := FromDescriptor(BaseDescriptor)
  const BasePlugin: Plugin := Plugin(0, BaseDescriptor, [])

  /** A plugin with an empty summary whose only requirement is the base plugin. */
  function Dependent(handle: nat, group: string, name: string, major: Component, minor: Component, patch: Component): (p: Plugin)
    ensures DependsOn(p, BasePlugin)
  {
    FromDescriptorMatches(BaseDescriptor);
    Plugin(handle, Descriptor(group, name, Version(major, minor, patch, ""), ""), [BaseRequirement])
  }

  /** The manager after loading the base plugin into a fresh one. */
  lemma LoadedBase(t: Target)
    ensures CanLoad(New(t), BasePlugin)
    ensures Load(New(t), BasePlugin) == Manager(t + [BasePlugin], [BasePlugin], [BasePlugin])
    ensures Inv(Load(New(t), BasePlugin))
  {
    LoadKeepsInv(New(t), BasePlugin);
  }

  /** A plugin with no requirements loads into a fresh manager, becomes known
      and loaded, and is applied to the target. */
  lemma ScenarioNoRequirements()
    ensures var m := Load(New([]), BasePlugin);
      m.known == [BasePlugin] && m.loaded == [BasePlugin] && IsLoaded(m, BasePlugin) && BasePlugin in m.target
  {
    LoadedBase([]);
  }

  /** A plugin whose requirement is loaded first loads after it. */
  lemma ScenarioLoadedRequirements()
    ensures !CanLoad(New([]), Dependent(1, "group", "dep", 1, 1, 1))
    ensures var m := Load(Load(New([]), BasePlugin), Dependent(1, "group", "dep", 1, 1, 1));
      && m.known == [BasePlugin, Dependent(1, "group", "dep", 1, 1, 1)]
      && m.loaded == m.known && m.target == m.known
  {
    var dep := Dependent(1, "group", "dep", 1, 1, 1);
    NewCanLoad([], dep);
    LoadedBase([]);
    DependentId();
    FromDescriptorMatches(BaseDescriptor);
    LoadSecond(Load(New([]), BasePlugin), BasePlugin, dep);
  }

  /** The dependent of the scenarios above is not the base plugin. */
  lemma DependentId()
    ensures Id(Dependent(1, "group", "dep", 1, 1, 1)) != Id(BasePlugin)
  {
    assert Id(Dependent(1, "group", "dep", 1, 1, 1))[6..] == "dep" && Id(BasePlugin)[6..] == "name";
  }

  /** A plugin whose requirement is missing becomes known but is neither loaded
      nor applied. */
  lemma ScenarioMissingRequirements()
    ensures var m := Load(New([]), Dependent(1, "group", "dep", 1, 1, 1));
      m.known == [Dependent(1, "group", "dep", 1, 1, 1)] && m.loaded == [] && m.target == []
  {
    var dep := Dependent(1, "group", "dep", 1, 1, 1);
    NewCanLoad([], dep);
    LoadOutcome(New([]), dep);
  }

  /** Unloading the only loaded plugin leaves it known, and nothing loaded or applied. */
  lemma ScenarioUnloadLeaf()
    ensures var m := Step(Step(New([]), LoadOp(BasePlugin)), UnloadOp(BasePlugin));
      m.known == [BasePlugin] && m.loaded == [] && m.target == []
  {
    LoadedBase([]);
    var m1 := Load(New([]), BasePlugin);
    assert Step(New([]), LoadOp(BasePlugin)) == m1;
    UnloadLeaf(m1, BasePlugin);
    StepMirrors(m1, UnloadOp(BasePlugin));
  }

  /** Loading `b` after `a` into a mirrored manager holding just `a`. */
  lemma LoadSecond(m: Manager, a: Plugin, b: Plugin)
    requires Inv(m) && m.known == [a] && m.loaded == [a] && m.target == [a]
    requires Id(b) != Id(a) && forall r | r in b.requirements :: Matches(r, a.descriptor)
    ensures Load(m, b) == Manager([a, b], [a, b], [a, b])
  {
    assert CanLoad(m, b) by {
      forall r | r in b.requirements ensures Met(r, m.loaded) {
        assert a in m.loaded;
      }
    }
    LoadOutcome(m, b);
  }

  /** Unloading the dependency of a two-plugin chain unloads both. */
  lemma UnloadPair(m: Manager, a: Plugin, b: Plugin)
    requires Inv(m) && m.loaded == [a, b] && m.target == m.loaded && DependsOn(b, a)
    ensures Unload(m, a).known == m.known && Unload(m, a).loaded == [] && Unload(m, a).target == []
  {
    var r := Unload(m, a);
    NoMemberEmpty(r.loaded);
    StepMirrors(m, UnloadOp(a));
  }

  /** Unloading the root of a three-plugin chain unloads all three. */
  lemma UnloadTriple(m: Manager, a: Plugin, b: Plugin, c: Plugin)
    requires Inv(m) && m.loaded == [a, b, c] && m.target == m.loaded && DependsOn(b, a) && DependsOn(c, b)
    ensures Unload(m, a).loaded == [] && Unload(m, a).target == []
  {
    var r := Unload(m, a);
    NoMemberEmpty(r.loaded);
    StepMirrors(m, UnloadOp(a));
  }

  /** The middle and the end of a three-plugin chain on the base plugin. */
  const DirectPlugin: Plugin := Dependent(3, "g", "d", 1, 0, 0)
  const TransitivePlugin: Plugin :=
    Plugin(4, Descriptor("g", "t", Version(1, 0, 0, ""), ""), [FromDescriptor(DirectPlugin.descriptor)])

  /** The three plugins of the chain have distinct identities. */
  lemma ChainIds()
    ensures Id(DirectPlugin) != Id(BasePlugin)
    ensures Id(TransitivePlugin) != Id(BasePlugin) && Id(TransitivePlugin) != Id(DirectPlugin)
  {
    assert Id(DirectPlugin)[1] == ':' && Id(BasePlugin)[1] == 'r';
    assert Id(TransitivePlugin)[1] == ':';
    assert Id(TransitivePlugin)[2] == 't' && Id(DirectPlugin)[2] == 'd';
  }

  /** Each plugin of the chain requires exactly the one before it. */
  lemma ChainLinks()
    ensures forall r | r in DirectPlugin.requirements :: Matches(r, BasePlugin.descriptor)
    ensures forall r | r in TransitivePlugin.requirements :: Matches(r, DirectPlugin.descriptor)
    ensures DependsOn(DirectPlugin, BasePlugin) && DependsOn(TransitivePlugin, DirectPlugin)
  {
    FromDescriptorMatches(BaseDescriptor);
    FromDescriptorMatches(DirectPlugin.descriptor);
    assert FromDescriptor(DirectPlugin.descriptor) in TransitivePlugin.requirements;
  }

  /** Loading the base plugin and then the middle of the chain. */
  lemma ChainOfTwo()
    ensures Step(Step(New([]), LoadOp(BasePlugin)), LoadOp(DirectPlugin))
              == Manager([BasePlugin, DirectPlugin], [BasePlugin, DirectPlugin], [BasePlugin, DirectPlugin])
  {
    LoadedBase([]);
    ChainIds();
    ChainLinks();
    LoadSecond(Load(New([]), BasePlugin), BasePlugin, DirectPlugin);
  }

  /** Loading the whole chain, in dependency order. */
  lemma ChainOfThree()
    ensures Step(Step(Step(New([]), LoadOp(BasePlugin)), LoadOp(DirectPlugin)), LoadOp(TransitivePlugin))
              == Manager([BasePlugin, DirectPlugin, TransitivePlugin], [BasePlugin, DirectPlugin, TransitivePlugin],
                         [BasePlugin, DirectPlugin, TransitivePlugin])
  {
    ChainOfTwo();
    ChainIds();
    ChainLinks();
    var m2 := Step(Step(New([]), LoadOp(BasePlugin)), LoadOp(DirectPlugin));
    LoadThird(m2, BasePlugin, DirectPlugin, TransitivePlugin);
  }

  /** Unloading a plugin unloads its direct dependent too. */
  lemma ScenarioUnloadDirectDependent()
    ensures var m := Step(Step(Step(New([]), LoadOp(BasePlugin)), LoadOp(DirectPlugin)), UnloadOp(BasePlugin));
      m.known == [BasePlugin, DirectPlugin] && m.loaded == [] && m.target == []
  {
    ChainOfTwo();
    ChainLinks();
    UnloadPair(Step(Step(New([]), LoadOp(BasePlugin)), LoadOp(DirectPlugin)), BasePlugin, DirectPlugin);
  }

  /** Unloading a plugin unloads its transitive dependents too. */
  lemma ScenarioUnloadTransitive()
    ensures
      var m := Step(Step(Step(New([]), LoadOp(BasePlugin)), LoadOp(DirectPlugin)), LoadOp(TransitivePlugin));
      && m.loaded == [BasePlugin, DirectPlugin, TransitivePlugin]
      && Step(m, UnloadOp(BasePlugin)).loaded == [] && Step(m, UnloadOp(BasePlugin)).target == []
  {
    ChainOfThree();
    ChainLinks();
    var m := Step(Step(Step(New([]), LoadOp(BasePlugin)), LoadOp(DirectPlugin)), LoadOp(TransitivePlugin));
    UnloadTriple(m, BasePlugin, DirectPlugin, TransitivePlugin);
  }

  /** Loading `c`, which requires `b`, after the chain `a`, `b`. */
  lemma LoadThird(m: Manager, a: Plugin, b: Plugin, c: Plugin)
    requires Inv(m) && m.known == [a, b] && m.loaded == [a, b] && m.target == [a, b]
    requires Id(c) != Id(a) && Id(c) != Id(b) && forall r | r in c.requirements :: Matches(r, b.descriptor)
    ensures Load(m, c) == Manager([a, b, c], [a, b, c], [a, b, c])
  {
    assert CanLoad(m, c) by {
      forall r | r in c.requirements ensures Met(r, m.loaded) {
        assert b in m.loaded;
      }
    }
    LoadOutcome(m, c);
  }
}
