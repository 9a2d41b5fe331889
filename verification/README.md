# desktop-common core, modelled in Dafny

This project models the core of wpilibsuite's desktop-common library. The
library is a set of Java utilities shared by the WPILib desktop tools.
The model covers four parts:

- **The plugin subsystem.**
  - `Version` is a `major.minor.patch` number followed by a free-form
    identifier. The model covers its parser, its factories, its rendering and
    its total order.
  - `Descriptor` carries a plugin's group ID, name, version and summary, and
    builds the two identity strings.
  - `Requirement` names another plugin at a minimum version that is pinned
    to its major version.
  - `Plugin` is modelled through the test fixture's `applyTo` / `removeFrom`.
  - `PluginManager` keeps a known set and a loaded set for one shared
    target. It decides whether a plugin can load and loads it. Its `unload`
    cascades to every loaded plugin that depends on the one being unloaded.
- **`ShutdownHooks`.** An ordered queue of hooks plus a latch. The latch
  freezes the queue once the hooks start running.
- **`ThemeContainer`.** An ordered list of themes that starts with Modena.
- **The settings validators.** `Category`, `Group`, `Setting` and
  `CheckedSetting` validate names and properties when built, and a checked
  setting type-checks the values written to it.

Each Java class becomes an immutable datatype. Each mutator becomes a
function from the old state to the new one, or a method returning the new
state where the source loops (`runAllHooks`, `removeThemes`). Java `null` is `Option.None`. An
exception is either an `Err` result or, where the source keeps the effects
made before the throw, an `Attempt` holding the state reached together with
the exception.

Some things the model cannot compute, so the operations take them as
parameters:

- object identity: a `handle` on plugins and themes, a `nat` for hooks;
- whether each hook throws, given per run and per queue position, so the same
  hook may throw in one run and complete in the next;
- `Class.isInstance`.

Modules follow the source: `Wrappers`, `Seqs` and `JavaText` are helpers, and
the others are `Versions`, `Descriptors`, `Requirements`, `Plugins`,
`PluginManagers`, `PluginManagerFrame` (the exact effect of `unload`),
`PluginManagerScenarios`, `ShutdownHooks`,
`ThemeContainers` and `Settings`.

**`Descriptor.java` and its callers disagree; the model follows the callers.**
The listed `Descriptor.java` stores a `versionString` and has no `getVersion()`.
`Requirement.matches`, `Requirement.from` and the unit tests all build or read
a descriptor with a `Version` object. The model therefore gives `Descriptor` a
`Version` field, and `FullIdString` renders it with `Version.toString`.

**The unload cascade and termination.** The cascade in `PluginManager.unload`
has no guard against dependency cycles. The model proves that it terminates
from every state that construction plus any sequence of loads and unloads can
reach. The proof rests on the invariant `PluginManagers.Inv`: every dependency
of a loaded plugin was known before the plugin itself. The measure is the
position in `known` of the first plugin holding the unloaded identity.

## Model

| member | source | states |
|---|---|---|
| Versions.Of | src/main/java/edu/wpi/first/desktop/plugin/Version.java:34-48 | a negative component is rejected with IllegalArgumentException, major checked before minor before patch, each with its message; otherwise the components are kept and a null or empty identifier becomes "" |
| Versions.OfNumbers | src/main/java/edu/wpi/first/desktop/plugin/Version.java:100-102 | the three-argument factory succeeds exactly for non-negative components and gives an empty identifier |
| Versions.ParseInt | src/main/java/edu/wpi/first/desktop/plugin/Version.java:66-68 | `Integer.parseInt` of a digit group yields its decimal value, and fails with NumberFormatException exactly when the value exceeds 2147483647 |
| Versions.TrailingText | src/main/java/edu/wpi/first/desktop/plugin/Version.java:26 | the `(.*)?$` tail never captures a line terminator, and captures the whole rest of the text when it holds none |
| Versions.MatchPattern | src/main/java/edu/wpi/first/desktop/plugin/Version.java:26 | a match has three non-empty digit groups, the first of which starts the text, and a tail free of line terminators |
| Versions.Parse | src/main/java/edu/wpi/first/desktop/plugin/Version.java:61-71 | a parsed version comes from text starting with a digit, with an identifier free of line terminators that does not start with a digit; every failure is an IllegalArgumentException (NumberFormatException included) |
| Versions.ParseShaped | src/main/java/edu/wpi/first/desktop/plugin/Version.java:61-71 | every `digits.digits.digits` text whose tail has no line terminator parses to those numbers with the tail as identifier, and the first component above the int range is the one reported |
| Versions.ParseOnlyShaped | src/main/java/edu/wpi/first/desktop/plugin/Version.java:61-71 | conversely, a text that parses is `digits.digits.digits` plus a tail, and the version holds the three values |
| Versions.ParseToString | src/main/java/edu/wpi/first/desktop/plugin/Version.java:161-165 | `parse(v.toString())` gives `v` back, for every identifier that cannot be mistaken for more patch digits or be cut at a line terminator |
| Versions.ParseRejectsMissingMajor | src/test/java/edu/wpi/first/desktop/plugin/VersionTest.java:30-37 | text that does not start with a digit is rejected as an invalid version string |
| Versions.ParseRejectsMissingMinor | src/test/java/edu/wpi/first/desktop/plugin/VersionTest.java:40-47 | a major number followed by a dot and no digit is rejected as an invalid version string |
| Versions.ParseRejectsMissingPatch | src/test/java/edu/wpi/first/desktop/plugin/VersionTest.java:50-57 | two numbers followed by a dot and no digit are rejected as an invalid version string |
| Versions.ToString | src/main/java/edu/wpi/first/desktop/plugin/Version.java:162-165 | the rendering starts with a digit, ends with the identifier right after the last digit of the patch number, and is at least five characters longer than the identifier; `ToStringFormatted` pins the numbers |
| Versions.ToStringFormatted | src/main/java/edu/wpi/first/desktop/plugin/Version.java:162-165 | for every version the rendering is major, minor and patch each written as `%d` writes them (decimal digits of that value, no leading zero), joined by dots, then the identifier with no separator |
| Versions.ToStringIsFormat | src/main/java/edu/wpi/first/desktop/plugin/Version.java:162-165 | any `%d` spelling of the three numbers gives the same rendering: `toString` is determined by the version |
| JavaText.NatToStringDecimal | src/main/java/edu/wpi/first/desktop/plugin/Version.java:164 | the decimal renderer produces digits of the number's value with no leading zero |
| JavaText.DecimalIsNatToString | src/main/java/edu/wpi/first/desktop/plugin/Version.java:164 | every `%d` spelling of a number is the renderer's output, so the spelling is unique |
| Versions.ToStringExamples | src/test/java/edu/wpi/first/desktop/plugin/VersionTest.java:75-84 | `1.2.3` renders without a separator before an empty identifier, and `3.4.5` with any identifier, `some-identifier-text` among them, renders with the identifier glued on |
| Versions.Compare | src/main/java/edu/wpi/first/desktop/plugin/Version.java:180-187 | the numeric differences `compareTo` returns stay inside the Java int range, so the subtractions never wrap |
| Versions.CompareIsBefore | src/main/java/edu/wpi/first/desktop/plugin/Version.java:167-200 | `compareTo` is negative exactly when the first version comes first by major, minor and patch, then by an identifier ranking below no identifier, then by lexicographic order of two identifiers |
| Versions.CompareZeroIffEqual | src/main/java/edu/wpi/first/desktop/plugin/Version.java:142-154 | `compareTo` is zero exactly when `equals` holds, which compares all four fields |
| Versions.CompareFlip | src/main/java/edu/wpi/first/desktop/plugin/Version.java:178-200 | swapping the arguments negates the result |
| Versions.CompareTransitive | src/main/java/edu/wpi/first/desktop/plugin/Version.java:178-200 | the order is transitive |
| Versions.CompareExamples | src/test/java/edu/wpi/first/desktop/plugin/VersionTest.java:98-157 | the orderings of the unit tests: a higher major, minor or patch ranks higher, an identifier ranks below none, "a" below "b", and a version equals itself |
| Versions.CompareStringsIsLexLess | src/main/java/edu/wpi/first/desktop/plugin/Version.java:198 | `String.compareTo` is negative exactly for a proper prefix or a smaller first differing character |
| Descriptors.IdString | src/main/java/edu/wpi/first/desktop/plugin/Descriptor.java:53-55 | the identity is the group ID, one colon, then the name |
| Descriptors.FullIdString | src/main/java/edu/wpi/first/desktop/plugin/Descriptor.java:57-59 | the full identity is the identity, a colon and the rendered version |
| Descriptors.SameIdString | src/main/java/edu/wpi/first/desktop/plugin/Descriptor.java:53-55 | descriptors sharing group and name share the identity, whatever their versions and summaries |
| Descriptors.IdStringAmbiguous | src/main/java/edu/wpi/first/desktop/plugin/Descriptor.java:53-55 | the identity does not determine group and name once either holds a colon |
| Descriptors.FullIdStringExtendsIdString | src/main/java/edu/wpi/first/desktop/plugin/Descriptor.java:53-59 | the full identity starts with the identity and a colon |
| Requirements.FromDescriptor | src/main/java/edu/wpi/first/desktop/plugin/Requirement.java:32-34 | the requirement names the descriptor's group, name and version |
| Requirements.FromText | src/main/java/edu/wpi/first/desktop/plugin/Requirement.java:28-30 | building a requirement from annotation text succeeds exactly when the minimum version parses, and then keeps group, name and parsed version; a parse failure propagates unchanged |
| Requirements.Matches | src/main/java/edu/wpi/first/desktop/plugin/Requirement.java:53-58 | a matched descriptor carries the identity `groupId:name` of the requirement and a version that does not come before the minimum |
| Requirements.MatchesMeaning | src/main/java/edu/wpi/first/desktop/plugin/Requirement.java:53-58 | a descriptor matches exactly when group, name and major agree and its version does not come before the minimum |
| Requirements.MatchesSameIdString | src/main/java/edu/wpi/first/desktop/plugin/Requirement.java:53-55 | a matched descriptor has the identity `groupId:name` of the requirement |
| Requirements.MajorPinned | src/main/java/edu/wpi/first/desktop/plugin/Requirement.java:17-22 | a different major version never matches, a higher one included |
| Requirements.BelowMinimumRejected | src/main/java/edu/wpi/first/desktop/plugin/Requirement.java:17-22 | a version before the minimum never matches |
| Requirements.FromDescriptorMatches | src/main/java/edu/wpi/first/desktop/plugin/Requirement.java:32-34 | a requirement built from a descriptor is met by that descriptor |
| Requirements.MatchesUpwardClosed | src/main/java/edu/wpi/first/desktop/plugin/Requirement.java:17-22 | within a major version, a later version of a matching plugin matches too |
| Requirements.MatchesIgnoresSummary | src/main/java/edu/wpi/first/desktop/plugin/Requirement.java:53-58 | the summary plays no part in matching |
| Requirements.MatchesExamples | src/main/java/edu/wpi/first/desktop/plugin/Requirement.java:17-20 | at least 1.2.3 is met by 1.3.0, not by 2.0.0, and not by the pre-release 1.2.3-rc |
| Plugins.DependsOnSameId | src/main/java/edu/wpi/first/desktop/plugin/PluginManager.java:65-70 | a plugin depends on another only through a requirement naming that plugin's identity |
| Plugins.ApplyTo | src/test/java/edu/wpi/first/desktop/plugin/MockPlugin.java:20-23 | applying appends the plugin at the end of the target's list and keeps the earlier entries in order |
| Plugins.RemoveFrom | src/test/java/edu/wpi/first/desktop/plugin/MockPlugin.java:25-28 | removing an absent plugin leaves the target alone; removing a present one cuts out its first occurrence and keeps the entries before and after it in order |
| Plugins.ApplyThenRemove | src/main/java/edu/wpi/first/desktop/plugin/Plugin.java:19-25 | after apply then remove the target is as if the plugin had never been applied: identical when it was absent, equal up to order otherwise |
| PluginManagers.Load | src/main/java/edu/wpi/first/desktop/plugin/PluginManager.java:35-41 | the plugin always becomes known, and it is loaded afterwards exactly when it could load or was loaded already |
| PluginManagers.LoadOutcome | src/main/java/edu/wpi/first/desktop/plugin/PluginManager.java:35-41 | when `canLoad` holds, the plugin is applied to the target and joins the loaded set at the end; otherwise target and loaded set are untouched; the known set gains the plugin once |
| PluginManagers.LoadKnownIsNoOp | src/main/java/edu/wpi/first/desktop/plugin/PluginManager.java:35-41 | loading a plugin that is already known changes nothing |
| PluginManagers.IdTakenBlocksLoad | src/main/java/edu/wpi/first/desktop/plugin/PluginManager.java:83-85 | no plugin can load while a known plugin shares its group ID and name |
| PluginManagers.CanLoad | src/main/java/edu/wpi/first/desktop/plugin/PluginManager.java:83-88 | a plugin that can load is not yet known |
| PluginManagers.IsLoaded | src/main/java/edu/wpi/first/desktop/plugin/PluginManager.java:50-52 | under the invariant a loaded plugin is known, so it can never load a second time |
| PluginManagers.NewCanLoad | src/main/java/edu/wpi/first/desktop/plugin/PluginManager.java:83-88 | on a fresh manager exactly the plugins without requirements can load |
| PluginManagers.New | src/main/java/edu/wpi/first/desktop/plugin/PluginManager.java:16-25 | a new manager keeps the target, has nothing loaded, and satisfies the invariant |
| PluginManagers.LoadKeepsInv | src/main/java/edu/wpi/first/desktop/plugin/PluginManager.java:35-41 | load keeps the sets duplicate-free with loaded inside known, every loaded plugin's requirements met by loaded plugins, and dependencies known before their dependents |
| PluginManagers.DistinctIds | src/main/java/edu/wpi/first/desktop/plugin/PluginManager.java:83-85 | no two loaded plugins share an identity |
| PluginManagers.Dependents | src/main/java/edu/wpi/first/desktop/plugin/PluginManager.java:65-68 | the snapshot holds exactly the loaded plugins that depend on the given one |
| PluginManagers.Unload | src/main/java/edu/wpi/first/desktop/plugin/PluginManager.java:59-70 | unload terminates; the plugin is no longer loaded, nothing new is loaded, no remaining plugin depends on it or on anything else the cascade removed, the known set is unchanged and the invariant is kept |
| PluginManagers.UnloadAll | src/main/java/edu/wpi/first/desktop/plugin/PluginManager.java:65-70 | unloading the dependents snapshot one by one leaves none of them loaded and no survivor depending on a removed plugin |
| PluginManagerFrame.UnloadFrame | src/main/java/edu/wpi/first/desktop/plugin/PluginManager.java:59-70 | unload leaves exactly the loaded plugins that are neither the plugin nor depend on it through a chain of loaded plugins, in their loaded order |
| PluginManagerFrame.UnloadAllFrame | src/main/java/edu/wpi/first/desktop/plugin/PluginManager.java:65-70 | the cascade over the dependents leaves exactly the loaded plugins outside every dependent's cascade, in their loaded order |
| PluginManagerFrame.UnloadThinned | src/main/java/edu/wpi/first/desktop/plugin/PluginManager.java:59-70 | unload only removes from the loaded set: the survivors keep their relative order |
| PluginManagerFrame.UnloadRemovesOnlyCascade | src/main/java/edu/wpi/first/desktop/plugin/PluginManager.java:59-70 | every plugin unload removes is the plugin itself or depended on it, directly or through loaded plugins |
| PluginManagerFrame.UnloadAllRemovesOnlyCascade | src/main/java/edu/wpi/first/desktop/plugin/PluginManager.java:65-70 | every plugin the cascade removes is one of the dependents or depended on one of them |
| PluginManagerFrame.CascadeGone | src/main/java/edu/wpi/first/desktop/plugin/PluginManager.java:65-70 | once nothing left depends on the plugin or on anything removed, every plugin that depended on it through the old loaded set is gone |
| PluginManagerFrame.UnloadAllCuts | src/main/java/edu/wpi/first/desktop/plugin/PluginManager.java:65-70 | after the cascade no survivor depends on any of the dependents |
| PluginManagers.UnloadTarget | src/main/java/edu/wpi/first/desktop/plugin/PluginManager.java:59-63 | through the whole cascade the target keeps holding exactly the loaded plugins |
| PluginManagers.UnloadLeaf | src/main/java/edu/wpi/first/desktop/plugin/PluginManager.java:59-70 | unloading a plugin no loaded plugin depends on removes just that plugin |
| PluginManagers.StepMirrors | src/main/java/edu/wpi/first/desktop/plugin/PluginManager.java:35-63 | each load or unload keeps the target equal to the loaded set |
| PluginManagers.RunKnownGrows | src/main/java/edu/wpi/first/desktop/plugin/PluginManager.java:35-63 | the known set only ever grows, keeping its order |
| PluginManagers.IdBlockedForever | src/main/java/edu/wpi/first/desktop/plugin/PluginManager.java:83-85 | once an identity is known, a plugin holding it that is not loaded can never be loaded later, whatever else happens |
| PluginManagers.SessionMirrors | src/main/java/edu/wpi/first/desktop/plugin/PluginManager.java:23-63 | from construction through any sequence of loads and unloads the invariant holds and the target holds exactly the loaded plugins, in load order |
| PluginManagerScenarios.ScenarioNoRequirements | src/test/java/edu/wpi/first/desktop/plugin/PluginManagerTest.java:29-38 | a plugin without requirements loads, becomes known and loaded, and is applied |
| PluginManagerScenarios.ScenarioLoadedRequirements | src/test/java/edu/wpi/first/desktop/plugin/PluginManagerTest.java:40-50 | a plugin cannot load before its requirement and loads after it |
| PluginManagerScenarios.ScenarioMissingRequirements | src/test/java/edu/wpi/first/desktop/plugin/PluginManagerTest.java:52-61 | a plugin with a missing requirement becomes known but is neither loaded nor applied |
| PluginManagerScenarios.ScenarioUnloadLeaf | src/test/java/edu/wpi/first/desktop/plugin/PluginManagerTest.java:63-71 | unloading the only plugin leaves it known, with nothing loaded or applied |
| PluginManagerScenarios.ScenarioUnloadDirectDependent | src/test/java/edu/wpi/first/desktop/plugin/PluginManagerTest.java:73-84 | unloading a plugin unloads its direct dependent; both stay known and nothing is applied |
| PluginManagerScenarios.ScenarioUnloadTransitive | src/test/java/edu/wpi/first/desktop/plugin/PluginManagerTest.java:86-101 | unloading the root of a chain of three unloads all of them and empties the target |
| ShutdownHooks.AddHook | src/main/java/edu/wpi/first/desktop/util/ShutdownHooks.java:30-35 | a hook is appended at the end of the queue, and nothing happens while the hooks are running |
| ShutdownHooks.RemoveHook | src/main/java/edu/wpi/first/desktop/util/ShutdownHooks.java:40-45 | the first occurrence of the hook is cut out and the hooks before and after it keep their order; an absent hook changes nothing, and nothing happens while the hooks are running |
| ShutdownHooks.Reset | src/main/java/edu/wpi/first/desktop/util/ShutdownHooks.java:65-67 | reset clears the latch and keeps the queue |
| ShutdownHooks.RemoveAllHooks | src/main/java/edu/wpi/first/desktop/util/ShutdownHooks.java:72-77 | the queue is emptied, unless the hooks are running |
| ShutdownHooks.Reports | src/main/java/edu/wpi/first/desktop/util/ShutdownHooks.java:47-60 | a run yields one report per queued hook in queue order, reported to the handler exactly when the hook at that position throws in that run |
| ShutdownHooks.RunAllHooks | src/main/java/edu/wpi/first/desktop/util/ShutdownHooks.java:51-60 | the latch is set, the queue is kept, and every hook runs in order with a throwing hook handed to the handler and the loop carrying on |
| ShutdownHooks.FrozenWhileRunning | src/main/java/edu/wpi/first/desktop/util/ShutdownHooks.java:27-45 | while the hooks run, add, remove and remove-all leave the state alone |
| ShutdownHooks.AddThenRemove | src/main/java/edu/wpi/first/desktop/util/ShutdownHooks.java:30-45 | adding a hook that was not queued and removing it restores the queue |
| ShutdownHooks.RunTwice | src/main/java/edu/wpi/first/desktop/util/ShutdownHooks.java:51-67 | a run does not consume the queue: a second run, with or without reset and whatever each hook does in either run, reports the queued hooks again in the same order |
| ShutdownHooks.ResetReopens | src/main/java/edu/wpi/first/desktop/util/ShutdownHooks.java:62-67 | after a run and a reset, hooks can be added again behind the old ones |
| ThemeContainers.New | src/main/java/edu/wpi/first/desktop/theme/ThemeContainer.java:14-16 | a new container holds Modena only |
| ThemeContainers.AddTheme | src/main/java/edu/wpi/first/desktop/theme/ThemeContainer.java:18-28 | a theme is appended, duplicates allowed; a null theme throws NullPointerException "Theme cannot be null" and changes nothing |
| ThemeContainers.AddThemes | src/main/java/edu/wpi/first/desktop/theme/ThemeContainer.java:30-41 | the themes are added in order; at the first null element the call throws and only the themes before it were added |
| ThemeContainers.RemoveTheme | src/main/java/edu/wpi/first/desktop/theme/ThemeContainer.java:61-63 | one copy of the theme leaves the list; an absent theme changes nothing |
| ThemeContainers.RemoveThemeFirstOccurrence | src/main/java/edu/wpi/first/desktop/theme/ThemeContainer.java:61-63 | it is the first occurrence that goes, and the rest keeps its order |
| ThemeContainers.AddThenRemoveTheme | src/main/java/edu/wpi/first/desktop/theme/ThemeContainer.java:25-63 | removing a just-added theme restores the contents, and restores the list exactly when the theme was new |
| ThemeContainers.RemoveEach | src/main/java/edu/wpi/first/desktop/theme/ThemeContainer.java:70-74 | removing several themes takes one copy of each argument out, as far as copies remain |
| ThemeContainers.RemoveThemes | src/main/java/edu/wpi/first/desktop/theme/ThemeContainer.java:70-85 | the loop removes each argument in turn, and the result's contents are the old contents minus one copy per argument |
| ThemeContainers.GetTheme | src/main/java/edu/wpi/first/desktop/theme/ThemeContainer.java:96-108 | the result is empty exactly when no theme has that exact name, and is otherwise the first theme with it |
| ThemeContainers.NewFindsModena | src/main/java/edu/wpi/first/desktop/theme/ThemeContainer.java:96-108 | a fresh container finds Modena by its exact name and not under another spelling |
| Settings.CheckName | src/main/java/edu/wpi/first/desktop/settings/Category.java:54-58 | a null name throws NullPointerException and a whitespace-only name, the empty one included, IllegalArgumentException, each with its message; any other name passes |
| Settings.NameExamples | src/main/java/edu/wpi/first/desktop/settings/Setting.java:53-57 | the empty name and a whitespace-only name are refused, a name with a letter is accepted |
| Settings.NewCategory | src/main/java/edu/wpi/first/desktop/settings/Category.java:50-62 | a category is built exactly when its name passes the check, and then keeps name, subcategories and groups |
| Settings.CategoryOf | src/main/java/edu/wpi/first/desktop/settings/Category.java:37-39 | the two-argument factory builds a category without subcategories |
| Settings.GroupOf | src/main/java/edu/wpi/first/desktop/settings/Group.java:35-46 | a group is built exactly when its name passes the check, and then keeps name and settings |
| Settings.NewSetting | src/main/java/edu/wpi/first/desktop/settings/Setting.java:53-62 | a setting is built exactly when the name passes and a property is given; a bad name is reported before a null property |
| Settings.SettingOf | src/main/java/edu/wpi/first/desktop/settings/Setting.java:41-43 | the short factory is the full constructor without a description: a valid call keeps the name and property unchecked, a bad name is reported before a null property, with the same exceptions |
| Settings.GetValue | src/main/java/edu/wpi/first/desktop/settings/Setting.java:76-78 | the value read is the one the setting's property holds, and it determines that property |
| Settings.Checked | src/main/java/edu/wpi/first/desktop/settings/CheckedSetting.java:13-16 | a checked setting validates as a setting does and records its type |
| Settings.SetValue | src/main/java/edu/wpi/first/desktop/settings/CheckedSetting.java:22-28 | a checked setting throws ClassCastException naming its type, and keeps its value, exactly for null or a value of another class; otherwise the value is stored |
| Settings.PlainSetThenGet | src/main/java/edu/wpi/first/desktop/settings/Setting.java:76-82 | a plain setting stores any value, null included, and reads it back |
| Settings.CheckedRejectsNull | src/main/java/edu/wpi/first/desktop/settings/CheckedSetting.java:23-26 | a checked setting refuses null whatever its type |
| Settings.SetValueIdempotent | src/main/java/edu/wpi/first/desktop/settings/Setting.java:80-82 | writing the same value twice leaves the same state as writing it once |
| Settings.SettingValidationOrder | src/main/java/edu/wpi/first/desktop/settings/Setting.java:53-58 | with a null property too, a null name reports NullPointerException for the name and a blank name IllegalArgumentException |
| Settings.CheckedKeepsType | src/main/java/edu/wpi/first/desktop/settings/CheckedSetting.java:13-20 | a valid checked setting reports the type it was given and the property's value |

## Left out

- PluginManagers.Unload: requires the invariant `Inv`. Every state reachable from construction through `load` and `unload` satisfies it (see `SessionMirrors`). The source has no cycle guard, and on a state with a dependency cycle its recursion would not end.
- PluginManagers: `getKnownPlugins` and `getLoadedPlugins` hand out the live, mutable sets. The model assumes callers never change those sets directly; a caller that inserts a plugin with unmet requirements, or a dependency cycle, reaches a state outside `Inv` that the model does not cover.
- Plugins.DependsOn: `Plugin.java` declares no `dependsOn`. The model takes it to hold when some requirement of the plugin matches the other plugin's descriptor, which is how `canLoad` uses requirements.
- Descriptors.FullIdString: renders the version with `toString` rather than a stored version string (see the note above on `Descriptor.java`).
- Versions.Compare: its own contract bounds only the numeric differences. A difference of two identifiers' lengths is left unbounded, because Java strings are bounded by memory and not by the type.
- Versions.Parse: the text is a `string`, so `parse(null)` is not modelled; in the source the regex matcher throws NullPointerException for it.
- Versions.ToString: locale effects of `String.format` are not modelled; the numbers are rendered in ASCII decimal.
- Java `char` is a UTF-16 code unit and Dafny's `char` a Unicode scalar, so `String.compareTo` on surrogate pairs is not modelled exactly.
- `hashCode` (Version, Descriptor) is not modelled: no modelled operation depends on hash values.
- Getters are the datatype fields, and `getKnownPlugins` / `getLoadedPlugins` / `getThemes` are the sequences themselves. The `unmodifiableList` wrapper of `getThemes`, the live `ObservableSet`s of the plugin manager (see the line above) and their change notifications are left out.
- Annotation reading (`fromAnnotation` for `Descriptor` and `Requirement`) is left out. `Requirements.FromText` models what follows the read.
- `Theme.applyTo`, the stylesheet URL constructors and every other JavaFX scene effect are left out: they act on the JavaFX runtime.
- ShutdownHooks.AddHook: a hook is a `nat`, so `addHook(null)` is not modelled; before the run the source's queue would throw NullPointerException, during the run the call returns early.
- ShutdownHooks.RemoveHook: `removeHook(null)` is not modelled; the queue never holds null, so the source's call changes nothing, as for any absent hook.
- ThemeContainers.RemoveTheme: `removeTheme(null)` is not modelled; the list never holds null, so the call changes nothing, as for any absent theme.
- ThemeContainers.GetTheme: `getTheme(null)` is not modelled; no theme name equals null, so the source returns an empty result, as for any name no theme has.
- Descriptors.IdString: a null group ID or name is not modelled; the source's string concatenation would render it as `null`.
- Requirements.Matches: the strings and versions of a requirement and a descriptor are never null here; in the source a null group ID, name or version makes `matches` throw NullPointerException.
- ShutdownHooks: concurrency and the `volatile` latch are not modelled, and neither are hooks' side effects. A hook throwing an `Error` rather than an `Exception` is left out as well, since it would escape the loop.
- A null array or list passed to `addThemes`, `removeThemes`, `Category.of` or `Group.of` is not modelled. Nulls inside the lists given to `Category.of` and `Group.of` are not modelled either; only nulls inside the theme list are.
- Settings.Checked: a null `type` is not modelled. `isInstance` would throw NullPointerException on the first write.
- Settings.SetValue: only the class name of the ClassCastException message is kept, since the value's rendering depends on its `toString`. Two settings sharing one JavaFX property are not modelled, because each setting owns its cell here.
- A `Group` of differently typed `Setting<?>` is modelled with one type parameter.
