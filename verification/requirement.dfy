/**
 * `Requirement`: a dependency on another plugin, identified by group ID and
 * name, at a minimum version within the same major version.
 */
module Requirements {
  import opened Wrappers
  import opened Versions
  import opened Descriptors

  datatype Requirement = Requirement(groupId: string, name: string, minVersion: Version)

  /** `Requirement.from(descriptor)`: require that plugin at its own version. */
  function FromDescriptor(d: Descriptor): (r: Requirement)
    ensures r.groupId == d.groupId && r.name == d.name && r.minVersion == d.version
  {
    Requirement(d.groupId, d.name, d.version)
  }

  /** The part of `fromAnnotation` that does not read the annotation: build a
      requirement whose minimum version is given as text. */
  function FromText(groupId: string, name: string, minVersion: string): (r: Result<Requirement>)
    ensures r.Ok? <==> Parse(minVersion).Ok?
    ensures r.Ok? ==> r.value.groupId == groupId && r.value.name == name
    ensures r.Ok? ==> r.value.minVersion == Parse(minVersion).value
    ensures r.Err? ==> r.error == Parse(minVersion).error
  {
    match Parse(minVersion)
    case Ok(v) => Ok(Requirement(groupId, name, v))
    case Err(e) => Err(e)
  }

  /** `matches`: same group ID, same name, same major version, and a version
      at least the minimum. */
  function Matches(r: Requirement, d: Descriptor): (b: bool)
    ensures b ==> IdString(d) == r.groupId + ":" + r.name
    ensures b ==> !Before(d.version, r.minVersion)
  {
    CompareIsBefore(d.version, r.minVersion);
    CompareFlip(r.minVersion, d.version);
    && r.groupId == d.groupId
    && r.name == d.name
    && r.minVersion.major == d.version.major
    && Compare(r.minVersion, d.version) <= 0
  }

  /** `matches` in terms of the written-out version order: the descriptor's
      version must not come before the minimum. */
  lemma MatchesMeaning(r: Requirement, d: Descriptor)
    ensures Matches(r, d) <==>
              && r.groupId == d.groupId && r.name == d.name
              && r.minVersion.major == d.version.major
              && !Before(d.version, r.minVersion)
  {
    CompareIsBefore(d.version, r.minVersion);
    CompareFlip(r.minVersion, d.version);
  }

  /** A matched descriptor carries the requirement's identity. */
  lemma MatchesSameIdString(r: Requirement, d: Descriptor)
    requires Matches(r, d)
    ensures IdString(d) == r.groupId + ":" + r.name
  {
  }

  /** Major pinning: a different major version never matches, not even a higher one. */
  lemma MajorPinned(r: Requirement, d: Descriptor)
    requires r.minVersion.major != d.version.major
    ensures !Matches(r, d)
  {
  }

  /** A version below the minimum never matches. */
  lemma BelowMinimumRejected(r: Requirement, d: Descriptor)
    requires Before(d.version, r.minVersion)
    ensures !Matches(r, d)
  {
    MatchesMeaning(r, d);
  }

  /** A requirement built from a descriptor matches that descriptor. */
  lemma FromDescriptorMatches(d: Descriptor)
    ensures Matches(FromDescriptor(d), d)
  {
    CompareZeroIffEqual(d.version, d.version);
  }

  /** Within a major version, matching is closed upwards. */
  lemma MatchesUpwardClosed(r: Requirement, d: Descriptor, e: Descriptor)
    requires Matches(r, d)
    requires e.groupId == d.groupId && e.name == d.name && e.version.major == d.version.major
    requires Compare(d.version, e.version) <= 0
    ensures Matches(r, e)
  {
    CompareTransitive(r.minVersion, d.version, e.version);
  }

  /** The summary plays no part in matching. */
  lemma MatchesIgnoresSummary(r: Requirement, d: Descriptor, summary: string)
    ensures Matches(r, d) == Matches(r, d.(summary := summary))
  {
  }

  /** The examples of the constructor's documentation, and a pre-release of the
      minimum itself. */
  lemma MatchesExamples(g: string, n: string)
    ensures Matches(Requirement(g, n, Version(1, 2, 3, "")), Descriptor(g, n, Version(1, 3, 0, ""), ""))
    ensures !Matches(Requirement(g, n, Version(1, 2, 3, "")), Descriptor(g, n, Version(2, 0, 0, ""), ""))
    ensures !Matches(Requirement(g, n, Version(1, 2, 3, "")), Descriptor(g, n, Version(1, 2, 3, "-rc"), ""))
    ensures !Matches(Requirement(g, n, Version(1, 2, 0, "")), Descriptor(g, n, Version(1, 1, 0, ""), ""))
  {
  }
}
