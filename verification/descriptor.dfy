/**
 * `Descriptor`: a plugin's group ID, name, version and summary, and the two
 * identity strings built from them.
 */
module Descriptors {
  import opened Versions

  /** The fields are stored as given; nothing is validated. */
  datatype Descriptor = Descriptor(groupId: string, name: string, version: Version, summary: string)

  /** `idString`: the version-independent identity `groupId:name`. */
  function IdString(d: Descriptor): (s: string)
    ensures |s| == |d.groupId| + 1 + |d.name|
    ensures s[..|d.groupId|] == d.groupId && s[|d.groupId|] == ':' && s[|d.groupId| + 1..] == d.name
  {
    d.groupId + ":" + d.name
  }

  /** `fullIdString`: `groupId:name:version`, the version rendered by `toString`. */
  function FullIdString(d: Descriptor): (s: string)
    ensures s == IdString(d) + ":" + ToString(d.version)
  {
    d.groupId + ":" + d.name + ":" + ToString(d.version)
  }

  /** Two descriptors of the same group and name share their `idString`,
      whatever their versions and summaries. */
  lemma SameIdString(d: Descriptor, e: Descriptor)
    requires d.groupId == e.groupId && d.name == e.name
    ensures IdString(d) == IdString(e)
  {
  }

  /** The converse fails once a component contains `:`. */
  lemma IdStringAmbiguous(v: Version)
    ensures IdString(Descriptor("a:b", "c", v, "")) == IdString(Descriptor("a", "b:c", v, ""))
    ensures Descriptor("a:b", "c", v, "").groupId != Descriptor("a", "b:c", v, "").groupId
  {
    assert "a:b" + ":" + "c" == "a" + ":" + "b:c";
  }

  /** `fullIdString` begins with `idString` and a colon. */
  lemma FullIdStringExtendsIdString(d: Descriptor)
    ensures FullIdString(d)[..|IdString(d)| + 1] == IdString(d) + ":"
  {
    var f := FullIdString(d);
    assert f == (IdString(d) + ":") + ToString(d.version);
  }
}
