/**
 * `ThemeContainer`: an ordered list of themes that starts with Modena.
 *
 * A `Theme` is compared by identity, so the model gives it a handle next to
 * its name and stylesheet paths. A null theme argument is `None`; a thrown
 * exception is returned together with the state reached before it.
 */
module ThemeContainers {
  import opened Wrappers
  import opened Seqs

  datatype Theme = Theme(handle: nat, name: string, styleSheets: seq<string>)

  /** `Theme.MODENA`: the JavaFX default, with no stylesheets of its own. */
  const Modena: Theme := Theme(0, "Modena", [])

  datatype Container = Container(themes: seq<Theme>)

  const NullThemeMessage: string := "Theme cannot be null"

  /** `new ThemeContainer()`. */
  function New(): (c: Container)
    ensures c.themes == [Modena]
  {
    Container([Modena])
  }

  /** `addTheme`: append the theme, duplicates allowed; a null theme throws and
      changes nothing. */
  function AddTheme(c: Container, theme: Option<Theme>): (r: Attempt<Container>)
    ensures r.thrown.None? <==> theme.Some?
    ensures theme.None? ==> r.state == c && r.thrown == Some(NullPointer(NullThemeMessage))
    ensures theme.Some? ==> |r.state.themes| == |c.themes| + 1 && r.state.themes[..|c.themes|] == c.themes
    ensures theme.Some? ==> r.state.themes[|c.themes|] == theme.value
  {
    match theme
    case None => Attempt(c, Some(NullPointer(NullThemeMessage)))
    case Some(t) => Attempt(c.(themes := c.themes + [t]), None)
  }

  /** Position of the first null in `ts`, or `|ts|`. */
  function FirstNull(ts: seq<Option<Theme>>): (k: nat)
    ensures k <= |ts|
    ensures k < |ts| ==> ts[k].None?
    ensures forall i | 0 <= i < k :: ts[i].Some?
  {
    if |ts| == 0 then 0 else if ts[0].None? then 0 else 1 + FirstNull(ts[1..])
  }

  /** The themes of a null-free argument list. */
  function Values(ts: seq<Option<Theme>>): (vs: seq<Theme>)
    requires forall i | 0 <= i < |ts| :: ts[i].Some?
    ensures |vs| == |ts| && forall i | 0 <= i < |ts| :: vs[i] == ts[i].value
  {
    if |ts| == 0 then [] else [ts[0].value] + Values(ts[1..])
  }

  /** `addThemes`: `addTheme` on each element in order. The first null element
      throws, after the elements before it were added. */
  function AddThemes(c: Container, ts: seq<Option<Theme>>): (r: Attempt<Container>)
    ensures var k := FirstNull(ts);
      && r.state.themes == c.themes + Values(ts[..k])
      && (r.thrown.None? <==> k == |ts|)
      && (r.thrown.Some? ==> r.thrown.value == NullPointer(NullThemeMessage))
    decreases |ts|
  {
    if |ts| == 0 then Attempt(c, None)
    else
      var step := AddTheme(c, ts[0]);
      if step.thrown.Some? then step
      else
        var rest := AddThemes(step.state, ts[1..]);
        assert Values(ts[..FirstNull(ts)]) == [ts[0].value] + Values(ts[1..][..FirstNull(ts[1..])]) by {
          assert ts[..FirstNull(ts)][1..] == ts[1..][..FirstNull(ts[1..])];
        }
        rest
  }

  /** `removeTheme`: remove the first occurrence; an absent theme changes nothing. */
  function RemoveTheme(c: Container, theme: Theme): (r: Container)
    ensures theme !in c.themes ==> r == c
    ensures theme in c.themes ==> |r.themes| == |c.themes| - 1
    ensures multiset(r.themes) == multiset(c.themes) - multiset{theme}
  {
    RemoveFirstMultiset(c.themes, theme);
    Container(RemoveFirst(c.themes, theme))
  }

  /** The removal is of exactly the first occurrence: everything before it and
      everything after it stays, in order. */
  lemma RemoveThemeFirstOccurrence(c: Container, theme: Theme)
    requires theme in c.themes
    ensures var i := IndexOf(c.themes, theme);
      RemoveTheme(c, theme).themes == c.themes[..i] + c.themes[i + 1..]
  {
    RemoveFirstAt(c.themes, theme);
  }

  /** Removing a theme right after adding it restores the container when the
      theme was not in it, and its contents up to order in every case. */
  lemma AddThenRemoveTheme(c: Container, theme: Theme)
    ensures multiset(RemoveTheme(AddTheme(c, Some(theme)).state, theme).themes) == multiset(c.themes)
    ensures theme !in c.themes ==> RemoveTheme(AddTheme(c, Some(theme)).state, theme) == c
  {
    if theme !in c.themes {
      RemoveFirstAt(c.themes + [theme], theme);
      IndexOfAppendFresh(c.themes, theme);
    }
  }

  /** `removeTheme` applied to each argument in order: one copy of every
      argument leaves the list, as far as there are copies to take. */
  function RemoveEach(c: Container, ts: seq<Theme>): (r: Container)
    ensures multiset(r.themes) == multiset(c.themes) - multiset(ts)
  {
    RemoveAllMultiset(c.themes, ts);
    Container(RemoveAll(c.themes, ts))
  }

  /** `removeThemes`: the loop of the source, equal to removing each argument
      in order. */
  method RemoveThemes(c: Container, ts: seq<Theme>) returns (r: Container)
    ensures r == RemoveEach(c, ts)
    ensures multiset(r.themes) == multiset(c.themes) - multiset(ts)
  {
    r := c;
    var i := 0;
    while i < |ts|
      invariant 0 <= i <= |ts|
      invariant RemoveEach(r, ts[i..]) == RemoveEach(c, ts)
    {
      assert ts[i..][1..] == ts[i + 1..];
      r := RemoveTheme(r, ts[i]);
      i := i + 1;
    }
  }

  /** `getTheme`: the first theme whose name equals `name` exactly, if any. */
  function GetTheme(c: Container, name: string): (r: Option<Theme>)
    ensures r.None? <==> forall t | t in c.themes :: t.name != name
    ensures r.Some? ==> exists i | 0 <= i < |c.themes| :: c.themes[i] == r.value && r.value.name == name
                          && forall j | 0 <= j < i :: c.themes[j].name != name
  {
    var i := NameIndex(c.themes, name);
    if i < |c.themes| then Some(c.themes[i]) else None
  }

  /** Position of the first theme named `name`, or `|ts|`. */
  function NameIndex(ts: seq<Theme>, name: string): (i: nat)
    ensures i <= |ts|
    ensures i < |ts| ==> ts[i].name == name
    ensures forall j | 0 <= j < i :: ts[j].name != name
  {
    if |ts| == 0 then 0 else if ts[0].name == name then 0 else 1 + NameIndex(ts[1..], name)
  }

  /** A fresh container finds Modena by its exact name, and nothing under a
      different spelling. */
  lemma NewFindsModena()
    ensures GetTheme(New(), "Modena") == Some(Modena)
    ensures GetTheme(New(), "modena").None?
  {
  }
}
