/**
 * The settings model: categories of groups of settings, the name validation
 * their constructors share, and the type check of a checked setting.
 *
 * Java nulls are `None`. A JavaFX property is a cell holding a possibly null
 * value; a setting owns its cell here, so writing a value returns the updated
 * setting. Class membership (`Class.isInstance`) is not something the model can
 * decide, so the operations that need it take it as a parameter.
 */
module Settings {
  import opened Wrappers
  import opened JavaText

  /** A Java class, known by its name. */
  datatype JClass = JClass(name: string)

  /** A property cell; `None` is a null value. */
  datatype Property<T> = Property(value: Option<T>)

  /** A `Setting`, or a `CheckedSetting` when `checkedType` is present. */
  datatype Setting<T> = Setting(name: string, description: Option<string>, property: Property<T>, checkedType: Option<JClass>)

  datatype Group<T> = Group(name: string, settings: seq<Setting<T>>)

  datatype Category<T> = Category(name: string, subcategories: seq<Category<T>>, groups: seq<Group<T>>)

  /** A name some non-whitespace character gives substance to. */
  predicate HasSubstance(name: string) {
    exists i | 0 <= i < |name| :: !IsJavaWhitespace(name[i])
  }

  /** The name check shared by the constructors of `Category`, `Group` and
      `Setting` (`what` is the noun of the message): a null name fails first,
      then a name of whitespace only, the empty name included. */
  function CheckName(name: Option<string>, what: string): (e: Option<Failure>)
    ensures e.None? <==> name.Some? && HasSubstance(name.value)
    ensures name.None? ==> e == Some(NullPointer("A " + what + " name cannot be null"))
    ensures name.Some? && !HasSubstance(name.value) ==> e == Some(IllegalArgument("A " + what + " name cannot be empty"))
  {
    match name
    case None => Some(NullPointer("A " + what + " name cannot be null"))
    case Some(n) => if IsBlank(n) then Some(IllegalArgument("A " + what + " name cannot be empty")) else None
  }

  // ---------------------------------------------------------------------------
  // Category and Group
  // ---------------------------------------------------------------------------

  /** The private `Category` constructor behind every `of` factory. */
  function NewCategory<T>(name: Option<string>, subcategories: seq<Category<T>>, groups: seq<Group<T>>): (r: Result<Category<T>>)
    ensures r.Ok? <==> CheckName(name, "category").None?
    ensures r.Ok? ==> r.value.name == name.value && r.value.subcategories == subcategories && r.value.groups == groups
    ensures r.Err? ==> Some(r.error) == CheckName(name, "category")
  {
    match CheckName(name, "category")
    case Some(e) => Err(e)
    case None => Ok(Category(name.value, subcategories, groups))
  }

  /** `Category.of(name, groups)`: a category without subcategories. */
  function CategoryOf<T>(name: Option<string>, groups: seq<Group<T>>): (r: Result<Category<T>>)
    ensures r == NewCategory(name, [], groups)
    ensures r.Ok? ==> r.value.subcategories == [] && r.value.groups == groups
  {
    NewCategory(name, [], groups)
  }

  /** `Group.of(name, settings)`, both overloads. */
  function GroupOf<T>(name: Option<string>, settings: seq<Setting<T>>): (r: Result<Group<T>>)
    ensures r.Ok? <==> CheckName(name, "group").None?
    ensures r.Ok? ==> r.value.name == name.value && r.value.settings == settings
    ensures r.Err? ==> Some(r.error) == CheckName(name, "group")
  {
    match CheckName(name, "group")
    case Some(e) => Err(e)
    case None => Ok(Group(name.value, settings))
  }

  // ---------------------------------------------------------------------------
  // Setting and CheckedSetting
  // ---------------------------------------------------------------------------

  const NullPropertyMessage: string := "A setting's property cannot be null"

  /** The `Setting` constructor: the name is checked first, the property second. */
  function NewSetting<T>(name: Option<string>, description: Option<string>, property: Option<Property<T>>): (r: Result<Setting<T>>)
    ensures r.Ok? <==> CheckName(name, "setting").None? && property.Some?
    ensures r.Ok? ==> r.value == Setting(name.value, description, property.value, None)
    ensures CheckName(name, "setting").Some? ==> r == Err(CheckName(name, "setting").value)
    ensures CheckName(name, "setting").None? && property.None? ==> r == Err(NullPointer(NullPropertyMessage))
  {
    match CheckName(name, "setting")
    case Some(e) => Err(e)
    case None =>
      match property
      case None => Err(NullPointer(NullPropertyMessage))
      case Some(p) => Ok(Setting(name.value, description, p, None))
  }

  /** `Setting.of(name, property)`: no description. */
  function SettingOf<T>(name: Option<string>, property: Option<Property<T>>): (r: Result<Setting<T>>)
    ensures r == NewSetting(name, None, property)
    ensures r.Ok? <==> CheckName(name, "setting").None? && property.Some?
    ensures r.Ok? ==> r.value == Setting(name.value, None, property.value, None)
    ensures CheckName(name, "setting").Some? ==> r == Err(CheckName(name, "setting").value)
    ensures CheckName(name, "setting").None? && property.None? ==> r == Err(NullPointer(NullPropertyMessage))
  {
    NewSetting(name, None, property)
  }

  /** `Setting.checked`: the `CheckedSetting` constructor, which validates as
      `Setting` does and then records the type. */
  function Checked<T>(name: Option<string>, description: Option<string>, property: Option<Property<T>>, typ: JClass): (r: Result<Setting<T>>)
    ensures r.Ok? <==> NewSetting(name, description, property).Ok?
    ensures r.Err? ==> r.error == NewSetting(name, description, property).error
    ensures r.Ok? ==> r.value.checkedType == Some(typ)
    ensures r.Ok? ==> r.value.(checkedType := None) == NewSetting(name, description, property).value
  {
    match NewSetting(name, description, property)
    case Err(e) => Err(e)
    case Ok(s) => Ok(s.(checkedType := Some(typ)))
  }

  /** `getValue`: the property's current value. */
  function GetValue<T>(s: Setting<T>): (v: Option<T>)
    ensures s.property == Property(v)
  {
    s.property.value
  }

  /** `setValue`. A checked setting first tests the value against its type:
      null and values of other classes throw `ClassCastException` and leave
      the property as it was. */
  function SetValue<T>(s: Setting<T>, v: Option<T>, isInstance: (JClass, T) -> bool): (r: Attempt<Setting<T>>)
    ensures r.thrown.Some? <==> s.checkedType.Some? && (v.None? || !isInstance(s.checkedType.value, v.value))
    ensures r.thrown.Some? ==> r.state == s && r.thrown.value == ClassCast(s.checkedType.value.name)
    ensures r.thrown.None? ==> GetValue(r.state) == v
    ensures r.state.name == s.name && r.state.description == s.description && r.state.checkedType == s.checkedType
  {
    if s.checkedType.Some? && (v.None? || !isInstance(s.checkedType.value, v.value)) then
      Attempt(s, Some(ClassCast(s.checkedType.value.name)))
    else
      Attempt(s.(property := Property(v)), None)
  }

  // ---------------------------------------------------------------------------
  // Properties
  // ---------------------------------------------------------------------------

  /** The empty name and names of whitespace only are refused; a name with any
      other character is accepted. */
  lemma NameExamples(what: string)
    ensures CheckName(Some(""), what).Some? && CheckName(Some(" \t\n"), what).Some?
    ensures CheckName(Some(" a "), what).None?
  {
    assert !IsJavaWhitespace(" a "[1]);
  }

  /** A plain setting stores whatever it is given, null included. */
  lemma PlainSetThenGet<T>(s: Setting<T>, v: Option<T>, isInstance: (JClass, T) -> bool)
    requires s.checkedType.None?
    ensures SetValue(s, v, isInstance).thrown.None? && GetValue(SetValue(s, v, isInstance).state) == v
  {
  }

  /** A checked setting refuses null, whatever its type. */
  lemma CheckedRejectsNull<T>(s: Setting<T>, isInstance: (JClass, T) -> bool)
    requires s.checkedType.Some?
    ensures SetValue(s, None, isInstance).thrown == Some(ClassCast(s.checkedType.value.name))
    ensures GetValue(SetValue(s, None, isInstance).state) == GetValue(s)
  {
  }

  /** Writing the same value twice is the same as writing it once. */
  lemma SetValueIdempotent<T>(s: Setting<T>, v: Option<T>, isInstance: (JClass, T) -> bool)
    ensures var once := SetValue(s, v, isInstance);
      SetValue(once.state, v, isInstance) == once.(thrown := SetValue(once.state, v, isInstance).thrown)
  {
  }

  /** Validation order: a null name is reported before a null property, and a
      blank name before a null property. */
  lemma SettingValidationOrder<T>(description: Option<string>, typ: JClass)
    ensures NewSetting<T>(None, description, None) == Err(CheckName(None, "setting").value)
    ensures NewSetting<T>(None, description, None).error.NullPointer?
    ensures Checked<T>(Some(""), description, None, typ) == Err(CheckName(Some(""), "setting").value)
    ensures Checked<T>(Some(""), description, None, typ).error.IllegalArgument?
  {
  }

  /** A checked setting built successfully reports the type it was given. */
  lemma CheckedKeepsType<T>(name: string, description: Option<string>, p: Property<T>, typ: JClass)
    requires HasSubstance(name)
    ensures Checked(Some(name), description, Some(p), typ).Ok?
    ensures Checked(Some(name), description, Some(p), typ).value.checkedType == Some(typ)
    ensures GetValue(Checked(Some(name), description, Some(p), typ).value) == p.value
  {
  }
}
