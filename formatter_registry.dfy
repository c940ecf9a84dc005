/**
 * FormatterRegistry: turns the data registered for a notification type into
 * a formatter instance. The data is either an array with the class name,
 * the description and optionally a group, or just the class name.
 */
module Registries {
  import opened Wrappers
  import opened PhpValues

  /** An instance the registry hands out: the null formatter, or `new $class($type, $description, $group)`. */
  datatype Instance =
    | NullFormatter
    | Created(className: Value, formatterType: Value, description: Value, group: Value)

  /**
   * createNullInstance(): `new NullFormatter()`, built without a type or a
   * description. Registered data only ever becomes `new $class($type,
   * $description, $group)`, so this argumentless construction is never what
   * data produces; data naming the NullFormatter class itself does give a
   * NullFormatter object, built with arguments, which this model keeps apart.
   */
  function CreateNullInstance(): (i: Instance)
    ensures forall t, d, classExists :: GetInstanceFromData(t, d, classExists) != Ok(i)
  {
    NullFormatter
  }

  /**
   * class_exists($class) with the known class names given as classExists:
   * the empty name, which is what a missing 'class' entry reads as, never
   * names a class.
   */
  predicate ClassExists(classExists: string -> bool, name: string) {
    name != "" && classExists(name)
  }

  /**
   * getInstanceFromData($type, $data), where classExists tells which class
   * names exist. An array gives class and description from its entries, a
   * string is the class and the type is the description; any other data is
   * an invalid argument and an unknown class a logic error.
   */
  function GetInstanceFromData(formatterType: Value, data: Value, classExists: string -> bool): (r: Result<Instance>)
    ensures r.Ok? ==> r.value.Created? && r.value.formatterType == formatterType
    ensures r.Ok? ==> StringOf(r.value.className) != ""
  {
    var (className, description) :=
      if data.Arr? then (Index(data, "class"), Index(data, "description"))
      else if data.Str? then (data, formatterType)
      else (Null, Null);
    if !data.Arr? && !data.Str? then
      Err(InvalidArgument("Invalid data given for type '" + StringOf(formatterType) + "' does not exist"))
    else if !ClassExists(classExists, StringOf(className)) then
      Err(LogicException("Class '" + StringOf(className) + "' does not exist for type '" + StringOf(formatterType) + "'"))
    else
      Ok(Created(className, formatterType, description, if IsSet(data, "group") then data.entries["group"] else Null))
  }

  /**
   * The rules of getInstanceFromData: data that is neither array nor string
   * is always an invalid argument; for the two accepted shapes the call
   * succeeds exactly when the class exists, with the class, description and
   * group each shape promises.
   */
  lemma InstanceRules(formatterType: Value, data: Value, classExists: string -> bool)
    ensures var r := GetInstanceFromData(formatterType, data, classExists);
      (!data.Arr? && !data.Str? ==> r.Err? && r.error.InvalidArgument?) &&
      (data.Arr? ==> (r.Ok? <==> ClassExists(classExists, StringOf(Index(data, "class"))))) &&
      (data.Arr? && r.Ok? ==> r.value == Created(Index(data, "class"), formatterType,
                                                  Index(data, "description"), Index(data, "group"))) &&
      (data.Str? ==> (r.Ok? <==> ClassExists(classExists, data.s))) &&
      (data.Str? && r.Ok? ==> r.value == Created(data, formatterType, formatterType, Null)) &&
      (r.Err? && (data.Arr? || data.Str?) ==> r.error.LogicException?)
  {
  }

  /** Array data without a 'class' entry names no class, so it is refused with a LogicException whatever classExists says. */
  lemma MissingClassFails(formatterType: Value, data: Value, classExists: string -> bool)
    requires data.Arr? && "class" !in data.entries
    ensures var r := GetInstanceFromData(formatterType, data, classExists);
      r.Err? && r.error.LogicException?
  {
    InstanceRules(formatterType, data, classExists);
  }

  /** The array a module registers for a formatter class, description and optional group. */
  function Registration(className: string, description: Value, group: Value): (data: Value)
    ensures data.Arr?
  {
    var base := map["class" := Str(className), "description" := description];
    Arr(if group == Null then base else base["group" := group])
  }

  /** A registration for an existing class gives back an instance of that class with the registered fields. */
  lemma RegistrationRoundTrip(formatterType: Value, className: string, description: Value, group: Value,
                              classExists: string -> bool)
    requires ClassExists(classExists, className)
    ensures GetInstanceFromData(formatterType, Registration(className, description, group), classExists) ==
      Ok(Created(Str(className), formatterType, description, group))
  {
    var data := Registration(className, description, group);
    assert Index(data, "class") == Str(className);
    assert Index(data, "description") == description;
    InstanceRules(formatterType, data, classExists);
  }
}
