/**
 * Commands: the registry of command factories keyed by command type, and the
 * check that a command carries every required field.
 */
module Command {
  import opened Wrappers
  import opened Entity
  import opened Eh

  /**
   * The value of one command field, by kind. Numbers and booleans are never
   * missing; strings are missing when empty, slices and maps when nil, times
   * when zero, arrays and structs when every element or field is.
   */
  datatype FieldValue =
    | Scalar
    | Str(s: string)
    | Collection(isNil: bool)
    | Time(isZero: bool)
    | Array(elements: seq<FieldValue>)
    | Struct(fields: seq<FieldValue>)

  /** A field of the command's struct: exported fields may be tagged optional. */
  datatype Field = Field(name: string, exported: bool, optional: bool, value: FieldValue)

  datatype Command = Command(
    commandType: CommandType,
    aggregateType: AggregateType,
    aggregateId: ID,
    fields: seq<Field>)

  /** Whether a value is its kind's zero value, for the kinds that can be missing. */
  predicate IsZero(v: FieldValue)
    decreases v
  {
    match v
    case Scalar => false
    case Str(s) => s == ""
    case Collection(isNil) => isNil
    case Time(isZero) => isZero
    case Array(elements) => forall k :: 0 <= k < |elements| ==> IsZero(elements[k])
    case Struct(fields) => forall k :: 0 <= k < |fields| ==> IsZero(fields[k])
  }

  /** A field is checked unless it is unexported or tagged optional. */
  predicate Required(f: Field)
  {
    f.exported && !f.optional
  }

  predicate Missing(f: Field)
  {
    Required(f) && IsZero(f.value)
  }

  /**
   * CheckCommand: reports the first required field, in declaration order, that
   * holds a zero value, and nothing when there is none.
   */
  method CheckCommand(cmd: Command) returns (err: Option<Error>)
    ensures err.None? <==> forall k :: 0 <= k < |cmd.fields| ==> !Missing(cmd.fields[k])
    ensures err.Some? ==>
              exists k :: 0 <= k < |cmd.fields| && Missing(cmd.fields[k])
                && err.value == MissingField(cmd.fields[k].name)
                && forall j :: 0 <= j < k ==> !Missing(cmd.fields[j])
  {
    var i := 0;
    while i < |cmd.fields|
      invariant 0 <= i <= |cmd.fields|
      invariant forall j :: 0 <= j < i ==> !Missing(cmd.fields[j])
    {
      var f := cmd.fields[i];
      if f.exported && !f.optional && IsZero(f.value) {
        return Some(MissingField(f.name));
      }
      i := i + 1;
    }
    err := None;
  }

  class CommandRegistry {
    /** The command each registered factory produces, by command type. */
    var factories: map<CommandType, Command>

    ghost predicate Valid()
      reads this
    {
      forall t :: t in factories ==> t != "" && factories[t].commandType == t
    }

    constructor ()
      ensures Valid() && factories == map[]
    {
      factories := map[];
    }

    /**
     * Registers a factory (`None` is one producing nil) under the type of the
     * command it produces. Nil, the empty type and a duplicate type are refused,
     * in that order, and leave the registry unchanged.
     */
    method RegisterCommand(factory: Option<Command>) returns (err: Option<RegistrationError>)
      requires Valid()
      modifies this
      ensures Valid()
      ensures factory.None? ==> err == Some(CreatedNil) && factories == old(factories)
      ensures factory.Some? && factory.value.commandType == "" ==>
                err == Some(EmptyType) && factories == old(factories)
      ensures factory.Some? && factory.value.commandType != "" && factory.value.commandType in old(factories) ==>
                err == Some(Duplicate(factory.value.commandType)) && factories == old(factories)
      ensures factory.Some? && factory.value.commandType != "" && factory.value.commandType !in old(factories) ==>
                err == None && factories == old(factories)[factory.value.commandType := factory.value]
    {
      if factory.None? {
        return Some(CreatedNil);
      }
      var t := factory.value.commandType;
      if t == "" {
        return Some(EmptyType);
      }
      if t in factories {
        return Some(Duplicate(t));
      }
      factories := factories[t := factory.value];
      err := None;
    }

    /** Removes a registered type; the empty type and an unregistered type are refused. */
    method UnregisterCommand(t: CommandType) returns (err: Option<RegistrationError>)
      requires Valid()
      modifies this
      ensures Valid()
      ensures t == "" ==> err == Some(UnregisterEmpty) && factories == old(factories)
      ensures t != "" && t !in old(factories) ==> err == Some(UnregisterMissing(t)) && factories == old(factories)
      ensures t != "" && t in old(factories) ==> err == None && factories == old(factories) - {t}
    {
      if t == "" {
        return Some(UnregisterEmpty);
      }
      if t !in factories {
        return Some(UnregisterMissing(t));
      }
      factories := factories - {t};
      err := None;
    }

    /** A new command of a registered type; CommandNotRegistered for any other type. */
    function CreateCommand(t: CommandType): (r: Result<Command, Error>)
      reads this
      requires Valid()
      ensures r.Failure? <==> t !in factories
      ensures r.Failure? ==> r.error == CommandNotRegistered
      ensures r.Success? ==> r.value.commandType == t
    {
      if t in factories then Success(factories[t]) else Failure(CommandNotRegistered)
    }
  }

  /**
   * Creating an unregistered type fails with CommandNotRegistered; after its
   * factory is registered, creating it yields a command of that type.
   */
  method CreateAfterRegister(cmd: Command) returns (before: Result<Command, Error>, after: Result<Command, Error>)
    requires cmd.commandType != ""
    ensures before == Failure(CommandNotRegistered)
    ensures after.Success? && after.value.commandType == cmd.commandType
  {
    var registry := new CommandRegistry();
    before := registry.CreateCommand(cmd.commandType);
    var _ := registry.RegisterCommand(Some(cmd));
    after := registry.CreateCommand(cmd.commandType);
  }

  /** Registering one command type twice: the second is refused as a duplicate naming the type. */
  method RegisterTwice(cmd: Command) returns (first: Option<RegistrationError>, second: Option<RegistrationError>)
    requires cmd.commandType != ""
    ensures first == None && second == Some(Duplicate(cmd.commandType))
    ensures RegistrationMessage("command", second.value) ==
            "eventhorizon: registering duplicate types for \"" + cmd.commandType + "\""
  {
    var registry := new CommandRegistry();
    first := registry.RegisterCommand(Some(cmd));
    second := registry.RegisterCommand(Some(cmd));
  }

  /** Unregistering a registered type succeeds once; the second attempt is refused as non-registered. */
  method UnregisterTwice(cmd: Command) returns (first: Option<RegistrationError>, second: Option<RegistrationError>)
    requires cmd.commandType != ""
    ensures first == None && second == Some(UnregisterMissing(cmd.commandType))
    ensures RegistrationMessage("command", second.value) ==
            "eventhorizon: unregister of non-registered type \"" + cmd.commandType + "\""
  {
    var registry := new CommandRegistry();
    var _ := registry.RegisterCommand(Some(cmd));
    first := registry.UnregisterCommand(cmd.commandType);
    second := registry.UnregisterCommand(cmd.commandType);
  }

  /** The refusals of the empty type, of a nil factory and of unregistering the empty type. */
  lemma RegistrationRefusalMessages()
    ensures RegistrationMessage("command", EmptyType) == "eventhorizon: attempt to register empty command type"
    ensures RegistrationMessage("command", CreatedNil) == "eventhorizon: created command is nil"
    ensures RegistrationMessage("command", UnregisterEmpty) == "eventhorizon: attempt to unregister empty command type"
  {
  }

  /** A missing required string names the field; zero numbers, optional and unexported fields pass. */
  lemma CheckedKinds(name: string)
    ensures Missing(Field(name, true, false, Str("")))
    ensures Missing(Field(name, true, false, Collection(true)))
    ensures Missing(Field(name, true, false, Time(true)))
    ensures Missing(Field(name, true, false, Struct([Str("")])))
    ensures !Missing(Field(name, true, false, Scalar))
    ensures !Missing(Field(name, true, true, Str("")))
    ensures !Missing(Field(name, false, false, Str("")))
    ensures Text(MissingField(name)) == "missing field: " + name
  {
  }

  /** An array of one empty string is missing; an array holding a non-empty string, or a number, is not. */
  lemma ArrayFields(name: string)
    ensures Missing(Field(name, true, false, Array([Str("")])))
    ensures !Missing(Field(name, true, false, Array([Str("string")])))
    ensures !Missing(Field(name, true, false, Array([Scalar])))
    ensures !Missing(Field(name, true, false, Array([Struct([Str("struct")])])))
  {
    var filled := [Str("string")];
    assert !IsZero(filled[0]);
    var numbers := [Scalar];
    assert !IsZero(numbers[0]);
    var inner := [Str("struct")];
    assert !IsZero(inner[0]);
    var structs := [Struct(inner)];
    assert !IsZero(structs[0]);
  }
}
