/**
 The terminus base class: terminus classes whose class-level attributes
 (`name`, `terminus_type`, the abstract mark, `indirection`) are set when the
 class is defined and may be reassigned later, the registry that the
 definition protocol fills, and terminus instances that take their name,
 type, indirection and model from their class.
 */
module Terminus {
  import opened Wrappers
  import opened Errors
  import Naming
  import Registry
  import Versioning

  /** An indirection, as a terminus sees it: its name and the model it serves. */
  datatype Indirection = Indirection(name: string, model: string)

  /** What `indirection=` is given: an indirection object or the name of one. */
  datatype IndirectionRef = ByObject(indirection: Indirection) | ByName(name: string)

  /**
   The indirection that `indirection=` binds: an object is taken as it is; a
   name is looked up in the directory of indirections (`Indirection.instance`).
   */
  function Resolve(target: IndirectionRef, directory: map<string, Indirection>): (r: Option<Indirection>)
    ensures target.ByObject? ==> r == Some(target.indirection)
    ensures target.ByName? ==> (r.Some? <==> target.name in directory)
    ensures target.ByName? && r.Some? ==> r.value == directory[target.name]
  {
    match target
    case ByObject(indirection) => Some(indirection)
    case ByName(name) => if name in directory then Some(directory[name]) else None
  }

  /** A terminus class and its class-level attributes. */
  class TerminusClass {
    /** The class constant (`to_s`) the class was defined under. */
    const constant: string
    var name: string
    var terminusType: Option<string>
    var isAbstract: bool
    var indirection: Option<Indirection>

    /** A class just created: named, not yet typed, marked or bound. */
    constructor (constant: string, name: string)
      ensures this.constant == constant && this.name == name
      ensures terminusType == None && !isAbstract && indirection == None
    {
      this.constant := constant;
      this.name := name;
      terminusType := None;
      isAbstract := false;
      indirection := None;
    }

    /** `name=`. */
    method SetName(name: string)
      modifies this`name
      ensures this.name == name
    {
      this.name := name;
    }

    /**
     `indirection=`: binds the resolved indirection; a name that resolves to
     none raises ArgumentError and keeps the former binding.
     */
    method SetIndirection(target: IndirectionRef, directory: map<string, Indirection>) returns (outcome: Result<(), TerminusError>)
      modifies this`indirection
      ensures outcome == (if Resolve(target, directory).Some? then Ok(()) else Err(ArgumentError))
      ensures indirection == (if outcome.Ok? then Resolve(target, directory) else old(indirection))
    {
      var resolved := Resolve(target, directory);
      if resolved.Some? {
        indirection := resolved;
        outcome := Ok(());
      } else {
        outcome := Err(ArgumentError);
      }
    }

    /** The class's `model`: its indirection's model (NoMethodError on `nil` when unbound). */
    function Model(): (r: Result<string, TerminusError>)
      reads this
      ensures r.Ok? <==> indirection.Some?
      ensures r.Ok? ==> r.value == indirection.value.model
      ensures r.Err? ==> r.error == NoMethodError
    {
      match indirection
      case Some(ind) => Ok(ind.model)
      case None => Err(NoMethodError)
    }

    /**
     `new`: an abstract terminus class cannot be instantiated (DevError); any
     other gives an instance that answers with this class's attributes.
     */
    method Instantiate(backend: Versioning.Backend) returns (r: Result<TerminusInstance, TerminusError>)
      ensures r.Err? <==> isAbstract
      ensures r.Err? ==> r.error == DevError
      ensures r.Ok? ==> r.value.cls == this && r.value.backend == backend
      ensures r.Ok? ==> r.value.Name() == name && r.value.TerminusType() == terminusType
      ensures r.Ok? ==> r.value.Indirection() == indirection && r.value.Model() == Model()
    {
      if isAbstract {
        r := Err(DevError);
      } else {
        var t := new TerminusInstance(this, backend);
        r := Ok(t);
      }
    }
  }

  /** A terminus instance: everything but its operations comes from its class. */
  class TerminusInstance {
    const cls: TerminusClass
    const backend: Versioning.Backend

    constructor (cls: TerminusClass, backend: Versioning.Backend)
      ensures this.cls == cls && this.backend == backend
    {
      this.cls := cls;
      this.backend := backend;
    }

    /** `name`, `terminus_type`, `indirection` and `model` read the class at call time. */
    function Name(): string
      reads cls
    {
      cls.name
    }

    function TerminusType(): Option<string>
      reads cls
    {
      cls.terminusType
    }

    function Indirection(): Option<Indirection>
      reads cls
    {
      cls.indirection
    }

    function Model(): Result<string, TerminusError>
      reads cls
    {
      cls.Model()
    }

    /** `version` and `fresh?` ask the instance's own operations. */
    function Version(key: string): Result<Option<int>, TerminusError> {
      Versioning.Version(backend, key)
    }

    function Fresh(key: string, provided: int): Result<bool, TerminusError> {
      Versioning.Fresh(backend, key, provided)
    }
  }

  /**
   The class-level state of the terminus base class: registered terminus
   classes, autoloaders per terminus type, the loads asked of them, and the
   directory of indirections that names resolve against.
   */
  class TerminusRegistry {
    var classes: map<(string, string), TerminusClass>
    var loaders: map<string, Registry.Autoloader>
    var loads: seq<(string, string)>
    var indirections: map<string, Indirection>

    function State(): Registry.State<TerminusClass>
      reads this
    {
      Registry.State(classes, loaders, loads)
    }

    ghost predicate Valid()
      reads this
    {
      Registry.Valid(State())
    }

    constructor (indirections: map<string, Indirection>)
      ensures Valid()
      ensures classes == map[] && loaders == map[] && loads == []
      ensures this.indirections == indirections
    {
      classes := map[];
      loaders := map[];
      loads := [];
      this.indirections := indirections;
    }

    /** `instance_load(type, path)`. */
    method InstanceLoad(terminusType: string, path: string)
      requires Valid()
      modifies this
      ensures Valid()
      ensures State() == Registry.InstanceLoad(old(State()), terminusType, path)
      ensures indirections == old(indirections)
    {
      var s := Registry.InstanceLoad(State(), terminusType, path);
      classes, loaders := s.classes, s.loaders;
    }

    /** `instance_loader(type)`: the autoloader set up for a type, if any. */
    function InstanceLoader(terminusType: string): (r: Option<Registry.Autoloader>)
      reads this
      ensures r.Some? <==> terminusType in loaders
      ensures r.Some? ==> r.value == loaders[terminusType]
    {
      if terminusType in loaders then Some(loaders[terminusType]) else None
    }

    /** `register_terminus_class`: stores the class under its terminus type and name. */
    method RegisterTerminusClass(c: TerminusClass)
      requires Valid()
      requires c.terminusType.Some?
      modifies this
      ensures Valid()
      ensures State() == Registry.Register(old(State()), c.terminusType.value, c.name, c)
      ensures indirections == old(indirections)
    {
      var s := Registry.Register(State(), c.terminusType.value, c.name, c);
      classes, loaders := s.classes, s.loaders;
    }

    /**
     `terminus_class(type, name)`, with what the autoloader's `load(name)`
     does given as `outcome`.
     */
    method FindTerminusClass(terminusType: string, name: string, outcome: Registry.LoadOutcome<TerminusClass>)
      returns (r: Option<TerminusClass>)
      requires Valid()
      modifies this
      ensures Valid()
      ensures (State(), r) == Registry.Lookup(old(State()), terminusType, name, outcome)
      ensures indirections == old(indirections)
    {
      var result := Registry.Lookup(State(), terminusType, name, outcome);
      classes, loaders, loads := result.0.classes, result.0.loaders, result.0.loads;
      r := result.1;
    }

    /**
     Defining a subclass (Ruby's `inherited` hook). The new class is named by
     its converted constant. A direct subclass of the base class (`parent` is
     null) is marked abstract and nothing else happens. Any other subclass
     takes its parent's name as its terminus type, binds the indirection its
     own name resolves to (ArgumentError when there is none, and nothing is
     registered), and is registered under its type and name.
     */
    method DefineSubclass(parent: TerminusClass?, constant: string) returns (r: Result<TerminusClass, TerminusError>)
      requires Valid()
      modifies this
      ensures Valid()
      ensures indirections == old(indirections)
      ensures r.Ok? ==> fresh(r.value) && r.value.constant == constant && r.value.name == Naming.ConstToName(constant)
      ensures parent == null ==>
        && r.Ok? && r.value.isAbstract && r.value.terminusType == None && r.value.indirection == None
        && State() == old(State())
      ensures parent != null && Naming.ConstToName(constant) !in indirections ==>
        r == Err(ArgumentError) && State() == old(State())
      ensures parent != null && Naming.ConstToName(constant) in indirections ==>
        && r.Ok? && !r.value.isAbstract
        && r.value.terminusType == Some(parent.name)
        && r.value.indirection == Some(indirections[Naming.ConstToName(constant)])
        && State() == Registry.Register(old(State()), parent.name, r.value.name, r.value)
    {
      var name := Naming.ConstToName(constant);
      var c := new TerminusClass(constant, name);
      if parent == null {
        c.isAbstract := true;
        return Ok(c);
      }
      c.terminusType := Some(parent.name);
      var bound := c.SetIndirection(ByName(name), indirections);
      if bound.Err? {
        return Err(bound.error);
      }
      RegisterTerminusClass(c);
      r := Ok(c);
    }
  }
}
