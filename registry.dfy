/**
 The class-level registry of the terminus base class, as a value: terminus
 classes keyed by (terminus type, name), one autoloader per terminus type, and
 the record of every `load(name)` asked of an autoloader. The imperative
 registry in module Terminus changes its fields exactly as the transitions
 below say.
 */
module Registry {
  import opened Wrappers

  /** The instance loader's autoloader for one terminus type, with the path it loads from. */
  datatype Autoloader = Autoloader(path: string)

  /**
   What an autoloader's `load(name)` did: no file was found, or a file was
   loaded and the terminus classes it defined registered these names under
   the type being loaded.
   */
  datatype LoadOutcome<C> = NotFound | Loaded(registered: map<string, C>)

  datatype State<C> = State(
    classes: map<(string, string), C>,
    loaders: map<string, Autoloader>,
    loads: seq<(string, string)>)

  const LoaderPrefix: string := "puppet/indirector/"

  /** The autoload path of a terminus type: "puppet/indirector/<type>". */
  function LoaderPath(terminusType: string): string {
    LoaderPrefix + terminusType
  }

  /** Every terminus type that has registered classes has its autoloader. */
  predicate Valid<C>(s: State<C>) {
    forall key :: key in s.classes ==> key.0 in s.loaders
  }

  /**
   `instance_load(type, path)`: a new autoloader for the type, whose table of
   loaded classes starts empty.
   */
  function InstanceLoad<C>(s: State<C>, terminusType: string, path: string): (r: State<C>)
    ensures r.loaders == s.loaders[terminusType := Autoloader(path)]
    ensures r.loads == s.loads
    ensures forall key :: key in r.classes <==> key in s.classes && key.0 != terminusType
    ensures forall key :: key in r.classes ==> r.classes[key] == s.classes[key]
    ensures Valid(s) ==> Valid(r)
  {
    s.(loaders := s.loaders[terminusType := Autoloader(path)],
       classes := map key | key in s.classes && key.0 != terminusType :: s.classes[key])
  }

  /** Sets up instance loading for a type unless an autoloader for it exists. */
  function SetupInstanceLoading<C>(s: State<C>, terminusType: string): (r: State<C>)
    ensures terminusType in r.loaders
    ensures terminusType in s.loaders ==> r == s
    ensures terminusType !in s.loaders ==> r.loaders == s.loaders[terminusType := Autoloader(LoaderPath(terminusType))]
    ensures Valid(s) ==> r.classes == s.classes && r.loads == s.loads && Valid(r)
  {
    if terminusType in s.loaders then s else InstanceLoad(s, terminusType, LoaderPath(terminusType))
  }

  /** `register_terminus_class`: stores a class under its type and name, replacing any former one. */
  function Register<C>(s: State<C>, terminusType: string, name: string, c: C): (r: State<C>)
    requires Valid(s)
    ensures Valid(r)
    ensures r.classes == s.classes[(terminusType, name) := c]
    ensures r.loaders == SetupInstanceLoading(s, terminusType).loaders
    ensures r.loads == s.loads
  {
    var s1 := SetupInstanceLoading(s, terminusType);
    s1.(classes := s1.classes[(terminusType, name) := c])
  }

  /** The classes a loaded file registered under the type being loaded. */
  function RegisterLoaded<C>(s: State<C>, terminusType: string, registered: map<string, C>): (r: State<C>)
    requires terminusType in s.loaders
    ensures forall key :: key in r.classes <==>
      key in s.classes || (key.0 == terminusType && key.1 in registered)
    ensures forall key :: key in r.classes ==>
      r.classes[key] == if key.0 == terminusType && key.1 in registered then registered[key.1] else s.classes[key]
    ensures r.loaders == s.loaders && r.loads == s.loads
    ensures Valid(s) ==> Valid(r)
  {
    var added := map name | name in registered :: (terminusType, name) := registered[name];
    s.(classes := s.classes + added)
  }

  /**
   `terminus_class(type, name)`: sets up the type's autoloader when it has
   none; returns a registered class at once; otherwise asks the autoloader to
   `load(name)` and returns the class if loading registered it, `nil`
   otherwise.
   */
  function Lookup<C>(s: State<C>, terminusType: string, name: string, outcome: LoadOutcome<C>): (r: (State<C>, Option<C>))
    requires Valid(s)
    ensures Valid(r.0)
    ensures r.0.loaders == SetupInstanceLoading(s, terminusType).loaders
    ensures (terminusType, name) in s.classes ==>
      r.0 == s && r.1 == Some(s.classes[(terminusType, name)])
    ensures (terminusType, name) !in s.classes ==>
      r.0.loads == s.loads + [(terminusType, name)]
    ensures (terminusType, name) !in s.classes && outcome.NotFound? ==>
      r.0.classes == s.classes
    ensures (terminusType, name) !in s.classes && outcome.Loaded? ==>
      r.0.classes == RegisterLoaded(SetupInstanceLoading(s, terminusType), terminusType, outcome.registered).classes
    ensures r.1.Some? <==> (terminusType, name) in r.0.classes
    ensures r.1.Some? ==> r.1.value == r.0.classes[(terminusType, name)]
    ensures forall key :: key in s.classes ==> key in r.0.classes
  {
    var s1 := SetupInstanceLoading(s, terminusType);
    var key := (terminusType, name);
    if key in s1.classes then (s1, Some(s1.classes[key]))
    else
      var s2 := s1.(loads := s1.loads + [key]);
      match outcome
      case NotFound => (s2, None)
      case Loaded(registered) =>
        var s3 := RegisterLoaded(s2, terminusType, registered);
        (s3, if key in s3.classes then Some(s3.classes[key]) else None)
  }

  // ---------------------------------------------------------------------
  // Properties of the registry

  /** A registered class is found under its type and name without loading anything. */
  lemma RegisterThenLookup<C>(s: State<C>, terminusType: string, name: string, c: C, outcome: LoadOutcome<C>)
    requires Valid(s)
    ensures var s1 := Register(s, terminusType, name, c);
      Lookup(s1, terminusType, name, outcome) == (s1, Some(c))
  {
  }

  /**
   A lookup under a type without an autoloader creates the autoloader for
   "puppet/indirector/<type>" and then asks it to load the missing name.
   */
  lemma LookupSetsUpAutoloading<C>(s: State<C>, terminusType: string, name: string, outcome: LoadOutcome<C>)
    requires Valid(s) && terminusType !in s.loaders
    ensures var r := Lookup(s, terminusType, name, outcome);
      && r.0.loaders[terminusType] == Autoloader("puppet/indirector/" + terminusType)
      && r.0.loads == s.loads + [(terminusType, name)]
  {
    assert (terminusType, name) !in s.classes;
  }

  /** After `instance_load`, a lookup asks that autoloader, and no other, to load the name. */
  lemma InstanceLoadThenLookup<C>(s: State<C>, terminusType: string, path: string, name: string, outcome: LoadOutcome<C>)
    requires Valid(s)
    ensures var s1 := InstanceLoad(s, terminusType, path);
      var r := Lookup(s1, terminusType, name, outcome);
      && r.0.loaders == s1.loaders
      && r.0.loaders[terminusType] == Autoloader(path)
      && r.0.loads == s.loads + [(terminusType, name)]
  {
    var s1 := InstanceLoad(s, terminusType, path);
    assert (terminusType, name) !in s1.classes;
  }

  /** A missing name that loading does not define is reported as absent and leaves the classes as they were. */
  lemma LookupNotFound<C>(s: State<C>, terminusType: string, name: string)
    requires Valid(s) && (terminusType, name) !in s.classes
    ensures var r := Lookup(s, terminusType, name, NotFound);
      r.1 == None && r.0.classes == s.classes
  {
  }

  /** A file that registers the requested name makes the lookup return that class. */
  lemma LookupLoaded<C>(s: State<C>, terminusType: string, name: string, registered: map<string, C>)
    requires Valid(s) && (terminusType, name) !in s.classes
    ensures var r := Lookup(s, terminusType, name, Loaded(registered));
      && (r.1.Some? <==> name in registered)
      && (name in registered ==> r.1 == Some(registered[name]))
  {
  }

  /**
   The autoloader is what is cached per type: a second lookup under the same
   type reuses the autoloader the first created, yet asks it to load the
   second name.
   */
  lemma AutoloaderCreatedOncePerType<C>(s: State<C>, terminusType: string, first: string, second: string,
                                        firstOutcome: LoadOutcome<C>, secondOutcome: LoadOutcome<C>)
    requires Valid(s) && terminusType !in s.loaders
    requires first != second
    requires firstOutcome.NotFound? || second !in firstOutcome.registered
    ensures var r1 := Lookup(s, terminusType, first, firstOutcome);
      var r2 := Lookup(r1.0, terminusType, second, secondOutcome);
      && r2.0.loaders == r1.0.loaders == s.loaders[terminusType := Autoloader(LoaderPath(terminusType))]
      && r2.0.loads == s.loads + [(terminusType, first), (terminusType, second)]
  {
    var r1 := Lookup(s, terminusType, first, firstOutcome);
    assert (terminusType, first) !in s.classes;
    assert (terminusType, second) !in r1.0.classes;
  }

  /** Registering twice under one key keeps the later class (last definition wins). */
  lemma RegisterLastWins<C>(s: State<C>, terminusType: string, name: string, c1: C, c2: C)
    requires Valid(s)
    ensures Register(Register(s, terminusType, name, c1), terminusType, name, c2) == Register(s, terminusType, name, c2)
  {
  }

  /** Registering one class leaves every other registration as it was. */
  lemma RegisterKeepsOthers<C>(s: State<C>, terminusType: string, name: string, c: C, key: (string, string))
    requires Valid(s) && key != (terminusType, name)
    ensures var r := Register(s, terminusType, name, c);
      && (key in r.classes <==> key in s.classes)
      && (key in s.classes ==> r.classes[key] == s.classes[key])
  {
  }
}
