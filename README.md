# Puppet indirector: the terminus base class

A model of the terminus base class of Puppet's indirector, as its unit specification
(`spec/unit/indirector/terminus.rb`) pins it down. An *indirection* (certificate, catalog,
node, ...) is served by one of several *termini*. Each terminus is a concrete backend class,
named after the indirection it serves, under an abstract class whose name is its *terminus
type*. The base class provides four things:

- **Naming** (`naming.dfy`, module `Naming`). A class constant becomes a symbol. Everything
  up to the last `::` is dropped. A leading capital is lowered. Every later capital becomes
  `_` plus its lower-case letter. So `OneTwo` becomes `one_two` and
  `Puppet::Indirector::Terminus::MyTermType` becomes `my_term_type`. The model proves that
  a CamelCase constant, namespaced or not, becomes its words joined by underscores. It also
  proves that converting twice changes nothing.
- **The registry** (`registry.dfy`, module `Registry`, as values). Terminus classes are keyed
  by (terminus type, name). Each terminus type gets one autoloader, with the path
  `puppet/indirector/<type>`. The model also keeps a record of every `load(name)` asked of
  an autoloader. A lookup that misses sets up the type's autoloader if there is none yet. It
  then asks that autoloader to load the name. The autoloader is cached per type; the name
  results are not.
- **Class definition and the indirection binding** (`terminus.dfy`, module `Terminus`). These
  are imperative. `TerminusClass` holds the class-level attributes that Ruby assigns in
  place. `TerminusRegistry` holds the registry state. Its methods change that state exactly
  as the `Registry` transitions say. `DefineSubclass` stands for Ruby's `inherited` hook:
  - A direct subclass of the base class is named and marked abstract. It cannot be
    instantiated.
  - Any other subclass takes its parent's name as its terminus type and binds the indirection
    named by its own converted name. If no such indirection exists, definition fails with
    ArgumentError. Otherwise the class is registered.
  - `indirection=` takes an indirection object, or the name of one. A name that resolves to
    nothing raises ArgumentError and keeps the former binding.
- **Versions and freshness** (`versioning.dfy`, module `Versioning`).
  - `version(key)` answers through an overriding `version` if the terminus has one.
    Otherwise it uses the version of the object `find` returns, and `nil` if nothing is
    found. A terminus with neither raises DevError.
  - `fresh?(key, v)` is `version(key) >= v`.

`wrappers.dfy` holds `Option` and `Result`, and `errors.dfy` holds the error kinds.
`scenarios.dfy` walks the situations of the unit specification through the contracts alone.
Examples: the indirection assignments, registering and autoloading, defining abstract and concrete classes, and an
instance taking its name, type, indirection and model from its class.

The unit specification settles these points:

- Defining an abstract terminus type does no indirection lookup (lines 98-102 succeed with no
  indirection). The concrete class is the one that fails, with ArgumentError (lines 95-110).
  It looks the indirection up under its own converted name, not through its parent (lines 96,
  117 and 173: `MyIndirection` looks up `:my_indirection`).
- An abstract class is named after its constant (lines 155-157). Its concrete subclasses
  take that name as their terminus type (lines 191-193).

The unit specification leaves four points open. The model settles them as modelling choices,
taken from Ruby and from Puppet's instance loader where those decide, and lists each under
"## Left out". They are: a lookup that finds nothing, a `nil` version, what `instance_load`
does to classes already registered, and the abstract class's own terminus type.

## Model

| member | source | states |
|---|---|---|
| `Naming.SegmentStart` | spec/unit/indirector/terminus.rb:148-156 | the last segment starts at 0 or right after a `::` that no later `::` overlaps |
| `Naming.LastSegment` | spec/unit/indirector/terminus.rb:148-156 | what is kept of a constant contains no `::` |
| `Naming.UnderscoreCapitals` | spec/unit/indirector/terminus.rb:134-142 | no capital is left; only empty input gives empty output; the output starts with a colon exactly when the input does, and a first character that is not a capital is kept |
| `Naming.Underscore` | spec/unit/indirector/terminus.rb:134-142 | the converted segment has no capital letter and is empty only for an empty segment |
| `Naming.ConstToName` | spec/unit/indirector/terminus.rb:133-142 | every symbol made from a constant is lower case and has no `::` |
| `Naming.LastSegmentOfPlain` | spec/unit/indirector/terminus.rb:134-142 | an unqualified constant is kept whole |
| `Naming.LastSegmentAfterSeparator` | spec/unit/indirector/terminus.rb:150-156 | whatever namespace precedes the last `::` is dropped |
| `Naming.UnderscoreOfLower` | spec/unit/indirector/terminus.rb:134-142 | a name that is already lower case is not changed |
| `Naming.ConstToNameIdempotent` | spec/unit/indirector/terminus.rb:133-142 | converting a converted name gives the same name |
| `Naming.CamelToSnake` | spec/unit/indirector/terminus.rb:134-142 | a CamelCase constant becomes its words in lower case joined by `_` |
| `Naming.QualifiedCamelToSnake` | spec/unit/indirector/terminus.rb:148-156 | a namespaced CamelCase constant becomes the words of its last segment joined by `_` |
| `Naming.ConstToNameOneTwo` | spec/unit/indirector/terminus.rb:134-142 | `OneTwo` becomes `one_two` |
| `Naming.ConstToNameMyTermType` | spec/unit/indirector/terminus.rb:148-157 | `Puppet::Indirector::Terminus::MyTermType` becomes `my_term_type` |
| `Naming.ConstToNameMyStuff` | spec/unit/indirector/terminus.rb:18-21 | `Terminus::Type::MyStuff` and `MyStuff` both become `my_stuff` |
| `Naming.ConstToNameMyIndirection` | spec/unit/indirector/terminus.rb:195-197 | `MyIndirection` becomes `my_indirection` |
| `Naming.ConstToNameAbstract` | spec/unit/indirector/terminus.rb:191-193 | `Abstract` becomes `abstract` |
| `Registry.InstanceLoad` | spec/unit/indirector/terminus.rb:88-91 | `instance_load` installs an autoloader with the given path and starts the type's table empty; other types and the load record are unchanged |
| `Registry.SetupInstanceLoading` | spec/unit/indirector/terminus.rb:83-86 | a type without an autoloader gets one for `puppet/indirector/<type>`; a type with one is left alone |
| `Registry.Register` | spec/unit/indirector/terminus.rb:77-81 | the class is stored under its (type, name) and replaces any former one; nothing else changes; every registered type keeps its autoloader |
| `Registry.RegisterLoaded` | spec/unit/indirector/terminus.rb:88-93 | a loaded file's classes are added under the loaded type and nothing else changes |
| `Registry.Lookup` | spec/unit/indirector/terminus.rb:83-93 | a registered class is returned with no state change; a miss sets up the type's autoloader, records one `load(name)`, keeps the classes when no file is found or adds the loaded file's classes, and returns the class only if loading registered it |
| `Registry.RegisterThenLookup` | spec/unit/indirector/terminus.rb:77-81 | after registering a class under (T, N), looking up (T, N) returns exactly that class and loads nothing |
| `Registry.LookupSetsUpAutoloading` | spec/unit/indirector/terminus.rb:83-86 | looking up under a new type creates the autoloader for `"puppet/indirector/" + T` and asks it to load N |
| `Registry.InstanceLoadThenLookup` | spec/unit/indirector/terminus.rb:88-93 | after `instance_load(T, path)`, a lookup of N asks that autoloader to load N and keeps it |
| `Registry.LookupNotFound` | spec/unit/indirector/terminus.rb:88-93 | a missing name that no file defines gives `nil` and registers nothing |
| `Registry.LookupLoaded` | spec/unit/indirector/terminus.rb:88-93 | a missing name is found exactly when the loaded file registered it, and then it is that file's class |
| `Registry.AutoloaderCreatedOncePerType` | spec/unit/indirector/terminus.rb:83-93 | two lookups of different names under a new type create one autoloader and ask it to load each name once, when the first load did not define the second name |
| `Registry.RegisterLastWins` | spec/unit/indirector/terminus.rb:77-81 | registering twice under one key is the same as registering the later class alone |
| `Registry.RegisterKeepsOthers` | spec/unit/indirector/terminus.rb:77-81 | registering one class leaves every other key and class as they were |
| `Versioning.Version` | spec/unit/indirector/terminus.rb:253-268 | an overriding `version` answers; otherwise `find`'s object's version, `nil` exactly when `find` finds nothing; DevError with neither |
| `Versioning.Fresh` | spec/unit/indirector/terminus.rb:270-286 | fresh exactly when the version is at least the provided one (both directions); errors from `version` pass through; a `nil` version is not fresh |
| `Versioning.FreshAtOwnVersion` | spec/unit/indirector/terminus.rb:276-286 | a version is fresh against itself and not fresh against the next one |
| `Versioning.FreshMonotone` | spec/unit/indirector/terminus.rb:270-280 | what is fresh against a version is fresh against every older one |
| `Versioning.FreshExamples` | spec/unit/indirector/terminus.rb:270-286 | version 5 is fresh for 4 and for 5; version 4 is not fresh for 5 |
| `Versioning.VersionWithoutFind` | spec/unit/indirector/terminus.rb:253-255 | with neither `find` nor `version`, asking for a version is a DevError |
| `Versioning.VersionFromFind` | spec/unit/indirector/terminus.rb:257-268 | a found object at version 2 gives 2; nothing found gives `nil` |
| `Terminus.Resolve` | spec/unit/indirector/terminus.rb:45-65 | an object is taken without lookup; a name resolves exactly when the directory holds it, to the directory's indirection |
| `Terminus.TerminusClass.SetName` | spec/unit/indirector/terminus.rb:220 | `name=` sets the class's name and nothing else |
| `Terminus.TerminusClass.SetIndirection` | spec/unit/indirector/terminus.rb:45-65 | binding by object or resolvable name stores the resolved indirection; an unresolvable name gives ArgumentError and keeps the former binding |
| `Terminus.TerminusClass.Model` | spec/unit/indirector/terminus.rb:199-202 | the class's model is its indirection's model; with no indirection it is an error |
| `Terminus.TerminusClass.Instantiate` | spec/unit/indirector/terminus.rb:159-165 | instantiation fails with DevError exactly for an abstract class; an instance's name, terminus type, indirection and model are its class's; the instance's `name`, `terminus_type`, `indirection` and `model` (lines 225-243) read its class at call time, as Ruby's `self.class.name` does, and its `version` and `fresh?` (lines 245-286) are `Versioning.Version` and `Versioning.Fresh` on its backend |
| `Terminus.TerminusRegistry.InstanceLoad` | spec/unit/indirector/terminus.rb:88-91 | the registry changes as `Registry.InstanceLoad` says |
| `Terminus.TerminusRegistry.InstanceLoader` | spec/unit/indirector/terminus.rb:91 | `instance_loader(type)` is the autoloader set up for the type, `nil` when there is none |
| `Terminus.TerminusRegistry.RegisterTerminusClass` | spec/unit/indirector/terminus.rb:77-81 | the registry changes as `Registry.Register` says, under the class's terminus type and name |
| `Terminus.TerminusRegistry.FindTerminusClass` | spec/unit/indirector/terminus.rb:83-93 | the new registry and the result are those of `Registry.Lookup` |
| `Terminus.TerminusRegistry.DefineSubclass` | spec/unit/indirector/terminus.rb:95-130 | a direct subclass of the base is named by its converted constant, marked abstract and not registered; any other subclass gets the parent's name as its type, binds the indirection named by its own converted name and is registered under (type, name); without that indirection the result is ArgumentError and nothing is registered |

## Left out

- `lib/puppet/indirector/terminus.rb` is not part of this model. The modelled behaviour
  follows its unit specification, plus the four choices below, which that specification
  does not check.
- Registry.InstanceLoad: starts the type's table of classes empty, as Puppet's instance
  loader does. Lines 88-91 do not check this. `lib/puppet/util/instance_loader.rb` is not
  part of this model. `register_terminus_class` sets up instance loading before it stores a
  class, so a registered type always has its autoloader (`Registry.Valid`).
- Registry.Lookup: a name that is still missing after loading gives `nil` (`None`), as the
  instance loader's `loaded_instance` returns nil. No lookup error is raised. Lines 83-93 do
  not check the returned value.
- Versioning.Fresh: a key with no version (`nil`) is taken as not fresh. The tests at lines
  270-286 only use integer versions, so they do not settle this case.
- Terminus.TerminusRegistry.DefineSubclass: an abstract class has no terminus type (`None`).
  This is an attribute Ruby never sets, so it reads `nil`. The tests do not check it.
- Naming.LastSegment: constants are assumed to be well-formed Ruby constant paths. For
  malformed strings the model differs from `split("::").last`. Examples: `Foo::` gives
  the empty name, where Ruby gives `Foo`; `A:::B` gives `B`, where Ruby gives `:B`. An empty
  constant gives the empty name, where Ruby's `nil.sub` would raise.
- Autoloading runs Ruby's `require` on `puppet/indirector/<type>/<name>`. This is not
  modelled. What a `load(name)` does is a parameter (`Registry.LoadOutcome`): it found no
  file, or it loaded a file whose classes registered some names under the type.
- Ruby reflection is not modelled: `Class.new`, an overridden `to_s`, and the `inherited`
  hook. An explicit `DefineSubclass(parent, constant)` call takes its place. A null parent
  means the base class.
- The `desc` documentation setter (lines 25-27) has no effect on dispatch and is not
  modelled. The `respond_to` checks (lines 29-43, 249-251) hold because the attributes are
  fields and functions of the model.
- An indirection's own record of its terminus types (`register_terminus_type`) is not
  modelled. `lib/puppet/indirector/indirection.rb` is not part of this model. An indirection
  is its name and model only.
- The concrete backends' `find`, `save`, `search` and `destroy` are not modelled. `find` is
  an uninterpreted optional function, and only `version` uses it.
- Versions are integers. Ruby compares any comparable value.
- There is no locking around the process-wide registry. The model is one object used
  sequentially.
- `spec/unit/interface/certificate_spec.rb` is a command surface over the `certificate`
  indirection. It has no logic of its own and is not modelled.
- Terminus.TerminusRegistry.RegisterTerminusClass: requires the class to have a terminus
  type. Every class the definition protocol registers has one. What Ruby would do with an
  untyped class (a `nil` key) is not modelled.
