/**
 Client methods that walk the terminus protocol through the situations the
 unit specification of the terminus base class describes, relying only on
 the contracts of module Terminus.
 */
module Scenarios {
  import opened Wrappers
  import opened Errors
  import Naming
  import Registry
  import Versioning
  import opened Terminus

  /** Assigning the indirection by object, by name, and by a name that resolves to nothing. */
  method AssignIndirection() {
    var myStuff := Indirection("my_stuff", "stuff");
    var myInd := Indirection("myind", "ind");
    var registry := new TerminusRegistry(map["my_stuff" := myStuff]);
    var abstractConstant, constant := "Abstract", "Terminus::Type::MyStuff";
    Naming.ConstToNameMyStuff(constant);
    var base := registry.DefineSubclass(null, abstractConstant);
    var defined := registry.DefineSubclass(base.value, constant);
    var terminus := defined.value;
    assert terminus.indirection == Some(myStuff);

    var failed := terminus.SetIndirection(ByName("myind"), registry.indirections);
    assert failed == Err(ArgumentError);
    assert terminus.indirection == Some(myStuff);

    var byName := terminus.SetIndirection(ByName("myind"), map["myind" := myInd]);
    assert byName == Ok(()) && terminus.indirection == Some(myInd);

    var other := Indirection("other", "other");
    var byObject := terminus.SetIndirection(ByObject(other), map[]);
    assert byObject == Ok(()) && terminus.indirection == Some(other);
  }

  /** Registering, looking up, and autoloading terminus classes. */
  method ManageTerminusClasses() {
    var registry := new TerminusRegistry(map[]);
    var whatever := new TerminusClass("Whatever", "whatever");
    whatever.terminusType := Some("abstract");
    registry.RegisterTerminusClass(whatever);
    var found := registry.FindTerminusClass("abstract", "whatever", Registry.NotFound);
    assert found == Some(whatever);

    var missing := registry.FindTerminusClass("test2", "whatever", Registry.NotFound);
    assert missing == None;
    assert Registry.LoaderPath("test2") == "puppet/indirector/test2";
    assert registry.InstanceLoader("test2") == Some(Registry.Autoloader("puppet/indirector/test2"));

    registry.InstanceLoad("test1", "puppet/indirector/test1");
    var before := registry.loads;
    var yay := registry.FindTerminusClass("test1", "yay", Registry.NotFound);
    assert registry.loads == before + [("test1", "yay")];
    assert registry.InstanceLoader("test1") == Some(Registry.Autoloader("puppet/indirector/test1"));
  }

  /** Defining an abstract terminus type and a concrete terminus class under it. */
  method CreateTerminusClasses() {
    var myind := Indirection("myind", "yay");
    var registry := new TerminusRegistry(map["my_indirection" := myind]);
    var abstractConstant, constant := "Abstract", "MyIndirection";
    Naming.ConstToNameAbstract(abstractConstant);
    Naming.ConstToNameMyIndirection(constant);
    var base := registry.DefineSubclass(null, abstractConstant);
    var abstractClass := base.value;
    assert abstractClass.name == "abstract" && abstractClass.isAbstract;
    var defined := registry.DefineSubclass(abstractClass, constant);
    var terminus := defined.value;
    assert terminus.indirection == Some(myind);
    assert terminus.terminusType == Some("abstract");
    assert terminus.name == "my_indirection";
    assert terminus.Model() == Ok("yay");
    assert registry.classes[("abstract", "my_indirection")] == terminus;

    var bare := new TerminusRegistry(map[]);
    var bareBase := bare.DefineSubclass(null, abstractConstant);
    var undefined := bare.DefineSubclass(bareBase.value, constant);
    assert undefined == Err(ArgumentError);
    assert bare.classes == map[];
  }

  /** An abstract terminus type is named after its constant and cannot be instantiated. */
  method CreateTerminusTypes() {
    var registry := new TerminusRegistry(map[]);
    var constant := "Puppet::Indirector::Terminus::MyTermType";
    Naming.ConstToNameMyTermType(constant);
    var defined := registry.DefineSubclass(null, constant);
    var termType := defined.value;
    assert termType.name == "my_term_type" && termType.isAbstract;
    var instance := termType.Instantiate(Versioning.Backend(None, None));
    assert instance == Err(DevError);
  }

  /** A terminus instance answers with its class's name, type, indirection and model, and versions through `find`. */
  method InstantiateTerminus() {
    var myyaml := Indirection("myyaml", "yay");
    var registry := new TerminusRegistry(map["my_stuff" := myyaml]);
    var abstractConstant, constant := "Abstract", "MyStuff";
    Naming.ConstToNameAbstract(abstractConstant);
    Naming.ConstToNameMyStuff(constant);
    var base := registry.DefineSubclass(null, abstractConstant);
    var abstractClass := base.value;
    assert abstractClass.name == "abstract";
    var defined := registry.DefineSubclass(abstractClass, constant);
    var terminusClass := defined.value;
    assert !terminusClass.isAbstract && terminusClass.indirection == Some(myyaml);
    assert terminusClass.terminusType == Some("abstract");
    InstanceTakesClassAttributes(terminusClass, myyaml);
  }

  /** Renamed `test`, a class gives an instance its name, terminus type, indirection and model. */
  method InstanceTakesClassAttributes(terminusClass: TerminusClass, myyaml: Indirection)
    requires !terminusClass.isAbstract
    requires terminusClass.terminusType == Some("abstract")
    requires terminusClass.indirection == Some(myyaml) && myyaml.model == "yay"
    modifies terminusClass
  {
    terminusClass.SetName("test");
    var created := terminusClass.Instantiate(Versioning.Backend(None, None));
    var terminus := created.value;
    assert terminus.Name() == "test";
    assert terminus.Indirection() == Some(myyaml);
    assert terminus.TerminusType() == Some("abstract");
    assert terminus.Model() == Ok("yay");
    Versioning.VersionWithoutFind("yay");
    assert terminus.Version("yay") == Err(DevError);
  }

}
