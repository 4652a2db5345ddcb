/**
 * Classes at run time. Calling a class allocates a new instance of it;
 * it takes no arguments. The callable interface is the choice between a
 * function and a class.
 */
module LoxClasses {
  import opened Types
  import opened LoxFunctions

  class LoxClass {
    const name: string

    constructor(name: string)
      ensures this.name == name
    {
      this.name := name;
    }

    /** A class takes no arguments. */
    function Arity(): (n: nat)
      ensures n == 0
    {
      0
    }

    function ToString(): (s: string)
      ensures s == name
    {
      name
    }

    /** Makes a new instance of this class; the arguments are ignored. */
    method Call(args: seq<Value>) returns (instance: LoxInstance)
      ensures fresh(instance) && instance.loxClass == this
    {
      instance := new LoxInstance(this);
    }
  }

  class LoxInstance {
    var loxClass: LoxClass

    constructor(loxClass: LoxClass)
      ensures this.loxClass == loxClass
    {
      this.loxClass := loxClass;
    }

    function ToString(): (s: string)
      reads this
      ensures s == loxClass.name + " instance"
    {
      loxClass.name + " instance"
    }
  }

  /** Something that can be called: a function or a class. */
  datatype Callable = FunctionCallable(fn: LoxFunction) | ClassCallable(cls: LoxClass)

  /** The number of arguments a callable expects. */
  function Arity(c: Callable): (n: nat)
    ensures c.ClassCallable? ==> n == 0
    ensures c.FunctionCallable? ==> n == |c.fn.declaration.params|
  {
    match c
    case FunctionCallable(f) => f.Arity()
    case ClassCallable(k) => k.Arity()
  }

  /** An instance's text is its class's text followed by " instance". */
  lemma InstanceTextExtendsClassText(instance: LoxInstance)
    ensures instance.ToString() == instance.loxClass.ToString() + " instance"
    ensures instance.loxClass.ToString() <= instance.ToString()
  {
  }

  /** Two calls of the same class give two distinct instances of it. */
  method CallTwice(k: LoxClass) returns (a: LoxInstance, b: LoxInstance)
    ensures fresh(a) && fresh(b) && a != b
    ensures a.loxClass == k && b.loxClass == k
  {
    a := k.Call([]);
    b := k.Call([Nil]);
  }
}
