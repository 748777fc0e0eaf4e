/** `getInstance`: the process-wide registry of web-service objects, one per
    distinct (normalised) option set. */
module Registry {
  import opened Wrappers
  import opened Php
  import opened WebServices

  /** The driver used when the options name none. */
  const DefaultDriver: string := "soap"

  /** The class `getInstance` looks for, derived from the driver name. */
  const ClassPrefix: string := "Joomla\\Component\\Fabrik\\Site\\WebService\\"

  /** The driver name the normalised options carry: the given `driver`
      stripped to `[A-Za-z0-9_.-]`, or `soap` when it is unset or null. */
  function DriverName(options: PhpArray): (d: string)
    ensures IsName(d)
    ensures !IsSet(options, "driver") ==> d == DefaultDriver
    ensures IsSet(options, "driver") ==> d == Sanitize(ToText(Get(options, "driver").value))
  {
    if IsSet(options, "driver") then Sanitize(ToText(Get(options, "driver").value)) else DefaultDriver
  }

  /** The options after the two defaulting assignments at the top of
      `getInstance`; these are both what the new object is built with and,
      standing in for `md5(serialize(...))`, the cache signature. */
  function NormalizeOptions(options: PhpArray): (r: PhpArray)
    ensures Get(r, "driver") == Some(Str(DriverName(options)))
    ensures Get(r, "endpoint") == Some(if IsSet(options, "endpoint") then Get(options, "endpoint").value else Null)
    ensures forall k :: k != "driver" && k != "endpoint" ==> Get(r, k) == Get(options, k)
    ensures |Keys(options)| <= |Keys(r)| && Keys(r)[..|Keys(options)|] == Keys(options)
    ensures Keys(r) == Keys(options) + (if "driver" in Keys(options) then [] else ["driver"])
                                     + (if "endpoint" in Keys(options) then [] else ["endpoint"])
  {
    var withDriver := Put(options, "driver", Str(DriverName(options)));
    var added := if "driver" in Keys(options) then [] else ["driver"];
    assert Keys(withDriver) == Keys(options) + added;
    assert "endpoint" in Keys(withDriver) <==> "endpoint" in Keys(options);
    var r := Put(withDriver, "endpoint", if IsSet(withDriver, "endpoint") then Get(withDriver, "endpoint").value else Null);
    assert Keys(r)[..|Keys(options)|] == Keys(options);
    r
  }

  /** Normalising is idempotent: the options an instance was built with, given
      to `getInstance` again, have the same signature and find that instance. */
  lemma NormalizeIdempotent(options: PhpArray)
    ensures NormalizeOptions(NormalizeOptions(options)) == NormalizeOptions(options)
  {
    var r := NormalizeOptions(options);
    var d := DriverName(options);
    assert IsSet(r, "driver") && ToText(Str(d)) == d;
    assert DriverName(r) == d;
    PutSame(r, "driver", Str(d));
    var e := Get(r, "endpoint").value;
    PutSame(r, "endpoint", e);
  }

  /** The signature keeps the order of the option keys, as `serialize` does:
      two option arrays of one length whose keys come in a different order
      are different cache entries. */
  lemma KeyOrderSeparatesSignatures(a: PhpArray, b: PhpArray)
    requires |a| == |b| && Keys(a) != Keys(b)
    ensures NormalizeOptions(a) != NormalizeOptions(b)
  {
  }

  /** Leaving the driver out and naming the default driver give the same
      signature, so both find the same cached object. */
  lemma DefaultDriverSharesSignature()
    ensures NormalizeOptions([]) == NormalizeOptions([("driver", Str(DefaultDriver))])
  {
    assert IsName(DefaultDriver);
  }

  /** `ucfirst` of the driver name inside the namespaced class name. */
  function ClassName(driver: string): string
  {
    ClassPrefix + UcFirst(driver) + "WebService"
  }

  datatype RegistryError =
    | UnknownDriver(driver: string)   // no class for the driver
    | ConnectFailed(cause: string)    // the class's constructor threw

  class Registry {
    /** The driver classes that exist, by qualified name; each gives the
        message its constructor throws for the given options, or None when
        construction succeeds. */
    const classes: map<string, PhpArray -> Option<string>>
    /** `self::$instances`, keyed by signature. */
    var instances: map<PhpArray, WebService>

    /** Every cached object was built with the options its signature names. */
    ghost predicate Valid()
      reads this
    {
      forall sig :: sig in instances ==> instances[sig].options == sig
    }

    constructor (classes: map<string, PhpArray -> Option<string>>)
      ensures this.classes == classes && instances == map[]
      ensures Valid()
    {
      this.classes := classes;
      instances := map[];
    }

    /** `getInstance`: returns the object cached for the normalised options,
        building and caching one on a miss; an unknown driver class or a
        constructor that throws is an error and caches nothing. */
    method GetInstance(options: PhpArray) returns (r: Result<WebService, RegistryError>)
      requires Valid()
      modifies this`instances
      ensures Valid()
      ensures var sig := NormalizeOptions(options);
              var cls := ClassName(DriverName(options));
              && (sig in old(instances) ==> r == Success(old(instances)[sig]) && instances == old(instances))
              && (sig !in old(instances) && cls !in classes ==>
                    r == Failure(UnknownDriver(DriverName(options))) && instances == old(instances))
              && (sig !in old(instances) && cls in classes && classes[cls](sig).Some? ==>
                    r == Failure(ConnectFailed(classes[cls](sig).value)) && instances == old(instances))
              && (sig !in old(instances) && cls in classes && classes[cls](sig).None? ==>
                    r.Success? && fresh(r.value) && instances == old(instances)[sig := r.value])
      ensures r.Success? ==> r.value.options == NormalizeOptions(options)
    {
      var driver := DriverName(options);
      var opts := NormalizeOptions(options);
      var signature := opts;
      if signature !in instances {
        var className := ClassName(driver);
        if className !in classes {
          return Failure(UnknownDriver(driver));
        }
        var thrown := classes[className](opts);
        if thrown.Some? {
          return Failure(ConnectFailed(thrown.value));
        }
        var instance := new WebService(opts);
        instances := instances[signature := instance];
      }
      r := Success(instances[signature]);
    }
  }

  /** Two `getInstance` calls with the same options give the same object, or
      the same error; a failed call leaves the cache as it was. */
  method GetInstanceTwice(registry: Registry, options: PhpArray)
    returns (first: Result<WebService, RegistryError>, second: Result<WebService, RegistryError>)
    requires registry.Valid()
    modifies registry`instances
    ensures registry.Valid()
    ensures second == first
    ensures first.Failure? ==> registry.instances == old(registry.instances)
    ensures first.Success? ==> first.value.options == NormalizeOptions(options)
  {
    first := registry.GetInstance(options);
    second := registry.GetInstance(options);
  }
}
