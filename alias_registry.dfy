/**
 * The service object returned by `$get` (`retVal`) and its `alias`
 * operation, which registers an Object resource under a new name unless the
 * name is one of the five built-in entries.
 */
module AliasRegistry {
  import opened Wrappers

  /** What an entry of the service object holds. */
  datatype Service =
    | Handshake
    | UserResource
    | GroupResource
    | ObjectFactory
    | AliasFunction
    | ObjectResource(className: string)

  /** The names `alias` refuses, in the order it checks them. */
  const ProtectedNames: seq<string> := ["handshake", "User", "Group", "Object", "alias"]

  /** The service object as `$get` builds it. */
  const Builtins: map<string, Service> :=
    map["handshake" := Handshake, "User" := UserResource, "Group" := GroupResource,
        "Object" := ObjectFactory, "alias" := AliasFunction]

  function AliasError(protectedName: string): string {
    "aliases must not attempt to overwrite $kinvey." + protectedName
  }

  /** `verifyAlias(alias, protectedName)`: throws when the two names are equal. */
  function VerifyAlias(alias: string, protectedName: string): (r: Outcome<string>)
  {
    if alias == protectedName then Fail(AliasError(protectedName)) else Pass
  }

  /** Run `second` only when `first` passed, as consecutive statements do with exceptions. */
  function AndThen(first: Outcome<string>, second: Outcome<string>): Outcome<string> {
    if first.Fail? then first else second
  }

  /** The five `verifyAlias` calls at the head of `alias`. */
  function CheckAlias(alias: string): (r: Outcome<string>)
    ensures r.Fail? <==> alias in ProtectedNames
    ensures r.Fail? ==> r.error == AliasError(alias)
  {
    AndThen(VerifyAlias(alias, "handshake"),
    AndThen(VerifyAlias(alias, "User"),
    AndThen(VerifyAlias(alias, "Group"),
    AndThen(VerifyAlias(alias, "Object"),
            VerifyAlias(alias, "alias")))))
  }

  /** The service object `retVal`. */
  class Registry {
    var services: map<string, Service>

    /** The built-in entries are always present and unchanged. */
    ghost predicate Valid()
      reads this
    {
      forall k :: k in Builtins ==> k in services && services[k] == Builtins[k]
    }

    constructor ()
      ensures Valid() && services == Builtins
    {
      services := Builtins;
    }

    /** `alias(classname, aliasname)`: refuse a protected name, else bind it to a new Object resource. */
    method Alias(className: string, aliasName: string) returns (r: Outcome<string>)
      requires Valid()
      modifies this
      ensures Valid()
      ensures r == CheckAlias(aliasName)
      ensures r.Fail? ==> services == old(services)
      ensures r.Pass? ==> services == old(services)[aliasName := ObjectResource(className)]
    {
      r := VerifyAlias(aliasName, "handshake");
      if r.Fail? { return; }
      r := VerifyAlias(aliasName, "User");
      if r.Fail? { return; }
      r := VerifyAlias(aliasName, "Group");
      if r.Fail? { return; }
      r := VerifyAlias(aliasName, "Object");
      if r.Fail? { return; }
      r := VerifyAlias(aliasName, "alias");
      if r.Fail? { return; }
      services := services[aliasName := ObjectResource(className)];
    }
  }
}
