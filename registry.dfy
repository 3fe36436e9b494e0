/**
 * The resource registry: one process-wide object holding the table of
 * registered type names and the map from resource name to the shared
 * resource object. A returned handle is a reference to the very object the
 * registry holds, so callers and the registry share it.
 */
module Registry {
  import opened Properties
  import opened Reflection
  import opened Resources

  class ResourceSystem {
    /** Registered type name to type id. */
    var types: map<string, nat>
    /** Resource name to the registry's own reference to the resource. */
    var resources: map<string, TextFile>

    /** Every registered name is the name of a known type and maps to that type's id. */
    ghost predicate Valid()
      reads this
    {
      forall n :: n in types ==> exists t :: TypeName(t) == n && TypeId(t) == types[n]
    }

    /** A type id the registry can build objects for. */
    predicate IsRegistered(typeId: nat)
      reads this
    {
      typeId in types.Values
    }

    /** The registry as it is when first obtained: no types and no resources. */
    constructor ()
      ensures Valid()
      ensures types == map[] && resources == map[]
    {
      types := map[];
      resources := map[];
    }

    /** Binds the type's name to its id; registering a type again changes nothing. */
    method Register(t: ResourceType)
      requires Valid()
      modifies this
      ensures Valid()
      ensures types == old(types)[TypeName(t) := TypeId(t)]
      ensures resources == old(resources)
      ensures TypeName(t) in old(types) ==> types == old(types)
      ensures IsRegistered(TypeId(t))
    {
      types := types[TypeName(t) := TypeId(t)];
      assert types[TypeName(t)] == TypeId(t);
    }

    /** The id registered under a type name, or the sentinel when there is none. */
    function GetTypeIDFromName(name: string): (id: nat)
      reads this
      requires Valid()
      ensures id != InvalidTypeId <==> name in types
      ensures name in types ==> id == types[name]
      ensures id != InvalidTypeId ==> exists t :: TypeName(t) == name && TypeId(t) == id
    {
      if name in types then types[name] else InvalidTypeId
    }

    /** The registry's object for `name`, or null; never constructs anything. */
    function Get(name: string): (r: TextFile?)
      reads this
      ensures r != null <==> name in resources
      ensures r != null ==> r == resources[name]
    {
      if name in resources then resources[name] else null
    }

    /** Whether the registry holds a resource under `name`. */
    predicate Exists(name: string)
      reads this
      ensures Exists(name) <==> Get(name) != null
    {
      name in resources
    }

    /**
     * What a creation under `name` does: return the object already held
     * under that name, else insert and return a fresh, initialized object,
     * else (when initialization fails) return null and change nothing.
     */
    twostate predicate GetOrInsert(name: string, props: seq<Property>, files: map<string, string>, new r: TextFile?)
      reads this
    {
      types == old(types) &&
      if name in old(resources) then
        r == old(resources[name]) && resources == old(resources)
      else if Loadable(props, files) then
        r != null && fresh(r) && resources == old(resources)[name := r]
      else
        r == null && resources == old(resources)
    }

    /** Creation when the type is known statically: get-or-insert of a text file. */
    method Create(name: string, props: seq<Property>, files: map<string, string>) returns (r: TextFile?)
      requires Valid()
      modifies this
      ensures Valid()
      ensures GetOrInsert(name, props, files, r)
      ensures name !in old(resources) && r != null ==> r.text == files[Lookup(props, FileNameKey).value]
    {
      if name in resources {
        r := resources[name];
        return;
      }
      var file := new TextFile();
      var ok := file.Initialize(props, files);
      if ok {
        resources := resources[name := file];
        r := file;
      } else {
        r := null;
      }
    }

    /**
     * Creation from a run-time type id: an id that is not registered (the
     * sentinel included) yields null and changes nothing; otherwise the
     * factory of that type does what `Create` does.
     */
    method CreateById(typeId: nat, name: string, props: seq<Property>, files: map<string, string>)
      returns (r: TextFile?)
      requires Valid()
      modifies this
      ensures Valid()
      ensures !old(IsRegistered(typeId)) ==> r == null && types == old(types) && resources == old(resources)
      ensures old(IsRegistered(typeId)) ==> GetOrInsert(name, props, files, r)
      ensures old(IsRegistered(typeId)) && name !in old(resources) && r != null ==>
        r.text == files[Lookup(props, FileNameKey).value]
    {
      if !IsRegistered(typeId) {
        r := null;
        return;
      }
      // Valid() makes every registered id the id of a known type, so the factory lookup cannot fail.
      var factory := TypeFromId(typeId);
      assert factory.Some?;
      match factory.value
      case TextFileType =>
        r := Create(name, props, files);
    }

    /** Stores an existing object under `name`, replacing any earlier entry. */
    method Add(name: string, file: TextFile)
      requires Valid()
      modifies this
      ensures Valid()
      ensures resources == old(resources)[name := file]
      ensures types == old(types)
    {
      resources := resources[name := file];
    }

    /** Drops the registry's reference under `name`; nothing happens if there is none. */
    method Remove(name: string)
      requires Valid()
      modifies this
      ensures Valid()
      ensures resources == old(resources) - {name}
      ensures types == old(types)
      ensures name !in old(resources) ==> resources == old(resources)
    {
      resources := resources - {name};
    }
  }
}
