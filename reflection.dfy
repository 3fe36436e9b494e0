/**
 * The type reflection layer: every resource type has a stable, non-zero
 * type id and a canonical type name; id 0 is the "unknown type" sentinel.
 */
module Reflection {
  import opened Wrappers

  /** The resource types the program knows about. */
  datatype ResourceType = TextFileType

  /** The sentinel id that no registered type ever has. */
  const InvalidTypeId: nat := 0

  /** The id of a type, fixed for the life of the process. */
  function TypeId(t: ResourceType): (id: nat)
    ensures id != InvalidTypeId
  {
    match t
    case TextFileType => 1
  }

  /** The canonical name of a type, the key a loader uses to name it. */
  function TypeName(t: ResourceType): (name: string)
    ensures name != ""
  {
    match t
    case TextFileType => "TextFile"
  }

  /** The type an id stands for, used to pick the factory at run time. */
  function TypeFromId(id: nat): (r: Option<ResourceType>)
    ensures r.Some? <==> exists t :: TypeId(t) == id
    ensures r.Some? ==> TypeId(r.value) == id
    ensures id == InvalidTypeId ==> r.None?
  {
    if id == TypeId(TextFileType) then Some(TextFileType) else None
  }

  /**
   * Distinct types have distinct ids and distinct names. With the single
   * type modelled this holds trivially; it records the requirement that
   * further types must keep.
   */
  lemma TypesDistinct(t: ResourceType, u: ResourceType)
    ensures TypeId(t) == TypeId(u) ==> t == u
    ensures TypeName(t) == TypeName(u) ==> t == u
  {
  }
}
