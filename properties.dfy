/**
 * Configuration values handed to a resource's Initialize: a list of
 * key/value pairs, as a scene loader or a test builds them.
 */
module Properties {
  import opened Wrappers

  /** A named configuration value; only string values are modelled. */
  datatype Property = Property(key: string, value: string)

  /** The key a text file reads its file name from. */
  const FileNameKey: string := "filename"

  /**
   * The value stored under `key`. Keys need not be unique in a list; the
   * first occurrence wins.
   */
  function Lookup(props: seq<Property>, key: string): (r: Option<string>)
    ensures r.None? <==> forall i :: 0 <= i < |props| ==> props[i].key != key
    ensures r.Some? ==>
      exists i :: 0 <= i < |props| && props[i].key == key && props[i].value == r.value &&
        forall j :: 0 <= j < i ==> props[j].key != key
  {
    if props == [] then None
    else if props[0].key == key then Some(props[0].value)
    else Lookup(props[1..], key)
  }
}
