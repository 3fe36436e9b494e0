/**
 * The sample resource type: a text file whose contents are read when it is
 * initialized. The file system is the parameter `files`, a map from file
 * name to contents; a file is loadable exactly when it is in that map.
 */
module Resources {
  import opened Properties

  /** Initialize succeeds exactly when a file name is given and that file can be read. */
  predicate Loadable(props: seq<Property>, files: map<string, string>)
  {
    var name := Lookup(props, FileNameKey);
    name.Some? && name.value in files
  }

  class TextFile {
    var text: string

    /** A default-constructed, not yet initialized text file. */
    constructor ()
      ensures text == ""
    {
      text := "";
    }

    /** Loads the file named by the "filename" property; false if it cannot be read. */
    method Initialize(props: seq<Property>, files: map<string, string>) returns (ok: bool)
      modifies this
      ensures ok == Loadable(props, files)
      ensures ok ==> text == files[Lookup(props, FileNameKey).value]
      ensures !ok ==> text == old(text)
    {
      var name := Lookup(props, FileNameKey);
      if name.Some? && name.value in files {
        text := files[name.value];
        ok := true;
      } else {
        ok := false;
      }
    }

    /** Appends to the text in place, visible through every reference to this object. */
    method AppendText(s: string)
      modifies this
      ensures text == old(text) + s
    {
      text := text + s;
    }
  }
}
