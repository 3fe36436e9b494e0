/**
 * The resource system test cases against one registry. Like the
 * process-wide instance they share, the registry keeps its entries from one
 * case to the next, so each case states in its `requires` what it relies on
 * from the cases before it and in its `ensures` what it leaves behind.
 * Each assertion of a case is an `assert` here. `files` is the file system.
 */
module ResourceSystemTest {
  import opened Wrappers
  import opened Properties
  import opened Reflection
  import opened Resources
  import opened Registry

  /** The property list naming `file` as the file to load. */
  function FileProps(file: string): (props: seq<Property>)
    ensures Lookup(props, FileNameKey) == Some(file)
  {
    [Property(FileNameKey, file)]
  }

  /** The file system the cases run against: one readable file and one missing one. */
  predicate TestFiles(files: map<string, string>)
  {
    "test.txt" in files && "bad_test.txt" !in files
  }

  method Register(resSys: ResourceSystem)
    requires resSys.Valid()
    modifies resSys
    ensures resSys.Valid()
    ensures resSys.types == old(resSys.types)[TypeName(TextFileType) := TypeId(TextFileType)]
    ensures resSys.resources == old(resSys.resources)
    ensures resSys.IsRegistered(TypeId(TextFileType))
  {
    resSys.Register(TextFileType);
    assert TypeId(TextFileType) == resSys.GetTypeIDFromName(TypeName(TextFileType));
  }

  method CreateCompileTime(resSys: ResourceSystem, files: map<string, string>)
    requires resSys.Valid() && TestFiles(files)
    modifies resSys
    ensures resSys.Valid() && resSys.types == old(resSys.types)
    ensures resSys.resources.Keys == old(resSys.resources.Keys) + {"test"}
  {
    var file := resSys.Create("test", FileProps("test.txt"), files);
    assert file != null;
  }

  /** Relies on the entry CreateCompileTime left behind. */
  method Exists(resSys: ResourceSystem) returns (found: bool)
    requires "test" in resSys.resources
    ensures found
  {
    found := resSys.Exists("test");
    assert found;
  }

  method Remove(resSys: ResourceSystem)
    requires resSys.Valid()
    modifies resSys
    ensures resSys.Valid() && resSys.types == old(resSys.types)
    ensures resSys.resources == old(resSys.resources) - {"test"}
  {
    resSys.Remove("test");
    assert !resSys.Exists("test");
  }

  /** Relies on Register having registered the text file type. */
  method CreateRunTime(resSys: ResourceSystem, files: map<string, string>)
    requires resSys.Valid() && TestFiles(files)
    requires resSys.IsRegistered(TypeId(TextFileType))
    modifies resSys
    ensures resSys.Valid() && resSys.types == old(resSys.types)
    ensures resSys.resources == old(resSys.resources) - {"test"}
  {
    var created := resSys.CreateById(TypeId(TextFileType), "test", FileProps("test.txt"), files);
    assert created != null;
    resSys.Remove("test");
  }

  /** Relies on no entry "test" being left, so that the load is attempted. */
  method CreateNonExistent(resSys: ResourceSystem, files: map<string, string>)
    requires resSys.Valid() && TestFiles(files)
    requires "test" !in resSys.resources
    modifies resSys
    ensures resSys.Valid() && resSys.types == old(resSys.types)
    ensures resSys.resources == old(resSys.resources)
  {
    var file := resSys.Create("test", FileProps("bad_test.txt"), files);
    assert file == null;
    assert !resSys.Exists("test");
    resSys.Remove("test");
  }

  method CreateInvalidType(resSys: ResourceSystem, files: map<string, string>)
    requires resSys.Valid() && TestFiles(files)
    modifies resSys
    ensures resSys.Valid() && resSys.types == old(resSys.types)
    ensures resSys.resources == old(resSys.resources) - {"test"}
  {
    var created := resSys.CreateById(InvalidTypeId, "test", FileProps("test.txt"), files);
    assert created == null;
    resSys.Remove("test");
  }

  method CreateAlreadyCreated(resSys: ResourceSystem, files: map<string, string>)
    requires resSys.Valid() && TestFiles(files)
    modifies resSys
    ensures resSys.Valid() && resSys.types == old(resSys.types)
    ensures resSys.resources == old(resSys.resources) - {"test"}
  {
    var file := resSys.Create("test", FileProps("test.txt"), files);
    var file2 := resSys.Create("test", FileProps("test.txt"), files);
    assert file == file2;
    resSys.Remove("test");
  }

  method AddFromMemory(resSys: ResourceSystem, files: map<string, string>)
    requires resSys.Valid() && TestFiles(files)
    modifies resSys
    ensures resSys.Valid() && resSys.types == old(resSys.types)
    ensures resSys.resources == old(resSys.resources) - {"test"}
  {
    var file: TextFile? := new TextFile();
    var _ := file.Initialize(FileProps("test.txt"), files);
    resSys.Add("test", file);
    assert resSys.Exists("test");
    // The case's own handle is dropped; the registry still holds the object.
    file := null;
    assert resSys.Exists("test");
    resSys.Remove("test");
  }

  method ModifyInMemory(resSys: ResourceSystem, files: map<string, string>)
    requires resSys.Valid() && TestFiles(files)
    modifies resSys
    ensures resSys.Valid() && resSys.types == old(resSys.types)
    ensures resSys.resources == old(resSys.resources) - {"test"}
  {
    var file := new TextFile();
    var _ := file.Initialize(FileProps("test.txt"), files);
    resSys.Add("test", file);
    var file2 := resSys.Get("test");
    assert file2 != null;
    file.AppendText("?");
    assert file.text == file2.text;
    assert file2.text == files["test.txt"] + "?";
    resSys.Remove("test");
  }

  /**
   * All cases in declaration order on one fresh registry. Every case cleans
   * up after itself, so the registry ends holding only the registered type.
   */
  method ResSysTest(files: map<string, string>) returns (resSys: ResourceSystem)
    requires TestFiles(files)
    ensures resSys.Valid()
    ensures resSys.types == map[TypeName(TextFileType) := TypeId(TextFileType)]
    ensures resSys.resources == map[]
  {
    resSys := new ResourceSystem();
    Register(resSys);
    CreateCompileTime(resSys, files);
    var _ := Exists(resSys);
    Remove(resSys);
    CreateRunTime(resSys, files);
    CreateNonExistent(resSys, files);
    CreateInvalidType(resSys, files);
    CreateAlreadyCreated(resSys, files);
    AddFromMemory(resSys, files);
    ModifyInMemory(resSys, files);
  }
}
