# Resource registry of trillek-client-core, modelled in Dafny

The model covers the engine's resource system. It is a process-wide registry with two tables:

- registered type names mapped to type ids;
- resource names mapped to the resource object that the registry shares with its callers.

It also covers the sample resource type `TextFile` and the resource system test cases, run in order against one registry.

Modules, one per component:

- `Wrappers`: `Option`, the "no value" result.
- `Properties`: `Property`, a key/string configuration pair, and `Lookup`, where the first occurrence of a key wins.
- `Reflection`: the resource types, with their ids and names. Id 0 is the "unknown type" sentinel. `TypeFromId` picks the factory for a run-time id.
- `Resources`: the class `TextFile`. It has a mutable `text` field, `Initialize` and `AppendText`. The file system is the parameter `files` (file name to contents). A file is loadable exactly when its name is in that map.
- `Registry`: the class `ResourceSystem`. It has the fields `types` and `resources` and the invariant `Valid()`: every registered name is a known type's name, mapped to that type's id. Handles are Dafny object references, so two handles to one resource are the same object.
- `ResourceSystemTest`: one method per test case and the driver `ResSysTest`. Every test assertion is an `assert`. Each case's `requires` states what it relies on from earlier cases, because one registry persists across all of them.

The implementation headers `systems/ResourceSystem.h` and `resources/TextFile.h` are not part of this model. The registry's operations are modelled from how the tests use them and from the registry's documented design. Decisions taken:

- The documented design is ambiguous about the run-time `CreateById` for a name that is already held under an unregistered id. It describes both creation paths as one routine that checks the held names first and only then looks up a factory, and it also says that the invalid id always yields no value. The model follows "an unregistered id always yields no value": `CreateById` checks first that the id is registered, and an unknown id, including 0, returns null and changes nothing even when the name is held. Otherwise it does exactly what the typed `Create` does. The tests do not separate the two readings: at :83 the name is absent.
- The typed `Create` does not require the type to be registered.
- `Initialize` on a text file reads the first `filename` property. On failure it leaves the text unchanged.
- `Add` overwrites any earlier entry under the same name.

## Model

| member | source | states |
|---|---|---|
| `Properties.Lookup` | tests/tests/ResourceSystemTest.h:23-25 | The result is none exactly when no property has the key. Otherwise it is the value of the first property with that key. |
| `Reflection.TypeId` | tests/tests/ResourceSystemTest.h:83 | No resource type has the sentinel id 0. |
| `Reflection.TypeName` | tests/tests/ResourceSystemTest.h:18 | The canonical name of a type is never empty. It is the key `Register` binds to the type's id and the key `GetTypeIDFromName` looks up, and `TypesDistinct` states that it is unique per type. |
| `Reflection.TypesDistinct` | tests/tests/ResourceSystemTest.h:18 | Distinct types have distinct ids and distinct names. With the single type modelled this holds trivially; it records the requirement that further types must keep. |
| `Reflection.TypeFromId` | tests/tests/ResourceSystemTest.h:51 | A factory is found exactly for the ids of known types, and it is the factory of the type with that id. Id 0 finds none. |
| `Resources.TextFile.constructor` | tests/tests/ResourceSystemTest.h:109 | A new text file holds the empty text. |
| `Resources.TextFile.Initialize` | tests/tests/ResourceSystemTest.h:115 | Succeeds exactly when a filename is given and that file can be read. On success the text is the file's contents; on failure it is unchanged. |
| `Resources.TextFile.AppendText` | tests/tests/ResourceSystemTest.h:145 | The object's own text becomes the old text followed by the argument. |
| `Registry.ResourceSystem.constructor` | tests/tests/ResourceSystemTest.h:12 | The registry starts with no types and no resources, and is valid. |
| `Registry.ResourceSystem.Register` | tests/tests/ResourceSystemTest.h:15 | Binds the type's name to its id and leaves resources alone. Registering a type a second time changes nothing. Afterwards the id is registered. |
| `Registry.ResourceSystem.GetTypeIDFromName` | tests/tests/ResourceSystemTest.h:18 | Gives the sentinel exactly when the name is not registered. Otherwise it gives the registered id, which is the id of the type with that name. |
| `Registry.ResourceSystem.Get` | tests/tests/ResourceSystemTest.h:143 | Non-null exactly when the name is held, and then it is the registry's own object, not a copy. |
| `Registry.ResourceSystem.Exists` | tests/tests/ResourceSystemTest.h:34 | True exactly when `Get` finds an object under the name. |
| `Registry.ResourceSystem.Create` | tests/tests/ResourceSystemTest.h:27-30 | Get-or-insert. A held name returns the held object and changes nothing. Otherwise a loadable file gives a fresh object, holding the file's text, inserted under the name. An unloadable file returns null and leaves the registry unchanged. |
| `Registry.ResourceSystem.CreateById` | tests/tests/ResourceSystemTest.h:51 | An unregistered id (0 included) returns null and changes nothing. A registered id behaves exactly as `Create`. |
| `Registry.ResourceSystem.Add` | tests/tests/ResourceSystemTest.h:117 | The name now maps to the given object, overwriting any earlier entry. Types are unchanged. |
| `Registry.ResourceSystem.Remove` | tests/tests/ResourceSystemTest.h:38 | Only that name's entry is dropped. An absent name leaves the registry unchanged. |
| `ResourceSystemTest.FileProps` | tests/tests/ResourceSystemTest.h:23-25 | The one-property list built by the tests yields the given file name. |
| `ResourceSystemTest.Register` | tests/tests/ResourceSystemTest.h:14-19 | After registration, the id looked up by the type's name equals the type's id. |
| `ResourceSystemTest.CreateCompileTime` | tests/tests/ResourceSystemTest.h:22-31 | Creating "test" from a readable file gives a non-null handle and leaves an entry "test". |
| `ResourceSystemTest.Exists` | tests/tests/ResourceSystemTest.h:33-35 | Given the entry "test" that an earlier case left, `Exists("test")` is observed true. |
| `ResourceSystemTest.Remove` | tests/tests/ResourceSystemTest.h:37-40 | After removing "test", it no longer exists. |
| `ResourceSystemTest.CreateRunTime` | tests/tests/ResourceSystemTest.h:43-56 | Given a registered text file type, creation by its id succeeds. |
| `ResourceSystemTest.CreateNonExistent` | tests/tests/ResourceSystemTest.h:59-72 | An unreadable file gives null and no entry, and the following remove changes nothing. |
| `ResourceSystemTest.CreateInvalidType` | tests/tests/ResourceSystemTest.h:75-88 | Creation with id 0 gives no value. |
| `ResourceSystemTest.CreateAlreadyCreated` | tests/tests/ResourceSystemTest.h:91-105 | Two creations under one name return the identical object. |
| `ResourceSystemTest.AddFromMemory` | tests/tests/ResourceSystemTest.h:108-129 | An added object is still held after the caller drops its handle. |
| `ResourceSystemTest.ModifyInMemory` | tests/tests/ResourceSystemTest.h:132-152 | The handle from `Get` is the added object, so an append through one handle is seen through the other. |
| `ResourceSystemTest.ResSysTest` | tests/tests/ResourceSystemTest.h:12-153 | Every case runs in declaration order on one registry, and every assertion holds. The `Exists` case (:33-35) holds on the entry left by `CreateCompileTime`. The registry ends with the text file type registered and no resources. |

## Left out

- Reading files: `TextFile.Initialize` looks its file up in the `files` parameter instead of reading a disk.
- Reference counting and thread safety of shared handles: a handle is an object reference, and "the registry keeps a strong reference" means the entry stays in `resources`. The object's destruction after the last handle is released is not modelled.
- Lazy construction of the process-wide instance (`GetInstance`): the test driver constructs one registry and passes it to every case.
- The per-type counters that assign type ids on first use: ids are fixed constants of `Reflection.TypeId`.
- `Registry.ResourceSystem.CreateById`: the other reading of the documented design, where a held name is returned even for an unregistered id, is not modelled; the model returns null for every unregistered id.
- Type names clashing between two distinct types (the `DuplicateTypeName` condition): it cannot arise, since the one known type has a unique name.
- `Get` on an entry of another type: with a single resource type, every entry is compatible.
- `Add` of an empty handle: its parameter is a non-null object.
- Property values other than strings.
- `src/main.cpp`: window creation, the OS message loop and the scene-file parser, which are I/O and platform plumbing.
- Test registration and the gtest macros: each case is a method, and each assertion is an `assert`.
