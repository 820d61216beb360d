# PluginInfo: the RePlugin plugin metadata record, in Dafny

This project models `PluginInfo`, the record RePlugin keeps for each plugin.
A plugin package can be loaded at run time. Its record holds the identity
(package name, alias, derived name), the protocol range (`low`/`high`), the
version, the on-disk path, the install type, and two pending transitions: a
scheduled update and a scheduled removal.

The Java class keeps its state in an `org.json` `JSONObject`. Every setter
writes one key straight through to that document. Beside the document it
caches two child records: the pending update, built from the nested object
under `upinfo`, and the pending delete, built from the one under `delinfo`. It
also has one transient flag, `mIsThisPendingUpdateInfo`, which is never
written to the document.

## Layout

| file | module | contents |
|---|---|---|
| `wrappers.dfy` | `Wrappers` | `Option`, standing for Java's nullable references |
| `java_int.dfy` | `JavaInt` | Java `int`/`long` as subset types, and the narrowing `intValue()`/`longValue()` |
| `json.dfy` | `Json` | JSON values and the document as an insertion-ordered member list, like Android's LinkedHashMap-backed `JSONObject`: `Get`, `Put`, `Remove` |
| `json_text.dfy` | `JsonText` | a compact text form of documents and its parser, with the round trip proved |
| `json_opt.dfy` | `JsonOpt` | `optString`, `optInt`, `optLong`, `optJSONObject` |
| `android_package.dfy` | `AndroidPackage` | the parts of `PackageInfo`, `ApplicationInfo` and `Bundle` that plugin discovery reads |
| `plugin_info.dfy` | `Plugin` | the record, its constructors and factories, getters, setters, pending slots, `update`, copy, parcel |
| `plugin_info_lemmas.dfy` | `PluginLemmas` | properties that relate several operations |

Records are immutable values, and each Java mutator becomes a function that
returns the new record. The predicate `Plugin.Consistent` states the
cache/document invariant: each pending slot holds a record exactly when its
key holds a nested object, and that record's document is the nested object,
at every depth. Every constructor and factory establishes it, and every
setter preserves it.

**Aliasing is abstracted away.** `setPendingUpdate(info)` stores `info` by
reference and puts `info.getJSON()`, the same `JSONObject`, under `upinfo`
(`PluginInfo.java:395-401`). In Java, a later change to `info` therefore also
shows in the parent's document. In this model the parent holds a copy of
`info`'s document, taken when the setter is called. For the same reason the
copy constructor is a structural copy, and its result equals its argument
(`Plugin.Copy`). The independence of a deep copy holds automatically for
values.

Behaviour of the code worth knowing:

- `createByJO` rejects a document only when its stored `name` is empty. It
  does not check the three mandatory keys.
- `FRAMEWORK_VERSION_UNKNOWN` is 0, so an unknown framework version cannot be
  told apart from version 0.
- `used` can be written with `setIsUsed`, but the class has no getter for it.
- If parcel text does not parse, the result is a record over an empty
  document, not null.
- The copy constructor recurses through the pending chain without a depth
  bound. In the model the recursion is structural and ends because records
  are finite.

The parser of the text form reads what the writer produces. It rejects any
text that is not exactly one object, and it rebuilds objects with `Put`, so a
repeated key keeps its first position and takes its last value.

## Model

| member | source | states |
|---|---|---|
| `Plugin.MakeName` | stubforplugin/src/main/java/com/qihoo360/replugin/model/PluginInfo.java:166-174 | the name is the alias when that is non-empty, else the package name; it is empty exactly when both are empty (null counts as empty) |
| `Plugin.Create` | stubforplugin/src/main/java/com/qihoo360/replugin/model/PluginInfo.java:117-130 | the seven-argument constructor stores the package name, the alias (no key at all for a null alias), the name `makeName(pkg, alias)`, low, high, version, path and type as given; the document holds exactly those keys, so there is no `frm_ver`, `upinfo` or `delinfo` key and no pending update or delete, and the flag is clear; the record is consistent and well-formed |
| `Plugin.CreateReadsBack` | stubforplugin/src/main/java/com/qihoo360/replugin/model/PluginInfo.java:117-130 | every getter of a freshly constructed record returns its argument (an empty alias for a null one), the name is `makeName(pkg, alias)`, and the framework version is `FRAMEWORK_VERSION_UNKNOWN` |
| `Plugin.FromDoc` | stubforplugin/src/main/java/com/qihoo360/replugin/model/PluginInfo.java:148-162 | `initPluginInfo` keeps the document and caches a pending update or delete exactly when `upinfo`/`delinfo` hold nested objects; the result is consistent at every depth and its flag is clear at every depth |
| `Plugin.ParseFromPackageInfo` | stubforplugin/src/main/java/com/qihoo360/replugin/model/PluginInfo.java:180-217 | null exactly when the package has no application info; otherwise type `TYPE_NOT_INSTALL`, the given path and package name, an unknown framework version, no pending records and a clear flag; no `upinfo` or `delinfo` key; with no metadata, low, high and version are 0, no `ali` key is stored and the name is the package name; with metadata, the alias is the bundle's plugin-name string, or "" with no `ali` key when the bundle has none, and name, low, high and version come from the bundle's entries |
| `Plugin.ParseFromJsonText` | stubforplugin/src/main/java/com/qihoo360/replugin/model/PluginInfo.java:223-240 | a record exactly when the text parses and the document has `pkgname`, `type` and `ver`; the record holds the parsed document, has a pending update/delete exactly when `upinfo`/`delinfo` are nested objects, is consistent, and has its flag clear |
| `Plugin.CreateByJO` | stubforplugin/src/main/java/com/qihoo360/replugin/model/PluginInfo.java:515-523 | null exactly when the stored name reads as empty, with no check on any other key; otherwise a consistent record over the same document |
| `Plugin.Copy` | stubforplugin/src/main/java/com/qihoo360/replugin/model/PluginInfo.java:137-146 | copying the document and flag, and each pending record recursively, gives a record equal to the original at every depth |
| `Plugin.Clone` | stubforplugin/src/main/java/com/qihoo360/replugin/model/PluginInfo.java:562-565 | `clone` gives a record equal to the original |
| `Plugin.GetName` | stubforplugin/src/main/java/com/qihoo360/replugin/model/PluginInfo.java:246-248 | the stored name, or "" when there is none |
| `Plugin.GetPackageName` | stubforplugin/src/main/java/com/qihoo360/replugin/model/PluginInfo.java:253-255 | the stored package name, or "" when there is none |
| `Plugin.GetAlias` | stubforplugin/src/main/java/com/qihoo360/replugin/model/PluginInfo.java:260-262 | the stored alias, or "" when there is none |
| `Plugin.GetVersion` | stubforplugin/src/main/java/com/qihoo360/replugin/model/PluginInfo.java:267-269 | the stored version, or 0 when there is none |
| `Plugin.GetPath` | stubforplugin/src/main/java/com/qihoo360/replugin/model/PluginInfo.java:274-276 | the stored path, or "" when there is none |
| `Plugin.SetPath` | stubforplugin/src/main/java/com/qihoo360/replugin/model/PluginInfo.java:282-284 | the path reads back as given; no other key, cache or flag changes; consistency and well-formedness are preserved |
| `Plugin.SetIsUsed` | stubforplugin/src/main/java/com/qihoo360/replugin/model/PluginInfo.java:294-296 | `used` holds the given boolean; no other key, cache or flag changes |
| `Plugin.GetVersionValue` | stubforplugin/src/main/java/com/qihoo360/replugin/model/PluginInfo.java:301-303 | the stored 64-bit version value, or 0 when there is none |
| `Plugin.GetType` | stubforplugin/src/main/java/com/qihoo360/replugin/model/PluginInfo.java:359-361 | the stored type, or 0 when there is none |
| `Plugin.SetType` | stubforplugin/src/main/java/com/qihoo360/replugin/model/PluginInfo.java:367-369 | the type reads back as given; no other key, cache or flag changes |
| `Plugin.PendingUpdateReadsDoc` | stubforplugin/src/main/java/com/qihoo360/replugin/model/PluginInfo.java:376-387 | on a consistent record, `isNeedUpdate` is true exactly when `upinfo` holds a nested object, and `getPendingUpdate` is the record over that object |
| `Plugin.PendingDeleteReadsDoc` | stubforplugin/src/main/java/com/qihoo360/replugin/model/PluginInfo.java:409-420 | on a consistent record, `isNeedUninstall` is true exactly when `delinfo` holds a nested object, and `getPendingDelete` is the record over that object |
| `Plugin.SetPendingUpdate` | stubforplugin/src/main/java/com/qihoo360/replugin/model/PluginInfo.java:376-402 | afterwards `getPendingUpdate` is the argument and `isNeedUpdate` is true exactly when it is non-null; a record's document is stored under `upinfo`, and null removes the key; no other key, the delete slot and the flag do not change; a consistent record stays consistent, and a well-formed document stays well-formed, when the argument is null or likewise |
| `Plugin.SetPendingDelete` | stubforplugin/src/main/java/com/qihoo360/replugin/model/PluginInfo.java:409-435 | the same as `setPendingUpdate`, for `delinfo`, `getPendingDelete` and `isNeedUninstall` |
| `Plugin.GetFrameworkVersion` | stubforplugin/src/main/java/com/qihoo360/replugin/model/PluginInfo.java:442-446 | the stored framework version, or `FRAMEWORK_VERSION_UNKNOWN` (0) when there is none |
| `Plugin.SetFrameworkVersion` | stubforplugin/src/main/java/com/qihoo360/replugin/model/PluginInfo.java:454-456 | the framework version reads back as given; no other key, cache or flag changes |
| `Plugin.Update` | stubforplugin/src/main/java/com/qihoo360/replugin/model/PluginInfo.java:490-495 | version, path and type read back as `info`'s; every other key, including name, package name, alias, low, high, `upinfo` and `delinfo`, and both caches and the flag, stay as they were |
| `Plugin.SetIsThisPendingUpdateInfo` | stubforplugin/src/main/java/com/qihoo360/replugin/model/PluginInfo.java:503-513 | the flag reads back as given; the document, and so the parcel text, does not change |
| `Plugin.SetVersion` | stubforplugin/src/main/java/com/qihoo360/replugin/model/PluginInfo.java:525-528 | the version reads back as given; no other key, cache or flag changes |
| `Plugin.WriteToParcel` | stubforplugin/src/main/java/com/qihoo360/replugin/model/PluginInfo.java:572-575 | the parcel text of a record with a well-formed document parses back to that document |
| `Plugin.CreateFromParcel` | stubforplugin/src/main/java/com/qihoo360/replugin/model/PluginInfo.java:547-560 | never null: text that does not parse gives a record over an empty document with no pending records; the result is consistent and its flag is clear |
| `JsonText.ParseDocText` | stubforplugin/src/main/java/com/qihoo360/replugin/model/PluginInfo.java:574 | the text written for a document whose keys are distinct at every depth reads back as the same document |
| `PluginLemmas.RebuildFromDoc` | stubforplugin/src/main/java/com/qihoo360/replugin/model/PluginInfo.java:148-162 | rebuilding from a consistent record's own document gives back its pending chain at every depth; only the transient flag is lost |
| `PluginLemmas.ParcelRoundTrip` | stubforplugin/src/main/java/com/qihoo360/replugin/model/PluginInfo.java:547-575 | writing a consistent record to a parcel and reading it back gives the same record with the flag cleared |
| `PluginLemmas.JsonTextRoundTrip` | stubforplugin/src/main/java/com/qihoo360/replugin/model/PluginInfo.java:223-240 | the text of a consistent record with the mandatory keys parses back to the same record, pending chain included, with the flag cleared |
| `PluginLemmas.JsonTextRejectsIncomplete` | stubforplugin/src/main/java/com/qihoo360/replugin/model/PluginInfo.java:234-239 | the text of a document lacking `pkgname`, `type` or `ver` gives no record |
| `PluginLemmas.CreateTextRoundTrip` | stubforplugin/src/main/java/com/qihoo360/replugin/model/PluginInfo.java:117-130 | a record from the seven-argument constructor parses back from its text unchanged |
| `PluginLemmas.PendingUpdateSurvivesText` | stubforplugin/src/main/java/com/qihoo360/replugin/model/PluginInfo.java:395-402 | after `setPendingUpdate(x)`, the reparsed text carries `x` as the pending update, with its flag cleared, and keeps the pending delete |
| `PluginLemmas.PendingUpdateSetThenClear` | stubforplugin/src/main/java/com/qihoo360/replugin/model/PluginInfo.java:395-402 | setting and then clearing a pending update leaves no `upinfo` key, leaves every other key as it was, and keeps the pending delete |
| `PluginLemmas.UpdateIdempotent` | stubforplugin/src/main/java/com/qihoo360/replugin/model/PluginInfo.java:490-495 | applying the same `update` twice gives the same record as applying it once |
| `PluginLemmas.ExampleRecord` | stubforplugin/src/main/java/com/qihoo360/replugin/model/PluginInfo.java:117-130 | a plugin `com.example.plug` with an empty alias is named after its package, has type 10, has no pending update, and parses back from its text unchanged |
| `PluginLemmas.TruncatedTextRejected` | stubforplugin/src/main/java/com/qihoo360/replugin/model/PluginInfo.java:223-232 | an object opened with a brace and holding one member, but not closed, is not a document and gives no record |

## Left out

- The four-argument constructor (`PluginInfo.java:109-115`) is never called. It is not modelled.
- `getApkFile`, `getDexParentDir` and `getNativeLibsDir` return null, and their intended result depends on the host file system. They are not modelled.
- `setFrameworkVersionByMeta` has an empty body. `Plugin.ParseFromPackageInfo` treats its call as doing nothing.
- `toString` returns a constant summary that is not a serialiser. `describeContents` returns 0. `CREATOR.newArray` allocates an array. None of them is modelled.
- Logging is not modelled.
- The `Parcel` plumbing is reduced to a string. `writeToParcel` writes the document's text, and the parcel constructor reads that text back.
- `JSONHelper` is not part of this model. `putNoThrows` is taken to be `JSONObject.put`, which removes a key given null. `cloneNoThrows` is taken to return a document equal in value to its argument.
- String escapes in parsed text: Android's `JSONObject.toString()` writes a tab, newline, carriage return, backspace or form feed as `\t`, `\n`, `\r`, `\b`, `\f`, other control characters as `\u` with four hex digits, and `JSONTokener` reads those escapes back as the characters. The model's parser reads the character after any backslash literally, so `\t` reads as `t` and `\u0041` as `u0041`, and its writer leaves control characters unescaped. A name, alias or path holding a control character in text the app wrote therefore reads back differently through `parseFromJsonText` and the parcel constructor; text the model writes round-trips exactly.
- Numbers in parsed text: Android's `JSONTokener` reads a literal with a leading `0` as octal (`010` is 8) and a `0x` literal as hexadecimal, and turns an integer beyond the `long` range into a `Double`, whose `intValue()` saturates. The model reads every digit run as decimal, rejects `0x`, and keeps integers unbounded, so `optInt`/`optLong` wrap such a value instead. `getVersion` and `getType` on such hand-written text can therefore differ from the app. Text the model writes for numbers that came from Java `int` or `long` values never contains these forms.
- The text form is a compact JSON of this model's own, not `org.json`'s exact output and grammar. It has no whitespace. It escapes only `"` and `\`. It has no arrays and no floating-point numbers. It accepts no trailing text after the object.
- Plugin.GetVersion: a string value under `ver` reads as the default 0. Android's `optInt` would parse such a string as a number.
- Plugin.GetType: a string value under `type` reads as the default 0 rather than being parsed as a number.
- Plugin.GetFrameworkVersion: a string value under `frm_ver` reads as `FRAMEWORK_VERSION_UNKNOWN` rather than being parsed as a number.
- Plugin.GetVersionValue: a string value under `verv` reads as 0 rather than being parsed as a number.
- Plugin.SetPendingUpdate: the parent keeps a copy of the argument's document, not a shared reference, so later changes to the argument do not reach the parent. Plugin.SetPendingDelete is the same.
- Plugin.Copy: equality stands in for "independent deep copy". A copy of an immutable value is independent of the original by construction.
- Only the alias is modelled as possibly null. The package name and the path are taken to be non-null strings.
