/**
  The plugin metadata record (`PluginInfo`).

  A record is a key/value document plus two cached child records: the pending
  update, rebuilt from the nested object under `upinfo`, and the pending
  delete, rebuilt from the nested object under `delinfo`. It also carries one
  transient flag, "this record is someone's pending update", which is never
  written into the document.

  The Java class mutates one shared `JSONObject` and stores the pending
  record by reference, so the parent's `upinfo` object and the child's own
  document are one object. Here records are values: every operation returns
  a new record, and "the cache agrees with the nested document" is the
  predicate `Consistent`, which each operation is proved to preserve.
*/
module Plugin {
  import opened Wrappers
  import opened JavaInt
  import opened Json
  import opened JsonText
  import opened JsonOpt
  import AndroidPackage

  /** A "pure APK" plugin not yet installed: its path is the downloaded APK. */
  const TYPE_NOT_INSTALL: Int32 := 10
  /** A "pure APK" plugin copied into the managed directory, possibly not installed yet. */
  const TYPE_EXTRACTED: Int32 := 11
  /** Legacy "p-n" plugin, installed. */
  const TYPE_PN_INSTALLED: Int32 := 1
  /** Legacy built-in plugin. */
  const TYPE_BUILTIN: Int32 := 2
  /** Legacy "p-n" plugin, not yet extracted. */
  const TYPE_PN_JAR: Int32 := 3
  /** The framework version of a plugin that does not declare one. */
  const FRAMEWORK_VERSION_UNKNOWN: Int32 := 0

  const KEY_NAME := "name"
  const KEY_PKGNAME := "pkgname"
  const KEY_ALIAS := "ali"
  const KEY_LOW := "low"
  const KEY_HIGH := "high"
  const KEY_VERSION := "ver"
  const KEY_VERSION_VALUE := "verv"
  const KEY_PATH := "path"
  const KEY_TYPE := "type"
  const KEY_USED := "used"
  const KEY_FRAMEWORK_VERSION := "frm_ver"
  const KEY_PENDING_UPDATE := "upinfo"
  const KEY_PENDING_DELETE := "delinfo"

  datatype PluginInfo = PluginInfo(
    json: Doc,
    pendingUpdate: Option<PluginInfo>,
    pendingDelete: Option<PluginInfo>,
    isThisPendingUpdateInfo: bool)

  // ---------------------------------------------------------------------------
  // The cache/document invariant
  // ---------------------------------------------------------------------------

  /** The cached slot holds a record exactly when `key` holds an object, and that record's document is the object. */
  predicate SlotMatches(d: Doc, key: string, slot: Option<PluginInfo>)
  {
    match OptObject(d, key)
    case None => slot.None?
    case Some(nested) => slot.Some? && slot.value.json == nested
  }

  /** Both caches agree with the document, at every depth. */
  predicate Consistent(p: PluginInfo)
    decreases p
  {
    && SlotMatches(p.json, KEY_PENDING_UPDATE, p.pendingUpdate)
    && SlotMatches(p.json, KEY_PENDING_DELETE, p.pendingDelete)
    && (p.pendingUpdate.Some? ==> Consistent(p.pendingUpdate.value))
    && (p.pendingDelete.Some? ==> Consistent(p.pendingDelete.value))
  }

  /** The transient flag is clear at every depth, as on every record rebuilt from a document. */
  predicate FlagsClear(p: PluginInfo)
    decreases p
  {
    && !p.isThisPendingUpdateInfo
    && (p.pendingUpdate.Some? ==> FlagsClear(p.pendingUpdate.value))
    && (p.pendingDelete.Some? ==> FlagsClear(p.pendingDelete.value))
  }

  /** The documents differ at most in the keys of `ks`. */
  ghost predicate SameExcept(d: Doc, d': Doc, ks: set<string>)
  {
    forall k :: k !in ks ==> Get(d', k) == Get(d, k)
  }

  /** A document that keeps every other key and holds each key of `ks` has exactly the old keys and `ks`. */
  lemma KeysSameExcept(d: Doc, d': Doc, ks: set<string>)
    requires SameExcept(d, d', ks)
    requires forall k :: k in ks ==> Has(d', k)
    ensures Keys(d') == Keys(d) + ks
  {
    forall k
      ensures k in Keys(d') <==> k in Keys(d) + ks
    {
      if k !in ks {
        assert Get(d', k) == Get(d, k);
      }
    }
  }

  // ---------------------------------------------------------------------------
  // Construction
  // ---------------------------------------------------------------------------

  /** `TextUtils.isEmpty`: null or the empty string. */
  predicate IsEmpty(s: Option<string>)
  {
    s.None? || s.value == ""
  }

  /** The plugin name: the alias when it is non-empty, else the package name when that is non-empty, else "". */
  function MakeName(pkgName: string, alias: Option<string>): (r: string)
    ensures !IsEmpty(alias) ==> r == alias.value
    ensures IsEmpty(alias) && pkgName != "" ==> r == pkgName
    ensures r == "" <==> IsEmpty(alias) && pkgName == ""
  {
    if !IsEmpty(alias) then alias.value
    else if pkgName != "" then pkgName
    else ""
  }

  /** `PluginInfo(JSONObject)` with `initPluginInfo`: adopts the document and rebuilds both caches from it. */
  function FromDoc(jo: Doc): (r: PluginInfo)
    decreases Obj(jo)
    ensures r.json == jo
    ensures r.pendingUpdate.Some? <==> OptObject(jo, KEY_PENDING_UPDATE).Some?
    ensures r.pendingDelete.Some? <==> OptObject(jo, KEY_PENDING_DELETE).Some?
    ensures Consistent(r)
    ensures FlagsClear(r)
  {
    OptObjectBelow(jo, KEY_PENDING_UPDATE);
    OptObjectBelow(jo, KEY_PENDING_DELETE);
    var up := match OptObject(jo, KEY_PENDING_UPDATE)
      case None => None
      case Some(u) => Some(FromDoc(u));
    var del := match OptObject(jo, KEY_PENDING_DELETE)
      case None => None
      case Some(u) => Some(FromDoc(u));
    PluginInfo(jo, up, del, false)
  }

  /** Metadata keys a plugin APK may declare in its manifest. */
  const META_NAME := "com.qihoo360.plugin.name"
  const META_VERSION_LOW := "com.qihoo360.plugin.version.low"
  const META_VERSION_HIGH := "com.qihoo360.plugin.version.high"
  const META_VERSION := "com.qihoo360.plugin.version.ver"

  /** `JSONObject.put` of a possibly-null string: a null value removes the key, as `org.json` does. */
  function PutNullable(d: Doc, key: string, s: Option<string>): (r: Doc)
    ensures s.Some? ==> Get(r, key) == Some(Str(s.value)) && Keys(r) == Keys(d) + {key}
    ensures s.None? ==> !Has(r, key) && Keys(r) == Keys(d) - {key}
    ensures SameExcept(d, r, {key})
    ensures WellFormedDoc(d) ==> WellFormedDoc(r)
  {
    match s
    case Some(v) => Put(d, key, Str(v))
    case None => Remove(d, key)
  }

  /**
    The seven-argument constructor: writes package name, alias, the derived
    name, the protocol range, then version, path and type. The record has no
    pending update or delete.
  */
  function Create(pkgName: string, alias: Option<string>, low: Int32, high: Int32,
                  version: Int32, path: string, pluginType: Int32): (r: PluginInfo)
    ensures Get(r.json, KEY_PKGNAME) == Some(Str(pkgName))
    ensures alias.Some? ==> Get(r.json, KEY_ALIAS) == Some(Str(alias.value))
    ensures alias.None? ==> !Has(r.json, KEY_ALIAS)
    ensures Get(r.json, KEY_NAME) == Some(Str(MakeName(pkgName, alias)))
    ensures Get(r.json, KEY_LOW) == Some(Num(low)) && Get(r.json, KEY_HIGH) == Some(Num(high))
    ensures Get(r.json, KEY_VERSION) == Some(Num(version))
    ensures Get(r.json, KEY_PATH) == Some(Str(path))
    ensures Get(r.json, KEY_TYPE) == Some(Num(pluginType))
    ensures Keys(r.json) == CreatedKeys(alias)
    ensures !Has(r.json, KEY_FRAMEWORK_VERSION)
    ensures !Has(r.json, KEY_PENDING_UPDATE) && !Has(r.json, KEY_PENDING_DELETE)
    ensures r.pendingUpdate.None? && r.pendingDelete.None? && !r.isThisPendingUpdateInfo
    ensures Consistent(r) && WellFormedDoc(r.json)
  {
    var d := IdentityDoc(pkgName, alias, low, high);
    var p := PluginInfo(d, None, None, false);
    IdentityDocKeys(pkgName, alias, low, high);
    CreatedKeysExclude(alias);
    assert Consistent(p);
    IdentityKeysOutside();
    SetVersionPathType(p, version, path, pluginType)
  }

  /** The keys the seven-argument constructor writes; the alias only when it is not null. */
  function CreatedKeys(alias: Option<string>): set<string>
  {
    IdentityKeys(alias) + {KEY_VERSION, KEY_PATH, KEY_TYPE}
  }

  /** The constructor writes neither pending slot nor the framework version. */
  lemma CreatedKeysExclude(alias: Option<string>)
    ensures KEY_PENDING_UPDATE !in CreatedKeys(alias) && KEY_PENDING_DELETE !in CreatedKeys(alias)
    ensures KEY_FRAMEWORK_VERSION !in CreatedKeys(alias)
    ensures KEY_PENDING_UPDATE !in IdentityKeys(alias) && KEY_PENDING_DELETE !in IdentityKeys(alias)
  {
  }

  /** The keys of the constructor's identity part. */
  function IdentityKeys(alias: Option<string>): set<string>
  {
    NameKeys(alias) + {KEY_LOW} + {KEY_HIGH}
  }

  /** Package name and derived name, and the alias when it is not null. */
  function NameKeys(alias: Option<string>): set<string>
  {
    {KEY_PKGNAME, KEY_NAME} + (if alias.Some? then {KEY_ALIAS} else {})
  }

  /**
    What the getters of a freshly constructed record return: the arguments,
    the derived name, and an unknown framework version.
  */
  lemma CreateReadsBack(pkgName: string, alias: Option<string>, low: Int32, high: Int32,
                        version: Int32, path: string, pluginType: Int32)
    ensures var r := Create(pkgName, alias, low, high, version, path, pluginType);
      && GetName(r) == MakeName(pkgName, alias)
      && GetPackageName(r) == pkgName
      && GetAlias(r) == (if alias.Some? then alias.value else "")
      && GetVersion(r) == version
      && GetPath(r) == path
      && GetType(r) == pluginType
      && GetFrameworkVersion(r) == FRAMEWORK_VERSION_UNKNOWN
  {
  }

  /** The keys the seven-argument constructor writes before version, path and type. */
  function IdentityDoc(pkgName: string, alias: Option<string>, low: Int32, high: Int32): (d: Doc)
    ensures Get(d, KEY_PKGNAME) == Some(Str(pkgName))
    ensures alias.Some? ==> Get(d, KEY_ALIAS) == Some(Str(alias.value))
    ensures alias.None? ==> !Has(d, KEY_ALIAS)
    ensures Get(d, KEY_NAME) == Some(Str(MakeName(pkgName, alias)))
    ensures Get(d, KEY_LOW) == Some(Num(low)) && Get(d, KEY_HIGH) == Some(Num(high))
    ensures WellFormedDoc(d)
  {
    var d3 := NameDoc(pkgName, alias);
    var d4 := Put(d3, KEY_LOW, Num(low));
    var d5 := Put(d4, KEY_HIGH, Num(high));
    IdentityKeysDistinct();
    assert Get(d5, KEY_PKGNAME) == Get(d4, KEY_PKGNAME) == Get(d3, KEY_PKGNAME);
    assert Get(d5, KEY_ALIAS) == Get(d4, KEY_ALIAS) == Get(d3, KEY_ALIAS);
    assert Get(d5, KEY_NAME) == Get(d4, KEY_NAME) == Get(d3, KEY_NAME);
    assert Get(d5, KEY_LOW) == Get(d4, KEY_LOW);
    d5
  }

  /** The package name, the alias when it is not null, and the derived name. */
  function NameDoc(pkgName: string, alias: Option<string>): (d: Doc)
    ensures Get(d, KEY_PKGNAME) == Some(Str(pkgName))
    ensures alias.Some? ==> Get(d, KEY_ALIAS) == Some(Str(alias.value))
    ensures alias.None? ==> !Has(d, KEY_ALIAS)
    ensures Get(d, KEY_NAME) == Some(Str(MakeName(pkgName, alias)))
    ensures WellFormedDoc(d)
  {
    var d1 := Put([], KEY_PKGNAME, Str(pkgName));
    var d2 := PutNullable(d1, KEY_ALIAS, alias);
    var d3 := Put(d2, KEY_NAME, Str(MakeName(pkgName, alias)));
    IdentityKeysDistinct();
    assert Get(d3, KEY_PKGNAME) == Get(d2, KEY_PKGNAME) == Get(d1, KEY_PKGNAME);
    assert Get(d3, KEY_ALIAS) == Get(d2, KEY_ALIAS);
    d3
  }

  /** The identity part holds exactly the keys written, the alias only when it is not null. */
  lemma IdentityDocKeys(pkgName: string, alias: Option<string>, low: Int32, high: Int32)
    ensures Keys(IdentityDoc(pkgName, alias, low, high)) == IdentityKeys(alias)
  {
    var d3 := NameDoc(pkgName, alias);
    NameDocKeys(pkgName, alias);
    var d4 := Put(d3, KEY_LOW, Num(low));
    var d5 := Put(d4, KEY_HIGH, Num(high));
    assert d5 == IdentityDoc(pkgName, alias, low, high);
    assert Keys(d5) == NameKeys(alias) + {KEY_LOW} + {KEY_HIGH};
  }

  lemma NameDocKeys(pkgName: string, alias: Option<string>)
    ensures Keys(NameDoc(pkgName, alias)) == NameKeys(alias)
  {
    var d1 := Put([], KEY_PKGNAME, Str(pkgName));
    var d2 := PutNullable(d1, KEY_ALIAS, alias);
    var d3 := Put(d2, KEY_NAME, Str(MakeName(pkgName, alias)));
    assert d3 == NameDoc(pkgName, alias);
    assert KEY_PKGNAME != KEY_ALIAS;
  }

  lemma IdentityKeysDistinct()
    ensures KEY_PKGNAME != KEY_ALIAS && KEY_PKGNAME != KEY_NAME && KEY_PKGNAME != KEY_LOW && KEY_PKGNAME != KEY_HIGH
    ensures KEY_ALIAS != KEY_NAME && KEY_ALIAS != KEY_LOW && KEY_ALIAS != KEY_HIGH
    ensures KEY_NAME != KEY_LOW && KEY_NAME != KEY_HIGH && KEY_LOW != KEY_HIGH
  {
  }

  /**
    `parseFromPackageInfo`: builds a not-installed record from a package's
    metadata; null when the package has no application info. Without metadata
    the protocol range and the version are 0 and the name is the package name.
  */
  function ParseFromPackageInfo(pi: AndroidPackage.PackageInfo, path: string): (r: Option<PluginInfo>)
    ensures r.None? <==> pi.applicationInfo.None?
    ensures r.Some? ==> GetType(r.value) == TYPE_NOT_INSTALL
    ensures r.Some? ==> GetPath(r.value) == path && GetPackageName(r.value) == pi.packageName
    ensures r.Some? ==> GetFrameworkVersion(r.value) == FRAMEWORK_VERSION_UNKNOWN
    ensures r.Some? ==> !IsNeedUpdate(r.value) && !IsNeedUninstall(r.value) && Consistent(r.value)
    ensures r.Some? ==> !r.value.isThisPendingUpdateInfo
    ensures r.Some? ==> !Has(r.value.json, KEY_PENDING_UPDATE) && !Has(r.value.json, KEY_PENDING_DELETE)
    ensures r.Some? && (pi.applicationInfo.value.metaData.None?
                        || AndroidPackage.GetString(pi.applicationInfo.value.metaData.value, META_NAME).None?) ==>
      !Has(r.value.json, KEY_ALIAS)
    ensures r.Some? && pi.applicationInfo.value.metaData.None? ==>
      && GetName(r.value) == pi.packageName
      && GetAlias(r.value) == ""
      && GetVersion(r.value) == 0
      && Get(r.value.json, KEY_LOW) == Some(Num(0))
      && Get(r.value.json, KEY_HIGH) == Some(Num(0))
    ensures r.Some? && pi.applicationInfo.value.metaData.Some? ==>
      var meta := pi.applicationInfo.value.metaData.value;
      && GetName(r.value) == MakeName(pi.packageName, AndroidPackage.GetString(meta, META_NAME))
      && GetAlias(r.value) == (match AndroidPackage.GetString(meta, META_NAME) case Some(a) => a case None => "")
      && GetVersion(r.value) == AndroidPackage.GetInt(meta, META_VERSION)
      && Get(r.value.json, KEY_LOW) == Some(Num(AndroidPackage.GetInt(meta, META_VERSION_LOW)))
      && Get(r.value.json, KEY_HIGH) == Some(Num(AndroidPackage.GetInt(meta, META_VERSION_HIGH)))
  {
    match pi.applicationInfo
    case None => None
    case Some(ai) =>
      // Without metadata: no alias, and 0 for the protocol range and the version.
      var fields: (Option<string>, Int32, Int32, Int32) := match ai.metaData
        case None => (None, 0, 0, 0)
        case Some(meta) =>
          (AndroidPackage.GetString(meta, META_NAME),
           AndroidPackage.GetInt(meta, META_VERSION_LOW),
           AndroidPackage.GetInt(meta, META_VERSION_HIGH),
           AndroidPackage.GetInt(meta, META_VERSION));
      var (alias, low, high, ver) := fields;
      // setFrameworkVersionByMeta has an empty body: the framework version stays unset.
      CreateReadsBack(pi.packageName, alias, low, high, ver, path, TYPE_NOT_INSTALL);
      Some(Create(pi.packageName, alias, low, high, ver, path, TYPE_NOT_INSTALL))
  }

  /** The three keys a stored record must have: package name, type and version. */
  predicate HasMandatoryKeys(d: Doc)
  {
    Has(d, KEY_PKGNAME) && Has(d, KEY_TYPE) && Has(d, KEY_VERSION)
  }

  /**
    `parseFromJsonText`: null when the text is not a document or lacks one of
    the mandatory keys; otherwise the record over the parsed document, its
    caches rebuilt and its flag clear.
  */
  function ParseFromJsonText(text: string): (r: Option<PluginInfo>)
    ensures r.Some? <==> ParseDoc(text).Some? && HasMandatoryKeys(ParseDoc(text).value)
    ensures r.Some? ==> r.value.json == ParseDoc(text).value
    ensures r.Some? ==> (IsNeedUpdate(r.value) <==> OptObject(r.value.json, KEY_PENDING_UPDATE).Some?)
    ensures r.Some? ==> (IsNeedUninstall(r.value) <==> OptObject(r.value.json, KEY_PENDING_DELETE).Some?)
    ensures r.Some? ==> Consistent(r.value) && FlagsClear(r.value)
  {
    match ParseDoc(text)
    case None => None
    case Some(jo) => if HasMandatoryKeys(jo) then Some(FromDoc(jo)) else None
  }

  /** `createByJO`: the record over `jo`, null exactly when its stored name is empty; no other key is checked. */
  function CreateByJO(jo: Doc): (r: Option<PluginInfo>)
    ensures r.None? <==> OptString(jo, KEY_NAME) == ""
    ensures r.Some? ==> r.value.json == jo && Consistent(r.value) && FlagsClear(r.value)
  {
    var pi := FromDoc(jo);
    if GetName(pi) == "" then None else Some(pi)
  }

  /**
    The copy constructor: copies the document and the flag, and copies each
    pending record recursively. `JSONHelper.cloneNoThrows` is taken to return
    a document equal in value to its argument.
  */
  function Copy(p: PluginInfo): (r: PluginInfo)
    decreases p
    ensures r == p
  {
    var up := match p.pendingUpdate
      case None => None
      case Some(u) => Some(Copy(u));
    var del := match p.pendingDelete
      case None => None
      case Some(u) => Some(Copy(u));
    PluginInfo(p.json, up, del, p.isThisPendingUpdateInfo)
  }

  /** `clone()`: the copy constructor. */
  function Clone(p: PluginInfo): (r: PluginInfo)
    ensures r == p
  {
    Copy(p)
  }

  // ---------------------------------------------------------------------------
  // Getters: each reads one key and falls back to a default when it is absent
  // ---------------------------------------------------------------------------

  function GetName(p: PluginInfo): (r: string)
    ensures !Has(p.json, KEY_NAME) ==> r == ""
    ensures Get(p.json, KEY_NAME).Some? && Get(p.json, KEY_NAME).value.Str? ==> r == Get(p.json, KEY_NAME).value.s
  {
    OptString(p.json, KEY_NAME)
  }

  function GetPackageName(p: PluginInfo): (r: string)
    ensures !Has(p.json, KEY_PKGNAME) ==> r == ""
    ensures Get(p.json, KEY_PKGNAME).Some? && Get(p.json, KEY_PKGNAME).value.Str? ==> r == Get(p.json, KEY_PKGNAME).value.s
  {
    OptString(p.json, KEY_PKGNAME)
  }

  function GetAlias(p: PluginInfo): (r: string)
    ensures !Has(p.json, KEY_ALIAS) ==> r == ""
    ensures Get(p.json, KEY_ALIAS).Some? && Get(p.json, KEY_ALIAS).value.Str? ==> r == Get(p.json, KEY_ALIAS).value.s
  {
    OptString(p.json, KEY_ALIAS)
  }

  function GetVersion(p: PluginInfo): (r: Int32)
    ensures !Has(p.json, KEY_VERSION) ==> r == 0
    ensures Get(p.json, KEY_VERSION).Some? && Get(p.json, KEY_VERSION).value.Num? ==> r == ToInt32(Get(p.json, KEY_VERSION).value.n)
  {
    OptInt(p.json, KEY_VERSION, 0)
  }

  function GetPath(p: PluginInfo): (r: string)
    ensures !Has(p.json, KEY_PATH) ==> r == ""
    ensures Get(p.json, KEY_PATH).Some? && Get(p.json, KEY_PATH).value.Str? ==> r == Get(p.json, KEY_PATH).value.s
  {
    OptString(p.json, KEY_PATH)
  }

  /** The comparable 64-bit version value. */
  function GetVersionValue(p: PluginInfo): (r: Int64)
    ensures !Has(p.json, KEY_VERSION_VALUE) ==> r == 0
    ensures Get(p.json, KEY_VERSION_VALUE).Some? && Get(p.json, KEY_VERSION_VALUE).value.Num? ==> r == ToInt64(Get(p.json, KEY_VERSION_VALUE).value.n)
  {
    OptLong(p.json, KEY_VERSION_VALUE, 0)
  }

  function GetType(p: PluginInfo): (r: Int32)
    ensures !Has(p.json, KEY_TYPE) ==> r == 0
    ensures Get(p.json, KEY_TYPE).Some? && Get(p.json, KEY_TYPE).value.Num? ==> r == ToInt32(Get(p.json, KEY_TYPE).value.n)
  {
    OptInt(p.json, KEY_TYPE, 0)
  }

  function GetFrameworkVersion(p: PluginInfo): (r: Int32)
    ensures !Has(p.json, KEY_FRAMEWORK_VERSION) ==> r == FRAMEWORK_VERSION_UNKNOWN
    ensures Get(p.json, KEY_FRAMEWORK_VERSION).Some? && Get(p.json, KEY_FRAMEWORK_VERSION).value.Num? ==> r == ToInt32(Get(p.json, KEY_FRAMEWORK_VERSION).value.n)
  {
    OptInt(p.json, KEY_FRAMEWORK_VERSION, FRAMEWORK_VERSION_UNKNOWN)
  }

  predicate IsNeedUpdate(p: PluginInfo)
  {
    p.pendingUpdate.Some?
  }

  function GetPendingUpdate(p: PluginInfo): Option<PluginInfo>
  {
    p.pendingUpdate
  }

  predicate IsNeedUninstall(p: PluginInfo)
  {
    p.pendingDelete.Some?
  }

  function GetPendingDelete(p: PluginInfo): Option<PluginInfo>
  {
    p.pendingDelete
  }

  /**
    On a consistent record, `isNeedUpdate` and `getPendingUpdate` answer from
    the document: a pending update exists exactly when `upinfo` holds a nested
    object, and it is the record over that object.
  */
  lemma PendingUpdateReadsDoc(p: PluginInfo)
    requires Consistent(p)
    ensures IsNeedUpdate(p) <==> OptObject(p.json, KEY_PENDING_UPDATE).Some?
    ensures GetPendingUpdate(p).Some? ==> GetPendingUpdate(p).value.json == OptObject(p.json, KEY_PENDING_UPDATE).value
  {
  }

  /** The same for `isNeedUninstall` and `getPendingDelete`, with `delinfo`. */
  lemma PendingDeleteReadsDoc(p: PluginInfo)
    requires Consistent(p)
    ensures IsNeedUninstall(p) <==> OptObject(p.json, KEY_PENDING_DELETE).Some?
    ensures GetPendingDelete(p).Some? ==> GetPendingDelete(p).value.json == OptObject(p.json, KEY_PENDING_DELETE).value
  {
  }

  // ---------------------------------------------------------------------------
  // Setters: each writes one key through to the document
  // ---------------------------------------------------------------------------

  /** The caches and the flag are those of `p`. */
  predicate SameCaches(p: PluginInfo, r: PluginInfo)
  {
    && r.pendingUpdate == p.pendingUpdate
    && r.pendingDelete == p.pendingDelete
    && r.isThisPendingUpdateInfo == p.isThisPendingUpdateInfo
  }

  /** Writes a key that is neither pending slot; the caches stay as they are. */
  function PutKey(p: PluginInfo, key: string, v: Value): (r: PluginInfo)
    requires key != KEY_PENDING_UPDATE && key != KEY_PENDING_DELETE
    ensures Get(r.json, key) == Some(v)
    ensures SameExcept(p.json, r.json, {key})
    ensures SameCaches(p, r)
    ensures Consistent(p) ==> Consistent(r)
    ensures WellFormedDoc(p.json) && WellFormed(v) ==> WellFormedDoc(r.json)
  {
    var r := p.(json := Put(p.json, key, v));
    assert OptObject(r.json, KEY_PENDING_UPDATE) == OptObject(p.json, KEY_PENDING_UPDATE);
    assert OptObject(r.json, KEY_PENDING_DELETE) == OptObject(p.json, KEY_PENDING_DELETE);
    r
  }

  function SetPath(p: PluginInfo, path: string): (r: PluginInfo)
    ensures GetPath(r) == path
    ensures SameExcept(p.json, r.json, {KEY_PATH}) && SameCaches(p, r)
    ensures Consistent(p) ==> Consistent(r)
    ensures WellFormedDoc(p.json) ==> WellFormedDoc(r.json)
  {
    PutKey(p, KEY_PATH, Str(path))
  }

  /** `setIsUsed`: there is no matching getter; the value is stored under `used`. */
  function SetIsUsed(p: PluginInfo, used: bool): (r: PluginInfo)
    ensures Get(r.json, KEY_USED) == Some(Bool(used))
    ensures SameExcept(p.json, r.json, {KEY_USED}) && SameCaches(p, r)
    ensures Consistent(p) ==> Consistent(r)
    ensures WellFormedDoc(p.json) ==> WellFormedDoc(r.json)
  {
    PutKey(p, KEY_USED, Bool(used))
  }

  function SetType(p: PluginInfo, pluginType: Int32): (r: PluginInfo)
    ensures GetType(r) == pluginType
    ensures SameExcept(p.json, r.json, {KEY_TYPE}) && SameCaches(p, r)
    ensures Consistent(p) ==> Consistent(r)
    ensures WellFormedDoc(p.json) ==> WellFormedDoc(r.json)
  {
    PutKey(p, KEY_TYPE, Num(pluginType))
  }

  /** The private `setVersion`. */
  function SetVersion(p: PluginInfo, version: Int32): (r: PluginInfo)
    ensures GetVersion(r) == version
    ensures SameExcept(p.json, r.json, {KEY_VERSION}) && SameCaches(p, r)
    ensures Consistent(p) ==> Consistent(r)
    ensures WellFormedDoc(p.json) ==> WellFormedDoc(r.json)
  {
    PutKey(p, KEY_VERSION, Num(version))
  }

  function SetFrameworkVersion(p: PluginInfo, version: Int32): (r: PluginInfo)
    ensures GetFrameworkVersion(r) == version
    ensures SameExcept(p.json, r.json, {KEY_FRAMEWORK_VERSION}) && SameCaches(p, r)
    ensures Consistent(p) ==> Consistent(r)
    ensures WellFormedDoc(p.json) ==> WellFormedDoc(r.json)
  {
    PutKey(p, KEY_FRAMEWORK_VERSION, Num(version))
  }

  /** Sets the transient flag; the document, and so the written form, does not change. */
  function SetIsThisPendingUpdateInfo(p: PluginInfo, updateInfo: bool): (r: PluginInfo)
    ensures r.isThisPendingUpdateInfo == updateInfo
    ensures r.json == p.json && r.pendingUpdate == p.pendingUpdate && r.pendingDelete == p.pendingDelete
    ensures WriteToParcel(r) == WriteToParcel(p)
    ensures Consistent(p) ==> Consistent(r)
  {
    p.(isThisPendingUpdateInfo := updateInfo)
  }

  /**
    `setPendingUpdate`: a record is cached and its document written under
    `upinfo`; null clears the cache and removes the key. Nothing else changes.
  */
  function SetPendingUpdate(p: PluginInfo, info: Option<PluginInfo>): (r: PluginInfo)
    ensures GetPendingUpdate(r) == info
    ensures IsNeedUpdate(r) <==> info.Some?
    ensures info.Some? ==> Get(r.json, KEY_PENDING_UPDATE) == Some(Obj(info.value.json))
    ensures info.None? ==> !Has(r.json, KEY_PENDING_UPDATE)
    ensures SameExcept(p.json, r.json, {KEY_PENDING_UPDATE})
    ensures r.pendingDelete == p.pendingDelete && r.isThisPendingUpdateInfo == p.isThisPendingUpdateInfo
    ensures Consistent(p) && (info.None? || Consistent(info.value)) ==> Consistent(r)
    ensures WellFormedDoc(p.json) && (info.None? || WellFormedDoc(info.value.json)) ==> WellFormedDoc(r.json)
  {
    var json := match info
      case Some(x) => Put(p.json, KEY_PENDING_UPDATE, Obj(x.json))
      case None => Remove(p.json, KEY_PENDING_UPDATE);
    var r := p.(json := json, pendingUpdate := info);
    assert OptObject(r.json, KEY_PENDING_DELETE) == OptObject(p.json, KEY_PENDING_DELETE);
    r
  }

  /** `setPendingDelete`: as `setPendingUpdate`, for the `delinfo` slot. */
  function SetPendingDelete(p: PluginInfo, info: Option<PluginInfo>): (r: PluginInfo)
    ensures GetPendingDelete(r) == info
    ensures IsNeedUninstall(r) <==> info.Some?
    ensures info.Some? ==> Get(r.json, KEY_PENDING_DELETE) == Some(Obj(info.value.json))
    ensures info.None? ==> !Has(r.json, KEY_PENDING_DELETE)
    ensures SameExcept(p.json, r.json, {KEY_PENDING_DELETE})
    ensures r.pendingUpdate == p.pendingUpdate && r.isThisPendingUpdateInfo == p.isThisPendingUpdateInfo
    ensures Consistent(p) && (info.None? || Consistent(info.value)) ==> Consistent(r)
    ensures WellFormedDoc(p.json) && (info.None? || WellFormedDoc(info.value.json)) ==> WellFormedDoc(r.json)
  {
    var json := match info
      case Some(x) => Put(p.json, KEY_PENDING_DELETE, Obj(x.json))
      case None => Remove(p.json, KEY_PENDING_DELETE);
    var r := p.(json := json, pendingDelete := info);
    assert OptObject(r.json, KEY_PENDING_UPDATE) == OptObject(p.json, KEY_PENDING_UPDATE);
    r
  }

  /**
    `update`: takes version, path and type from `info`. Name, package name,
    alias, protocol range, the pending slots and every other key stay.
  */
  function Update(p: PluginInfo, info: PluginInfo): (r: PluginInfo)
    ensures Get(r.json, KEY_VERSION) == Some(Num(GetVersion(info))) && GetVersion(r) == GetVersion(info)
    ensures Get(r.json, KEY_PATH) == Some(Str(GetPath(info))) && GetPath(r) == GetPath(info)
    ensures Get(r.json, KEY_TYPE) == Some(Num(GetType(info))) && GetType(r) == GetType(info)
    ensures SameExcept(p.json, r.json, {KEY_VERSION, KEY_PATH, KEY_TYPE}) && SameCaches(p, r)
    ensures GetName(r) == GetName(p) && GetPackageName(r) == GetPackageName(p) && GetAlias(r) == GetAlias(p)
    ensures Consistent(p) ==> Consistent(r)
    ensures WellFormedDoc(p.json) ==> WellFormedDoc(r.json)
  {
    IdentityKeysOutside();
    SetVersionPathType(p, GetVersion(info), GetPath(info), GetType(info))
  }

  /** `setVersion`, `setPath`, `setType` in turn, as both the constructor and `update` do. */
  function SetVersionPathType(p: PluginInfo, version: Int32, path: string, pluginType: Int32): (r: PluginInfo)
    ensures Get(r.json, KEY_VERSION) == Some(Num(version))
    ensures Get(r.json, KEY_PATH) == Some(Str(path))
    ensures Get(r.json, KEY_TYPE) == Some(Num(pluginType))
    ensures SameExcept(p.json, r.json, {KEY_VERSION, KEY_PATH, KEY_TYPE}) && SameCaches(p, r)
    ensures Keys(r.json) == Keys(p.json) + {KEY_VERSION, KEY_PATH, KEY_TYPE}
    ensures Consistent(p) ==> Consistent(r)
    ensures WellFormedDoc(p.json) ==> WellFormedDoc(r.json)
  {
    var r1 := SetVersion(p, version);
    var r2 := SetPath(r1, path);
    var r := SetType(r2, pluginType);
    IdentityKeysOutside();
    assert Get(r.json, KEY_VERSION) == Get(r1.json, KEY_VERSION);
    assert Get(r.json, KEY_PATH) == Get(r2.json, KEY_PATH);
    SameExceptUpdateKeys(p.json, r1.json, r2.json, r.json);
    KeysSameExcept(p.json, r.json, {KEY_VERSION, KEY_PATH, KEY_TYPE});
    r
  }

  /** Writing version, then path, then type changes no other key. */
  lemma SameExceptUpdateKeys(d1: Doc, d2: Doc, d3: Doc, d4: Doc)
    requires SameExcept(d1, d2, {KEY_VERSION})
    requires SameExcept(d2, d3, {KEY_PATH})
    requires SameExcept(d3, d4, {KEY_TYPE})
    ensures SameExcept(d1, d4, {KEY_VERSION, KEY_PATH, KEY_TYPE})
  {
  }

  /** Name, package name and alias are none of the keys `update` writes. */
  lemma IdentityKeysOutside()
    ensures var ks := {KEY_VERSION, KEY_PATH, KEY_TYPE};
      && KEY_NAME !in ks && KEY_PKGNAME !in ks && KEY_ALIAS !in ks
      && KEY_LOW !in ks && KEY_HIGH !in ks && KEY_FRAMEWORK_VERSION !in ks
    ensures KEY_VERSION != KEY_PATH && KEY_VERSION != KEY_TYPE && KEY_PATH != KEY_TYPE
  {
  }

  // ---------------------------------------------------------------------------
  // Parcel: the record travels as the text of its document
  // ---------------------------------------------------------------------------

  /** `writeToParcel`: the text of the document; the flag and the caches are not written. */
  function WriteToParcel(p: PluginInfo): (text: string)
    ensures WellFormedDoc(p.json) ==> ParseDoc(text) == Some(p.json)
  {
    var text := DocText(p.json);
    assert WellFormedDoc(p.json) ==> ParseDoc(text) == Some(p.json) by {
      if WellFormedDoc(p.json) {
        ParseDocText(p.json);
      }
    }
    text
  }

  /** `PluginInfo(Parcel)`: text that does not parse yields a record over an empty document, never null. */
  function CreateFromParcel(text: string): (r: PluginInfo)
    ensures ParseDoc(text).Some? ==> r.json == ParseDoc(text).value
    ensures ParseDoc(text).None? ==> r.json == [] && !IsNeedUpdate(r) && !IsNeedUninstall(r)
    ensures Consistent(r) && FlagsClear(r)
  {
    match ParseDoc(text)
    case Some(jo) => FromDoc(jo)
    case None => FromDoc([])
  }
}
