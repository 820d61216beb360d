/**
  Properties of plugin records that relate several operations: rebuilding a
  record from its own document, the text and parcel round trips, and the
  interplay of the pending setters, `update` and the constructors.
*/
module PluginLemmas {
  import opened Wrappers
  import opened JavaInt
  import opened Json
  import opened JsonText
  import opened Plugin

  /** What survives of a record when only its document is kept: everything but the transient flag. */
  function Persisted(p: PluginInfo): (r: PluginInfo)
    decreases p
    ensures r.json == p.json && FlagsClear(r)
    ensures Consistent(p) ==> Consistent(r)
    ensures r.pendingUpdate.Some? <==> p.pendingUpdate.Some?
    ensures r.pendingDelete.Some? <==> p.pendingDelete.Some?
  {
    var up := match p.pendingUpdate
      case None => None
      case Some(u) => Some(Persisted(u));
    var del := match p.pendingDelete
      case None => None
      case Some(u) => Some(Persisted(u));
    PluginInfo(p.json, up, del, false)
  }

  /** A record whose flag is clear at every depth is already its persisted form. */
  lemma {:induction false} PersistedOfFlagsClear(p: PluginInfo)
    requires FlagsClear(p)
    ensures Persisted(p) == p
    decreases p
  {
    if p.pendingUpdate.Some? {
      PersistedOfFlagsClear(p.pendingUpdate.value);
    }
    if p.pendingDelete.Some? {
      PersistedOfFlagsClear(p.pendingDelete.value);
    }
  }

  /**
    The caches of a consistent record are exactly what `initPluginInfo`
    rebuilds from its document, at every depth.
  */
  lemma {:induction false} RebuildFromDoc(p: PluginInfo)
    requires Consistent(p)
    ensures FromDoc(p.json) == Persisted(p)
    decreases p
  {
    if p.pendingUpdate.Some? {
      RebuildFromDoc(p.pendingUpdate.value);
    }
    if p.pendingDelete.Some? {
      RebuildFromDoc(p.pendingDelete.value);
    }
  }

  /** Writing a consistent record to a parcel and reading it back loses only the transient flag. */
  lemma ParcelRoundTrip(p: PluginInfo)
    requires Consistent(p) && WellFormedDoc(p.json)
    ensures CreateFromParcel(WriteToParcel(p)) == Persisted(p)
  {
    RebuildFromDoc(p);
  }

  /**
    The text of a consistent record with the three mandatory keys parses back
    to the same record, pending chain included, with the flag cleared.
  */
  lemma JsonTextRoundTrip(p: PluginInfo)
    requires Consistent(p) && WellFormedDoc(p.json) && HasMandatoryKeys(p.json)
    ensures ParseFromJsonText(DocText(p.json)) == Some(Persisted(p))
  {
    ParseDocText(p.json);
    RebuildFromDoc(p);
  }

  /** The text of a well-formed document lacking a mandatory key is rejected. */
  lemma JsonTextRejectsIncomplete(d: Doc)
    requires WellFormedDoc(d) && !HasMandatoryKeys(d)
    ensures ParseFromJsonText(DocText(d)) == None
  {
    ParseDocText(d);
  }

  /**
    A record built by the seven-argument constructor survives its text form
    unchanged: same name, package name, alias, version, path and type, and
    still no pending update.
  */
  lemma CreateTextRoundTrip(pkgName: string, alias: Option<string>, low: Int32, high: Int32,
                            version: Int32, path: string, pluginType: Int32)
    ensures var p := Create(pkgName, alias, low, high, version, path, pluginType);
      ParseFromJsonText(DocText(p.json)) == Some(p)
  {
    var p := Create(pkgName, alias, low, high, version, path, pluginType);
    JsonTextRoundTrip(p);
    PersistedOfFlagsClear(p);
  }

  /**
    A pending update set on a consistent record survives the text form: the
    reparsed record carries it, with the flag cleared.
  */
  lemma PendingUpdateSurvivesText(p: PluginInfo, x: PluginInfo)
    requires Consistent(p) && WellFormedDoc(p.json) && HasMandatoryKeys(p.json)
    requires Consistent(x) && WellFormedDoc(x.json)
    ensures var q := SetPendingUpdate(p, Some(x));
      && ParseFromJsonText(DocText(q.json)).Some?
      && ParseFromJsonText(DocText(q.json)).value.pendingUpdate == Some(Persisted(x))
      && ParseFromJsonText(DocText(q.json)).value.pendingDelete == Persisted(p).pendingDelete
  {
    var q := SetPendingUpdate(p, Some(x));
    assert HasMandatoryKeys(q.json);
    JsonTextRoundTrip(q);
  }

  /** Setting a pending update and then clearing it leaves the document without `upinfo` and otherwise as it was. */
  lemma PendingUpdateSetThenClear(p: PluginInfo, x: PluginInfo)
    ensures var q := SetPendingUpdate(SetPendingUpdate(p, Some(x)), None);
      && !IsNeedUpdate(q)
      && !Has(q.json, KEY_PENDING_UPDATE)
      && SameExcept(p.json, q.json, {KEY_PENDING_UPDATE})
      && q.pendingDelete == p.pendingDelete
  {
  }

  /** Applying the same update twice is the same as applying it once. */
  lemma UpdateIdempotent(p: PluginInfo, info: PluginInfo)
    ensures Update(Update(p, info), info) == Update(p, info)
  {
    var r := Update(p, info);
    PutPresent(r.json, KEY_VERSION, Num(GetVersion(info)));
    PutPresent(r.json, KEY_PATH, Str(GetPath(info)));
    PutPresent(r.json, KEY_TYPE, Num(GetType(info)));
  }

  /**
    A plugin `com.example.plug` with an empty alias is named after its
    package, is not installed, and comes back unchanged from its text.
  */
  lemma ExampleRecord()
    ensures var p := Create("com.example.plug", Some(""), 1, 5, 3, "/data/p.apk", TYPE_NOT_INSTALL);
      && GetName(p) == "com.example.plug"
      && GetType(p) == 10
      && ParseFromJsonText(DocText(p.json)) == Some(p)
      && !IsNeedUpdate(p)
  {
    CreateTextRoundTrip("com.example.plug", Some(""), 1, 5, 3, "/data/p.apk", TYPE_NOT_INSTALL);
  }

  /** A record's text cut off before its closing brace is malformed, and yields no record. */
  lemma TruncatedTextRejected(m: Member)
    requires WellFormed(m.value)
    ensures ParseFromJsonText("{" + MemberText(m)) == None
  {
    ParseDocUnclosed(m);
  }
}
