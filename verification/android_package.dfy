/**
  The parts of Android's package descriptor that plugin discovery reads:
  `PackageInfo.packageName`, `PackageInfo.applicationInfo` and
  `ApplicationInfo.metaData`, a `Bundle` of typed values.
*/
module AndroidPackage {
  import opened Wrappers
  import opened JavaInt

  /** A metadata entry: a string, an int, or a value of some other type. */
  datatype MetaValue = MetaString(s: string) | MetaInt(i: Int32) | MetaOther

  type Bundle = map<string, MetaValue>

  datatype ApplicationInfo = ApplicationInfo(metaData: Option<Bundle>)

  datatype PackageInfo = PackageInfo(packageName: string, applicationInfo: Option<ApplicationInfo>)

  /** `Bundle.getString`: `None` (Java `null`) when the key is absent or holds no string. */
  function GetString(b: Bundle, k: string): (r: Option<string>)
    ensures r.Some? <==> k in b && b[k].MetaString?
    ensures r.Some? ==> b[k] == MetaString(r.value)
  {
    if k in b && b[k].MetaString? then Some(b[k].s) else None
  }

  /** `Bundle.getInt`: 0 when the key is absent or holds no int. */
  function GetInt(b: Bundle, k: string): (r: Int32)
    ensures k in b && b[k].MetaInt? ==> r == b[k].i
    ensures !(k in b && b[k].MetaInt?) ==> r == 0
  {
    if k in b && b[k].MetaInt? then b[k].i else 0
  }
}
