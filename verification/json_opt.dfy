/**
  The typed, never-failing reads of `org.json` (`optString`, `optInt`,
  `optLong`, `optJSONObject`), with the conversions Android's implementation
  applies to a value of another type.
*/
module JsonOpt {
  import opened Wrappers
  import opened JavaInt
  import opened Json
  import opened JsonText

  /**
    `optString(k)`: a string value as it is, any other value as its text
    (`null`, `true`, `42`, `{...}`), the empty string when `k` is absent.
  */
  function OptString(d: Doc, k: string): (r: string)
    ensures !Has(d, k) ==> r == ""
    ensures Get(d, k).Some? && Get(d, k).value.Str? ==> r == Get(d, k).value.s
    ensures Get(d, k).Some? && !Get(d, k).value.Str? ==> r == Text(Get(d, k).value)
  {
    match Get(d, k)
    case None => ""
    case Some(Str(s)) => s
    case Some(v) => Text(v)
  }

  /** `optInt(k, fallback)`: a number narrowed to 32 bits, `fallback` for an absent key or a non-number. */
  function OptInt(d: Doc, k: string, fallback: Int32): (r: Int32)
    ensures !Has(d, k) ==> r == fallback
    ensures Get(d, k).Some? && Get(d, k).value.Num? ==> r == ToInt32(Get(d, k).value.n)
  {
    match Get(d, k)
    case Some(Num(n)) => ToInt32(n)
    case _ => fallback
  }

  /** `optLong(k, fallback)`: a number narrowed to 64 bits, `fallback` for an absent key or a non-number. */
  function OptLong(d: Doc, k: string, fallback: Int64): (r: Int64)
    ensures !Has(d, k) ==> r == fallback
    ensures Get(d, k).Some? && Get(d, k).value.Num? ==> r == ToInt64(Get(d, k).value.n)
  {
    match Get(d, k)
    case Some(Num(n)) => ToInt64(n)
    case _ => fallback
  }

  /** `optJSONObject(k)`: the nested object under `k`, `None` when `k` is absent or holds anything else. */
  function OptObject(d: Doc, k: string): (r: Option<Doc>)
    ensures r.Some? <==> Get(d, k).Some? && Get(d, k).value.Obj?
    ensures r.Some? ==> Get(d, k) == Some(Obj(r.value))
  {
    match Get(d, k)
    case Some(Obj(ms)) => Some(ms)
    case _ => None
  }

  /** A nested object is strictly smaller than the document holding it. */
  lemma OptObjectBelow(d: Doc, k: string)
    ensures OptObject(d, k).Some? ==> Obj(OptObject(d, k).value) < Obj(d)
  {
    if OptObject(d, k).Some? {
      var m := Member(k, Obj(OptObject(d, k).value));
      assert m in d;
    }
  }
}
