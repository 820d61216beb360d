/**
  The text form of a document: the model's own compact JSON, standing for
  what `JSONObject.toString()` writes and `new JSONObject(String)` reads.

  The format has no whitespace, integers in decimal with a leading `-` when
  negative, and strings in double quotes with `"` and `\` escaped by a
  backslash. The parser reads exactly this format, rejects anything else, and
  builds objects with `Put`, so a repeated key keeps its first position and
  its last value, as `org.json` does. It reads every run of digits as decimal,
  `-0` and leading zeros included, and accepts a backslash before any
  character, reading the character after it literally.

  That last rule differs from `org.json` on text the model does not write:
  `org.json` writes a tab, a newline, a carriage return, a backspace or a
  form feed as `\t`, `\n`, `\r`, `\b` or `\f` and control characters as `\u`
  with four hex digits, and reads those escapes back as the characters. This
  parser reads `\t` as the letter `t` and `\u0041` as `u0041`. The model's
  own writer leaves such characters unescaped, so its round trip is exact.
*/
module JsonText {
  import opened Wrappers
  import opened Json

  // ---------------------------------------------------------------------------
  // Integers
  // ---------------------------------------------------------------------------

  predicate IsDigit(c: char)
  {
    '0' <= c <= '9'
  }

  predicate AllDigits(t: string)
  {
    forall i :: 0 <= i < |t| ==> IsDigit(t[i])
  }

  function DigitChar(d: nat): (c: char)
    requires d < 10
    ensures IsDigit(c)
  {
    ('0' as int + d) as char
  }

  function DigitValue(c: char): (d: nat)
    requires IsDigit(c)
    ensures d < 10 && DigitChar(d) == c
  {
    c as int - '0' as int
  }

  /** The decimal digits of `n`, most significant first, with no leading zero. */
  function NatText(n: nat): (t: string)
    ensures |t| > 0 && AllDigits(t)
  {
    if n < 10 then [DigitChar(n)] else NatText(n / 10) + [DigitChar(n % 10)]
  }

  /** The number a string of decimal digits denotes. */
  function DigitsValue(t: string): nat
    requires AllDigits(t)
  {
    if |t| == 0 then 0 else DigitsValue(t[..|t| - 1]) * 10 + DigitValue(t[|t| - 1])
  }

  /** The length of the run of digits `s` starts with. */
  function DigitSpan(s: string): (k: nat)
    ensures k <= |s|
    ensures AllDigits(s[..k])
    ensures k < |s| ==> !IsDigit(s[k])
  {
    if |s| == 0 || !IsDigit(s[0]) then 0
    else
      var k := 1 + DigitSpan(s[1..]);
      assert s[..k] == [s[0]] + s[1..][..k - 1];
      k
  }

  function IntText(n: int): (t: string)
    ensures |t| > 0 && (t[0] == '-' || IsDigit(t[0]))
  {
    if n < 0 then "-" + NatText(-n) else NatText(n)
  }

  /** Reads a non-empty run of digits. */
  function ParseNat(s: string): (r: Option<(nat, string)>)
    ensures r.Some? ==> |r.value.1| < |s|
  {
    var k := DigitSpan(s);
    if k == 0 then None else Some((DigitsValue(s[..k]), s[k..]))
  }

  /** Reads an optional minus sign and a non-empty run of digits. */
  function ParseInt(s: string): (r: Option<(int, string)>)
    ensures r.Some? ==> |r.value.1| < |s|
  {
    var neg := |s| > 0 && s[0] == '-';
    match ParseNat(if neg then s[1..] else s)
    case None => None
    case Some((m, rest)) => Some((if neg then -(m as int) else m, rest))
  }

  // ---------------------------------------------------------------------------
  // Strings
  // ---------------------------------------------------------------------------

  /** The body of a quoted string: `"` and `\` are preceded by a backslash. */
  function Escape(s: string): (t: string)
    ensures |t| >= |s|
  {
    if |s| == 0 then [] else EscapeChar(s[0]) + Escape(s[1..])
  }

  function EscapeChar(c: char): (t: string)
    ensures |t| >= 1
  {
    if c == '"' || c == '\\' then ['\\', c] else [c]
  }

  function Quote(s: string): string
  {
    "\"" + Escape(s) + "\""
  }

  /** Reads a string body up to and including its closing quote; `s` starts just after the opening quote. */
  function ParseStringBody(s: string): (r: Option<(string, string)>)
    ensures r.Some? ==> |r.value.1| < |s|
  {
    if |s| == 0 then None
    else if s[0] == '"' then Some(([], s[1..]))
    else if s[0] == '\\' then
      if |s| < 2 then None
      else match ParseStringBody(s[2..])
        case None => None
        case Some((t, rest)) => Some(([s[1]] + t, rest))
    else match ParseStringBody(s[1..])
      case None => None
      case Some((t, rest)) => Some(([s[0]] + t, rest))
  }

  // ---------------------------------------------------------------------------
  // Values
  // ---------------------------------------------------------------------------

  /** `toString()` of a value. */
  function Text(v: Value): string
    decreases v
  {
    match v
    case Null => "null"
    case Bool(b) => if b then "true" else "false"
    case Num(n) => IntText(n)
    case Str(s) => Quote(s)
    case Obj(ms) => "{" + MembersText(ms) + "}"
  }

  /** The members of an object, separated by commas. */
  function MembersText(ms: Doc): string
    decreases ms
  {
    if |ms| == 0 then ""
    else if |ms| == 1 then MemberText(ms[0])
    else MemberText(ms[0]) + "," + MembersText(ms[1..])
  }

  function MemberText(m: Member): string
    decreases m, 0
  {
    Quote(m.key) + ":" + Text(m.value)
  }

  /** The text of a document. */
  function DocText(d: Doc): string
  {
    Text(Obj(d))
  }

  function ParseLiteral(s: string, word: string, v: Value): (r: Option<(Value, string)>)
    requires |word| > 0
    ensures r.Some? ==> |r.value.1| < |s|
  {
    if |word| <= |s| && s[..|word|] == word then Some((v, s[|word|..])) else None
  }

  /** Reads one value from the front of `s`, returning it with the unread rest. */
  function ParseValue(s: string): (r: Option<(Value, string)>)
    decreases |s|, 1
    ensures r.Some? ==> |r.value.1| < |s|
    ensures r.Some? ==> WellFormed(r.value.0)
  {
    if |s| == 0 then None
    else if s[0] == 'n' then ParseLiteral(s, "null", Null)
    else if s[0] == 't' then ParseLiteral(s, "true", Bool(true))
    else if s[0] == 'f' then ParseLiteral(s, "false", Bool(false))
    else if s[0] == '"' then
      match ParseStringBody(s[1..])
      case None => None
      case Some((t, rest)) => Some((Str(t), rest))
    else if s[0] == '-' || IsDigit(s[0]) then
      match ParseInt(s)
      case None => None
      case Some((n, rest)) => Some((Num(n), rest))
    else if s[0] == '{' then
      if |s| > 1 && s[1] == '}' then Some((Obj([]), s[2..]))
      else ParseMembers(s[1..], [])
    else None
  }

  /**
    Reads `"key":value` pairs separated by commas up to the closing brace,
    adding each to `acc` with `Put`.
  */
  function ParseMembers(s: string, acc: Doc): (r: Option<(Value, string)>)
    requires WellFormed(Obj(acc))
    decreases |s|, 0
    ensures r.Some? ==> |r.value.1| < |s|
    ensures r.Some? ==> r.value.0.Obj? && WellFormed(r.value.0)
  {
    if |s| == 0 || s[0] != '"' then None
    else match ParseStringBody(s[1..])
      case None => None
      case Some((k, afterKey)) =>
        if |afterKey| == 0 || afterKey[0] != ':' then None
        else match ParseValue(afterKey[1..])
          case None => None
          case Some((v, afterValue)) =>
            var acc' := Put(acc, k, v);
            if |afterValue| == 0 then None
            else if afterValue[0] == ',' then ParseMembers(afterValue[1..], acc')
            else if afterValue[0] == '}' then Some((Obj(acc'), afterValue[1..]))
            else None
  }

  /** `new JSONObject(text)`: the document `text` denotes, `None` when it is not exactly one object. */
  function ParseDoc(text: string): (r: Option<Doc>)
    ensures r.Some? ==> WellFormedDoc(r.value)
  {
    match ParseValue(text)
    case Some((Obj(d), rest)) => if rest == [] then Some(d) else None
    case _ => None
  }

  // ---------------------------------------------------------------------------
  // Round trip: reading back what was written gives the same document
  // ---------------------------------------------------------------------------

  lemma {:induction false} DigitsValueNatText(n: nat)
    ensures DigitsValue(NatText(n)) == n
  {
    var t := NatText(n);
    if n >= 10 {
      assert t[..|t| - 1] == NatText(n / 10);
      DigitsValueNatText(n / 10);
    }
  }

  lemma {:induction false} DigitSpanAppend(t: string, rest: string)
    requires AllDigits(t)
    requires rest == [] || !IsDigit(rest[0])
    ensures DigitSpan(t + rest) == |t|
  {
    if |t| > 0 {
      assert (t + rest)[1..] == t[1..] + rest;
      DigitSpanAppend(t[1..], rest);
    } else {
      assert t + rest == rest;
    }
  }

  /** An integer's text reads back as the same integer, given the text is not followed by another digit. */
  lemma ParseIntText(n: int, rest: string)
    requires rest == [] || !IsDigit(rest[0])
    ensures ParseInt(IntText(n) + rest) == Some((n, rest))
  {
    var m: nat := if n < 0 then -n else n;
    var t := NatText(m);
    DigitsValueNatText(m);
    ParseNatDigits(t, rest);
    if n < 0 {
      DropFirst('-', t + rest);
      SignFirst(t, rest);
      ParseIntSigned(['-'] + (t + rest), t + rest, m, rest);
    } else {
      ParseIntUnsigned(t + rest, m, rest);
    }
  }

  lemma SignFirst(t: string, rest: string)
    ensures ("-" + t) + rest == ['-'] + (t + rest)
  {
  }

  /** A minus sign followed by a number. */
  lemma ParseIntSigned(s: string, u: string, m: nat, rest: string)
    requires |s| > 0 && s[0] == '-' && s[1..] == u
    requires ParseNat(u) == Some((m, rest))
    ensures ParseInt(s) == Some((-(m as int), rest))
  {
  }

  /** A number with no sign. */
  lemma ParseIntUnsigned(s: string, m: nat, rest: string)
    requires ParseNat(s) == Some((m, rest))
    ensures ParseInt(s) == Some((m as int, rest))
  {
  }

  /** A run of digits not followed by another digit reads back as the number it denotes. */
  lemma ParseNatDigits(t: string, rest: string)
    requires |t| > 0 && AllDigits(t)
    requires rest == [] || !IsDigit(rest[0])
    ensures ParseNat(t + rest) == Some((DigitsValue(t), rest))
  {
    DigitSpanAppend(t, rest);
    assert (t + rest)[..|t|] == t;
    assert (t + rest)[|t|..] == rest;
  }

  /** An escaped string followed by its closing quote reads back as the same string. */
  lemma {:induction false} ParseStringBodyEscape(s: string, rest: string)
    ensures ParseStringBody(Escape(s) + "\"" + rest) == Some((s, rest))
  {
    if |s| == 0 {
      DropFirst('"', rest);
      Regroup3([], [], "\"", rest);
    } else {
      var tail := Escape(s[1..]) + "\"" + rest;
      ParseStringBodyEscape(s[1..], rest);
      Regroup3(EscapeChar(s[0]), Escape(s[1..]), "\"", rest);
      if s[0] == '"' || s[0] == '\\' {
        ParseStringBodyEscaped(s[0], tail);
      } else {
        ParseStringBodyPlain(s[0], tail);
      }
      ConsFirst(s);
    }
  }

  lemma Regroup3(a: string, b: string, q: string, rest: string)
    ensures (a + b) + q + rest == a + (b + q + rest)
  {
  }

  lemma ConsFirst(s: string)
    requires |s| > 0
    ensures [s[0]] + s[1..] == s
  {
  }

  /** One escaped character: the backslash is dropped and the character kept. */
  lemma ParseStringBodyEscaped(c: char, tail: string)
    ensures ParseStringBody(['\\', c] + tail) ==
      match ParseStringBody(tail)
      case None => None
      case Some((t, rest)) => Some(([c] + t, rest))
  {
    assert (['\\', c] + tail)[2..] == tail;
  }

  /** One ordinary character is kept as it is. */
  lemma ParseStringBodyPlain(c: char, tail: string)
    requires c != '"' && c != '\\'
    ensures ParseStringBody([c] + tail) ==
      match ParseStringBody(tail)
      case None => None
      case Some((t, rest)) => Some(([c] + t, rest))
  {
    assert ([c] + tail)[1..] == tail;
  }

  /**
    The text of a well-formed value reads back as that value, whenever what
    follows it is the end of the text, a comma or a closing brace.
  */
  lemma {:induction false} ParseValueText(v: Value, rest: string)
    requires WellFormed(v)
    requires rest == [] || rest[0] == ',' || rest[0] == '}'
    ensures ParseValue(Text(v) + rest) == Some((v, rest))
    decreases v, 1
  {
    match v
    case Null => ParseLiteralText("null", Null, rest);
    case Bool(b) =>
      if b {
        ParseLiteralText("true", v, rest);
      } else {
        ParseLiteralText("false", v, rest);
      }
    case Num(n) =>
      ParseIntText(n, rest);
    case Str(t) =>
      ParseStringText(t, rest);
    case Obj(ms) =>
      if |ms| == 0 {
        ParseEmptyObjectText(rest);
      } else {
        assert [] + ms == ms;
        ParseMembersText([], ms, rest);
        ParseObjectText(ms, rest);
      }
  }

  lemma ParseLiteralText(word: string, v: Value, rest: string)
    requires word in {"null", "true", "false"}
    requires v == (if word == "null" then Null else Bool(word == "true"))
    ensures ParseValue(word + rest) == Some((v, rest))
  {
    var s := word + rest;
    assert s[..|word|] == word && s[|word|..] == rest;
  }

  lemma ParseStringText(t: string, rest: string)
    ensures ParseValue(Quote(t) + rest) == Some((Str(t), rest))
  {
    var s := Quote(t) + rest;
    ParseStringBodyEscape(t, rest);
    assert s[1..] == Escape(t) + "\"" + rest;
  }

  lemma ParseEmptyObjectText(rest: string)
    ensures ParseValue("{}" + rest) == Some((Obj([]), rest))
  {
    var s := "{}" + rest;
    assert s[2..] == rest;
  }

  /** A non-empty object's text is read by `ParseMembers`, starting from an empty document. */
  lemma ParseObjectText(ms: Doc, rest: string)
    requires |ms| > 0
    ensures ParseValue(Text(Obj(ms)) + rest) == ParseMembers(MembersText(ms) + "}" + rest, [])
  {
    var s := Text(Obj(ms)) + rest;
    MembersTextStartsWithQuote(ms);
    assert s[1..] == MembersText(ms) + "}" + rest;
  }

  lemma MembersTextStartsWithQuote(ms: Doc)
    requires |ms| > 0
    ensures |MembersText(ms)| > 0 && MembersText(ms)[0] == '"'
  {
  }

  /**
    Reading the members of `ms` after those already in `acc` rebuilds
    `acc + ms`, provided the keys of `acc + ms` are distinct.
  */
  lemma {:induction false} ParseMembersText(acc: Doc, ms: Doc, rest: string)
    requires |ms| > 0
    requires DistinctKeys(acc + ms) && MembersWellFormed(acc + ms)
    requires rest == [] || rest[0] == ',' || rest[0] == '}'
    ensures WellFormed(Obj(acc))
    ensures ParseMembers(MembersText(ms) + "}" + rest, acc) == Some((Obj(acc + ms), rest))
    decreases ms, 0
  {
    DistinctKeysAppend(acc, ms);
    MembersWellFormedAppend(acc, ms);
    var m := ms[0];
    FirstMember(acc, ms);
    MembersTextFirst(ms, rest);
    if |ms| == 1 {
      ParseMemberText(acc, m, "}" + rest);
      DropFirst('}', rest);
      assert ms == [m];
    } else {
      var tail := MembersText(ms[1..]) + "}" + rest;
      ParseMemberText(acc, m, "," + tail);
      DropFirst(',', tail);
      AppendFirst(acc, ms);
      ParseMembersText(acc + [m], ms[1..], rest);
    }
  }

  /** The text of a non-empty member list followed by a closing brace, split after its first member. */
  lemma MembersTextFirst(ms: Doc, rest: string)
    requires |ms| > 0
    ensures MembersText(ms) + "}" + rest ==
      if |ms| == 1 then MemberText(ms[0]) + ("}" + rest)
      else MemberText(ms[0]) + ("," + (MembersText(ms[1..]) + "}" + rest))
  {
    if |ms| > 1 {
      Regroup(MemberText(ms[0]), MembersText(ms[1..]), rest);
    }
  }

  lemma DropFirst(c: char, t: string)
    ensures ([c] + t)[1..] == t
  {
  }

  lemma AppendFirst(acc: Doc, ms: Doc)
    requires |ms| > 0
    ensures (acc + [ms[0]]) + ms[1..] == acc + ms
  {
    assert ms == [ms[0]] + ms[1..];
  }

  lemma Regroup(a: string, b: string, rest: string)
    ensures a + "," + b + "}" + rest == a + ("," + (b + "}" + rest))
  {
  }

  lemma FirstMember(acc: Doc, ms: Doc)
    requires |ms| > 0
    requires DistinctKeys(acc) && DistinctKeys(ms) && Keys(acc) !! Keys(ms)
    requires MembersWellFormed(ms)
    ensures ms[0].key !in Keys(acc) && WellFormed(ms[0].value)
  {
  }

  /** One `"key":value` pair with a new key is read and appended to `acc`. */
  lemma {:induction false} ParseMemberText(acc: Doc, m: Member, after: string)
    requires WellFormed(Obj(acc)) && WellFormed(m.value)
    requires m.key !in Keys(acc)
    requires |after| > 0 && (after[0] == ',' || after[0] == '}')
    ensures Put(acc, m.key, m.value) == acc + [m]
    ensures ParseMembers(MemberText(m) + after, acc) ==
      if after[0] == ',' then ParseMembers(after[1..], Put(acc, m.key, m.value))
      else Some((Obj(Put(acc, m.key, m.value)), after[1..]))
    decreases m.value, 2
  {
    var afterKey := [':'] + (Text(m.value) + after);
    MemberTextThen(m, after);
    DropFirst('"', Escape(m.key) + "\"" + afterKey);
    ParseStringBodyEscape(m.key, afterKey);
    DropFirst(':', Text(m.value) + after);
    ParseValueText(m.value, after);
  }

  /** A member's text: the quoted key, a colon, the value's text. */
  lemma MemberTextParts(m: Member)
    ensures MemberText(m) == ['"'] + (Escape(m.key) + "\"" + ([':'] + Text(m.value)))
  {
  }

  /** A member's text followed by more text. */
  lemma MemberTextThen(m: Member, after: string)
    ensures MemberText(m) + after == ['"'] + (Escape(m.key) + "\"" + ([':'] + (Text(m.value) + after)))
  {
  }

  /** An object whose closing brace is missing does not parse. */
  lemma ParseDocUnclosed(m: Member)
    requires WellFormed(m.value)
    ensures ParseDoc("{" + MemberText(m)) == None
  {
    ParseMembersUnclosed(m);
    MemberTextParts(m);
    DropFirst('{', MemberText(m));
  }

  /** A member followed by nothing, where a comma or a closing brace must come, does not parse. */
  lemma ParseMembersUnclosed(m: Member)
    requires WellFormed(m.value)
    ensures ParseMembers(MemberText(m), []) == None
  {
    var afterKey := [':'] + Text(m.value);
    MemberTextParts(m);
    DropFirst('"', Escape(m.key) + "\"" + afterKey);
    ParseStringBodyEscape(m.key, afterKey);
    DropFirst(':', Text(m.value));
    ParseValueText(m.value, []);
    NoRest(Text(m.value));
  }

  lemma NoRest(t: string)
    ensures t + [] == t
  {
  }

  /** A well-formed document survives being written out and read back. */
  lemma ParseDocText(d: Doc)
    requires WellFormedDoc(d)
    ensures ParseDoc(DocText(d)) == Some(d)
  {
    ParseValueText(Obj(d), []);
    assert DocText(d) + [] == DocText(d);
  }
}
