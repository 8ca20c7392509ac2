/**
 * The JSON that `removeSignals` in _site/datastar-sdk.js sends: a plain
 * object serialised by `JSON.stringify`, read back by a JSON string reader,
 * and applied by the client as a merge patch (section 2 of RFC 7386).
 */
module JsonText {
  import opened Basics
  import opened Strings

  /** A JSON value as a signal holds it; nested objects are not modelled. */
  datatype Json = JNull | JBool(b: bool) | JNumber(n: SafeInteger) | JString(s: string)

  /** An object's members in property order. */
  type Members = seq<(string, Json)>

  /** No two members share a name, as in any JavaScript object. */
  predicate DistinctKeys(members: Members)
  {
    forall i, j :: 0 <= i < j < |members| ==> members[i].0 != members[j].0
  }

  /** `object[key] = value`: an existing property keeps its place, a new one goes last. */
  function SetMember(members: Members, key: string, value: Json): (r: Members)
    requires DistinctKeys(members)
    ensures key in Keys(members) ==>
      && |r| == |members|
      && forall i :: 0 <= i < |r| ==> r[i] == if members[i].0 == key then (key, value) else members[i]
    ensures key !in Keys(members) ==> r == members + [(key, value)]
  {
    if members == [] then [(key, value)]
    else if members[0].0 == key then
      assert forall i :: 1 <= i < |members| ==> members[i].0 != key;
      [(key, value)] + members[1..]
    else
      DistinctTail(members);
      var rest := SetMember(members[1..], key, value);
      assert Keys(members) == [members[0].0] + Keys(members[1..]);
      var r := [members[0]] + rest;
      assert forall i :: 1 <= i < |r| ==> r[i] == rest[i - 1];
      assert forall i :: 1 <= i < |members| ==> members[i] == members[1..][i - 1];
      r
  }

  lemma DistinctTail(members: Members)
    requires members != [] && DistinctKeys(members)
    ensures DistinctKeys(members[1..])
  {
    var tail := members[1..];
    forall i, j | 0 <= i < j < |tail| ensures tail[i].0 != tail[j].0 {
      assert tail[i] == members[i + 1] && tail[j] == members[j + 1];
    }
  }

  // ---------------------------------------------------------------------
  // Serialisation.
  // ---------------------------------------------------------------------

  function HexDigit(n: nat): char
    requires n < 16
  {
    if n < 10 then ('0' as int + n) as char else ('a' as int + n - 10) as char
  }

  /** One character of a string, as `JSON.stringify` writes it inside quotes. */
  function EscapeChar(c: char): string
  {
    if c == '"' then "\\\""
    else if c == '\\' then "\\\\"
    else if c == '\U{8}' then "\\b"
    else if c == '\U{C}' then "\\f"
    else if c == '\n' then "\\n"
    else if c == '\r' then "\\r"
    else if c == '\t' then "\\t"
    else if c < ' ' then "\\u00" + [HexDigit(c as int / 16), HexDigit(c as int % 16)]
    else [c]
  }

  function EscapeAll(s: string): string
  {
    if s == [] then "" else EscapeChar(s[0]) + EscapeAll(s[1..])
  }

  /** `JSON.stringify` of a string. */
  function Quote(s: string): string
  {
    "\"" + EscapeAll(s) + "\""
  }

  function ValueText(v: Json): string
  {
    match v
    case JNull => "null"
    case JBool(b) => if b then "true" else "false"
    case JNumber(n) => IntToDecimal(n)
    case JString(s) => Quote(s)
  }

  function MemberTexts(members: Members): (texts: seq<string>)
    ensures |texts| == |members|
    ensures forall i :: 0 <= i < |members| ==> texts[i] == Quote(members[i].0) + ":" + ValueText(members[i].1)
  {
    if members == [] then [] else [Quote(members[0].0) + ":" + ValueText(members[0].1)] + MemberTexts(members[1..])
  }

  /** `JSON.stringify` of a plain object: no whitespace, members in property order. */
  function Stringify(members: Members): (text: string)
    ensures |text| >= 2 && text[0] == '{' && text[|text| - 1] == '}'
    ensures members == [] <==> text == "{}"
  {
    "{" + JoinWith(MemberTexts(members), ",") + "}"
  }

  /** Every key mapped to `null`, in order. */
  function NullPatch(keys: seq<string>): (members: Members)
    ensures |members| == |keys|
    ensures forall i :: 0 <= i < |keys| ==> members[i] == (keys[i], JNull)
  {
    if keys == [] then [] else [(keys[0], JNull)] + NullPatch(keys[1..])
  }

  // ---------------------------------------------------------------------
  // Reading it back.
  // ---------------------------------------------------------------------

  predicate IsHex(c: char)
  {
    '0' <= c <= '9' || 'a' <= c <= 'f' || 'A' <= c <= 'F'
  }

  function HexValue(c: char): (n: nat)
    requires IsHex(c)
    ensures n < 16
  {
    if c <= '9' then c as int - '0' as int
    else if c <= 'F' then c as int - 'A' as int + 10
    else c as int - 'a' as int + 10
  }

  lemma HexRoundTrip(n: nat)
    requires n < 16
    ensures IsHex(HexDigit(n)) && HexValue(HexDigit(n)) == n
  {
  }

  /** The value of four hex digits, most significant first. */
  function HexQuad(a: char, b: char, c: char, d: char): (v: nat)
    requires IsHex(a) && IsHex(b) && IsHex(c) && IsHex(d)
    ensures v < 0x10000
  {
    var ab := HexValue(a) * 16 + HexValue(b);
    var abc := ab * 16 + HexValue(c);
    assert ab < 256 && abc < 4096;
    abc * 16 + HexValue(d)
  }

  /** The escape after a backslash: the character it stands for and how many characters it takes. */
  function Unescape(t: string): (r: Option<(char, nat)>)
    ensures r.Some? ==> 1 <= r.value.1 <= |t|
  {
    if t == [] then None
    else if t[0] == '"' then Some(('"', 1))
    else if t[0] == '\\' then Some(('\\', 1))
    else if t[0] == '/' then Some(('/', 1))
    else if t[0] == 'b' then Some(('\U{8}', 1))
    else if t[0] == 'f' then Some(('\U{C}', 1))
    else if t[0] == 'n' then Some(('\n', 1))
    else if t[0] == 'r' then Some(('\r', 1))
    else if t[0] == 't' then Some(('\t', 1))
    else if t[0] == 'u' && |t| >= 5 && IsHex(t[1]) && IsHex(t[2]) && IsHex(t[3]) && IsHex(t[4]) then
      var v := HexQuad(t[1], t[2], t[3], t[4]);
      if 0xD800 <= v <= 0xDFFF then None else Some((v as char, 5))
    else None
  }

  function Prepend(c: char, r: Option<(string, string)>): Option<(string, string)>
  {
    match r
    case None => None
    case Some((s, rest)) => Some(([c] + s, rest))
  }

  /**
   * Reads a string literal whose opening quote has been consumed: the text
   * it denotes and what follows its closing quote.
   */
  function ReadString(t: string): (r: Option<(string, string)>)
    ensures r.Some? ==> |r.value.1| < |t|
    decreases |t|
  {
    if t == [] then None
    else if t[0] == '"' then Some(("", t[1..]))
    else if t[0] < ' ' then None
    else if t[0] == '\\' then
      match Unescape(t[1..])
      case None => None
      case Some((c, n)) => Prepend(c, ReadString(t[1 + n..]))
    else Prepend(t[0], ReadString(t[1..]))
  }

  lemma EscapeCharReads(c: char, t: string)
    ensures ReadString(EscapeChar(c) + t) == Prepend(c, ReadString(t))
  {
    if c == '"' || c == '\\' || c == '\U{8}' || c == '\U{C}' || c == '\n' || c == '\r' || c == '\t' {
      ShortEscapeReads(c, t);
    } else if c < ' ' {
      UnicodeEscapeReads(c, t);
    } else {
      var e := EscapeChar(c);
      assert (e + t)[0] == c && (e + t)[1..] == t;
    }
  }

  /** A two-character escape reads back as the character it stands for. */
  lemma ShortEscapeReads(c: char, t: string)
    requires c == '"' || c == '\\' || c == '\U{8}' || c == '\U{C}' || c == '\n' || c == '\r' || c == '\t'
    ensures ReadString(EscapeChar(c) + t) == Prepend(c, ReadString(t))
  {
    var e := EscapeChar(c);
    assert |e| == 2 && e[0] == '\\';
    var s := e + t;
    assert s[0] == '\\' && s[1..] == [e[1]] + t && s[2..] == t;
    assert Unescape(s[1..]) == Some((c, 1));
  }

  /** A `\u00XX` escape of a control character reads back as that character. */
  lemma UnicodeEscapeReads(c: char, t: string)
    requires c < ' '
    requires !(c == '\U{8}' || c == '\U{C}' || c == '\n' || c == '\r' || c == '\t')
    ensures ReadString(EscapeChar(c) + t) == Prepend(c, ReadString(t))
  {
    var hi := c as int / 16;
    var lo := c as int % 16;
    HexRoundTrip(hi);
    HexRoundTrip(lo);
    var s := EscapeChar(c) + t;
    var u := s[1..];
    assert s[0] == '\\' && u == "u00" + [HexDigit(hi), HexDigit(lo)] + t;
    assert u[0] == 'u' && u[1] == '0' && u[2] == '0' && u[3] == HexDigit(hi) && u[4] == HexDigit(lo);
    assert HexQuad(u[1], u[2], u[3], u[4]) == hi * 16 + lo;
    assert (hi * 16 + lo) as char == c;
    assert Unescape(u) == Some((c, 5));
    assert s[6..] == t;
  }

  /** The serialised string reads back as itself, leaving what follows the closing quote. */
  lemma {:induction false} QuoteRoundTrip(s: string, rest: string)
    ensures ReadString(EscapeAll(s) + "\"" + rest) == Some((s, rest))
    decreases |s|
  {
    if s == [] {
      assert EscapeAll(s) + "\"" + rest == "\"" + rest;
    } else {
      var tail := EscapeAll(s[1..]) + "\"" + rest;
      assert EscapeAll(s) + "\"" + rest == EscapeChar(s[0]) + tail;
      EscapeCharReads(s[0], tail);
      QuoteRoundTrip(s[1..], rest);
      assert ReadString(tail) == Some((s[1..], rest));
      assert [s[0]] + s[1..] == s;
      assert Prepend(s[0], Some((s[1..], rest))) == Some((s, rest));
    }
  }

  /** Reads `"key":null` members separated by commas, up to the closing brace and the end of the text. */
  function ReadNullMembers(t: string): Option<seq<string>>
    decreases |t|
  {
    if t == [] || t[0] != '"' then None
    else
      match ReadString(t[1..])
      case None => None
      case Some((key, r)) =>
        if StartsWith(r, ":null,") then
          match ReadNullMembers(r[6..])
          case None => None
          case Some(keys) => Some([key] + keys)
        else if r == ":null}" then Some([key])
        else None
  }

  /** Reads an object whose every member is `null`: the keys in order. */
  function ReadNullObject(text: string): Option<seq<string>>
  {
    if text == "{}" then Some([])
    else if text != [] && text[0] == '{' then ReadNullMembers(text[1..])
    else None
  }

  lemma NullMemberLast(k: string)
    ensures ReadNullMembers(Quote(k) + ":null" + "}") == Some([k])
  {
    var t := Quote(k) + ":null" + "}";
    QuoteRoundTrip(k, ":null}");
    assert t[1..] == EscapeAll(k) + "\"" + ":null}";
    assert ":null}"[5] != ":null,"[5];
  }

  /** A member followed by `,` is read, then the members after it. */
  lemma ReadNullMemberStep(t: string, key: string, r: string)
    requires t != [] && t[0] == '"' && ReadString(t[1..]) == Some((key, r)) && StartsWith(r, ":null,")
    ensures ReadNullMembers(t)
         == match ReadNullMembers(r[6..]) case None => None case Some(keys) => Some([key] + keys)
  {
  }

  lemma NullMemberThen(k: string, more: string)
    ensures ReadNullMembers(Quote(k) + ":null" + "," + more)
         == match ReadNullMembers(more) case None => None case Some(keys) => Some([k] + keys)
  {
    var r := ":null," + more;
    var t := Quote(k) + ":null" + "," + more;
    assert t == "\"" + (EscapeAll(k) + "\"" + r);
    assert t[1..] == EscapeAll(k) + "\"" + r;
    QuoteRoundTrip(k, r);
    PrefixOfConcat(":null,", more);
    assert r[6..] == more;
    ReadNullMemberStep(t, k, r);
  }

  lemma {:induction false} NullMembersRoundTrip(keys: seq<string>)
    requires keys != []
    ensures ReadNullMembers(JoinWith(MemberTexts(NullPatch(keys)), ",") + "}") == Some(keys)
    decreases |keys|
  {
    var texts := MemberTexts(NullPatch(keys));
    var k := keys[0];
    assert texts[0] == Quote(k) + ":null";
    if |keys| == 1 {
      NullMemberLast(k);
      assert keys == [k];
    } else {
      var more := JoinWith(texts[1..], ",") + "}";
      assert texts[1..] == MemberTexts(NullPatch(keys[1..]));
      assert JoinWith(texts, ",") + "}" == Quote(k) + ":null" + "," + more;
      NullMemberThen(k, more);
      NullMembersRoundTrip(keys[1..]);
      assert [k] + keys[1..] == keys;
    }
  }

  /** An object of `null` members, serialised, reads back as its keys in order. */
  lemma NullObjectRoundTrip(keys: seq<string>)
    ensures ReadNullObject(Stringify(NullPatch(keys))) == Some(keys)
  {
    if keys != [] {
      var body := JoinWith(MemberTexts(NullPatch(keys)), ",") + "}";
      NullMembersRoundTrip(keys);
      assert body != [] && body[0] == '"';
      var text := Stringify(NullPatch(keys));
      assert text == "{" + body;
      assert text[1..] == body && text[1] == '"';
      assert text != "{}";
    }
  }

  // ---------------------------------------------------------------------
  // Applying it: section 2 of RFC 7386.
  // ---------------------------------------------------------------------

  /**
   * MergePatch of an object patch onto an object target, member by member:
   * a `null` member removes the name, any other value replaces it.
   */
  function MergePatch(target: map<string, Json>, patch: Members): (r: map<string, Json>)
    ensures forall k :: k !in Keys(patch) ==> (k in r <==> k in target) && (k in target ==> r[k] == target[k])
    ensures forall i :: 0 <= i < |patch| && (forall j :: i < j < |patch| ==> patch[j].0 != patch[i].0) ==>
              if patch[i].1 == JNull then patch[i].0 !in r else patch[i].0 in r && r[patch[i].0] == patch[i].1
    decreases |patch|
  {
    if patch == [] then target
    else
      var (name, value) := patch[0];
      var next := if value == JNull then target - {name} else target[name := value];
      var r := MergePatch(next, patch[1..]);
      assert forall i :: 1 <= i < |patch| ==> patch[i] == patch[1..][i - 1];
      assert name in Keys(patch);
      r
  }

  /** A patch of `null` members removes exactly the named signals and keeps every other one as it was. */
  lemma {:induction false} NullPatchRemoves(target: map<string, Json>, keys: seq<string>)
    ensures MergePatch(target, NullPatch(keys)) == target - set k | k in keys
    decreases |keys|
  {
    if keys != [] {
      assert NullPatch(keys)[1..] == NullPatch(keys[1..]);
      NullPatchRemoves(target - {keys[0]}, keys[1..]);
      assert (target - {keys[0]}) - (set k | k in keys[1..]) == target - set k | k in keys;
    }
  }
}
