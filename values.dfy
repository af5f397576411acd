/** The few pieces of Python run-time behaviour the services and request handlers
    rely on: JSON values as `json.loads` produces them, truthiness, the `in`
    operator and `dict.get`, exceptions, and the `str` methods `strip`, `split`,
    `lower` and `" ".join`. */
module Values {

  datatype Option<+T> = None | Some(value: T)

  /** A raised Python exception: its class name and what `str(e)` gives. */
  datatype Exception = Exception(kind: string, message: string)

  /** The outcome of a Python call that either returns or raises. */
  datatype Attempt<+T> = Returned(value: T) | Raised(error: Exception)

  /** A value produced by `json.loads`: objects become dicts, arrays lists. */
  datatype Json =
    | JNull
    | JBool(b: bool)
    | JInt(i: int)
    | JFloat(f: real)
    | JStr(s: string)
    | JArr(items: seq<Json>)
    | JObj(fields: map<string, Json>)

  /** `type(v).__name__` */
  function TypeName(v: Json): string
  {
    match v
    case JNull => "NoneType"
    case JBool(_) => "bool"
    case JInt(_) => "int"
    case JFloat(_) => "float"
    case JStr(_) => "str"
    case JArr(_) => "list"
    case JObj(_) => "dict"
  }

  /** `bool(v)`: None, False, zero and empty containers are falsy. */
  predicate Truthy(v: Json)
  {
    match v
    case JNull => false
    case JBool(b) => b
    case JInt(i) => i != 0
    case JFloat(f) => f != 0.0
    case JStr(s) => s != ""
    case JArr(items) => items != []
    case JObj(fields) => fields != map[]
  }

  /** `needle` occurs in `hay` as a contiguous block (Python's `needle in hay` on two strings). */
  predicate IsSubstring(needle: string, hay: string)
  {
    exists i :: 0 <= i <= |hay| - |needle| && OccursAt(needle, hay, i)
  }

  /** `needle` is the block of `hay` that starts at position `i`. */
  predicate OccursAt(needle: string, hay: string, i: int)
  {
    0 <= i <= |hay| - |needle| && hay[i..i + |needle|] == needle
  }

  /** Python `key in container` for a string `key`: key membership on a dict, element
      equality on a list, substring on a str; any other type is not iterable. */
  function Contains(container: Json, key: string): (r: Attempt<bool>)
    ensures r.Raised? <==> !(container.JObj? || container.JArr? || container.JStr?)
    ensures container.JObj? ==> r == Returned(key in container.fields)
    ensures container.JArr? ==> r == Returned(JStr(key) in container.items)
    ensures container.JStr? ==> r == Returned(IsSubstring(key, container.s))
  {
    match container
    case JObj(fields) => Returned(key in fields)
    case JArr(items) => Returned(JStr(key) in items)
    case JStr(s) => Returned(IsSubstring(key, s))
    case _ => Raised(Exception("TypeError", "argument of type '" + TypeName(container) + "' is not iterable"))
  }

  /** Python `container.get(key, default)`: only a dict has a `get` method. */
  function Get(container: Json, key: string, default: Json): (r: Attempt<Json>)
    ensures r.Returned? <==> container.JObj?
    ensures container.JObj? && key in container.fields ==> r == Returned(container.fields[key])
    ensures container.JObj? && key !in container.fields ==> r == Returned(default)
  {
    match container
    case JObj(fields) => Returned(if key in fields then fields[key] else default)
    case _ => Raised(Exception("AttributeError", "'" + TypeName(container) + "' object has no attribute 'get'"))
  }

  /** `c.isspace()`: the characters `str.strip()` and `str.split()` treat as whitespace. */
  predicate IsSpace(c: char)
  {
    || '\t' <= c <= '\r'
    || '\U{1C}' <= c <= '\U{1F}'
    || c == ' ' || c == '\U{85}' || c == '\U{A0}' || c == '\U{1680}'
    || '\U{2000}' <= c <= '\U{200A}'
    || c == '\U{2028}' || c == '\U{2029}' || c == '\U{202F}' || c == '\U{205F}' || c == '\U{3000}'
  }

  /** `not s or len(s.strip()) == 0`: the string holds no non-whitespace character. */
  predicate IsBlank(s: string)
  {
    forall i :: 0 <= i < |s| ==> IsSpace(s[i])
  }

  /** Position `i` of `s` is the first character of a whitespace-delimited word. */
  predicate StartsWord(s: string, i: nat)
    requires i < |s|
  {
    !IsSpace(s[i]) && (i == 0 || IsSpace(s[i - 1]))
  }

  /** `len(s.split())`: the number of maximal runs of non-whitespace characters. */
  function WordCount(s: string): nat
  {
    if |s| == 0 then 0
    else WordCount(s[..|s| - 1]) + (if StartsWord(s, |s| - 1) then 1 else 0)
  }

  /** A string has a word exactly when it is not blank. */
  lemma {:induction false} WordCountPositive(s: string)
    ensures WordCount(s) > 0 <==> !IsBlank(s)
  {
    if |s| > 0 {
      var p := s[..|s| - 1];
      WordCountPositive(p);
      assert forall i :: 0 <= i < |p| ==> p[i] == s[i];
      if IsBlank(s) {
        assert IsBlank(p);
      } else if IsBlank(p) {
        assert !IsSpace(s[|s| - 1]);
        assert StartsWord(s, |s| - 1);
      }
    }
  }

  /** `c.isupper()` for ASCII letters; other cased alphabets are not distinguished. */
  predicate IsUpper(c: char)
  {
    'A' <= c <= 'Z'
  }

  /** `c.lower()` for ASCII letters; every other character is left as it is. */
  function LowerChar(c: char): char
  {
    if 'A' <= c <= 'Z' then (c as int + 32) as char else c
  }

  /** `s.lower()`, restricted to ASCII case mapping. */
  function Lower(s: string): (r: string)
    ensures |r| == |s|
    ensures forall i :: 0 <= i < |s| ==> r[i] == LowerChar(s[i])
  {
    seq(|s|, i requires 0 <= i < |s| => LowerChar(s[i]))
  }

  /** `" ".join(parts)` */
  function Join(parts: seq<string>): string
  {
    if |parts| == 0 then ""
    else if |parts| == 1 then parts[0]
    else Join(parts[..|parts| - 1]) + " " + parts[|parts| - 1]
  }

  /** The total length of all parts. */
  function SumLengths(parts: seq<string>): nat
  {
    if |parts| == 0 then 0 else SumLengths(parts[..|parts| - 1]) + |parts[|parts| - 1]|
  }

  /** Joining n > 0 parts adds exactly n - 1 separators. */
  lemma {:induction false} JoinLength(parts: seq<string>)
    requires |parts| > 0
    ensures |Join(parts)| == SumLengths(parts) + |parts| - 1
  {
    if |parts| > 1 {
      var p := parts[..|parts| - 1];
      JoinLength(p);
      assert p[..|p| - 1] == parts[..|parts| - 2];
      if |p| == 1 {
        assert SumLengths(p) == |p[0]|;
      }
    }
  }
}
