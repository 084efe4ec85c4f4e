/** Small building blocks shared by every form of the front-end: an
    Option type, the JavaScript string operations the validators rely on
    (`trim`, UTF-16 `length`, truthiness) and the `message || fallback`
    rule every form uses to pick the error it shows.
 */
module Base {

  /** `undefined`/`null` versus a present value. */
  datatype Option<+T> = None | Some(value: T)

  /** The code points JavaScript's `String.prototype.trim` removes: the
      WhiteSpace set (tab, vertical tab, form feed, space, no-break space,
      byte-order mark and every Unicode space separator) and the
      LineTerminator set (line feed, carriage return, U+2028, U+2029). */
  predicate IsJsWhitespace(c: char) {
    var n := c as int;
    n == 0x09 || n == 0x0A || n == 0x0B || n == 0x0C || n == 0x0D || n == 0x20
    || n == 0xA0 || n == 0x1680 || (0x2000 <= n <= 0x200A)
    || n == 0x2028 || n == 0x2029 || n == 0x202F || n == 0x205F
    || n == 0x3000 || n == 0xFEFF
  }

  /** Drops the leading whitespace of `s`. */
  function TrimStart(s: string): (r: string)
    ensures |r| <= |s| && r == s[|s| - |r|..]
    ensures forall i :: 0 <= i < |s| - |r| ==> IsJsWhitespace(s[i])
    ensures r == [] || !IsJsWhitespace(r[0])
  {
    if |s| > 0 && IsJsWhitespace(s[0]) then TrimStart(s[1..]) else s
  }

  /** Drops the trailing whitespace of `s`. */
  function TrimEnd(s: string): (r: string)
    ensures |r| <= |s| && r == s[..|r|]
    ensures forall i :: |r| <= i < |s| ==> IsJsWhitespace(s[i])
    ensures r == [] || !IsJsWhitespace(r[|r| - 1])
  {
    if |s| > 0 && IsJsWhitespace(s[|s| - 1]) then TrimEnd(s[..|s| - 1]) else s
  }

  /** The string with JavaScript whitespace removed from both ends. */
  function Trim(s: string): string {
    TrimEnd(TrimStart(s))
  }

  /** `!s.trim()`: the string is empty once trimmed. */
  predicate IsBlank(s: string) {
    Trim(s) == ""
  }

  /** Being blank is exactly being made of whitespace only: the validators
      reject the empty string and every all-whitespace string, and accept a
      string as soon as it holds one other character. */
  lemma BlankIffAllWhitespace(s: string)
    ensures IsBlank(s) <==> forall i :: 0 <= i < |s| ==> IsJsWhitespace(s[i])
  {
  }

  /** `s.length` in JavaScript counts UTF-16 code units: a code point
      above U+FFFF is a surrogate pair and counts twice. */
  function Utf16Length(s: string): (n: nat)
    ensures |s| <= n <= 2 * |s|
  {
    if s == [] then 0
    else Utf16Length(s[..|s| - 1]) + (if s[|s| - 1] as int >= 0x10000 then 2 else 1)
  }

  /** Appending a character makes the JavaScript length grow by one or two. */
  lemma Utf16LengthAppend(s: string, c: char)
    ensures Utf16Length(s + [c]) == Utf16Length(s) + (if c as int >= 0x10000 then 2 else 1)
  {
    assert (s + [c])[..|s + [c]| - 1] == s;
  }

  /** JavaScript truthiness of an optional string: absent (`null`,
      `undefined`) and the empty string are both falsy. */
  predicate Truthy(s: Option<string>) {
    s.Some? && s.value != ""
  }

  /** `err.response?.data?.message || fallback`: the server's message when
      it is present and non-empty, the form's fixed fallback otherwise. */
  function ShownError(message: Option<string>, fallback: string): (shown: string)
    ensures Truthy(message) ==> shown == message.value
    ensures !Truthy(message) ==> shown == fallback
    ensures fallback != "" ==> shown != ""
  {
    if Truthy(message) then message.value else fallback
  }
}
