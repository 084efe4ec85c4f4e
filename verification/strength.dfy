/** The advisory password-strength meter shown under the password field of
    the add and edit forms. Both forms carry the same `getStrength` cascade
    character for character, so one function models both. */
module Strength {
  import opened Base

  predicate IsAsciiUpper(c: char) { 'A' <= c <= 'Z' }
  predicate IsAsciiLower(c: char) { 'a' <= c <= 'z' }
  predicate IsAsciiDigit(c: char) { '0' <= c <= '9' }

  /** The password holds an ASCII upper-case letter. */
  predicate HasUpper(pwd: string) {
    exists i :: 0 <= i < |pwd| && IsAsciiUpper(pwd[i])
  }

  /** The password holds an ASCII digit. */
  predicate HasDigit(pwd: string) {
    exists i :: 0 <= i < |pwd| && IsAsciiDigit(pwd[i])
  }

  /** `/[^A-Za-z0-9]/.test(pwd)`. The regular expression has no `u` flag and
      so looks at UTF-16 code units; a code point above U+FFFF becomes two
      surrogates, neither alphanumeric, so testing code points instead gives
      the same answer. */
  predicate HasSymbol(pwd: string) {
    exists i :: 0 <= i < |pwd| && !(IsAsciiUpper(pwd[i]) || IsAsciiLower(pwd[i]) || IsAsciiDigit(pwd[i]))
  }

  /** What the meter shows: a label, a level that sets the bar width and a
      colour. */
  datatype Strength = Strength(text: string, level: nat, color: string)

  const NoInput: Strength := Strength("", 0, "#94a3b8")
  const VeryWeak: Strength := Strength("Very Weak", 0, "#ef4444")
  const Weak: Strength := Strength("Weak \U{26A0}\U{FE0F}", 1, "#ef4444")
  const Medium: Strength := Strength("Medium \U{1F642}", 2, "#f59e0b")
  const Strong: Strength := Strength("Strong \U{1F4AA}", 3, "#10b981")

  /** `getStrength`: the first rule that matches decides. Lengths are
      JavaScript lengths, in UTF-16 code units. */
  function GetStrength(pwd: string): (r: Strength)
    ensures r == NoInput || r == VeryWeak || r == Weak || r == Medium || r == Strong
    ensures r.level <= 3
    ensures r == NoInput <==> pwd == ""
  {
    if pwd == "" then NoInput
    else if Utf16Length(pwd) >= 12 && HasUpper(pwd) && HasDigit(pwd) && HasSymbol(pwd) then Strong
    else if Utf16Length(pwd) >= 8 && (HasUpper(pwd) || HasDigit(pwd)) then Medium
    else if Utf16Length(pwd) >= 6 then Weak
    else VeryWeak
  }

  predicate IsStrong(pwd: string) {
    Utf16Length(pwd) >= 12 && HasUpper(pwd) && HasDigit(pwd) && HasSymbol(pwd)
  }

  predicate IsMedium(pwd: string) {
    !IsStrong(pwd) && Utf16Length(pwd) >= 8 && (HasUpper(pwd) || HasDigit(pwd))
  }

  /** The empty password shows nothing; it shares level 0 with "Very Weak"
      but is a different result. */
  lemma EmptyIsNoInput()
    ensures GetStrength("") == NoInput
    ensures NoInput.level == VeryWeak.level == 0 && NoInput != VeryWeak
  {
  }

  /** Each level, stated through the rules rather than the cascade. */
  lemma LevelCharacterisation(pwd: string)
    ensures GetStrength(pwd).level == 3 <==> IsStrong(pwd)
    ensures GetStrength(pwd).level == 2 <==> IsMedium(pwd)
    ensures GetStrength(pwd).level == 1 <==> !IsStrong(pwd) && !IsMedium(pwd) && Utf16Length(pwd) >= 6
    ensures GetStrength(pwd) == VeryWeak <==> pwd != "" && Utf16Length(pwd) < 6
    ensures GetStrength(pwd).level == 0 <==> Utf16Length(pwd) < 6
  {
    if pwd != "" {
      assert Utf16Length(pwd) >= 1;
    }
  }

  /** A long password made only of lower-case letters and symbols is no
      better than "Weak", however long it is. */
  lemma LowerAndSymbolsOnlyIsWeak(pwd: string)
    requires Utf16Length(pwd) >= 6
    requires forall i :: 0 <= i < |pwd| ==> !IsAsciiUpper(pwd[i]) && !IsAsciiDigit(pwd[i])
    ensures GetStrength(pwd) == Weak
  {
    assert !HasUpper(pwd);
    assert !HasDigit(pwd);
  }

  lemma HasUpperAppend(pwd: string, c: char)
    ensures HasUpper(pwd) ==> HasUpper(pwd + [c])
    ensures HasDigit(pwd) ==> HasDigit(pwd + [c])
    ensures HasSymbol(pwd) ==> HasSymbol(pwd + [c])
  {
    if HasUpper(pwd) {
      var i :| 0 <= i < |pwd| && IsAsciiUpper(pwd[i]);
      assert (pwd + [c])[i] == pwd[i];
    }
    if HasDigit(pwd) {
      var i :| 0 <= i < |pwd| && IsAsciiDigit(pwd[i]);
      assert (pwd + [c])[i] == pwd[i];
    }
    if HasSymbol(pwd) {
      var i :| 0 <= i < |pwd| && !(IsAsciiUpper(pwd[i]) || IsAsciiLower(pwd[i]) || IsAsciiDigit(pwd[i]));
      assert (pwd + [c])[i] == pwd[i];
    }
  }

  /** Typing one more character never lowers the meter. */
  lemma AppendNeverLowers(pwd: string, c: char)
    ensures GetStrength(pwd + [c]).level >= GetStrength(pwd).level
  {
    HasUpperAppend(pwd, c);
    Utf16LengthAppend(pwd, c);
  }

  /** The boundary examples: 3, 6, 8 and 12 characters. */
  lemma Examples()
    ensures GetStrength("abc") == VeryWeak
    ensures GetStrength("abcdef") == Weak
    ensures GetStrength("Abcdef12") == Medium
    ensures GetStrength("Abcdef12!@##") == Strong
    ensures GetStrength("abcdefgh!@#$") == Weak
  {
    assert IsAsciiUpper("Abcdef12"[0]) && IsAsciiDigit("Abcdef12"[6]);
    assert IsAsciiUpper("Abcdef12!@##"[0]) && IsAsciiDigit("Abcdef12!@##"[6]);
    assert !IsAsciiUpper("Abcdef12!@##"[8]) && !IsAsciiLower("Abcdef12!@##"[8]) && !IsAsciiDigit("Abcdef12!@##"[8]);
    var w := "abcdefgh!@#$";
    assert forall i :: 0 <= i < |w| ==> !IsAsciiUpper(w[i]) && !IsAsciiDigit(w[i]);
  }
}
