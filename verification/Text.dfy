/** Go strings as sequences of Unicode scalar values, with the few measures the code takes of them. */
module Text {

  /** `unicode.IsSpace`: the characters `strings.TrimSpace` removes. */
  predicate IsSpace(c: char) {
    var n := c as int;
    || 0x09 <= n <= 0x0d || n == 0x20 || n == 0x85 || n == 0xa0
    || n == 0x1680 || 0x2000 <= n <= 0x200a || n == 0x2028 || n == 0x2029
    || n == 0x202f || n == 0x205f || n == 0x3000
  }

  /** `strings.TrimSpace(s) == ""`. */
  predicate Blank(s: string) {
    forall i | 0 <= i < |s| :: IsSpace(s[i])
  }

  /** Length in UTF-16 code units. */
  function Utf16Length(s: string): nat {
    if s == [] then 0 else (if s[0] as int < 0x10000 then 1 else 2) + Utf16Length(s[1..])
  }

  /** Length in UTF-8 bytes. */
  function Utf8Length(s: string): nat {
    if s == [] then 0
    else
      var n := s[0] as int;
      (if n < 0x80 then 1 else if n < 0x800 then 2 else if n < 0x10000 then 3 else 4) + Utf8Length(s[1..])
  }

  predicate NulFree(s: string) {
    '\0' !in s
  }

  /** A string of basic-plane characters has one code unit per character. */
  lemma {:induction false} Utf16LengthOfBasic(s: string)
    requires forall i | 0 <= i < |s| :: s[i] as int < 0x10000
    ensures Utf16Length(s) == |s|
  {
    if s != [] {
      Utf16LengthOfBasic(s[1..]);
    }
  }

  lemma {:induction false} Utf16LengthAdds(s: string, t: string)
    ensures Utf16Length(s + t) == Utf16Length(s) + Utf16Length(t)
  {
    if s == [] {
      assert s + t == t;
    } else {
      assert (s + t)[1..] == s[1..] + t;
      Utf16LengthAdds(s[1..], t);
    }
  }

  lemma {:induction false} Utf8LengthAdds(s: string, t: string)
    ensures Utf8Length(s + t) == Utf8Length(s) + Utf8Length(t)
  {
    if s == [] {
      assert s + t == t;
    } else {
      assert (s + t)[1..] == s[1..] + t;
      Utf8LengthAdds(s[1..], t);
    }
  }

  /** Lengths add up, a character outside the basic plane is a surrogate pair, and UTF-8 takes one byte more
      from U+0080, U+0800 and U+10000 on. */
  lemma LengthsOfCharacters(s: string, c: char)
    ensures Utf16Length(s + [c]) == Utf16Length(s) + (if c as int <= 0xffff then 1 else 2)
    ensures Utf8Length(s + [c]) == Utf8Length(s)
              + (if c as int <= 0x7f then 1 else if c as int <= 0x7ff then 2 else if c as int <= 0xffff then 3 else 4)
    ensures Utf16Length("") == 0 && Utf8Length("") == 0
  {
    Utf16LengthAdds(s, [c]);
    Utf8LengthAdds(s, [c]);
    assert [c][1..] == "";
  }

  /** A string is blank if it is empty or all its characters are space, U+0085 included and U+FEFF not. */
  lemma BlankStrings(s: string, c: char)
    ensures Blank("") && (Blank(s + [c]) <==> Blank(s) && IsSpace(c))
    ensures IsSpace('\U{85}') && !IsSpace('\U{feff}') && !IsSpace('a')
  {
    assert forall i | 0 <= i < |s| :: (s + [c])[i] == s[i];
    assert (s + [c])[|s|] == c;
  }
}
