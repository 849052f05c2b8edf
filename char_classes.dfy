/**
 * The ASCII character classes that both the server's and the signup form's
 * regular expressions test for: [a-z], [A-Z], [0-9] and the special set
 * [!@#$%^&*(),.?":{}|<>].  A regular expression `test` is true when some
 * character of the string is in the class.
 */
module CharClasses {

  /** The twenty characters of the special class, in source order. */
  const SpecialChars: string := "!@#$%^&*(),.?\":{}|<>"

  predicate IsLower(c: char) { 'a' <= c <= 'z' }
  predicate IsUpper(c: char) { 'A' <= c <= 'Z' }
  predicate IsDigit(c: char) { '0' <= c <= '9' }
  predicate IsSpecial(c: char) { c in SpecialChars }

  predicate HasLower(s: string) { exists i :: 0 <= i < |s| && IsLower(s[i]) }
  predicate HasUpper(s: string) { exists i :: 0 <= i < |s| && IsUpper(s[i]) }
  predicate HasDigit(s: string) { exists i :: 0 <= i < |s| && IsDigit(s[i]) }
  predicate HasSpecial(s: string) { exists i :: 0 <= i < |s| && IsSpecial(s[i]) }

  /** No character belongs to two of the four classes. */
  lemma ClassesDisjoint(c: char)
    ensures IsDigit(c) ==> !IsLower(c) && !IsUpper(c) && !IsSpecial(c)
    ensures IsLower(c) ==> !IsUpper(c) && !IsSpecial(c)
    ensures IsUpper(c) ==> !IsSpecial(c)
  {
  }
}
