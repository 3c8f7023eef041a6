/**
 * The three regular expressions of the Venezuelan validator, each written
 * out as the predicate a full match (String.matches) amounts to:
 *   cédula    ^[VEve]-?\d{7,8}$
 *   teléfono  ^0(<area code>)[-\s]?\d{7}$
 *   nombre    ^[a-zA-ZáéíóúÁÉÍÓÚñÑ\s]+$
 * \d is the ASCII digit class and \s the ASCII whitespace class, as in
 * java.util.regex without flags.
 */
module Patterns {
  import opened JavaText

  /** The first letter of a cédula: V or E, either case. */
  predicate IsCedulaLetter(c: char) {
    c == 'V' || c == 'E' || c == 'v' || c == 'e'
  }

  /** ^[VEve]-?\d{7,8}$: eight to ten characters, a letter first and a digit last. */
  predicate IsCedula(s: string): (b: bool)
    ensures b ==> 8 <= |s| <= 10 && IsCedulaLetter(s[0]) && IsAsciiDigit(s[|s| - 1])
  {
    |s| >= 1 && IsCedulaLetter(s[0]) &&
    var digits := if |s| >= 2 && s[1] == '-' then s[2..] else s[1..];
    (|digits| == 7 || |digits| == 8) && AllDigits(digits)
  }

  /** The area codes the telephone pattern lists after the leading 0, each three digits long. */
  const AreaCodes: set<nat> := {
    412, 414, 424, 416, 426, 212, 243, 244, 245, 246,
    247, 248, 249, 251, 252, 253, 254, 255, 256, 257,
    258, 259, 261, 262, 263, 264, 265, 266, 267, 268,
    269, 271, 272, 273, 274, 275, 276, 277, 278, 279,
    281, 282, 283, 284, 285, 286, 287, 288, 289, 291,
    292, 293, 294, 295}

  /** Three characters that spell one of the listed area codes. */
  predicate IsAreaCode(s: string) {
    |s| == 3 && AllDigits(s) && ParseDigits(s) in AreaCodes
  }

  /** ^0(<area code>)[-\s]?\d{7}$: eleven or twelve characters, a 0 first and a digit last. */
  predicate IsTelefono(s: string): (b: bool)
    ensures b ==> 11 <= |s| <= 12 && s[0] == '0' && IsAsciiDigit(s[|s| - 1])
  {
    |s| >= 4 && s[0] == '0' && IsAreaCode(s[1..4]) &&
    var digits := if |s| >= 5 && (s[4] == '-' || IsRegexSpace(s[4])) then s[5..] else s[4..];
    |digits| == 7 && AllDigits(digits)
  }

  /** The characters the name pattern allows: ASCII letters, the accented vowels, ñ, and \s. */
  predicate IsNameChar(c: char) {
    ('a' <= c <= 'z') || ('A' <= c <= 'Z') || c in "áéíóúÁÉÍÓÚñÑ" || IsRegexSpace(c)
  }

  /** ^[a-zA-ZáéíóúÁÉÍÓÚñÑ\s]+$: not empty, and no digit anywhere. */
  predicate IsNombre(s: string): (b: bool)
    ensures b ==> s != [] && forall i :: 0 <= i < |s| ==> !IsAsciiDigit(s[i])
  {
    |s| >= 1 && forall i :: 0 <= i < |s| ==> IsNameChar(s[i])
  }

  /** The patterns a matches rule can name. */
  datatype Pattern = CedulaPattern | TelefonoPattern | NombrePattern

  /** `value.matches(regex)` for the regex the pattern stands for; none of them matches the empty string. */
  predicate FullMatch(p: Pattern, s: string): (b: bool)
    ensures b ==> s != []
  {
    match p
    case CedulaPattern => IsCedula(s)
    case TelefonoPattern => IsTelefono(s)
    case NombrePattern => IsNombre(s)
  }
}
