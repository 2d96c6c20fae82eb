/** The UUID format check the controller applies to every identifier: an anchored
    regular expression, matched ignoring case, made of hexadecimal groups of 8, 4,
    4, 4 and 12 digits joined by hyphens, where the first digit of the third group
    must be 1 to 5 and the first digit of the fourth group one of 8, 9, a, b. That
    is the textual layout of section 3 of RFC 4122, with the version digit limited
    to 1..5 (section 4.1.3) and the variant digit to the RFC's own variant
    (section 4.1.1). */
module Uuid {

  /** The bracket expressions (and the literal hyphen) of the pattern. */
  datatype CharClass =
    | Hex      // [0-9a-f]
    | Version  // [1-5]
    | Variant  // [89ab]
    | Hyphen   // -

  predicate InClass(k: CharClass, c: char) {
    match k
    case Hex => '0' <= c <= '9' || 'a' <= c <= 'f'
    case Version => '1' <= c <= '5'
    case Variant => c == '8' || c == '9' || c == 'a' || c == 'b'
    case Hyphen => c == '-'
  }

  function AsciiLower(c: char): char {
    if 'A' <= c <= 'Z' then (c as int + 32) as char else c
  }

  /** Matching under the `i` flag. Every class of the pattern is written in lower
      case, so a character matches when it, or its ASCII lower-case form, is in the
      class. No other character can match: for a pattern without the `u` flag, the
      Canonicalize operation of the RegExp semantics of ECMA-262 never maps
      a character at or above U+0080 onto one below it, so characters such as
      U+017F or U+212A are not folded onto ASCII letters. */
  predicate MatchesIgnoringCase(k: CharClass, c: char) {
    InClass(k, c) || InClass(k, AsciiLower(c))
  }

  /** A class repeated a fixed number of times: `[0-9a-f]{8}` is Atom(Hex, 8). */
  datatype Atom = Atom(cls: CharClass, count: nat)

  /** The pattern, atom by atom, as the source writes it. */
  const UuidPattern: seq<Atom> := [
    Atom(Hex, 8), Atom(Hyphen, 1),
    Atom(Hex, 4), Atom(Hyphen, 1),
    Atom(Version, 1), Atom(Hex, 3), Atom(Hyphen, 1),
    Atom(Variant, 1), Atom(Hex, 3), Atom(Hyphen, 1),
    Atom(Hex, 12)
  ]

  predicate AllMatch(k: CharClass, s: string) {
    forall i :: 0 <= i < |s| ==> MatchesIgnoringCase(k, s[i])
  }

  /** Anchored matching (`^` … `$`) of the atoms from index `k` on: each atom
      consumes exactly its count of characters, in order, and nothing may be left
      over. */
  predicate MatchesFrom(p: seq<Atom>, k: nat, s: string)
    decreases |p| - k
  {
    if k >= |p| then
      s == []
    else
      var n := p[k].count;
      n <= |s| && AllMatch(p[k].cls, s[..n]) && MatchesFrom(p, k + 1, s[n..])
  }

  /** `uuidRegex.test(s)` for a string `s`. */
  predicate ValidUuid(s: string) {
    MatchesFrom(UuidPattern, 0, s)
  }

  /** The number of characters the atoms from index `k` on match. */
  function WidthFrom(p: seq<Atom>, k: nat): nat
    decreases |p| - k
  {
    if k >= |p| then 0 else p[k].count + WidthFrom(p, k + 1)
  }

  /** The class that position `i` of a string matched by the atoms from index `k`
      on must belong to. */
  function ClassAt(p: seq<Atom>, k: nat, i: nat): CharClass
    requires i < WidthFrom(p, k)
    decreases |p| - k
  {
    if i < p[k].count then p[k].cls else ClassAt(p, k + 1, i - p[k].count)
  }

  /** Atoms of fixed count match exactly the strings of their total width whose
      every position lies in the class the atoms put there. */
  lemma {:induction false} MatchesIff(p: seq<Atom>, k: nat, s: string)
    ensures MatchesFrom(p, k, s) <==>
      |s| == WidthFrom(p, k) && forall i :: 0 <= i < |s| ==> MatchesIgnoringCase(ClassAt(p, k, i), s[i])
    decreases |p| - k
  {
    if k < |p| {
      var n := p[k].count;
      if n <= |s| {
        var rest := s[n..];
        MatchesIff(p, k + 1, rest);
        if |s| == WidthFrom(p, k) {
          forall i | 0 <= i < |s|
            ensures MatchesIgnoringCase(ClassAt(p, k, i), s[i]) <==>
              if i < n then MatchesIgnoringCase(p[k].cls, s[..n][i])
              else MatchesIgnoringCase(ClassAt(p, k + 1, i - n), rest[i - n])
          {
          }
          if MatchesFrom(p, k, s) {
            forall i | 0 <= i < |s| ensures MatchesIgnoringCase(ClassAt(p, k, i), s[i]) {
              if i >= n {
                assert MatchesIgnoringCase(ClassAt(p, k + 1, i - n), rest[i - n]);
              }
            }
          }
          if forall i :: 0 <= i < |s| ==> MatchesIgnoringCase(ClassAt(p, k, i), s[i]) {
            forall i | 0 <= i < n ensures MatchesIgnoringCase(p[k].cls, s[..n][i]) {
              assert MatchesIgnoringCase(ClassAt(p, k, i), s[i]);
            }
            forall i | 0 <= i < |rest|
              ensures MatchesIgnoringCase(ClassAt(p, k + 1, i), rest[i])
            {
              assert MatchesIgnoringCase(ClassAt(p, k, i + n), s[i + n]);
            }
          }
        }
      }
    }
  }

  /** Position-by-position reading of the format: hyphens at 8, 13, 18 and 23, the
      version digit 1..5 at 14, the variant digit 8, 9, a or b at 19 (either case),
      and a hexadecimal digit of either case everywhere else. */
  predicate IsHexDigit(c: char) {
    '0' <= c <= '9' || 'a' <= c <= 'f' || 'A' <= c <= 'F'
  }

  predicate LayoutAt(i: int, c: char) {
    if i == 8 || i == 13 || i == 18 || i == 23 then c == '-'
    else if i == 14 then '1' <= c <= '5'
    else if i == 19 then c in "89abAB"
    else IsHexDigit(c)
  }

  predicate UuidLayout(s: string) {
    |s| == 36 && forall i :: 0 <= i < 36 ==> LayoutAt(i, s[i])
  }

  /** The number of characters the atoms before index `k` match. */
  function Offset(p: seq<Atom>, k: nat): nat
    requires k <= |p|
  {
    if k == 0 then 0 else Offset(p, k - 1) + p[k - 1].count
  }

  lemma {:induction false} WidthSplit(p: seq<Atom>, k: nat)
    requires k <= |p|
    ensures WidthFrom(p, 0) == Offset(p, k) + WidthFrom(p, k)
  {
    if k > 0 {
      WidthSplit(p, k - 1);
    }
  }

  /** Past the first `k` atoms, a position's class is found among the remaining
      atoms, at the position shifted by their width. */
  lemma {:induction false} ClassAtDrop(p: seq<Atom>, k: nat, i: nat)
    requires k <= |p| && Offset(p, k) <= i < WidthFrom(p, 0)
    ensures i - Offset(p, k) < WidthFrom(p, k)
    ensures ClassAt(p, 0, i) == ClassAt(p, k, i - Offset(p, k))
  {
    WidthSplit(p, k);
    if k > 0 {
      ClassAtDrop(p, k - 1, i);
    }
  }

  /** Where each atom of the pattern starts, and the pattern's total width. */
  lemma UuidOffsets()
    ensures WidthFrom(UuidPattern, 0) == 36
    ensures Offset(UuidPattern, 0) == 0
    ensures Offset(UuidPattern, 1) == 8
    ensures Offset(UuidPattern, 2) == 9
    ensures Offset(UuidPattern, 3) == 13
    ensures Offset(UuidPattern, 4) == 14
    ensures Offset(UuidPattern, 5) == 15
    ensures Offset(UuidPattern, 6) == 18
    ensures Offset(UuidPattern, 7) == 19
    ensures Offset(UuidPattern, 8) == 20
    ensures Offset(UuidPattern, 9) == 23
    ensures Offset(UuidPattern, 10) == 24
    ensures Offset(UuidPattern, 11) == 36
  {
    var p := UuidPattern;
    assert Offset(p, 1) == Offset(p, 0) + p[0].count == 8;
    assert Offset(p, 2) == Offset(p, 1) + p[1].count == 9;
    assert Offset(p, 3) == Offset(p, 2) + p[2].count == 13;
    assert Offset(p, 4) == Offset(p, 3) + p[3].count == 14;
    assert Offset(p, 5) == Offset(p, 4) + p[4].count == 15;
    assert Offset(p, 6) == Offset(p, 5) + p[5].count == 18;
    assert Offset(p, 7) == Offset(p, 6) + p[6].count == 19;
    assert Offset(p, 8) == Offset(p, 7) + p[7].count == 20;
    assert Offset(p, 9) == Offset(p, 8) + p[8].count == 23;
    assert Offset(p, 10) == Offset(p, 9) + p[9].count == 24;
    assert Offset(p, 11) == Offset(p, 10) + p[10].count == 36;
    WidthSplit(p, 11);
  }

  /** The class the pattern puts at each of its 36 positions. */
  lemma UuidPatternClasses(i: nat)
    requires i < 36
    ensures WidthFrom(UuidPattern, 0) == 36
    ensures ClassAt(UuidPattern, 0, i) ==
      if i == 8 || i == 13 || i == 18 || i == 23 then Hyphen
      else if i == 14 then Version
      else if i == 19 then Variant
      else Hex
  {
    var p := UuidPattern;
    UuidOffsets();
    if i < 8 {
      ClassAtDrop(p, 0, i);
    } else if i < 9 {
      ClassAtDrop(p, 1, i);
    } else if i < 13 {
      ClassAtDrop(p, 2, i);
    } else if i < 14 {
      ClassAtDrop(p, 3, i);
    } else if i < 15 {
      ClassAtDrop(p, 4, i);
    } else if i < 18 {
      ClassAtDrop(p, 5, i);
    } else if i < 19 {
      ClassAtDrop(p, 6, i);
    } else if i < 20 {
      ClassAtDrop(p, 7, i);
    } else if i < 23 {
      ClassAtDrop(p, 8, i);
    } else if i < 24 {
      ClassAtDrop(p, 9, i);
    } else {
      ClassAtDrop(p, 10, i);
    }
  }

  /** The regular expression accepts exactly the strings of the UUID layout. */
  lemma ValidUuidIff(s: string)
    ensures ValidUuid(s) <==> UuidLayout(s)
  {
    MatchesIff(UuidPattern, 0, s);
    UuidPatternClasses(0);
    forall i | 0 <= i < 36 && i < |s|
      ensures MatchesIgnoringCase(ClassAt(UuidPattern, 0, i), s[i]) <==> LayoutAt(i, s[i])
    {
      UuidPatternClasses(i);
    }
  }

  /** A well-formed UUID is accepted in lower case. */
  lemma LowerCaseUuidAccepted()
    ensures ValidUuid("123e4567-e89b-12d3-a456-426614174000")
  {
    var u := "123e4567-e89b-12d3-a456-426614174000";
    ValidUuidIff(u);
    assert forall i | 0 <= i < 36 :: LayoutAt(i, u[i]);
  }

  /** The same UUID is accepted in upper case. */
  lemma UpperCaseUuidAccepted()
    ensures ValidUuid("123E4567-E89B-12D3-A456-426614174000")
  {
    var u := "123E4567-E89B-12D3-A456-426614174000";
    ValidUuidIff(u);
    assert forall i | 0 <= i < 36 :: LayoutAt(i, u[i]);
  }

  /** Only versions 1 to 5 are accepted: a version-6 (or any other) digit at
      position 14 is rejected. */
  lemma VersionDigitChecked(s: string)
    requires |s| == 36 && !('1' <= s[14] <= '5')
    ensures !ValidUuid(s)
  {
    ValidUuidIff(s);
    assert !LayoutAt(14, s[14]);
  }

  /** Only the RFC 4122 variant is accepted: position 19 must be
      8, 9, a or b, in either case. */
  lemma VariantDigitChecked(s: string)
    requires |s| == 36 && s[19] !in "89abAB"
    ensures !ValidUuid(s)
  {
    ValidUuidIff(s);
    assert !LayoutAt(19, s[19]);
  }

  /** Text of any length but 36, such as "not-a-uuid", is rejected. */
  lemma WrongLengthRejected(s: string)
    requires |s| != 36
    ensures !ValidUuid(s)
  {
    ValidUuidIff(s);
  }
}
