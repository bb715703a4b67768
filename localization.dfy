/**
 * The localization helpers the documents use: Cyrillic to Latin transliteration
 * (localization/scripts.go), the yes/no wording (localization/format.go), and `FormatDate` and
 * `JoinWithComma`, whose source is not part of this model and which are stated as their tests fix them.
 */
module Localization {
  import opened Bytes

  // ---------------------------------------------------------------------------------------------
  // Transliteration

  /** A Latin spelling of one Cyrillic letter: one letter, or two for Љ, Њ and Џ. */
  type Spelling = s: string | 1 <= |s| <= 2 witness "A"

  /** The 30 capitals of the Serbian Cyrillic alphabet and the 30 small letters, in alphabetical order. */
  const CAPITALS: string := "АБВГДЂЕЖЗИЈКЛЉМНЊОПРСТЋУФХЦЧЏШ"
  const SMALL: string := "абвгдђежзијклљмнњопрстћуфхцчџш"

  /** The table searched by `indexOfCyrillic`: capitals, then small letters. */
  const CYRILLIC: string := CAPITALS + SMALL

  /** The Latin spelling of each letter of `CYRILLIC`, at the same index. */
  const LATIN_CAPITALS: seq<Spelling> := [
    "A", "B", "V", "G", "D", "Đ", "E", "Ž", "Z", "I", "J", "K", "L", "Lj", "M",
    "N", "Nj", "O", "P", "R", "S", "T", "Ć", "U", "F", "H", "C", "Č", "Dž", "Š"
  ]
  const LATIN_SMALL: seq<Spelling> := [
    "a", "b", "v", "g", "d", "đ", "e", "ž", "z", "i", "j", "k", "l", "lj", "m",
    "n", "nj", "o", "p", "r", "s", "t", "ć", "u", "f", "h", "c", "č", "dž", "š"
  ]
  const LATIN: seq<Spelling> := LATIN_CAPITALS + LATIN_SMALL

  /** The capitals lie in U+0400..U+042F and the small letters in U+0430..U+045F, so no capital is a small letter. */
  lemma CodePoints()
    ensures |CAPITALS| == |SMALL| == |LATIN_CAPITALS| == |LATIN_SMALL| == 30
    ensures forall i :: 0 <= i < 30 ==> 0x400 <= CAPITALS[i] as int < 0x430
    ensures forall i :: 0 <= i < 30 ==> 0x430 <= SMALL[i] as int < 0x460
  {
  }

  /** No capital appears twice. */
  lemma CapitalsDistinct()
    ensures forall i, j :: 0 <= i < j < |CAPITALS| ==> CAPITALS[i] != CAPITALS[j]
  {
  }

  /** No small letter appears twice. */
  lemma SmallDistinct()
    ensures forall i, j :: 0 <= i < j < |SMALL| ==> SMALL[i] != SMALL[j]
  {
  }

  /** The table holds 60 different letters. */
  lemma CyrillicDistinct()
    ensures |CYRILLIC| == |LATIN| == 60
    ensures forall i, j :: 0 <= i < j < |CYRILLIC| ==> CYRILLIC[i] != CYRILLIC[j]
  {
    CodePoints();
    CapitalsDistinct();
    SmallDistinct();
    forall i, j | 0 <= i < j < |CYRILLIC|
      ensures CYRILLIC[i] != CYRILLIC[j]
    {
      if j < 30 {
        assert CYRILLIC[i] == CAPITALS[i] && CYRILLIC[j] == CAPITALS[j];
      } else if 30 <= i {
        assert CYRILLIC[i] == SMALL[i - 30] && CYRILLIC[j] == SMALL[j - 30];
      } else {
        assert CYRILLIC[i] == CAPITALS[i] && CYRILLIC[j] == SMALL[j - 30];
      }
    }
  }

  /** The index of the first rune of `table` from `k` on that is `r`, or -1. */
  function IndexFrom(table: string, r: char, k: nat): (i: int)
    requires k <= |table|
    ensures i == -1 || k <= i < |table|
    ensures i >= 0 ==> table[i] == r && forall j :: k <= j < i ==> table[j] != r
    ensures i == -1 <==> forall j :: k <= j < |table| ==> table[j] != r
    decreases |table| - k
  {
    if k == |table| then -1 else if table[k] == r then k else IndexFrom(table, r, k + 1)
  }

  /** The table index of a rune: the first index holding it, or -1 when it is not a Cyrillic letter. */
  function Find(r: char): (i: int)
    ensures i == -1 || 0 <= i < |CYRILLIC|
    ensures i >= 0 ==> CYRILLIC[i] == r && forall j :: 0 <= j < i ==> CYRILLIC[j] != r
    ensures i == -1 <==> r !in CYRILLIC
  {
    IndexFrom(CYRILLIC, r, 0)
  }

  /** `indexOfCyrillic(r)`: the linear search that returns at the first match. */
  method IndexOfCyrillic(r: char) returns (i: int)
    ensures i == Find(r)
  {
    for k := 0 to |CYRILLIC|
      invariant IndexFrom(CYRILLIC, r, k) == Find(r)
    {
      if CYRILLIC[k] == r {
        return k;
      }
    }
    return -1;
  }

  /** What one rune becomes: its Latin spelling if it is in the table, otherwise itself. */
  function Letter(r: char): string
  {
    var i := Find(r);
    if i >= 0 then LATIN[i] else [r]
  }

  /** The transliteration of a string, rune by rune, as the loop of `CyrillicToLatin` builds it. */
  function ToLatin(s: string): string
  {
    if s == [] then [] else ToLatin(s[..|s| - 1]) + Letter(s[|s| - 1])
  }

  /** `CyrillicToLatin(str)`: the loop appending the spelling of each rune. */
  method CyrillicToLatin(str: string) returns (out: string)
    ensures out == ToLatin(str)
  {
    out := "";
    for k := 0 to |str|
      invariant out == ToLatin(str[..k])
    {
      assert str[..k + 1][..k] == str[..k];
      var index := IndexOfCyrillic(str[k]);
      if index >= 0 {
        out := out + LATIN[index];
      } else {
        out := out + [str[k]];
      }
    }
    assert str[..|str|] == str;
  }

  /** Transliteration works rune by rune, so it distributes over concatenation. */
  lemma {:induction false} ToLatinAppend(a: string, b: string)
    ensures ToLatin(a + b) == ToLatin(a) + ToLatin(b)
    decreases |b|
  {
    if b == [] {
      assert a + b == a;
    } else {
      var b', c := b[..|b| - 1], b[|b| - 1];
      assert (a + b)[..|a + b| - 1] == a + b';
      assert (a + b)[|a + b| - 1] == c;
      ToLatinAppend(a, b');
      calc {
        ToLatin(a + b);
        ToLatin(a + b') + Letter(c);
        ToLatin(a) + ToLatin(b') + Letter(c);
        ToLatin(a) + (ToLatin(b') + Letter(c));
        ToLatin(a) + ToLatin(b);
      }
    }
  }

  /** A rune becomes one or two runes. */
  lemma LetterLength(r: char)
    ensures 1 <= |Letter(r)| <= 2
  {
  }

  /** The output has at least as many runes as the input and at most twice as many. */
  lemma {:induction false} ToLatinBounds(s: string)
    ensures |s| <= |ToLatin(s)| <= 2 * |s|
  {
    if s != [] {
      ToLatinBounds(s[..|s| - 1]);
      LetterLength(s[|s| - 1]);
    }
  }

  /** Text without Cyrillic letters is copied unchanged. */
  lemma {:induction false} ToLatinIdentity(s: string)
    requires forall i :: 0 <= i < |s| ==> s[i] !in CYRILLIC
    ensures ToLatin(s) == s
  {
    if s != [] {
      ToLatinIdentity(s[..|s| - 1]);
      assert s[..|s| - 1] + [s[|s| - 1]] == s;
    }
  }

  /** A capital is found at its own index and spelled as the Latin capital there. */
  lemma CapitalAt(i: nat)
    requires i < 30
    ensures Find(CAPITALS[i]) == i && Letter(CAPITALS[i]) == LATIN_CAPITALS[i]
  {
    CodePoints();
    CapitalsDistinct();
    var c := CAPITALS[i];
    assert CYRILLIC[i] == c;
    var k := Find(c);
    assert k <= i;
    assert CYRILLIC[k] == CAPITALS[k];
    assert LATIN[i] == LATIN_CAPITALS[i];
  }

  /** A small letter is found at its own index among the small letters and spelled as the Latin small letter there. */
  lemma SmallAt(i: nat)
    requires i < 30
    ensures Find(SMALL[i]) == 30 + i && Letter(SMALL[i]) == LATIN_SMALL[i]
  {
    CodePoints();
    SmallDistinct();
    var c := SMALL[i];
    assert CYRILLIC[30 + i] == c;
    var k := Find(c);
    assert k <= 30 + i;
    if k < 30 {
      assert false;
    }
    assert CYRILLIC[k] == SMALL[k - 30];
    assert LATIN[30 + i] == LATIN_SMALL[i];
  }

  /** Every letter of the table is found at its own index and spelled as the Latin entry there. */
  lemma TableLetters()
    ensures forall i :: 0 <= i < |CYRILLIC| ==> Find(CYRILLIC[i]) == i && Letter(CYRILLIC[i]) == LATIN[i]
  {
    CodePoints();
    forall i | 0 <= i < |CYRILLIC|
      ensures Find(CYRILLIC[i]) == i && Letter(CYRILLIC[i]) == LATIN[i]
    {
      if i < 30 {
        CapitalAt(i);
        assert CYRILLIC[i] == CAPITALS[i] && LATIN[i] == LATIN_CAPITALS[i];
      } else {
        SmallAt(i - 30);
        assert CYRILLIC[i] == SMALL[i - 30] && LATIN[i] == LATIN_SMALL[i - 30];
      }
    }
  }

  /** The spelling of a given capital, looked up at its index. */
  lemma CapitalSpelled(i: nat, c: char, l: string)
    requires i < 30 && CAPITALS[i] == c && LATIN_CAPITALS[i] == l
    ensures Letter(c) == l
  {
    CapitalAt(i);
  }

  /** The spelling of a given small letter, looked up at its index. */
  lemma SmallSpelled(i: nat, c: char, l: string)
    requires i < 30 && SMALL[i] == c && LATIN_SMALL[i] == l
    ensures Letter(c) == l
  {
    SmallAt(i);
  }

  /** Љ and љ are written with two Latin letters, the second small in both. */
  lemma DigraphLj()
    ensures Letter('Љ') == "Lj" && Letter('љ') == "lj"
  {
    CapitalSpelled(13, 'Љ', "Lj");
    SmallSpelled(13, 'љ', "lj");
  }

  /** Њ and њ are written with two Latin letters, the second small in both. */
  lemma DigraphNj()
    ensures Letter('Њ') == "Nj" && Letter('њ') == "nj"
  {
    CapitalSpelled(16, 'Њ', "Nj");
    SmallSpelled(16, 'њ', "nj");
  }

  /** Џ and џ are written with two Latin letters, the second small in both. */
  lemma DigraphDz()
    ensures Letter('Џ') == "Dž" && Letter('џ') == "dž"
  {
    CapitalSpelled(28, 'Џ', "Dž");
    SmallSpelled(28, 'џ', "dž");
  }

  /** Runes below U+0400, among them all of ASCII, are not Cyrillic letters. */
  lemma BelowCyrillic(r: char)
    requires (r as int) < 0x400
    ensures r !in CYRILLIC && Letter(r) == [r]
  {
    CodePoints();
    forall i | 0 <= i < |CYRILLIC|
      ensures CYRILLIC[i] != r
    {
      if i < 30 {
        assert CYRILLIC[i] == CAPITALS[i];
      } else {
        assert CYRILLIC[i] == SMALL[i - 30];
      }
    }
  }

  /** A single rune becomes its spelling. */
  lemma ToLatinSingle(r: char)
    ensures ToLatin([r]) == Letter(r)
  {
    assert [r][..0] == [];
  }

  /** Digits and the empty string pass through. */
  lemma ToLatinCases()
    ensures ToLatin("0123456789") == "0123456789"
    ensures ToLatin("") == ""
  {
    var digits := "0123456789";
    forall i | 0 <= i < |digits|
      ensures digits[i] !in CYRILLIC
    {
      BelowCyrillic(digits[i]);
    }
    ToLatinIdentity(digits);
  }

  // ---------------------------------------------------------------------------------------------
  // Yes / no

  /** The writing systems, numbered as the program numbers them; any other number is possible too. */
  type Script = int
  const LatinScript: Script := 0
  const CyrillicScript: Script := 1

  /** `FormatYesNo(a, script)`. */
  function FormatYesNo(a: bool, script: Script): string
  {
    if script == LatinScript then (if a then "Da" else "Ne")
    else (if a then "Да" else "Не")
  }

  /** The wording depends only on the answer and on whether the script is the Latin one; the two answers read differently. */
  lemma FormatYesNoMeaning(a: bool, b: bool, s: Script, t: Script)
    ensures (s == LatinScript) == (t == LatinScript) ==> FormatYesNo(a, s) == FormatYesNo(a, t)
    ensures FormatYesNo(a, s) == FormatYesNo(b, s) <==> a == b
  {
  }

  /** The test vectors, including the out-of-range scripts 10 and 155. */
  lemma FormatYesNoCases()
    ensures FormatYesNo(true, LatinScript) == "Da" && FormatYesNo(false, LatinScript) == "Ne"
    ensures FormatYesNo(true, CyrillicScript) == "Да" && FormatYesNo(false, CyrillicScript) == "Не"
    ensures FormatYesNo(true, 10) == "Да" && FormatYesNo(false, 155) == "Не"
  {
  }

  // ---------------------------------------------------------------------------------------------
  // Dates

  /** The date the cards store when none is known, and the words shown for it. */
  const NO_DATE: Bytes := [0x30, 0x31, 0x30, 0x31, 0x30, 0x30, 0x30, 0x30]  // "01010000"
  const NOT_AVAILABLE: Bytes := [0x4E, 0x69, 0x6A, 0x65, 0x20, 0x64, 0x6F, 0x73, 0x74, 0x75, 0x70, 0x61, 0x6E]  // "Nije dostupan"
  const DOT: byte := 0x2E

  /** `FormatDate(&date)`: an eight-digit DDMMYYYY date becomes DD.MM.YYYY., the unknown date a phrase; anything else is left as it is. */
  function FormatDate(date: Bytes): Bytes
  {
    if |date| != 8 then date
    else if date == NO_DATE then NOT_AVAILABLE
    else date[0..2] + [DOT] + date[2..4] + [DOT] + date[4..8] + [DOT]
  }

  /** The digits of a formatted date, dots dropped. */
  function UnformatDate(shown: Bytes): Bytes
    requires |shown| == 11
  {
    shown[0..2] + shown[3..5] + shown[6..10]
  }

  /** A known eight-byte date is shown with a dot after day, month and year, and its digits read back; other input is kept. */
  lemma FormatDateRoundTrip(date: Bytes)
    ensures |date| != 8 ==> FormatDate(date) == date
    ensures |date| == 8 && date != NO_DATE ==>
              && |FormatDate(date)| == 11
              && FormatDate(date)[2] == DOT && FormatDate(date)[5] == DOT && FormatDate(date)[10] == DOT
              && UnformatDate(FormatDate(date)) == date
  {
    if |date| == 8 && date != NO_DATE {
      var shown := FormatDate(date);
      assert shown[0..2] == date[0..2] && shown[3..5] == date[2..4] && shown[6..10] == date[4..8];
      assert date[0..2] + date[2..4] + date[4..8] == date;
    }
  }

  /** The test vectors of `Test_FormatDate`. */
  lemma FormatDateCases()
    // "23051987" is shown as "23.05.1987."
    ensures FormatDate([0x32, 0x33, 0x30, 0x35, 0x31, 0x39, 0x38, 0x37])
         == [0x32, 0x33, 0x2E, 0x30, 0x35, 0x2E, 0x31, 0x39, 0x38, 0x37, 0x2E]
    // "01010000" is shown as "Nije dostupan"; "123" and "" are kept
    ensures FormatDate([0x30, 0x31, 0x30, 0x31, 0x30, 0x30, 0x30, 0x30]) == NOT_AVAILABLE
    ensures FormatDate([0x31, 0x32, 0x33]) == [0x31, 0x32, 0x33]
    ensures FormatDate([]) == []
  {
  }

  // ---------------------------------------------------------------------------------------------
  // Joining

  const COMMA_SPACE: Bytes := [0x2C, 0x20]

  /** The parts that are not empty, in order. */
  function NonEmpty(parts: seq<Bytes>): (r: seq<Bytes>)
    ensures forall i :: 0 <= i < |r| ==> r[i] != []
    ensures |r| <= |parts|
  {
    if parts == [] then []
    else if parts[0] == [] then NonEmpty(parts[1..])
    else [parts[0]] + NonEmpty(parts[1..])
  }

  /** Parts written one after the other with ", " between each two. */
  function Join(parts: seq<Bytes>): Bytes
  {
    if parts == [] then []
    else if |parts| == 1 then parts[0]
    else parts[0] + COMMA_SPACE + Join(parts[1..])
  }

  /** `localization.JoinWithComma(parts...)`: the non-empty parts joined with ", ". */
  function JoinWithComma(parts: seq<Bytes>): Bytes
  {
    Join(NonEmpty(parts))
  }

  /** The sum of the lengths of some parts. */
  function TotalLength(parts: seq<Bytes>): nat
  {
    if parts == [] then 0 else |parts[0]| + TotalLength(parts[1..])
  }

  /** The join holds each part and one separator between each two. */
  lemma {:induction false} JoinLength(parts: seq<Bytes>)
    requires parts != []
    ensures |Join(parts)| == TotalLength(parts) + 2 * (|parts| - 1)
  {
    if |parts| > 1 {
      JoinLength(parts[1..]);
    }
  }

  /** Dropping the empty parts loses no bytes. */
  lemma {:induction false} NonEmptyLength(parts: seq<Bytes>)
    ensures TotalLength(NonEmpty(parts)) == TotalLength(parts)
  {
    if parts != [] {
      NonEmptyLength(parts[1..]);
    }
  }

  /** The join is empty exactly when every part is. */
  lemma {:induction false} JoinEmpty(parts: seq<Bytes>)
    ensures JoinWithComma(parts) == [] <==> forall i :: 0 <= i < |parts| ==> parts[i] == []
  {
    NonEmptyLength(parts);
    AllEmpty(parts);
    var ne := NonEmpty(parts);
    if ne != [] {
      JoinLength(ne);
      assert |ne[0]| > 0;
      assert TotalLength(ne) > 0;
    }
  }

  /** Every part is empty exactly when the parts hold no bytes at all. */
  lemma {:induction false} AllEmpty(parts: seq<Bytes>)
    ensures TotalLength(parts) == 0 <==> forall i :: 0 <= i < |parts| ==> parts[i] == []
  {
    if parts != [] {
      AllEmpty(parts[1..]);
      assert forall i :: 1 <= i < |parts| ==> parts[i] == parts[1..][i - 1];
    }
  }

  /** An empty part anywhere is skipped: no doubled separator, no separator at an end. */
  lemma {:induction false} NonEmptySkips(a: seq<Bytes>, b: seq<Bytes>)
    ensures NonEmpty(a + [[]] + b) == NonEmpty(a + b)
  {
    if a == [] {
      assert a + [[]] + b == [[]] + b;
      assert ([[]] + b)[1..] == b;
      assert a + b == b;
    } else {
      assert (a + [[]] + b)[1..] == a[1..] + [[]] + b;
      assert (a + b)[1..] == a[1..] + b;
      NonEmptySkips(a[1..], b);
    }
  }

  /** `JoinWithComma` of parts with one more empty part is the same. */
  lemma JoinSkipsEmpty(a: seq<Bytes>, b: seq<Bytes>)
    ensures JoinWithComma(a + [[]] + b) == JoinWithComma(a + b)
  {
    NonEmptySkips(a, b);
  }

  /** Filtering distributes over concatenation. */
  lemma {:induction false} NonEmptyAppend(a: seq<Bytes>, b: seq<Bytes>)
    ensures NonEmpty(a + b) == NonEmpty(a) + NonEmpty(b)
  {
    if a == [] {
      assert a + b == b;
    } else {
      assert (a + b)[1..] == a[1..] + b;
      NonEmptyAppend(a[1..], b);
    }
  }

  /** Only empty parts leave nothing. */
  lemma {:induction false} NonEmptyNone(parts: seq<Bytes>)
    requires forall i :: 0 <= i < |parts| ==> parts[i] == []
    ensures NonEmpty(parts) == []
  {
    if parts != [] {
      NonEmptyNone(parts[1..]);
    }
  }

  /** One part among empty ones is the whole join, with no separator. */
  lemma JoinSingle(before: seq<Bytes>, p: Bytes, after: seq<Bytes>)
    requires forall i :: 0 <= i < |before| ==> before[i] == []
    requires forall i :: 0 <= i < |after| ==> after[i] == []
    ensures JoinWithComma(before + [p] + after) == p
  {
    NonEmptyAppend(before + [p], after);
    NonEmptyAppend(before, [p]);
    NonEmptyNone(before);
    NonEmptyNone(after);
    assert NonEmpty([p]) == if p == [] then [] else [p];
  }

  /** Two parts, neither empty, are joined with one separator. */
  lemma JoinTwo(a: Bytes, b: Bytes)
    requires a != [] && b != []
    ensures JoinWithComma([a, b]) == a + COMMA_SPACE + b
  {
    assert [a, b][1..] == [b] && [b][1..] == [];
    assert NonEmpty([b]) == [b];
    assert NonEmpty([a, b]) == [a, b];
    assert Join([a, b]) == a + COMMA_SPACE + Join([b]);
  }

  /** A non-empty first part opens the join. */
  lemma JoinStarts(parts: seq<Bytes>)
    requires parts != [] && parts[0] != []
    ensures |JoinWithComma(parts)| >= |parts[0]| && JoinWithComma(parts)[..|parts[0]|] == parts[0]
  {
    var ne := NonEmpty(parts);
    assert ne == [parts[0]] + NonEmpty(parts[1..]);
    if |ne| > 1 {
      assert Join(ne) == ne[0] + COMMA_SPACE + Join(ne[1..]);
    }
  }

  /** The last part of a join of non-empty parts. */
  lemma {:induction false} JoinEndsLast(parts: seq<Bytes>)
    requires parts != []
    ensures |Join(parts)| >= |parts[|parts| - 1]|
    ensures Join(parts)[|Join(parts)| - |parts[|parts| - 1]|..] == parts[|parts| - 1]
  {
    if |parts| > 1 {
      JoinEndsLast(parts[1..]);
    }
  }

  /** The last non-empty part survives filtering, as the last part. */
  lemma {:induction false} NonEmptyLast(parts: seq<Bytes>)
    requires parts != [] && parts[|parts| - 1] != []
    ensures NonEmpty(parts) != [] && NonEmpty(parts)[|NonEmpty(parts)| - 1] == parts[|parts| - 1]
  {
    if |parts| > 1 {
      NonEmptyLast(parts[1..]);
    }
  }

  /** A non-empty last part closes the join. */
  lemma JoinEnds(parts: seq<Bytes>)
    requires parts != [] && parts[|parts| - 1] != []
    ensures var j := JoinWithComma(parts); var last := parts[|parts| - 1];
            |j| >= |last| && j[|j| - |last|..] == last
  {
    NonEmptyLast(parts);
    JoinEndsLast(NonEmpty(parts));
  }

  /** Three parts, none empty, are joined with two separators. */
  lemma JoinThree(a: Bytes, b: Bytes, c: Bytes)
    requires a != [] && b != [] && c != []
    ensures JoinWithComma([a, b, c]) == a + COMMA_SPACE + b + COMMA_SPACE + c
  {
    assert [a, b, c][1..] == [b, c] && [b, c][1..] == [c] && [c][1..] == [];
    assert NonEmpty([c]) == [c];
    assert NonEmpty([b, c]) == [b, c];
    assert NonEmpty([a, b, c]) == [a, b, c];
    assert Join([b, c]) == b + COMMA_SPACE + c;
  }
}
