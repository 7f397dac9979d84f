/**
 * Small string helpers shared by the pages: `capitalize`, the current
 * period string `YYYY-MM`, and the ordinal suffix of a day of the month.
 * Upper-casing is ASCII only.
 */
module Utils {

  import opened Seqs
  import opened Text

  /** `word.charAt(0).toUpperCase() + word.slice(1)`. */
  function CapitalizeWord(w: string): (r: string)
    ensures |r| == |w|
    ensures |w| > 0 ==> r[0] == ToUpper(w[0]) && r[1..] == w[1..]
  {
    if |w| == 0 then "" else [ToUpper(w[0])] + w[1..]
  }

  /** `.map(capitalizeWord)` over the words. */
  function CapitalizeWords(ws: seq<string>): (r: seq<string>)
    ensures |r| == |ws|
    ensures forall k :: 0 <= k < |ws| ==> r[k] == CapitalizeWord(ws[k])
  {
    seq(|ws|, k requires 0 <= k < |ws| => CapitalizeWord(ws[k]))
  }

  /** `capitalize`: nothing for a missing or empty text, else split on spaces, capitalise each word, rejoin. */
  function Capitalize(text: Option<string>): (r: string)
    ensures text.None? || text.value == "" ==> r == ""
  {
    if text.None? || text.value == "" then ""
    else Join(CapitalizeWords(SplitSpaces(text.value)), " ")
  }

  /**
   * The same result character by character: a character is upper-cased
   * exactly when it starts the text (if `first`) or follows a space.
   */
  function UpperAfterSpaces(s: string, first: bool): (r: string)
    ensures |r| == |s|
  {
    seq(|s|, k requires 0 <= k < |s| =>
      if (k == 0 && first) || (k > 0 && s[k - 1] == ' ') then ToUpper(s[k]) else s[k])
  }

  lemma JoinConsChar(c: char, w: string, ws: seq<string>, sep: string)
    ensures Join([[c] + w] + ws, sep) == [c] + Join([w] + ws, sep)
  {
    if |ws| > 0 {
      assert ([[c] + w] + ws)[1..] == ws;
      assert ([w] + ws)[1..] == ws;
    }
  }

  /** The words capitalised, the first one only if `first`, and rejoined. */
  function CapJoinParts(parts: seq<string>, first: bool): string
    requires |parts| >= 1
  {
    Join([if first then CapitalizeWord(parts[0]) else parts[0]] + CapitalizeWords(parts[1..]), " ")
  }

  /** The words of `s` capitalised, the first one only if `first`, and rejoined. */
  function CapJoin(s: string, first: bool): string
  {
    CapJoinParts(SplitSpaces(s), first)
  }

  /** An empty first word puts a space in front and capitalises the next word. */
  lemma CapJoinPartsEmpty(rest: seq<string>, first: bool)
    requires |rest| >= 1
    ensures CapJoinParts([""] + rest, first) == " " + CapJoinParts(rest, true)
  {
    var parts := [""] + rest;
    assert parts[0] == "" && parts[1..] == rest;
    var capped := CapitalizeWords(rest);
    assert capped == [CapitalizeWord(rest[0])] + CapitalizeWords(rest[1..]);
    assert ([""] + capped)[1..] == capped;
  }

  /** A character in front of the first word stays in front, upper-cased if `first`. */
  lemma CapJoinPartsChar(c0: char, rest: seq<string>, first: bool)
    requires |rest| >= 1
    ensures CapJoinParts([[c0] + rest[0]] + rest[1..], first) == [if first then ToUpper(c0) else c0] + CapJoinParts(rest, false)
  {
    var parts := [[c0] + rest[0]] + rest[1..];
    assert parts[1..] == rest[1..];
    var c := if first then ToUpper(c0) else c0;
    assert (if first then CapitalizeWord(parts[0]) else parts[0]) == [c] + rest[0];
    JoinConsChar(c, rest[0], CapitalizeWords(rest[1..]), " ");
  }

  /** `CapJoin` takes the string one character at a time. */
  lemma CapJoinCons(s: string, first: bool)
    requires |s| > 0
    ensures CapJoin(s, first) == [if first then ToUpper(s[0]) else s[0]] + CapJoin(s[1..], s[0] == ' ')
  {
    var rest := SplitSpaces(s[1..]);
    if s[0] == ' ' {
      assert SplitSpaces(s) == [""] + rest;
      CapJoinPartsEmpty(rest, first);
      ToUpperFacts(' ');
    } else {
      assert SplitSpaces(s) == [[s[0]] + rest[0]] + rest[1..];
      CapJoinPartsChar(s[0], rest, first);
    }
  }

  /** `UpperAfterSpaces` takes the string one character at a time. */
  lemma UpperAfterSpacesCons(s: string, first: bool)
    requires |s| > 0
    ensures UpperAfterSpaces(s, first) == [if first then ToUpper(s[0]) else s[0]] + UpperAfterSpaces(s[1..], s[0] == ' ')
  {
  }

  /**
   * Splitting, capitalising every word but maybe the first, and rejoining
   * is `UpperAfterSpaces`.
   */
  lemma {:induction false} SplitCapitalizeJoin(s: string, first: bool)
    ensures CapJoin(s, first) == UpperAfterSpaces(s, first)
  {
    if |s| == 0 {
      assert SplitSpaces(s) == [""];
    } else {
      SplitCapitalizeJoin(s[1..], s[0] == ' ');
      CapJoinCons(s, first);
      UpperAfterSpacesCons(s, first);
    }
  }

  /** `capitalize` upper-cases exactly the first character and every character after a space. */
  lemma CapitalizeCharwise(s: string)
    requires s != ""
    ensures Capitalize(Some(s)) == UpperAfterSpaces(s, true)
  {
    var parts := SplitSpaces(s);
    SplitCapitalizeJoin(s, true);
    assert CapitalizeWords(parts) == [CapitalizeWord(parts[0])] + CapitalizeWords(parts[1..]);
  }

  /**
   * `capitalize` keeps the length and every space, and changes a character
   * only where a word starts, to its upper case.
   */
  lemma CapitalizeShape(s: string)
    ensures |Capitalize(Some(s))| == |s|
    ensures forall k :: 0 <= k < |s| ==> (Capitalize(Some(s))[k] == ' ' <==> s[k] == ' ')
    ensures forall k :: 0 <= k < |s| && k > 0 && s[k - 1] != ' ' ==> Capitalize(Some(s))[k] == s[k]
    ensures forall k :: 0 <= k < |s| && (k == 0 || s[k - 1] == ' ') ==> Capitalize(Some(s))[k] == ToUpper(s[k])
  {
    if s != "" {
      CapitalizeCharwise(s);
      forall c: char {
        ToUpperFacts(c);
      }
    }
  }

  /** Capitalising twice is capitalising once. */
  lemma CapitalizeIdempotent(s: string)
    ensures Capitalize(Some(Capitalize(Some(s)))) == Capitalize(Some(s))
  {
    if s != "" {
      var r := Capitalize(Some(s));
      CapitalizeCharwise(s);
      assert |r| == |s|;
      CapitalizeCharwise(r);
      UpperAfterSpacesIdempotent(s, true);
    }
  }

  /** Upper-casing after spaces a second time changes nothing. */
  lemma UpperAfterSpacesIdempotent(s: string, first: bool)
    ensures UpperAfterSpaces(UpperAfterSpaces(s, first), first) == UpperAfterSpaces(s, first)
  {
    var r := UpperAfterSpaces(s, first);
    var r2 := UpperAfterSpaces(r, first);
    forall k | 0 <= k < |s| ensures r2[k] == r[k] {
      ToUpperFacts(s[k]);
      if k > 0 {
        ToUpperFacts(s[k - 1]);
      }
    }
  }

  /** `a % b` as JavaScript computes it: the sign follows `a`. */
  function TruncRem(a: int, b: int): (r: int)
    requires b > 0
    ensures -b < r < b
    ensures a >= 0 ==> r == a % b
  {
    if a >= 0 then a % b else -((-a) % b)
  }

  /** `getDaySuffix`: "th" for 11 to 13, else by the last digit. */
  function DaySuffix(day: int): (s: string)
    ensures s in {"st", "nd", "rd", "th"}
  {
    if 11 <= day <= 13 then "th"
    else match TruncRem(day, 10)
      case 1 => "st"
      case 2 => "nd"
      case 3 => "rd"
      case _ => "th"
  }

  /** On the days of a month the suffixes are the English ordinals. */
  lemma DaySuffixOrdinal(day: int)
    requires 1 <= day <= 31
    ensures DaySuffix(day) == "st" <==> day == 1 || day == 21 || day == 31
    ensures DaySuffix(day) == "nd" <==> day == 2 || day == 22
    ensures DaySuffix(day) == "rd" <==> day == 3 || day == 23
    ensures DaySuffix(day) == "th" <==> !(day in {1, 21, 31, 2, 22, 3, 23})
  {
  }

  /** `getCurrentPeriod` for a year and a month numbered 1 to 12: `YYYY-MM`. */
  function PeriodString(year: int, month: int): (r: string)
  {
    IntToString(year) + "-" + PadStart(IntToString(month), 2, '0')
  }

  lemma {:induction false} NatToStringLength4(n: nat)
    requires 1000 <= n <= 9999
    ensures |NatToString(n)| == 4
  {
    assert NatToString(n) == NatToString(n / 10) + [DigitChar(n % 10)];
    assert NatToString(n / 10) == NatToString(n / 100) + [DigitChar((n / 10) % 10)];
    assert NatToString(n / 100) == NatToString(n / 1000) + [DigitChar((n / 100) % 10)];
  }

  /** A single digit is padded with one zero and still reads as that digit. */
  lemma PadOneDigit(d: char)
    requires IsDigit(d)
    ensures PadStart([d], 2, '0') == ['0', d]
    ensures ParseInt(['0', d]) == Some(d as int - '0' as int)
  {
    assert PadStart([d], 2, '0') == PadStart(['0', d], 2, '0');
    assert ['0', d][..1] == ['0'];
    assert ['0'][..0] == [];
    assert DigitsValue(['0', d]) == d as int - '0' as int;
    assert AllDigits(['0', d]);
    ParseIntOfDigits(['0', d]);
  }

  /** A number from 10 to 99 prints as two digits. */
  lemma TwoDigits(n: int)
    requires 10 <= n <= 99
    ensures |IntToString(n)| == 2
  {
    assert NatToString(n) == NatToString(n / 10) + [DigitChar(n % 10)];
  }

  /** The month, padded to two digits, is two characters and reads back as the month. */
  lemma PaddedMonth(month: int)
    requires 1 <= month <= 12
    ensures |PadStart(IntToString(month), 2, '0')| == 2
    ensures ParseInt(PadStart(IntToString(month), 2, '0')) == Some(month)
  {
    if month < 10 {
      PaddedSingleDigit(month);
    } else {
      TwoDigits(month);
      ParseIntOfIntToString(month);
    }
  }

  lemma PaddedSingleDigit(n: int)
    requires 0 <= n <= 9
    ensures PadStart(IntToString(n), 2, '0') == ['0', DigitChar(n)]
    ensures ParseInt(['0', DigitChar(n)]) == Some(n)
  {
    assert IntToString(n) == [DigitChar(n)];
    PadOneDigit(DigitChar(n));
  }

  /**
   * For a four-digit year and a month 1 to 12 the period is seven
   * characters, `-` in the middle, and the two numbers read back from it.
   */
  lemma PeriodStringRoundTrip(year: int, month: int)
    requires 1000 <= year <= 9999 && 1 <= month <= 12
    ensures var r := PeriodString(year, month);
      && |r| == 7 && r[4] == '-'
      && ParseInt(r[..4]) == Some(year)
      && ParseInt(r[5..]) == Some(month)
  {
    NatToStringLength4(year);
    ParseIntOfIntToString(year);
    PaddedMonth(month);
    DashJoined(IntToString(year), PadStart(IntToString(month), 2, '0'));
  }

  /** Four characters, a dash and two more come apart again at the dash. */
  lemma DashJoined(y: string, m: string)
    requires |y| == 4 && |m| == 2
    ensures var r := y + "-" + m; |r| == 7 && r[4] == '-' && r[..4] == y && r[5..] == m
  {
  }
}
