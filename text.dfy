/**
 * The string operations of JavaScript that the dashboard relies on, on
 * `string` = `seq<char>`: `trim`, white-space removal, ASCII case
 * mapping, `split(' ')` / `join`, `padStart`, `startsWith`, number
 * printing (`toString`) and a strict reading of `parseInt(s, 10)`.
 */
module Text {

  import opened Seqs

  /**
   * White space as `String.prototype.trim` and the regular expression
   * class `\s` see it, restricted to the ASCII controls, the space, the
   * no-break space and the byte-order mark.
   */
  predicate IsSpace(c: char)
  {
    c == ' ' || c == '\t' || c == '\n' || c == '\r' || c == '\U{0B}' || c == '\U{0C}'
    || c == '\U{A0}' || c == '\U{FEFF}'
  }

  /** The number of white-space characters `s` starts with. */
  function LeadingSpaces(s: string): (n: nat)
    ensures n <= |s|
    ensures forall k :: 0 <= k < n ==> IsSpace(s[k])
    ensures n < |s| ==> !IsSpace(s[n])
  {
    if |s| > 0 && IsSpace(s[0]) then
      var n := 1 + LeadingSpaces(s[1..]);
      assert forall k :: 1 <= k < n ==> s[k] == s[1..][k - 1];
      n
    else 0
  }

  /** Where the trailing white space of `s` begins. */
  function ContentEnd(s: string): (n: nat)
    ensures n <= |s|
    ensures forall k :: n <= k < |s| ==> IsSpace(s[k])
    ensures n > 0 ==> !IsSpace(s[n - 1])
  {
    if |s| > 0 && IsSpace(s[|s| - 1]) then
      var n := ContentEnd(s[..|s| - 1]);
      assert forall k :: n <= k < |s| - 1 ==> s[k] == s[..|s| - 1][k];
      n
    else |s|
  }

  /** `s[i..j]` is `s` with white space, and only white space, cut from both ends. */
  predicate SpaceBounded(s: string, i: int, j: int)
  {
    && 0 <= i <= j <= |s|
    && (forall k :: 0 <= k < i ==> IsSpace(s[k]))
    && (forall k :: j <= k < |s| ==> IsSpace(s[k]))
  }

  /**
   * `s.trim()`: the slice `s[i..j]` left after cutting the white space
   * from both ends.
   */
  function Trim(s: string): (r: string)
    ensures exists i, j :: SpaceBounded(s, i, j) && r == s[i..j]
    ensures r == [] || (!IsSpace(r[0]) && !IsSpace(r[|r| - 1]))
  {
    var i := LeadingSpaces(s);
    var j := i + ContentEnd(s[i..]);
    TrimBounds(s);
    s[i..j]
  }

  /** The cut points of `Trim`: white space outside, none at either edge inside. */
  lemma TrimBounds(s: string)
    ensures var i := LeadingSpaces(s); var j := i + ContentEnd(s[i..]);
      && SpaceBounded(s, i, j)
      && (i < j ==> !IsSpace(s[i]) && !IsSpace(s[j - 1]))
  {
    var i := LeadingSpaces(s);
    var n := ContentEnd(s[i..]);
    SuffixSpaces(s, i, n);
    if 0 < n {
      SliceEdges(s, i, n);
    }
  }

  /** White space in a suffix of `s[i..]` is white space in `s`. */
  lemma SuffixSpaces(s: string, i: nat, n: nat)
    requires i + n <= |s|
    requires forall k :: n <= k < |s[i..]| ==> IsSpace(s[i..][k])
    ensures forall k :: i + n <= k < |s| ==> IsSpace(s[k])
  {
    forall k | i + n <= k < |s| ensures IsSpace(s[k]) {
      assert s[k] == s[i..][k - i];
    }
  }

  /** The first and last characters of `s[i..][..n]` are those of `s`. */
  lemma SliceEdges(s: string, i: nat, n: nat)
    requires 0 < n && i + n <= |s|
    ensures s[i..][0] == s[i] && s[i..][n - 1] == s[i + n - 1]
  {
  }

  /** A string trims to "" exactly when it consists of white space. */
  lemma TrimEmptyIff(s: string)
    ensures Trim(s) == [] <==> forall k :: 0 <= k < |s| ==> IsSpace(s[k])
  {
    var r := Trim(s);
    var i, j :| SpaceBounded(s, i, j) && r == s[i..j];
    assert r != [] ==> r[0] == s[i];
    if forall k :: 0 <= k < |s| ==> IsSpace(s[k]) {
      assert r == [];
    }
    if r == [] {
      assert i == j;
      forall k | 0 <= k < |s| ensures IsSpace(s[k]) { }
    }
  }

  /** Trimming twice is trimming once. */
  lemma TrimIdempotent(s: string)
    ensures Trim(Trim(s)) == Trim(s)
  {
    TrimNoSpace(Trim(s));
  }

  /** A string without white space at either end trims to itself. */
  lemma TrimNoSpace(s: string)
    requires s == [] || (!IsSpace(s[0]) && !IsSpace(s[|s| - 1]))
    ensures Trim(s) == s
  {
    var r := Trim(s);
    var i, j :| SpaceBounded(s, i, j) && r == s[i..j];
    if s != [] {
      assert i == 0;
      assert j == |s|;
    }
  }

  /** `s.replace(/\s/g, '')`: every white-space character removed. */
  function RemoveSpaces(s: string): (r: string)
  {
    Filter(s, (c: char) => !IsSpace(c))
  }

  /** Removing white space one more character at a time. */
  lemma RemoveSpacesSnoc(s: string, c: char)
    ensures RemoveSpaces(s + [c]) == RemoveSpaces(s) + (if IsSpace(c) then [] else [c])
  {
    assert (s + [c])[..|s|] == s;
  }

  /** `s.startsWith(prefix)`. */
  predicate StartsWith(s: string, prefix: string)
  {
    |prefix| <= |s| && s[..|prefix|] == prefix
  }

  /** `toUpperCase` on one character, for the ASCII letters. */
  function ToUpper(c: char): (u: char)
  {
    if 'a' <= c <= 'z' then (c as int - 32) as char else c
  }

  /** `toLowerCase` on one character, for the ASCII letters. */
  function ToLower(c: char): (l: char)
  {
    if 'A' <= c <= 'Z' then (c as int + 32) as char else c
  }

  /** `s.toLowerCase()`, for the ASCII letters. */
  function LowerCase(s: string): (r: string)
    ensures |r| == |s|
    ensures forall k :: 0 <= k < |s| ==> r[k] == ToLower(s[k])
  {
    seq(|s|, k requires 0 <= k < |s| => ToLower(s[k]))
  }

  /** Equality up to ASCII letter case (Postgres `ilike` without wildcards). */
  predicate EqualsIgnoreCase(a: string, b: string)
  {
    LowerCase(a) == LowerCase(b)
  }

  lemma ToUpperFacts(c: char)
    ensures ToUpper(ToUpper(c)) == ToUpper(c)
    ensures ToUpper(c) == ' ' <==> c == ' '
    ensures 'a' <= c <= 'z' ==> 'A' <= ToUpper(c) <= 'Z'
  {
  }

  /** `parts.join(sep)`. */
  function Join(parts: seq<string>, sep: string): string
  {
    if |parts| == 0 then ""
    else if |parts| == 1 then parts[0]
    else parts[0] + sep + Join(parts[1..], sep)
  }

  /** `s.split(' ')`: the pieces between single spaces (never empty). */
  function SplitSpaces(s: string): (parts: seq<string>)
    ensures |parts| >= 1
    ensures forall k :: 0 <= k < |parts| ==> ' ' !in parts[k]
  {
    if |s| == 0 then [""]
    else if s[0] == ' ' then [""] + SplitSpaces(s[1..])
    else
      var rest := SplitSpaces(s[1..]);
      [[s[0]] + rest[0]] + rest[1..]
  }

  /** Splitting on spaces and joining with spaces gives back the string. */
  lemma {:induction false} JoinSplitSpaces(s: string)
    ensures Join(SplitSpaces(s), " ") == s
  {
    if |s| > 0 {
      JoinSplitSpaces(s[1..]);
      var rest := SplitSpaces(s[1..]);
      if s[0] == ' ' {
        assert s == " " + s[1..];
      } else {
        var parts := [[s[0]] + rest[0]] + rest[1..];
        assert parts[1..] == rest[1..];
        if |rest| == 1 {
          assert s == [s[0]] + s[1..];
        } else {
          assert Join(rest, " ") == rest[0] + " " + Join(rest[1..], " ");
          assert s == [s[0]] + s[1..];
        }
      }
    }
  }

  /** "0".."9" for a single decimal digit. */
  function DigitChar(d: int): (c: char)
    requires 0 <= d <= 9
    ensures '0' <= c <= '9'
  {
    ('0' as int + d) as char
  }

  predicate IsDigit(c: char)
  {
    '0' <= c <= '9'
  }

  /** `n.toString()` for a natural number: its decimal digits, no leading zeros. */
  function NatToString(n: nat): (r: string)
    ensures |r| >= 1
    ensures forall k :: 0 <= k < |r| ==> IsDigit(r[k])
    ensures |r| > 1 ==> r[0] != '0'
    decreases n
  {
    if n < 10 then [DigitChar(n)] else NatToString(n / 10) + [DigitChar(n % 10)]
  }

  /** `n.toString()` for an integer. */
  function IntToString(n: int): (r: string)
  {
    if n < 0 then "-" + NatToString(-n) else NatToString(n)
  }

  /** The value of a string of decimal digits. */
  function DigitsValue(s: string): nat
    requires forall k :: 0 <= k < |s| ==> IsDigit(s[k])
  {
    if |s| == 0 then 0
    else
      assert IsDigit(s[|s| - 1]);
      DigitsValue(s[..|s| - 1]) * 10 + (s[|s| - 1] as int - '0' as int)
  }

  predicate AllDigits(s: string)
  {
    |s| >= 1 && forall k :: 0 <= k < |s| ==> IsDigit(s[k])
  }

  /**
   * `parseInt(s, 10)` read strictly: an optional sign followed by at
   * least one digit and nothing else; anything else is `NaN` (None).
   */
  function ParseInt(s: string): (r: Option<int>)
    ensures r.Some? <==> AllDigits(s) || (|s| >= 2 && (s[0] == '-' || s[0] == '+') && AllDigits(s[1..]))
    ensures r.Some? && s[0] != '-' ==> r.value >= 0
    ensures r.Some? && s[0] == '-' ==> r.value <= 0
  {
    if |s| >= 1 && (s[0] == '-' || s[0] == '+') then
      if AllDigits(s[1..]) then
        var v: int := DigitsValue(s[1..]);
        Some(if s[0] == '-' then -v else v)
      else None
    else if AllDigits(s) then Some(DigitsValue(s))
    else None
  }

  /** A string of digits parses to its value. */
  lemma ParseIntOfDigits(s: string)
    requires AllDigits(s)
    ensures ParseInt(s) == Some(DigitsValue(s))
  {
    assert IsDigit(s[0]);
  }

  /** A sign followed by digits parses to the value of the digits, negated for `-`. */
  lemma ParseIntSigned(s: string)
    requires |s| >= 2 && (s[0] == '-' || s[0] == '+') && AllDigits(s[1..])
    ensures ParseInt(s) == Some(if s[0] == '-' then -(DigitsValue(s[1..]) as int) else DigitsValue(s[1..]) as int)
  {
  }

  /** "-007" is -7 and "+12" is 12. */
  lemma ParseIntSignedExamples()
    ensures ParseInt("-007") == Some(-7)
    ensures ParseInt("+12") == Some(12)
  {
    assert "-007"[1..] == "007" && "007"[..2] == "00" && "00"[..1] == "0" && "0"[..0] == "";
    ParseIntSigned("-007");
    assert "+12"[1..] == "12" && "12"[..1] == "1" && "1"[..0] == "";
    ParseIntSigned("+12");
  }

  lemma {:induction false} DigitsValueOfNat(n: nat)
    ensures DigitsValue(NatToString(n)) == n
    decreases n
  {
    if n >= 10 {
      DigitsValueOfNat(n / 10);
      var r := NatToString(n);
      assert r[..|r| - 1] == NatToString(n / 10);
    }
  }

  /** Printing an integer and parsing it back gives the integer. */
  lemma ParseIntOfIntToString(n: int)
    ensures ParseInt(IntToString(n)) == Some(n)
  {
    if n < 0 {
      DigitsValueOfNat(-n);
      assert IntToString(n)[1..] == NatToString(-n);
    } else {
      DigitsValueOfNat(n);
      ParseIntOfDigits(NatToString(n));
    }
  }

  /** A JavaScript number as the handlers use it: a whole number or `NaN`. */
  datatype JsNumber = Num(value: int) | NaN

  /**
   * `Number(s)` on a text: white space alone is 0, an optionally signed
   * string of digits (white space around it allowed) is its value, and
   * anything else is `NaN`.
   */
  function ToNumber(s: string): (r: JsNumber)
    ensures r.Num? <==> Trim(s) == "" || ParseInt(Trim(s)).Some?
    ensures Trim(s) == "" ==> r == Num(0)
  {
    if Trim(s) == "" then Num(0)
    else match ParseInt(Trim(s))
      case Some(v) => Num(v)
      case None => NaN
  }

  /** A printed integer, with or without white space around it, is read back by `Number`. */
  lemma ToNumberOfIntToString(n: int, pre: string, post: string)
    requires forall k :: 0 <= k < |pre| ==> IsSpace(pre[k])
    requires forall k :: 0 <= k < |post| ==> IsSpace(post[k])
    ensures ToNumber(pre + IntToString(n) + post) == Num(n)
  {
    var t := IntToString(n);
    var s := pre + t + post;
    IntToStringEdges(n);
    assert SpaceBounded(s, |pre|, |pre| + |t|) by {
      forall k | 0 <= k < |pre| ensures IsSpace(s[k]) { assert s[k] == pre[k]; }
      forall k | |pre| + |t| <= k < |s| ensures IsSpace(s[k]) { assert s[k] == post[k - |pre| - |t|]; }
    }
    assert s[|pre|..|pre| + |t|] == t;
    TrimOfBounded(s, |pre|, |pre| + |t|);
    ParseIntOfIntToString(n);
  }

  /** A printed integer starts and ends with a character that is not white space. */
  lemma IntToStringEdges(n: int)
    ensures var t := IntToString(n); |t| >= 1 && !IsSpace(t[0]) && !IsSpace(t[|t| - 1])
  {
    if n < 0 {
      var u := NatToString(-n);
      assert IntToString(n)[|IntToString(n)| - 1] == u[|u| - 1];
    }
  }

  /** Cutting white space off both ends of a slice whose edges are not white space gives that slice. */
  lemma TrimOfBounded(s: string, i: int, j: int)
    requires SpaceBounded(s, i, j) && i < j && !IsSpace(s[i]) && !IsSpace(s[j - 1])
    ensures Trim(s) == s[i..j]
  {
    var r := Trim(s);
    var i', j' :| SpaceBounded(s, i', j') && r == s[i'..j'];
    if i' < i {
      assert false;
    }
    if i < i' {
      assert false;
    }
    if j' < j {
      assert false;
    }
    if j < j' {
      assert false;
    }
  }

  /** `s || null` for a text column: the empty string is stored as null. */
  function NullIfEmpty(s: string): (r: Option<string>)
    ensures r.None? <==> s == ""
    ensures r.Some? ==> r.value == s
  {
    if s == "" then None else Some(s)
  }

  /** `s.padStart(width, fill)`. */
  function PadStart(s: string, width: nat, fill: char): (r: string)
    ensures |r| == if |s| >= width then |s| else width
    ensures r[|r| - |s|..] == s
    ensures forall k :: 0 <= k < |r| - |s| ==> r[k] == fill
    decreases width - |s|
  {
    if |s| >= width then s else PadStart([fill] + s, width, fill)
  }

  /** `s.includes(sub)`. */
  predicate Contains(s: string, sub: string)
  {
    exists i :: 0 <= i <= |s| && StartsWith(s[i..], sub)
  }
}
