/** The pieces of Go's `strings`, `unicode` and `strconv` packages that the
    connection-string parser and the version string use, written out. */
module Strings {
  import opened Base

  /** `unicode.IsSpace`: the Latin-1 spaces and the other White_Space code points. */
  predicate IsSpace(c: char) {
    c == ' ' || c == '\t' || c == '\n' || c == '\U{000B}' || c == '\U{000C}' || c == '\r'
    || c == '\U{0085}' || c == '\U{00A0}' || c == '\U{1680}'
    || ('\U{2000}' <= c <= '\U{200A}')
    || c == '\U{2028}' || c == '\U{2029}' || c == '\U{202F}' || c == '\U{205F}' || c == '\U{3000}'
  }

  predicate NoSpace(s: string) {
    forall i :: 0 <= i < |s| ==> !IsSpace(s[i])
  }

  /** Length of the leading run of non-space characters. */
  function WordLen(s: string): (n: nat)
    ensures n <= |s|
    ensures NoSpace(s[..n])
    ensures n < |s| ==> IsSpace(s[n])
  {
    if s == [] || IsSpace(s[0]) then 0 else 1 + WordLen(s[1..])
  }

  /** `strings.Fields`: the maximal runs of non-space characters, in order. */
  function Fields(s: string): (r: seq<string>)
    ensures forall i :: 0 <= i < |r| ==> |r[i]| > 0 && NoSpace(r[i])
    decreases |s|
  {
    if s == [] then []
    else if IsSpace(s[0]) then Fields(s[1..])
    else
      var n := WordLen(s);
      [s[..n]] + Fields(s[n..])
  }

  /** `words` separated by single spaces. */
  function Unwords(words: seq<string>): string {
    if words == [] then ""
    else if |words| == 1 then words[0]
    else words[0] + " " + Unwords(words[1..])
  }

  lemma {:induction false} WordLenOfWord(w: string)
    requires NoSpace(w)
    ensures WordLen(w) == |w|
    decreases |w|
  {
    if |w| > 0 {
      WordLenOfWord(w[1..]);
    }
  }

  /** A space ends the first word at the latest. */
  lemma {:induction false} WordLenAppend(a: string, b: string)
    ensures WordLen(a + " " + b) == WordLen(a)
    decreases |a|
  {
    var s := a + " " + b;
    if a == [] {
      assert s[0] == ' ';
    } else {
      assert s[0] == a[0];
      assert s[1..] == a[1..] + " " + b;
      WordLenAppend(a[1..], b);
    }
  }

  /** The fields of two texts joined by a space are the fields of the one
      followed by the fields of the other. */
  lemma {:induction false} FieldsAppend(a: string, b: string)
    ensures Fields(a + " " + b) == Fields(a) + Fields(b)
    decreases |a|
  {
    var s := a + " " + b;
    if a == [] {
      assert s == " " + b && s[1..] == b;
    } else if IsSpace(a[0]) {
      assert s[0] == a[0];
      assert s[1..] == a[1..] + " " + b;
      FieldsAppend(a[1..], b);
    } else {
      assert s[0] == a[0];
      var n := WordLen(a);
      WordLenAppend(a, b);
      assert s[..n] == a[..n];
      assert s[n..] == a[n..] + " " + b;
      FieldsAppend(a[n..], b);
    }
  }

  /** A single word is its only field. */
  lemma FieldsWord(w: string)
    requires |w| > 0 && NoSpace(w)
    ensures Fields(w) == [w]
  {
    WordLenOfWord(w);
    assert w[..|w|] == w && w[|w|..] == [];
  }

  /** Reading words separated by single spaces back with Fields gives back
      the words. */
  lemma {:induction false} FieldsUnwords(words: seq<string>)
    requires forall i :: 0 <= i < |words| ==> |words[i]| > 0 && NoSpace(words[i])
    ensures Fields(Unwords(words)) == words
  {
    if |words| == 1 {
      FieldsWord(words[0]);
    } else if |words| > 1 {
      FieldsWord(words[0]);
      FieldsAppend(words[0], Unwords(words[1..]));
      FieldsUnwords(words[1..]);
      assert words == [words[0]] + words[1..];
    }
  }

  /** `strings.Split(s, string(sep))`: the pieces between the separators;
      the empty string is one empty piece. */
  function Split(s: string, sep: char): (r: seq<string>)
    ensures |r| >= 1
    decreases |s|
  {
    if s == [] then [""]
    else
      var r := Split(s[1..], sep);
      if s[0] == sep then [""] + r else [[s[0]] + r[0]] + r[1..]
  }

  /** A string without the separator is one piece. */
  lemma {:induction false} SplitWhole(s: string, sep: char)
    requires sep !in s
    ensures Split(s, sep) == [s]
    decreases |s|
  {
    if s != [] {
      SplitWhole(s[1..], sep);
      assert [s[0]] + s[1..] == s;
    }
  }

  /** A piece without the separator, the separator and the rest split into
      that piece and the pieces of the rest. */
  lemma {:induction false} SplitCons(a: string, rest: string, sep: char)
    requires sep !in a
    ensures Split(a + [sep] + rest, sep) == [a] + Split(rest, sep)
    decreases |a|
  {
    var s := a + [sep] + rest;
    if a == [] {
      assert s[0] == sep && s[1..] == rest;
    } else {
      assert s[0] == a[0];
      assert s[1..] == a[1..] + [sep] + rest;
      SplitCons(a[1..], rest, sep);
      assert [a[0]] + a[1..] == a;
    }
  }

  /** No piece of a split holds the separator. */
  lemma {:induction false} SplitPartsLackSeparator(s: string, sep: char)
    ensures forall i :: 0 <= i < |Split(s, sep)| ==> sep !in Split(s, sep)[i]
    decreases |s|
  {
    if s != [] {
      SplitPartsLackSeparator(s[1..], sep);
      var r := Split(s[1..], sep);
      if s[0] != sep {
        assert sep !in r[0];
        assert forall i :: 1 <= i < |r| ==> sep !in r[i];
        var q := [[s[0]] + r[0]] + r[1..];
        assert forall i :: 1 <= i < |q| ==> q[i] == r[i];
      }
    }
  }

  /** `strings.Join(parts, string(sep))`. */
  function Join(parts: seq<string>, sep: char): string
    requires |parts| >= 1
  {
    if |parts| == 1 then parts[0] else parts[0] + [sep] + Join(parts[1..], sep)
  }

  lemma {:induction false} JoinExtendHead(c: char, r: seq<string>, sep: char)
    requires |r| >= 1
    ensures Join([[c] + r[0]] + r[1..], sep) == [c] + Join(r, sep)
  {
    var q := [[c] + r[0]] + r[1..];
    assert q[1..] == r[1..];
  }

  lemma {:induction false} JoinSplit(s: string, sep: char)
    ensures Join(Split(s, sep), sep) == s
    decreases |s|
  {
    if s != [] {
      var r := Split(s[1..], sep);
      JoinSplit(s[1..], sep);
      if s[0] == sep {
        assert ([""] + r)[1..] == r;
      } else {
        JoinExtendHead(s[0], r, sep);
      }
      assert [s[0]] + s[1..] == s;
    }
  }

  lemma {:induction false} SplitJoin(parts: seq<string>, sep: char)
    requires |parts| >= 1
    requires forall i :: 0 <= i < |parts| ==> sep !in parts[i]
    ensures Split(Join(parts, sep), sep) == parts
  {
    if |parts| == 1 {
      SplitWhole(parts[0], sep);
    } else {
      SplitJoin(parts[1..], sep);
      SplitCons(parts[0], Join(parts[1..], sep), sep);
      assert parts == [parts[0]] + parts[1..];
    }
  }

  /** The first piece is the longest prefix without the separator. */
  lemma {:induction false} SplitHead(s: string, sep: char)
    ensures |Split(s, sep)[0]| <= |s| && Split(s, sep)[0] == s[..|Split(s, sep)[0]|]
    ensures sep !in Split(s, sep)[0]
    ensures |Split(s, sep)[0]| < |s| ==> s[|Split(s, sep)[0]|] == sep
    ensures sep !in s ==> Split(s, sep)[0] == s
    decreases |s|
  {
    if s != [] {
      SplitHead(s[1..], sep);
    }
  }

  /** Number of leading white-space characters. */
  function LeadingSpaces(s: string): (n: nat)
    ensures n <= |s|
    ensures forall k :: 0 <= k < n ==> IsSpace(s[k])
    ensures n < |s| ==> !IsSpace(s[n])
  {
    if s == [] || !IsSpace(s[0]) then 0 else 1 + LeadingSpaces(s[1..])
  }

  /** Number of trailing white-space characters. */
  function TrailingSpaces(s: string): (n: nat)
    ensures n <= |s|
    ensures forall k :: |s| - n <= k < |s| ==> IsSpace(s[k])
    ensures n < |s| ==> !IsSpace(s[|s| - n - 1])
  {
    if s == [] || !IsSpace(s[|s| - 1]) then 0 else 1 + TrailingSpaces(s[..|s| - 1])
  }

  /** `t` without its trailing white space. */
  function TrimRight(t: string): (r: string)
    ensures |r| <= |t| && r == t[..|r|]
    ensures |r| > 0 ==> !IsSpace(r[|r| - 1])
    ensures forall k :: |r| <= k < |t| ==> IsSpace(t[k])
  {
    t[..|t| - TrailingSpaces(t)]
  }

  /** `strings.TrimSpace`: `s` without its leading and trailing white space;
      what is kept neither starts nor ends with white space. */
  function TrimSpace(s: string): (r: string)
    ensures |r| > 0 ==> !IsSpace(r[0]) && !IsSpace(r[|r| - 1])
  {
    var t := s[LeadingSpaces(s)..];
    assert |t| > 0 ==> t[0] == s[LeadingSpaces(s)];
    TrimRight(t)
  }

  /** What TrimSpace keeps is the middle of `s` after its leading white
      space. */
  lemma TrimSpaceMiddle(s: string)
    ensures LeadingSpaces(s) + |TrimSpace(s)| <= |s|
    ensures TrimSpace(s) == s[LeadingSpaces(s)..LeadingSpaces(s) + |TrimSpace(s)|]
  {
    var i := LeadingSpaces(s);
    var r := TrimRight(s[i..]);
    assert r == TrimSpace(s);
    assert s[i..][..|r|] == s[i..i + |r|];
  }

  /** What TrimSpace cuts off on either side is white space. */
  lemma TrimSpaceCut(s: string)
    ensures forall k :: 0 <= k < LeadingSpaces(s) ==> IsSpace(s[k])
    ensures forall k :: LeadingSpaces(s) + |TrimSpace(s)| <= k < |s| ==> IsSpace(s[k])
  {
    var i := LeadingSpaces(s);
    var t := s[i..];
    var r := TrimRight(t);
    assert r == TrimSpace(s);
    forall k | i + |r| <= k < |s|
      ensures IsSpace(s[k])
    {
      assert s[k] == t[k - i];
    }
  }

  /** A string that neither starts nor ends with white space is its own
      trimmed form; so trimming twice is trimming once. */
  lemma TrimSpaceUntrimmed(s: string)
    requires |s| > 0 ==> !IsSpace(s[0]) && !IsSpace(s[|s| - 1])
    ensures TrimSpace(s) == s
  {
    assert s[0..] == s;
  }

  lemma TrimSpaceIdempotent(s: string)
    ensures TrimSpace(TrimSpace(s)) == TrimSpace(s)
  {
    TrimSpaceUntrimmed(TrimSpace(s));
  }


  predicate IsDigit(c: char) { '0' <= c <= '9' }

  predicate IsDigits(s: string) {
    forall i :: 0 <= i < |s| ==> IsDigit(s[i])
  }

  /** The value of a string of decimal digits, most significant first. */
  function DigitsValue(s: string): (n: nat)
    requires IsDigits(s)
    decreases |s|
  {
    if s == [] then 0 else DigitsValue(s[..|s| - 1]) * 10 + (s[|s| - 1] - '0') as int
  }

  function Ten(n: nat): (r: nat)
    ensures r >= 1
  {
    if n == 0 then 1 else 10 * Ten(n - 1)
  }

  /** A string of at most n digits has a value below 10^n. */
  lemma {:induction false} DigitsValueBelow(s: string, n: nat)
    requires IsDigits(s) && |s| <= n
    ensures DigitsValue(s) < Ten(n)
    decreases |s|
  {
    if s != [] {
      DigitsValueBelow(s[..|s| - 1], n - 1);
    }
  }

  /** The decimal representation of `n`, with no leading zeros. */
  function Itoa(n: nat): (s: string)
    ensures |s| > 0 && IsDigits(s)
    ensures n >= 10 ==> s[0] != '0'
  {
    var d := ['0' + (n % 10) as char];
    if n < 10 then d else Itoa(n / 10) + d
  }

  lemma {:induction false} DigitsValueItoa(n: nat)
    ensures DigitsValue(Itoa(n)) == n
  {
    var s := Itoa(n);
    if n >= 10 {
      assert s[..|s| - 1] == Itoa(n / 10);
      DigitsValueItoa(n / 10);
    }
  }

  /** The syntax `strconv.Atoi` accepts: an optional sign followed by at least one
      ASCII digit. */
  predicate IsInteger(s: string) {
    if |s| > 0 && (s[0] == '+' || s[0] == '-') then |s| > 1 && IsDigits(s[1..])
    else |s| > 0 && IsDigits(s)
  }

  function Clamp64(x: int): (r: int64)
    ensures Int64Min <= x <= Int64Max ==> r == x
    ensures x > Int64Max ==> r == Int64Max
    ensures x < Int64Min ==> r == Int64Min
  {
    if x > Int64Max then Int64Max else if x < Int64Min then Int64Min else x
  }

  /** The text after an optional leading sign. */
  function Unsigned(s: string): (u: string)
    ensures |s| > 0 && (s[0] == '+' || s[0] == '-') ==> u == s[1..]
    ensures !(|s| > 0 && (s[0] == '+' || s[0] == '-')) ==> u == s
  {
    if |s| > 0 && (s[0] == '+' || s[0] == '-') then s[1..] else s
  }

  /** The longest prefix of `s` made of digits. */
  function LeadingDigits(s: string): (p: string)
    ensures IsDigits(p) && p <= s
    ensures |p| < |s| ==> !IsDigit(s[|p|])
  {
    if s != [] && IsDigit(s[0]) then [s[0]] + LeadingDigits(s[1..]) else []
  }

  lemma {:induction false} LeadingDigitsAll(s: string)
    requires IsDigits(s)
    ensures LeadingDigits(s) == s
    decreases |s|
  {
    if s != [] {
      LeadingDigitsAll(s[1..]);
    }
  }

  /** `strconv.ParseUint` checks each digit for overflow before it looks at
      the next character, so digits worth more than 2^64 - 1 end the parse
      with a range error even when a non-digit follows them. */
  predicate Overflows(s: string) {
    DigitsValue(LeadingDigits(Unsigned(s))) >= TwoTo64
  }

  /** `i, _ := strconv.Atoi(s)` on a 64-bit platform: a syntax error yields 0,
      a value out of range yields the nearest int64. A range error found in
      the leading digits wins over a syntax error later in the string. */
  function Atoi(s: string): (n: int64)
    ensures !IsInteger(s) && !Overflows(s) ==> n == 0
    ensures Overflows(s) ==> n == (if s[0] == '-' then Int64Min else Int64Max)
  {
    if IsInteger(s) then
      LeadingDigitsAll(Unsigned(s));
      if s[0] == '-' then Clamp64(0 - DigitsValue(s[1..]))
      else if s[0] == '+' then Clamp64(DigitsValue(s[1..]))
      else Clamp64(DigitsValue(s))
    else if Overflows(s) then
      if s[0] == '-' then Int64Min else Int64Max
    else 0
  }

  /** Appending digits never lowers the value. */
  lemma {:induction false} DigitsValuePrefix(p: string, t: string)
    requires IsDigits(t) && p <= t
    ensures DigitsValue(p) <= DigitsValue(t)
    decreases |t|
  {
    if |p| < |t| {
      assert p <= t[..|t| - 1];
      DigitsValuePrefix(p, t[..|t| - 1]);
    } else {
      assert p == t;
    }
  }

  /** Every prefix made of digits lies within the leading digits. */
  lemma {:induction false} LeadingDigitsCover(s: string, k: nat)
    requires k <= |s| && IsDigits(s[..k])
    ensures s[..k] <= LeadingDigits(s)
    decreases k
  {
    if k > 0 {
      assert s[1..][..k - 1] == s[..k][1..];
      LeadingDigitsCover(s[1..], k - 1);
    }
  }

  /** Once some prefix of digits after the sign is worth 2^64 or more,
      Atoi saturates at the bound of that sign, whatever follows. */
  lemma AtoiSaturates(s: string, k: nat)
    requires k <= |Unsigned(s)| && IsDigits(Unsigned(s)[..k])
    requires DigitsValue(Unsigned(s)[..k]) >= TwoTo64
    ensures Atoi(s) == (if s[0] == '-' then Int64Min else Int64Max)
  {
    var u := Unsigned(s);
    LeadingDigitsCover(u, k);
    DigitsValuePrefix(u[..k], LeadingDigits(u));
  }

  /** The value of digits written one after the other. */
  lemma {:induction false} DigitsValueAppend(a: string, b: string)
    requires IsDigits(a) && IsDigits(b)
    ensures DigitsValue(a + b) == DigitsValue(a) * Ten(|b|) + DigitsValue(b)
    decreases |b|
  {
    if b != [] {
      var b' := b[..|b| - 1];
      assert (a + b)[..|a + b| - 1] == a + b';
      DigitsValueAppend(a, b');
    } else {
      assert a + b == a;
    }
  }

  lemma DigitsValueSpelled(n: nat, s: string)
    requires Itoa(n) == s
    ensures DigitsValue(s) == n
  {
    DigitsValueItoa(n);
  }

  lemma TwoTo64High()
    ensures DigitsValue("1844674407") == 1844674407
  {
    assert Itoa(18446) == "18446";
    DigitsValueSpelled(18446, "18446");
    assert Itoa(74407) == "74407";
    DigitsValueSpelled(74407, "74407");
    assert Ten(5) == 100000;
    DigitsValueAppend("18446", "74407");
    assert "18446" + "74407" == "1844674407";
  }

  lemma TwoTo64Low()
    ensures DigitsValue("3709551616") == 3709551616
  {
    assert Itoa(37095) == "37095";
    DigitsValueSpelled(37095, "37095");
    assert Itoa(51616) == "51616";
    DigitsValueSpelled(51616, "51616");
    assert Ten(5) == 100000;
    DigitsValueAppend("37095", "51616");
    assert "37095" + "51616" == "3709551616";
  }

  /** The decimal text of 2^64. */
  lemma TwoTo64Digits()
    ensures DigitsValue("18446744073709551616") == TwoTo64
  {
    TwoTo64High();
    TwoTo64Low();
    assert Ten(10) == 10000000000;
    DigitsValueAppend("1844674407", "3709551616");
    assert "1844674407" + "3709551616" == "18446744073709551616";
  }

  /** 2^64 followed by a non-digit reads as the largest int64, and with a
      minus sign as the smallest. */
  lemma AtoiOverflowThenLetter()
    ensures Atoi("18446744073709551616x") == Int64Max
    ensures Atoi("-18446744073709551616x") == Int64Min
  {
    TwoTo64Digits();
    assert "18446744073709551616x"[..20] == "18446744073709551616";
    AtoiSaturates("18446744073709551616x", 20);
    assert "-18446744073709551616x"[1..][..20] == "18446744073709551616";
    AtoiSaturates("-18446744073709551616x", 20);
  }

  /** Atoi of a string of digits is its value, when that fits in an int64. */
  lemma AtoiDigits(s: string)
    requires |s| > 0 && IsDigits(s) && DigitsValue(s) <= Int64Max
    ensures Atoi(s) == DigitsValue(s)
  {
  }

  /** Atoi reads back what Itoa writes, for every int64 value that is not negative. */
  lemma AtoiItoa(n: nat)
    requires n <= Int64Max
    ensures Atoi(Itoa(n)) == n
  {
    DigitsValueItoa(n);
  }
}
