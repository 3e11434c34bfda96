/** The few Python string operations the program relies on: `str.isspace`,
    `str.lower`/`str.upper` on ASCII names, `str.split()`, `str.strip()`,
    `str(int)` and `int(str)`. */
module Text {
  import opened Wrappers

  /** `c.isspace()`: the characters Python treats as whitespace. */
  predicate IsSpace(c: char) {
    var n := c as int;
    || (0x09 <= n <= 0x0D) || (0x1C <= n <= 0x20)
    || n == 0x85 || n == 0xA0 || n == 0x1680
    || (0x2000 <= n <= 0x200A) || n == 0x2028 || n == 0x2029
    || n == 0x202F || n == 0x205F || n == 0x3000
  }

  predicate NoSpace(s: string) {
    forall i :: 0 <= i < |s| ==> !IsSpace(s[i])
  }

  predicate AllSpace(s: string) {
    forall i :: 0 <= i < |s| ==> IsSpace(s[i])
  }

  // ---------------------------------------------------------------------
  // Case mapping (only ever applied to ASCII enum names and choices)

  function LowerChar(c: char): char {
    if 'A' <= c <= 'Z' then (c as int + 32) as char else c
  }

  function UpperChar(c: char): char {
    if 'a' <= c <= 'z' then (c as int - 32) as char else c
  }

  function Lower(s: string): string {
    seq(|s|, i requires 0 <= i < |s| => LowerChar(s[i]))
  }

  function Upper(s: string): string {
    seq(|s|, i requires 0 <= i < |s| => UpperChar(s[i]))
  }

  predicate HasNoLowerCase(s: string) {
    forall i :: 0 <= i < |s| ==> !('a' <= s[i] <= 'z')
  }

  /** `s.lower().upper() == s` for a name written without lower-case letters,
      such as the name of a Python enum member. */
  lemma UpperOfLower(s: string)
    requires HasNoLowerCase(s)
    ensures Upper(Lower(s)) == s
  {
    var r := Upper(Lower(s));
    assert |r| == |s|;
    forall i | 0 <= i < |s| ensures r[i] == s[i] {
      assert r[i] == UpperChar(LowerChar(s[i]));
    }
  }

  // ---------------------------------------------------------------------
  // Whitespace splitting and stripping

  /** `s.lstrip()` */
  function TrimStart(s: string): (r: string)
    ensures |r| <= |s|
    ensures r == [] || !IsSpace(r[0])
    decreases |s|
  {
    if |s| > 0 && IsSpace(s[0]) then TrimStart(s[1..]) else s
  }

  /** What `lstrip` leaves is the suffix of `s` after its leading
      whitespace. */
  lemma {:induction false} TrimStartIsSuffix(s: string)
    ensures var r := TrimStart(s);
      r == s[|s| - |r|..] && AllSpace(s[..|s| - |r|])
    decreases |s|
  {
    if |s| > 0 && IsSpace(s[0]) {
      var r := TrimStart(s);
      var k := |s| - |r|;
      TrimStartIsSuffix(s[1..]);
      assert s[1..][k - 1..] == s[k..];
      forall i | 0 <= i < k ensures IsSpace(s[..k][i]) {
        if i > 0 {
          assert s[..k][i] == s[1..][..k - 1][i - 1];
        }
      }
    }
  }

  /** `s.rstrip()` */
  function TrimEnd(s: string): (r: string)
    ensures |r| <= |s|
    ensures r == [] || !IsSpace(r[|r| - 1])
    decreases |s|
  {
    if |s| > 0 && IsSpace(s[|s| - 1]) then TrimEnd(s[..|s| - 1]) else s
  }

  /** What `rstrip` leaves is the prefix of `s` before its trailing
      whitespace. */
  lemma {:induction false} TrimEndIsPrefix(s: string)
    ensures var r := TrimEnd(s);
      r == s[..|r|] && AllSpace(s[|r|..])
    decreases |s|
  {
    if |s| > 0 && IsSpace(s[|s| - 1]) {
      var r := TrimEnd(s);
      var init := s[..|s| - 1];
      TrimEndIsPrefix(init);
      assert init[..|r|] == s[..|r|];
      forall j | 0 <= j < |s| - |r| ensures IsSpace(s[|r|..][j]) {
        if j < |s| - 1 - |r| {
          assert s[|r|..][j] == init[|r|..][j];
        }
      }
    }
  }

  /** `s.strip()` */
  function Strip(s: string): string {
    TrimEnd(TrimStart(s))
  }

  /** Cutting whitespace off the front of `s` (leaving `t`) and then off the
      back of `t` (leaving `r`) leaves a slice of `s` whose ends are not
      whitespace, with only whitespace around it. */
  lemma TrimmedSlice(s: string, t: string, r: string)
    requires |t| <= |s| && t == s[|s| - |t|..] && AllSpace(s[..|s| - |t|])
    requires t == [] || !IsSpace(t[0])
    requires |r| <= |t| && r == t[..|r|] && AllSpace(t[|r|..])
    requires r == [] || !IsSpace(r[|r| - 1])
    ensures exists a ::
        && 0 <= a <= a + |r| <= |s| && r == s[a..a + |r|]
        && AllSpace(s[..a]) && AllSpace(s[a + |r|..])
        && (r == [] || (!IsSpace(r[0]) && !IsSpace(r[|r| - 1])))
  {
    var a := |s| - |t|;
    assert s[a + |r|..] == t[|r|..];
    assert r != [] ==> r[0] == t[0];
    assert r == s[a..a + |r|];
  }

  /** What `strip` returns is the part of `s` that is left when the
      whitespace at both ends is cut off: a slice of `s` whose ends are not
      whitespace, with only whitespace around it. */
  lemma StripIsSlice(s: string)
    ensures var r := Strip(s);
      exists a :: 0 <= a <= a + |r| <= |s| && r == s[a..a + |r|]
        && AllSpace(s[..a]) && AllSpace(s[a + |r|..])
        && (r == [] || (!IsSpace(r[0]) && !IsSpace(r[|r| - 1])))
  {
    var t := TrimStart(s);
    var r := TrimEnd(t);
    TrimStartIsSuffix(s);
    TrimEndIsPrefix(t);
    assert Strip(s) == r;
    TrimmedSlice(s, t, r);
  }

  /** A string that neither starts nor ends with whitespace is unchanged. */
  lemma StripUnchanged(s: string)
    requires s == [] || (!IsSpace(s[0]) && !IsSpace(s[|s| - 1]))
    ensures Strip(s) == s
  {
    assert TrimStart(s) == s;
  }

  /** Length of the leading run of non-whitespace characters. */
  function WordLength(s: string): (n: nat)
    ensures n <= |s|
    decreases |s|
  {
    if |s| > 0 && !IsSpace(s[0]) then 1 + WordLength(s[1..]) else 0
  }

  /** The leading run is all of the first word: no whitespace in it, and
      whitespace (or the end) right after it. */
  lemma {:induction false} WordLengthIsRun(s: string)
    ensures var n := WordLength(s);
      NoSpace(s[..n]) && (n < |s| ==> IsSpace(s[n]))
    decreases |s|
  {
    if |s| > 0 && !IsSpace(s[0]) {
      var n := WordLength(s);
      WordLengthIsRun(s[1..]);
      if n < |s| {
        assert s[n] == s[1..][n - 1];
      }
      forall i | 0 <= i < n ensures !IsSpace(s[..n][i]) {
        if i > 0 {
          assert s[..n][i] == s[1..][..n - 1][i - 1];
        }
      }
    }
  }

  /** `s.split()`: the maximal runs of non-whitespace characters, in order. */
  function Split(s: string): (words: seq<string>)
    decreases |s|
  {
    var t := TrimStart(s);
    if |t| == 0 then []
    else
      var n := WordLength(t);
      [t[..n]] + Split(t[n..])
  }

  /** Every word of a split is non-empty and holds no whitespace. */
  lemma {:induction false} SplitGivesWords(s: string)
    ensures forall w :: w in Split(s) ==> |w| > 0 && NoSpace(w)
    decreases |s|
  {
    var t := TrimStart(s);
    if |t| > 0 {
      var n := WordLength(t);
      WordLengthIsRun(t);
      SplitGivesWords(t[n..]);
      assert Split(s) == [t[..n]] + Split(t[n..]);
    }
  }

  /** `s.split()` is empty exactly when `s` holds nothing but whitespace
      (in particular for the empty string). */
  lemma {:induction false} SplitEmptyIff(s: string)
    ensures Split(s) == [] <==> AllSpace(s)
  {
    var t := TrimStart(s);
    TrimStartIsSuffix(s);
    if |t| == 0 {
      assert s[..|s|] == s;
    } else {
      assert s[|s| - |t|] == t[0];
    }
  }

  /** One word followed by whitespace is split off as the first word. */
  lemma {:induction false} WordLengthOfWord(w: string, rest: string)
    requires NoSpace(w)
    requires rest == [] || IsSpace(rest[0])
    ensures WordLength(w + rest) == |w|
    decreases |w|
  {
    if |w| > 0 {
      assert (w + rest)[1..] == w[1..] + rest;
      WordLengthOfWord(w[1..], rest);
    } else {
      assert w + rest == rest;
    }
  }

  /** `" ".join(words)` */
  function JoinWithSpace(words: seq<string>): string
    decreases |words|
  {
    if |words| == 0 then ""
    else if |words| == 1 then words[0]
    else words[0] + " " + JoinWithSpace(words[1..])
  }

  /** A word followed by a space and more text splits into that word and
      the split of the rest. */
  lemma SplitWordThen(w: string, rest: string)
    requires |w| > 0 && NoSpace(w)
    ensures Split(w + " " + rest) == [w] + Split(rest)
  {
    var s := w + " " + rest;
    assert s == w + (" " + rest);
    assert TrimStart(s) == s;
    WordLengthOfWord(w, " " + rest);
    assert s[..|w|] == w;
    assert s[|w|..] == " " + rest;
    assert TrimStart(" " + rest) == TrimStart(rest);
  }

  /** A single word splits into itself. */
  lemma SplitWord(w: string)
    requires |w| > 0 && NoSpace(w)
    ensures Split(w) == [w]
  {
    WordLengthOfWord(w, "");
    assert w + "" == w;
    assert w[..|w|] == w;
    assert w[|w|..] == "";
  }

  /** Two words joined by one space split back into the two words. */
  lemma SplitTwoWords(w: string, u: string)
    requires |w| > 0 && NoSpace(w)
    requires |u| > 0 && NoSpace(u)
    ensures Split(w + " " + u) == [w, u]
  {
    SplitWordThen(w, u);
    SplitWord(u);
  }

  /** Joining one more word in front: the split gains that word in front. */
  lemma SplitJoinStep(words: seq<string>)
    requires |words| > 1 && |words[0]| > 0 && NoSpace(words[0])
    requires Split(JoinWithSpace(words[1..])) == words[1..]
    ensures Split(JoinWithSpace(words)) == words
  {
    var tail := JoinWithSpace(words[1..]);
    assert JoinWithSpace(words) == words[0] + " " + tail;
    SplitWordThen(words[0], tail);
    assert words == [words[0]] + words[1..];
  }

  /** Splitting undoes joining with single spaces, for words that are
      non-empty and contain no whitespace. */
  lemma {:induction false} SplitJoin(words: seq<string>)
    requires forall i :: 0 <= i < |words| ==> |words[i]| > 0 && NoSpace(words[i])
    ensures Split(JoinWithSpace(words)) == words
    decreases |words|
  {
    if |words| == 1 {
      SplitWord(words[0]);
    } else if |words| > 1 {
      var rest := words[1..];
      assert Split(JoinWithSpace(rest)) == rest by {
        forall i | 0 <= i < |rest| ensures |rest[i]| > 0 && NoSpace(rest[i]) {
          assert rest[i] == words[i + 1];
        }
        SplitJoin(rest);
      }
      SplitJoinStep(words);
    }
  }

  // ---------------------------------------------------------------------
  // Integers as decimal text

  predicate IsDigit(c: char) {
    '0' <= c <= '9'
  }

  predicate IsDigits(s: string) {
    |s| > 0 && forall i :: 0 <= i < |s| ==> IsDigit(s[i])
  }

  function DigitChar(d: nat): char
    requires d < 10
  {
    ('0' as int + d) as char
  }

  /** `str(n)` for a natural number. */
  function NatToString(n: nat): (s: string)
    ensures IsDigits(s)
    decreases n
  {
    if n < 10 then [DigitChar(n)] else NatToString(n / 10) + [DigitChar(n % 10)]
  }

  /** `str(n)` */
  function IntToString(n: int): string {
    if n < 0 then "-" + NatToString(-n) else NatToString(n)
  }

  /** The number a string of decimal digits denotes. */
  function DigitsValue(s: string): nat
    requires forall i :: 0 <= i < |s| ==> IsDigit(s[i])
    decreases |s|
  {
    if |s| == 0 then 0
    else
      assert IsDigit(s[|s| - 1]);
      DigitsValue(s[..|s| - 1]) * 10 + (s[|s| - 1] as int - '0' as int)
  }

  /** `int(s)`: optional surrounding whitespace, an optional sign and
      decimal digits; anything else is a `ValueError` (here `None`). */
  function ParseInt(s: string): Option<int> {
    var t := Strip(s);
    if |t| > 0 && (t[0] == '-' || t[0] == '+') then
      if IsDigits(t[1..]) then
        var magnitude: int := DigitsValue(t[1..]);
        Some(if t[0] == '-' then -magnitude else magnitude)
      else None
    else if IsDigits(t) then Some(DigitsValue(t))
    else None
  }

  lemma {:induction false} NatToStringValue(n: nat)
    ensures DigitsValue(NatToString(n)) == n
    decreases n
  {
    if n >= 10 {
      var s := NatToString(n);
      assert s[..|s| - 1] == NatToString(n / 10);
      NatToStringValue(n / 10);
    }
  }

  /** `int(str(n)) == n`. */
  lemma ParseIntOfIntToString(n: int)
    ensures ParseInt(IntToString(n)) == Some(n)
  {
    var s := IntToString(n);
    if n < 0 {
      NatToStringValue(-n);
      assert s[1..] == NatToString(-n);
    } else {
      NatToStringValue(n);
    }
    StripUnchanged(s);
  }
}
