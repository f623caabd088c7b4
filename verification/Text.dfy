/** The string functions of Go's library that the program uses, for ASCII text. */
module Text {
  import opened Wrappers

  // ----- Case

  function LowerChar(c: char): char {
    if 'A' <= c <= 'Z' then c + 32 as char else c
  }

  /** strings.ToLower */
  function ToLower(s: string): (r: string)
    ensures |r| == |s|
    ensures forall i :: 0 <= i < |s| ==> r[i] == LowerChar(s[i])
  {
    seq(|s|, i requires 0 <= i < |s| => LowerChar(s[i]))
  }

  /** strings.EqualFold */
  predicate EqualFold(a: string, b: string) {
    ToLower(a) == ToLower(b)
  }

  /** The letters A to Z become a to z, and no other character changes. */
  lemma LowerCharMeans(c: char)
    ensures 65 <= c as int <= 90 ==> LowerChar(c) as int == c as int + 32
    ensures !(65 <= c as int <= 90) ==> LowerChar(c) == c
  {
  }

  lemma EqualFoldMeans(a: string, b: string)
    ensures EqualFold(a, b) <==>
            |a| == |b| && forall i :: 0 <= i < |a| ==> LowerChar(a[i]) == LowerChar(b[i])
  {
    if EqualFold(a, b) {
      assert forall i :: 0 <= i < |a| ==> ToLower(a)[i] == ToLower(b)[i];
    }
  }

  lemma ToLowerTwice(s: string)
    ensures ToLower(ToLower(s)) == ToLower(s)
  {
  }

  // ----- Trimming

  predicate IsSpace(c: char) {
    c == ' ' || c == '\t' || c == '\n' || c == '\r' || c == 11 as char || c == 12 as char
  }

  predicate IsSlash(c: char) {
    c == '/'
  }

  /** Neither end of s is a character to cut. */
  predicate Trimmed(s: string, cut: char -> bool) {
    s == "" || (!cut(s[0]) && !cut(s[|s| - 1]))
  }

  function TrimLeft(s: string, cut: char -> bool): (r: string)
    ensures |r| <= |s| && r == s[|s| - |r|..]
    ensures r == "" || !cut(r[0])
  {
    if s != "" && cut(s[0]) then TrimLeft(s[1..], cut) else s
  }

  function TrimRight(s: string, cut: char -> bool): (r: string)
    ensures |r| <= |s| && r == s[..|r|]
    ensures r == "" || !cut(r[|r| - 1])
  {
    if s != "" && cut(s[|s| - 1]) then TrimRight(s[..|s| - 1], cut) else s
  }

  function Trim(s: string, cut: char -> bool): (r: string)
    ensures Trimmed(r, cut) && |r| <= |s|
    ensures r == s <==> Trimmed(s, cut)
    ensures |r| == |s| ==> r == s
  {
    TrimRight(TrimLeft(s, cut), cut)
  }

  /** strings.TrimSpace */
  function TrimSpace(s: string): (r: string)
    ensures Trimmed(r, IsSpace) && |r| <= |s|
    ensures r == s <==> Trimmed(s, IsSpace)
    ensures |r| == |s| ==> r == s
  {
    Trim(s, IsSpace)
  }

  /** White space is a tab, a line feed, a vertical tab, a form feed, a carriage return
      or a blank; the slash is '/'. */
  lemma CutCharacters(c: char)
    ensures IsSpace(c) <==> 9 <= c as int <= 13 || c as int == 32
    ensures IsSlash(c) <==> c as int == 47
  {
  }

  /** Trimming takes away characters to cut at both ends, and nothing else; what
      remains has none at its ends. */
  lemma TrimMeans(s: string, cut: char -> bool) returns (k: nat)
    ensures var r := Trim(s, cut);
            && k + |r| <= |s| && r == s[k..k + |r|] && Trimmed(r, cut)
            && forall i :: 0 <= i < |s| && !(k <= i < k + |r|) ==> cut(s[i])
  {
    TrimLeftCuts(s, cut);
    var left := TrimLeft(s, cut);
    TrimRightCuts(left, cut);
    hide TrimLeft, TrimRight, Trimmed;
    k := |s| - |left|;
    assert Trim(s, cut) == left[..|Trim(s, cut)|];
    forall i | 0 <= i < |s| && !(k <= i < k + |Trim(s, cut)|) ensures cut(s[i]) {
      if i >= k {
        assert s[i] == left[i - k];
      }
    }
  }

  lemma {:induction false} TrimLeftCuts(s: string, cut: char -> bool)
    ensures forall i :: 0 <= i < |s| - |TrimLeft(s, cut)| ==> cut(s[i])
  {
    if s != "" && cut(s[0]) {
      TrimLeftCuts(s[1..], cut);
      assert forall i :: 0 < i < |s| ==> s[i] == s[1..][i - 1];
    }
  }

  lemma {:induction false} TrimRightCuts(s: string, cut: char -> bool)
    ensures forall i :: |TrimRight(s, cut)| <= i < |s| ==> cut(s[i])
    decreases |s|
  {
    if s != "" && cut(s[|s| - 1]) {
      TrimRightCuts(s[..|s| - 1], cut);
      assert forall i :: 0 <= i < |s| - 1 ==> s[i] == s[..|s| - 1][i];
    }
  }

  /** strings.TrimPrefix */
  function TrimPrefix(s: string, prefix: string): string {
    if prefix <= s then s[|prefix|..] else s
  }

  /** Lower-casing does not make or remove spaces. */
  lemma LowerKeepsTrimmed(s: string)
    ensures Trimmed(ToLower(s), IsSpace) <==> Trimmed(s, IsSpace)
  {
  }

  // ----- Numbers

  predicate IsDigit(c: char) {
    '0' <= c <= '9'
  }

  function DigitChar(d: nat): (c: char)
    requires d < 10
    ensures IsDigit(c)
  {
    '0' + d as char
  }

  function DigitValue(c: char): (d: nat)
    requires IsDigit(c)
    ensures d < 10
  {
    (c as int - '0' as int)
  }

  /** strconv.Itoa of a number that is not negative. */
  function Itoa(n: nat): (s: string)
    ensures s != "" && forall i :: 0 <= i < |s| ==> IsDigit(s[i])
  {
    if n < 10 then [DigitChar(n)] else Itoa(n / 10) + [DigitChar(n % 10)]
  }

  function Digits(s: string): (n: nat)
    requires forall i :: 0 <= i < |s| ==> IsDigit(s[i])
  {
    if s == "" then 0 else Digits(s[..|s| - 1]) * 10 + DigitValue(s[|s| - 1])
  }

  /** strconv.Atoi: an optional sign and at least one digit, within 64 bits. */
  function Atoi(s: string): Option<int> {
    AtoiDigits(s != "" && s[0] == '-', if s != "" && (s[0] == '-' || s[0] == '+') then s[1..] else s)
  }

  function AtoiDigits(negative: bool, digits: string): Option<int> {
    if digits == "" || exists i :: 0 <= i < |digits| && !IsDigit(digits[i]) then None
    else
      var value: int := Digits(digits);
      var n := if negative then -value else value;
      if -0x8000_0000_0000_0000 <= n < 0x8000_0000_0000_0000 then Some(n) else None
  }

  lemma {:induction false} DigitsItoa(n: nat)
    ensures Digits(Itoa(n)) == n
  {
    if n >= 10 {
      DigitsItoa(n / 10);
      var s := Itoa(n);
      assert s[..|s| - 1] == Itoa(n / 10);
    } else {
      assert Itoa(n)[..0] == "";
    }
  }

  lemma AtoiItoa(n: nat)
    requires n < 0x8000_0000_0000_0000
    ensures Atoi(Itoa(n)) == Some(n)
  {
    DigitsItoa(n);
  }

  /** A sign may come first, and anything but digits behind it is no number. */
  lemma AtoiSigned(n: int)
    requires 0 <= n < 0x8000_0000_0000_0000
    ensures Atoi("-" + Itoa(n)) == Some(-n) && Atoi("+" + Itoa(n)) == Some(n)
  {
    DigitsItoa(n);
    assert ("-" + Itoa(n))[1..] == Itoa(n) && ("+" + Itoa(n))[1..] == Itoa(n);
    hide Digits, Itoa;
  }

  lemma AtoiRefuses(s: string, i: nat)
    requires i < |s| && !('0' <= s[i] <= '9') && (i == 0 ==> s[i] != '-' && s[i] != '+')
    ensures Atoi(s) == None
  {
    var digits := if s[0] == '-' || s[0] == '+' then s[1..] else s;
    var j := if s[0] == '-' || s[0] == '+' then i - 1 else i;
    assert digits[j] == s[i] && !IsDigit(digits[j]);
    assert Atoi(s) == AtoiDigits(s[0] == '-', digits);
  }

  lemma AtoiNeedsDigits()
    ensures Atoi("") == None && Atoi("-") == None && Atoi("+") == None
  {
    assert "-"[1..] == "" && "+"[1..] == "";
  }

  lemma ItoaInjective(m: nat, n: nat)
    requires Itoa(m) == Itoa(n)
    ensures m == n
  {
    DigitsItoa(m);
    DigitsItoa(n);
  }

  // ----- Searching

  /** strings.Contains for one character, and the text before and after its
      first occurrence. */
  function IndexOf(s: string, c: char): (i: nat)
    ensures i <= |s| && c !in s[..i]
    ensures i < |s| ==> s[i] == c
  {
    if s == "" || s[0] == c then 0 else 1 + IndexOf(s[1..], c)
  }

  /** strings.Split by one character. */
  function Split(s: string, c: char): (parts: seq<string>)
    ensures |parts| >= 1
  {
    var i := IndexOf(s, c);
    if i == |s| then [s] else [s[..i]] + Split(s[i + 1..], c)
  }

  /** The parts of a split hold no separator, and joined by it they are the text. */
  lemma {:induction false} SplitJoins(s: string, c: char)
    ensures Join(Split(s, c), c) == s && forall i :: 0 <= i < |Split(s, c)| ==> c !in Split(s, c)[i]
  {
    var i := IndexOf(s, c);
    if i < |s| {
      SplitJoins(s[i + 1..], c);
      assert s == s[..i] + [c] + s[i + 1..];
    } else {
      assert s[..i] == s;
    }
  }

  function Join(parts: seq<string>, c: char): string {
    if parts == [] then "" else if |parts| == 1 then parts[0] else parts[0] + [c] + Join(parts[1..], c)
  }
}
