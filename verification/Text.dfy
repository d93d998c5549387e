// The text handling under packages/exportkit/ply.py: decimal numbers, white space and
// lines. A file is a sequence of bytes, written as characters.
module Text {
  import opened Wrappers
  import opened FrameNames

  // ------------------------------------------------------------------- white space

  predicate Space(c: char) {
    || c == ' ' || c == '\t' || c == '\n' || c == '\r' || c == '\U{0B}' || c == '\U{0C}'
    || ('\U{1C}' <= c && c <= '\U{1F}')
  }

  predicate Solid(s: string) { forall i :: 0 <= i < |s| ==> !Space(s[i]) }

  // The length of the token at the start.
  function TokenLength(s: string): (n: nat)
    ensures n <= |s|
  {
    if s == "" || Space(s[0]) then 0 else 1 + TokenLength(s[1..])
  }

  // str.split()
  function Split(s: string): seq<string>
    decreases |s|
  {
    if s == "" then []
    else if Space(s[0]) then Split(s[1..])
    else
      var n := TokenLength(s);
      [s[..n]] + Split(s[n..])
  }

  lemma {:induction false} TokenIs(t: string, rest: string)
    requires Solid(t) && (rest == "" || Space(rest[0]))
    ensures TokenLength(t + rest) == |t|
  {
    if t != "" {
      assert (t + rest)[1..] == t[1..] + rest;
      TokenIs(t[1..], rest);
    } else {
      assert t + rest == rest;
    }
  }

  lemma SplitToken(t: string, rest: string)
    requires t != "" && Solid(t) && (rest == "" || Space(rest[0]))
    ensures Split(t + rest) == [t] + Split(rest)
  {
    TokenIs(t, rest);
    assert (t + rest)[..|t|] == t && (t + rest)[|t|..] == rest;
  }

  // Three tokens with one space between.
  lemma SplitThree(a: string, b: string, c: string)
    requires a != "" && b != "" && c != "" && Solid(a) && Solid(b) && Solid(c)
    ensures Split(a + (" " + (b + (" " + c)))) == [a, b, c]
  {
    SplitToken(c, "");
    assert c + "" == c && Split("") == [];
    SplitToken(b, " " + c);
    assert (" " + c)[1..] == c;
    var tail := b + (" " + c);
    SplitToken(a, " " + tail);
    assert (" " + tail)[1..] == tail;
  }

  // --------------------------------------------------------------- decimal numbers

  function Decimal(n: nat): string { Padded(n, Digits(n)) }

  function DigitValue(c: char): nat { if '0' <= c <= '9' then (c as int - '0' as int) as nat else 0 }

  // The digits of int(): single underscores are allowed between digits.
  function DigitsValue(s: string, acc: nat, afterDigit: bool): Option<nat> {
    if s == "" then (if afterDigit then Some(acc) else None)
    else if '0' <= s[0] <= '9' then DigitsValue(s[1..], acc * 10 + DigitValue(s[0]), true)
    else if s[0] == '_' && afterDigit then DigitsValue(s[1..], acc, false)
    else None
  }

  function StripLeft(s: string): string { if s != "" && Space(s[0]) then StripLeft(s[1..]) else s }

  function StripRight(s: string): string {
    if s != "" && Space(s[|s| - 1]) then StripRight(s[..|s| - 1]) else s
  }

  // int(): white space around and one sign are allowed.
  function ParseInt(s: string): Option<int> {
    var t := StripRight(StripLeft(s));
    if t == "" then None
    else if t[0] == '-' then
      var v := DigitsValue(t[1..], 0, false);
      if v.None? then None else Some(0 - v.value as int)
    else if t[0] == '+' then
      var v := DigitsValue(t[1..], 0, false);
      if v.None? then None else Some(v.value)
    else
      var v := DigitsValue(t, 0, false);
      if v.None? then None else Some(v.value)
  }

  lemma DigitIs(d: nat)
    requires d < 10
    ensures '0' <= Digit(d) <= '9' && DigitValue(Digit(d)) == d && !Space(Digit(d))
  {
  }

  lemma {:induction false} PaddedValue(n: nat, w: nat, rest: string)
    requires n < Power(w) && w > 0
    ensures DigitsValue(Padded(n, w) + rest, 0, false) == DigitsValue(rest, n, true)
    decreases w
  {
    var d := n % 10;
    DigitIs(d);
    assert ([Digit(d)] + rest)[1..] == rest;
    if w == 1 {
      assert Power(1) == 10 && Padded(n / 10, 0) == "";
      assert Padded(n, 1) + rest == [Digit(d)] + rest;
    } else {
      PaddedValue(n / 10, w - 1, [Digit(d)] + rest);
      assert Padded(n, w) + rest == Padded(n / 10, w - 1) + ([Digit(d)] + rest);
    }
  }

  lemma {:induction false} PaddedIsDigits(n: nat, w: nat)
    ensures |Padded(n, w)| == w
    ensures forall i :: 0 <= i < w ==> '0' <= Padded(n, w)[i] <= '9'
    decreases w
  {
    if w > 0 {
      DigitIs(n % 10);
      PaddedIsDigits(n / 10, w - 1);
    }
  }

  lemma DecimalIsDigits(n: nat)
    ensures |Decimal(n)| == Digits(n) > 0
    ensures forall i :: 0 <= i < |Decimal(n)| ==> '0' <= Decimal(n)[i] <= '9'
    ensures Solid(Decimal(n))
  {
    DigitsBound(n);
    PaddedIsDigits(n, Digits(n));
  }

  // Printing a number and reading it gives the number back.
  lemma ParseDecimal(n: nat)
    ensures ParseInt(Decimal(n)) == Some(n)
  {
    DigitsBound(n);
    DecimalIsDigits(n);
    PaddedValue(n, Digits(n), "");
    var s := Decimal(n);
    assert s + "" == s;
    assert StripLeft(s) == s && StripRight(s) == s;
  }

  lemma DecimalInjective(i: nat, j: nat)
    requires Decimal(i) == Decimal(j)
    ensures i == j
  {
    ParseDecimal(i);
    ParseDecimal(j);
  }

  // ------------------------------------------------------------------------- lines

  // The length of the first line, its line feed included.
  function LineLength(s: string): (n: nat)
    ensures n <= |s| && (s != "" ==> n > 0)
  {
    if s == "" then 0 else if s[0] == '\n' then 1 else 1 + LineLength(s[1..])
  }

  // rstrip(b"\r\n")
  function Chomp(s: string): string {
    if s != "" && (s[|s| - 1] == '\r' || s[|s| - 1] == '\n') then Chomp(s[..|s| - 1]) else s
  }

  predicate Ascii(s: string) { forall i :: 0 <= i < |s| ==> s[i] < '\U{80}' }

  // What a line of a header must be to come back as it was.
  predicate Plain(line: string) {
    Ascii(line) && (forall i :: 0 <= i < |line| ==> line[i] != '\n' && line[i] != '\r')
  }

  function Joined(lines: seq<string>): string {
    if lines == [] then "" else lines[0] + "\n" + Joined(lines[1..])
  }

  lemma {:induction false} LineIs(line: string, rest: string)
    requires Plain(line)
    ensures LineLength(line + ("\n" + rest)) == |line| + 1
  {
    if line != "" {
      assert (line + ("\n" + rest))[1..] == line[1..] + ("\n" + rest);
      LineIs(line[1..], rest);
    } else {
      assert line + ("\n" + rest) == "\n" + rest;
    }
  }

  lemma ChompLine(line: string)
    requires Plain(line)
    ensures Chomp(line + "\n") == line
  {
    assert (line + "\n")[..|line|] == line;
  }
}
