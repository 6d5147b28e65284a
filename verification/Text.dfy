/** Decimal numbers, lines and tokens, as the C++ streams print and read them. */
module Text {
  import opened Seqs

  // --- Numbers -----------------------------------------------------------------------------------

  function Digit(d: nat): char
    requires d < 10
  {
    ('0' as int + d) as char
  }

  predicate IsDigit(c: char) { '0' <= c <= '9' }

  function DigitValue(c: char): (d: nat)
    requires IsDigit(c)
    ensures d < 10 && Digit(d) == c
  {
    c as int - '0' as int
  }

  function PrintNat(n: nat): (s: string)
    ensures s != "" && forall i :: 0 <= i < |s| ==> IsDigit(s[i])
  {
    if n < 10 then [Digit(n)] else PrintNat(n / 10) + [Digit(n % 10)]
  }

  function PrintInt(i: int): (s: string)
    ensures s != "" && forall k :: 0 <= k < |s| ==> IsDigit(s[k]) || s[k] == '-'
  {
    if i < 0 then "-" + PrintNat(-i) else PrintNat(i)
  }

  /** How many digits `s` starts with. */
  function DigitRun(s: string): (k: nat)
    ensures k <= |s| && forall i :: 0 <= i < k ==> IsDigit(s[i])
    ensures k < |s| ==> !IsDigit(s[k])
  {
    if s == "" || !IsDigit(s[0]) then 0 else 1 + DigitRun(s[1..])
  }

  function Value(s: string): nat
    requires forall i :: 0 <= i < |s| ==> IsDigit(s[i])
  {
    if s == "" then 0 else 10 * Value(s[..|s| - 1]) + DigitValue(s[|s| - 1])
  }

  lemma {:induction false} ValuePrint(n: nat)
    ensures Value(PrintNat(n)) == n
  {
    var s := PrintNat(n);
    if n < 10 {
      assert s[..0] == "";
    } else {
      ValuePrint(n / 10);
      assert s[..|s| - 1] == PrintNat(n / 10);
    }
  }

  predicate IsSpace(c: char) {
    c == ' ' || c == '\t' || c == '\n' || c == '\r' || c == '\U{000B}' || c == '\U{000C}'
  }

  function SkipSpace(s: string): (r: string)
    ensures |r| <= |s| && (r != "" ==> !IsSpace(r[0]))
  {
    if s == "" || !IsSpace(s[0]) then s else SkipSpace(s[1..])
  }

  /** A number and what follows it. */
  datatype Reading = NoNumber | Number(value: int, rest: string)

  /** A decimal number after optional white space, read as far as the digits go. */
  function ReadInt(s: string): (r: Reading)
    ensures r.Number? ==> |r.rest| < |s|
  {
    var t := SkipSpace(s);
    var signed := t != "" && (t[0] == '-' || t[0] == '+');
    var u := if signed then t[1..] else t;
    var k := DigitRun(u);
    var v: int := Value(u[..k]);
    if k == 0 then NoNumber else Number(if signed && t[0] == '-' then -v else v, u[k..])
  }

  /** Any number of blanks. */
  predicate Blank(s: string) { forall i :: 0 <= i < |s| ==> IsSpace(s[i]) }

  lemma {:induction false} SkipBlank(blank: string, s: string)
    requires Blank(blank) && (s != "" ==> !IsSpace(s[0]))
    ensures SkipSpace(blank + s) == s
  {
    if blank == "" {
      assert blank + s == s;
    } else {
      assert (blank + s)[1..] == blank[1..] + s;
      SkipBlank(blank[1..], s);
    }
  }

  lemma {:induction false} DigitRunAppend(s: string, t: string)
    requires (forall i :: 0 <= i < |s| ==> IsDigit(s[i])) && (t != "" ==> !IsDigit(t[0]))
    ensures DigitRun(s + t) == |s|
  {
    if s == "" {
      assert s + t == t;
    } else {
      assert (s + t)[1..] == s[1..] + t;
      DigitRunAppend(s[1..], t);
    }
  }

  /** What was printed is read back, whatever blanks precede it and whatever non-digit follows it. */
  lemma ReadPrint(blank: string, i: int, t: string)
    requires Blank(blank) && (t != "" ==> !IsDigit(t[0]))
    ensures ReadInt(blank + PrintInt(i) + t) == Number(i, t)
  {
    hide PrintNat, DigitRun, Value, SkipSpace;
    var body := PrintInt(i) + t;
    assert blank + PrintInt(i) + t == blank + body;
    SkipBlank(blank, body);
    ReadDigits(if i < 0 then -i else i, t);
    var u := if i < 0 then body[1..] else body;
    assert u == PrintNat(if i < 0 then -i else i) + t;
  }

  lemma ReadDigits(n: nat, t: string)
    requires t != "" ==> !IsDigit(t[0])
    ensures
      var u := PrintNat(n) + t;
      DigitRun(u) == |PrintNat(n)| && u[|PrintNat(n)|..] == t && Value(u[..|PrintNat(n)|]) == n
  {
    DigitRunAppend(PrintNat(n), t);
    ValuePrint(n);
    assert (PrintNat(n) + t)[..|PrintNat(n)|] == PrintNat(n);
  }

  // --- Lines -------------------------------------------------------------------------------------

  /** Each line followed by a newline. */
  function Unlines(lines: seq<string>): string {
    if lines == [] then "" else lines[0] + "\n" + Unlines(lines[1..])
  }

  /** The lines that a newline ends. */
  function Complete(s: string): (r: seq<string>)
    decreases |s|
  {
    var i := IndexOf(s, '\n');
    if i < 0 then [] else [s[..i]] + Complete(s[i + 1..])
  }

  /** What follows the last newline. */
  function Rest(s: string): (r: string)
    ensures '\n' !in r
    decreases |s|
  {
    var i := IndexOf(s, '\n');
    if i < 0 then s else Rest(s[i + 1..])
  }

  /** What std::getline yields, one after the other; a last line need not be ended. */
  function Lines(s: string): (r: seq<string>)
    decreases |s|
  {
    if s == "" then []
    else
      var i := IndexOf(s, '\n');
      if i < 0 then [s] else [s[..i]] + Lines(s[i + 1..])
  }

  lemma IndexOfNewline(line: string, t: string)
    requires '\n' !in line
    ensures IndexOf(line + "\n" + t, '\n') == |line|
    ensures (line + "\n" + t)[..|line|] == line && (line + "\n" + t)[|line| + 1..] == t
  {
    var s := line + "\n" + t;
    assert s[|line|] == '\n';
    assert s[..|line|] == line;
  }

  lemma {:induction false} LinesUnlines(lines: seq<string>)
    requires forall i :: 0 <= i < |lines| ==> '\n' !in lines[i]
    ensures Lines(Unlines(lines)) == lines
  {
    if lines != [] {
      IndexOfNewline(lines[0], Unlines(lines[1..]));
      LinesUnlines(lines[1..]);
    }
  }

  lemma {:induction false} UnlinesAppend(a: seq<string>, b: seq<string>)
    ensures Unlines(a + b) == Unlines(a) + Unlines(b)
  {
    if a == [] {
      assert a + b == b;
    } else {
      assert (a + b)[1..] == a[1..] + b;
      UnlinesAppend(a[1..], b);
    }
  }

  /** One completed line, and the stream after it. */
  lemma FirstLine(line: string, t: string)
    requires '\n' !in line
    ensures Complete(line + "\n" + t) == [line] + Complete(t) && Rest(line + "\n" + t) == Rest(t)
  {
    IndexOfNewline(line, t);
  }

  lemma NoLine(a: string)
    requires '\n' !in a
    ensures Complete(a) == [] && Rest(a) == a
  {
  }

  /** Appending to a stream: the lines completed so far stay, and only the open rest is looked at again. */
  lemma {:induction false} CompleteAppend(a: string, b: string)
    ensures Complete(a + b) == Complete(a) + Complete(Rest(a) + b)
    ensures Rest(a + b) == Rest(Rest(a) + b)
    decreases |a|
  {
    hide Complete, Rest;
    var i := IndexOf(a, '\n');
    if i < 0 {
      NoLine(a);
      assert [] + Complete(a + b) == Complete(a + b);
    } else {
      var line, t := a[..i], a[i + 1..];
      assert a == line + "\n" + t;
      assert a + b == line + "\n" + (t + b);
      FirstLine(line, t);
      FirstLine(line, t + b);
      CompleteAppend(t, b);
    }
  }
}
