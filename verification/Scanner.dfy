/** The conversions of `sscanf` that the snapshot parser uses, and what they do to printed numbers and words. */
module Scanner {
  import opened Text
  import opened Decimal

  datatype Scanned<T> = Failed | Got(value: T, rest: string)

  /** The length of the digits at the front. */
  function DigitCount(s: string): (n: nat)
    ensures n <= |s| && AllDigits(s[..n]) && (n == |s| || !IsDigit(s[n]))
  {
    if s != [] && IsDigit(s[0]) then 1 + DigitCount(s[1..]) else 0
  }

  /** `%u`: white space, an optional sign, digits; the value is that of a 32-bit conversion. */
  function ScanUnsigned(s: string): Scanned<nat> {
    var t := TrimLeft(s);
    var signed := t != [] && (t[0] == '-' || t[0] == '+');
    var u := if signed then t[1..] else t;
    var n := DigitCount(u);
    if n == 0 then Failed
    else Got(Unsigned(signed && t[0] == '-', Value(u[..n])), u[n..])
  }

  function Unsigned(negative: bool, v: nat): (r: nat)
    ensures r < 0x1_0000_0000
    ensures !negative && v < 0x1_0000_0000 ==> r == v
  {
    if negative then (0x1_0000_0000 - v % 0x1_0000_0000) % 0x1_0000_0000 else v % 0x1_0000_0000
  }

  /** `n` conversions `%u` in a row. */
  function ScanNumbers(s: string, n: nat): Scanned<seq<nat>>
    decreases n
  {
    if n == 0 then Got([], s)
    else
      match ScanUnsigned(s)
      case Failed => Failed
      case Got(first, rest) =>
        match ScanNumbers(rest, n - 1)
        case Failed => Failed
        case Got(others, end) => Got([first] + others, end)
  }

  function WordLength(s: string, max: nat): (n: nat)
    ensures n <= |s| && n <= max
  {
    if max > 0 && s != [] && !IsSpace(s[0]) then 1 + WordLength(s[1..], max - 1) else 0
  }

  /** `%<max>s`: white space, then up to `max` other characters. */
  function ScanWord(s: string, max: nat): Scanned<string> {
    var t := TrimLeft(s);
    var n := WordLength(t, max);
    if n == 0 then Failed else Got(t[..n], t[n..])
  }

  /** A literal part of the format at the very front. */
  function ScanLiteral(s: string, literal: string): Scanned<()> {
    if literal <= s then Got((), s[|literal|..]) else Failed
  }

  // ----- Printing -----

  /** Numbers printed with `%d`, a space before each. */
  function Numbers(ns: seq<nat>): string {
    if ns == [] then "" else " " + Dec(ns[0]) + Numbers(ns[1..])
  }

  predicate Fit32(ns: seq<nat>) {
    forall i :: 0 <= i < |ns| ==> ns[i] < 0x1_0000_0000
  }

  predicate Spaceless(s: string) {
    forall i :: 0 <= i < |s| ==> !IsSpace(s[i])
  }

  /** The text ends or goes on with white space. */
  predicate Breaks(s: string) {
    s == "" || IsSpace(s[0])
  }

  lemma {:induction false} DigitCountJoin(a: string, rest: string)
    requires AllDigits(a) && (rest == "" || !IsDigit(rest[0]))
    ensures DigitCount(a + rest) == |a|
  {
    if a == "" {
      assert a + rest == rest;
    } else {
      DigitCountJoin(a[1..], rest);
      assert (a + rest)[1..] == a[1..] + rest;
    }
  }

  lemma TrimOneSpace(s: string)
    requires s != "" && !IsSpace(s[0])
    ensures TrimLeft(" " + s) == s
  {
  }

  /** A printed number is scanned back and leaves what follows it. */
  lemma ScanPrinted(n: nat, rest: string)
    requires n < 0x1_0000_0000 && Breaks(rest)
    ensures ScanUnsigned(" " + Dec(n) + rest) == Got(n, rest)
  {
    hide TrimLeft, Dec;
    var s := Dec(n) + rest;
    assert IsDigit(s[0]) by { assert s[0] == Dec(n)[0]; }
    assert " " + Dec(n) + rest == " " + s;
    TrimOneSpace(s);
    DigitCountJoin(Dec(n), rest);
    assert s[..|Dec(n)|] == Dec(n) && s[|Dec(n)|..] == rest;
    ValueOfDec(n);
  }

  lemma NumbersBreak(ns: seq<nat>, rest: string)
    requires Breaks(rest)
    ensures Breaks(Numbers(ns) + rest)
  {
  }

  /** A printed list of numbers is scanned back whole. */
  lemma {:induction false} ScanNumbersPrinted(ns: seq<nat>, rest: string)
    requires Fit32(ns) && Breaks(rest)
    ensures ScanNumbers(Numbers(ns) + rest, |ns|) == Got(ns, rest)
  {
    hide ScanUnsigned, Dec, Breaks;
    if ns == [] {
      assert Numbers(ns) + rest == rest;
    } else {
      var others := Numbers(ns[1..]) + rest;
      NumbersBreak(ns[1..], rest);
      ScanPrinted(ns[0], others);
      assert Numbers(ns) + rest == " " + Dec(ns[0]) + others;
      ScanNumbersPrinted(ns[1..], rest);
      assert [ns[0]] + ns[1..] == ns;
    }
  }

  lemma {:induction false} WordLengthJoin(w: string, rest: string, max: nat)
    requires Spaceless(w) && |w| <= max && Breaks(rest)
    ensures WordLength(w + rest, max) == |w|
  {
    if w == "" {
      assert w + rest == rest;
    } else {
      WordLengthJoin(w[1..], rest, max - 1);
      assert (w + rest)[1..] == w[1..] + rest;
    }
  }

  /** A word without white space is scanned back. */
  lemma ScanWordJoin(w: string, rest: string, max: nat)
    requires w != "" && Spaceless(w) && |w| <= max && Breaks(rest)
    ensures ScanWord(w + rest, max) == Got(w, rest)
    ensures ScanWord(" " + w + rest, max) == Got(w, rest)
  {
    WordLengthJoin(w, rest, max);
    TrimOneSpace(w + rest);
    assert " " + w + rest == " " + (w + rest);
    assert (w + rest)[..|w|] == w && (w + rest)[|w|..] == rest;
  }

  lemma {:induction false} NumbersHaveNoNewline(ns: seq<nat>)
    ensures '\n' !in Numbers(ns)
  {
    if ns != [] { NumbersHaveNoNewline(ns[1..]); }
  }

  // ----- Lines -----

  /** What `getline` yields until the end of the text, without the newlines. */
  function Lines(text: string): seq<string> {
    var pieces := Split(text, '\n');
    if pieces[|pieces| - 1] == "" then pieces[..|pieces| - 1] else pieces
  }

  /** Every line followed by a newline. */
  function Joined(lines: seq<string>): string {
    if lines == [] then "" else lines[0] + "\n" + Joined(lines[1..])
  }

  lemma {:induction false} SplitJoin(line: string, rest: string)
    requires '\n' !in line
    ensures Split(line + "\n" + rest, '\n') == [line] + Split(rest, '\n')
  {
    var s := line + "\n" + rest;
    if line == "" {
      assert s[1..] == rest;
    } else {
      SplitJoin(line[1..], rest);
      assert s[1..] == line[1..] + "\n" + rest;
      assert line == [line[0]] + line[1..];
    }
  }

  lemma {:induction false} SplitJoined(lines: seq<string>)
    requires forall i :: 0 <= i < |lines| ==> '\n' !in lines[i]
    ensures Split(Joined(lines), '\n') == lines + [""]
  {
    if lines != [] {
      SplitJoined(lines[1..]);
      SplitJoin(lines[0], Joined(lines[1..]));
    }
  }

  /** Printed lines are read back one by one. */
  lemma LinesOfJoined(lines: seq<string>)
    requires forall i :: 0 <= i < |lines| ==> '\n' !in lines[i]
    ensures Lines(Joined(lines)) == lines
  {
    SplitJoined(lines);
  }
}
