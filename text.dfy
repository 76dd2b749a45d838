/** The text handling the file readers and writers rely on: `std::to_string` of an int,
    `std::getline` line splitting, and the few `std::istream` operations the OBJ reader
    uses on one line (`>>` of an int, `get`, `peek`), over an in-memory string. */
module Text {
  import opened Common

  predicate IsDigit(c: char)
  {
    '0' <= c <= '9'
  }

  /** The characters `std::isspace` accepts in the "C" locale. */
  predicate IsSpace(c: char)
  {
    c == ' ' || c == '\t' || c == '\n' || c == '\r' || c == '\U{000B}' || c == '\U{000C}'
  }

  predicate AllDigits(s: string)
  {
    forall k :: 0 <= k < |s| ==> IsDigit(s[k])
  }

  function DigitChar(d: nat): (c: char)
    requires d < 10
    ensures IsDigit(c) && c as int - '0' as int == d
  {
    ['0', '1', '2', '3', '4', '5', '6', '7', '8', '9'][d]
  }

  /** The number a string of decimal digits denotes. */
  function DigitsValue(s: string): nat
    requires AllDigits(s)
  {
    if s == [] then 0
    else DigitsValue(s[..|s| - 1]) * 10 + (s[|s| - 1] as int - '0' as int)
  }

  /** The same, for the digits of `t` from `d` up to `e`, read in place. */
  function DigitsValueIn(t: string, d: nat, e: nat): int
    requires d <= e <= |t|
    decreases e - d
  {
    if e == d then 0
    else DigitsValueIn(t, d, e - 1) * 10 + (t[e - 1] as int - '0' as int)
  }

  lemma {:induction false} DigitsValueInSlice(t: string, d: nat, e: nat)
    requires d <= e <= |t| && AllDigits(t[d..e])
    ensures DigitsValueIn(t, d, e) == DigitsValue(t[d..e])
    decreases e - d
  {
    if e > d {
      assert t[d..e][..e - d - 1] == t[d..e - 1];
      DigitsValueInSlice(t, d, e - 1);
    }
  }

  /** Decimal digits of a natural number, without leading zeros. */
  function NatToString(n: nat): (s: string)
    ensures 1 <= |s| && IsDigit(s[0])
    decreases n
  {
    if n < 10 then [DigitChar(n)] else NatToString(n / 10) + [DigitChar(n % 10)]
  }

  /** The decimal form is all digits, without a leading zero. */
  lemma {:induction false} NatToStringDigits(n: nat)
    ensures AllDigits(NatToString(n))
    ensures |NatToString(n)| > 1 ==> NatToString(n)[0] != '0'
    decreases n
  {
    if n >= 10 {
      NatToStringDigits(n / 10);
      var s := NatToString(n);
      assert s[..|s| - 1] == NatToString(n / 10);
      assert s[0] == NatToString(n / 10)[0];
    }
  }

  /** `std::to_string(int)`: a minus sign for negative numbers, then the digits. */
  function IntToString(n: int): (s: string)
    ensures 1 <= |s|
    ensures n < 0 <==> s[0] == '-'
  {
    if n < 0 then "-" + NatToString(-n) else NatToString(n)
  }

  /** After its optional sign, `std::to_string` writes only digits. */
  lemma IntToStringDigits(n: int)
    ensures n >= 0 ==> AllDigits(IntToString(n))
    ensures n < 0 ==> AllDigits(IntToString(n)[1..])
  {
    if n < 0 {
      NatToStringDigits(-n);
      assert IntToString(n)[1..] == NatToString(-n);
    } else {
      NatToStringDigits(n);
    }
  }

  lemma {:induction false} NatToStringValue(n: nat)
    ensures AllDigits(NatToString(n)) && DigitsValue(NatToString(n)) == n
    decreases n
  {
    NatToStringDigits(n);
    if n >= 10 {
      var s := NatToString(n);
      NatToStringDigits(n / 10);
      NatToStringValue(n / 10);
      assert s[..|s| - 1] == NatToString(n / 10);
    }
  }

  /** The index of the first character at or after `i` that is not whitespace. */
  function SkipSpaces(t: string, i: nat): (j: nat)
    requires i <= |t|
    ensures i <= j <= |t|
    ensures j < |t| ==> !IsSpace(t[j])
    decreases |t| - i
  {
    if i < |t| && IsSpace(t[i]) then SkipSpaces(t, i + 1) else i
  }

  /** The end of the longest run of digits that starts at `i`. */
  function DigitsEnd(t: string, i: nat): (j: nat)
    requires i <= |t|
    ensures i <= j <= |t|
    ensures j < |t| ==> !IsDigit(t[j])
    decreases |t| - i
  {
    if i < |t| && IsDigit(t[i]) then DigitsEnd(t, i + 1) else i
  }

  /** An input string stream over one line: its text, the read position and the fail flag. */
  datatype Stream = Stream(text: string, pos: nat, failed: bool) {
    ghost predicate Valid()
    {
      pos <= |text|
    }
  }

  function StreamOf(t: string): (s: Stream)
    ensures s.Valid() && !s.failed && s.pos == 0 && s.text == t
  {
    Stream(t, 0, false)
  }

  /** `stream >> n` for an int: skips whitespace, reads an optional sign and the longest run
      of digits. Without a digit the extraction fails and so does every later one. */
  function ReadInt(s: Stream): (r: (Option<int>, Stream))
    requires s.Valid()
    ensures r.1.Valid() && r.1.text == s.text && s.pos <= r.1.pos
    ensures r.0.Some? <==> !r.1.failed
    ensures r.0.Some? ==> !s.failed && r.1.pos > s.pos
  {
    if s.failed then (None, s)
    else
      var i := SkipSpaces(s.text, s.pos);
      var signed := i < |s.text| && (s.text[i] == '-' || s.text[i] == '+');
      var d := if signed then i + 1 else i;
      var e := DigitsEnd(s.text, d);
      if e == d then (None, Stream(s.text, d, true))
      else
        var v := DigitsValueIn(s.text, d, e);
        (Some(if signed && s.text[i] == '-' then -v else v), Stream(s.text, e, false))
  }

  /** `stream.get()`: the next character, or end-of-file (which fails the stream). */
  function Get(s: Stream): (r: (Option<char>, Stream))
    requires s.Valid()
    ensures r.1.Valid() && r.1.text == s.text
    ensures r.0.Some? <==> (!s.failed && s.pos < |s.text|)
    ensures r.0.Some? ==> r.0.value == s.text[s.pos] && r.1 == s.(pos := s.pos + 1)
    ensures r.0.None? ==> r.1.failed
  {
    if s.failed || s.pos == |s.text| then (None, s.(failed := true))
    else (Some(s.text[s.pos]), s.(pos := s.pos + 1))
  }

  /** `stream.peek()`: the next character without consuming it. */
  function Peek(s: Stream): (r: Option<char>)
    requires s.Valid()
    ensures r.Some? <==> (!s.failed && s.pos < |s.text|)
    ensures r.Some? ==> r.value == s.text[s.pos]
  {
    if s.failed || s.pos == |s.text| then None else Some(s.text[s.pos])
  }

  /** Reading back a number `std::to_string` wrote gives the number, and stops right after it. */
  lemma ReadIntOfString(n: int, rest: string)
    requires rest == [] || !IsDigit(rest[0])
    ensures ReadInt(StreamOf(IntToString(n) + rest)) == (Some(n), Stream(IntToString(n) + rest, |IntToString(n)|, false))
  {
    var t := IntToString(n) + rest;
    assert t[0..|IntToString(n)|] == IntToString(n);
    ReadIntAt(t, 0, 0, |IntToString(n)|, n);
  }

  /** The same inside a larger text: from `q`, past whitespace up to `p`, a number written
      from `p` to `e` and not followed by a digit is read back, and reading stops at `e`. */
  lemma ReadIntAt(t: string, q: nat, p: nat, e: nat, n: int)
    requires q <= p && e == p + |IntToString(n)| <= |t|
    requires forall k :: q <= k < p ==> IsSpace(t[k])
    requires t[p..e] == IntToString(n)
    requires e < |t| ==> !IsDigit(t[e])
    ensures ReadInt(Stream(t, q, false)) == (Some(n), Stream(t, e, false))
  {
    var d := if n < 0 then p + 1 else p;
    NumberAt(t, p, n);
    SkipSpacesTo(t, q, p);
    ReadIntSteps(t, q, p, d, e, n);
  }

  /** What `>>` sees of a number `std::to_string` wrote at `p`: where its digits start and end,
      their value, and whether a sign comes first. */
  lemma NumberAt(t: string, p: nat, n: int)
    requires p + |IntToString(n)| <= |t|
    requires t[p..p + |IntToString(n)|] == IntToString(n)
    requires p + |IntToString(n)| < |t| ==> !IsDigit(t[p + |IntToString(n)|])
    ensures !IsSpace(t[p])
    ensures (t[p] == '-' || t[p] == '+') <==> n < 0
    ensures n < 0 ==> t[p] == '-'
    ensures var d := if n < 0 then p + 1 else p;
      d < p + |IntToString(n)| && DigitsEnd(t, d) == p + |IntToString(n)|
      && DigitsValueIn(t, d, p + |IntToString(n)|) == if n < 0 then -n else n
  {
    var s := IntToString(n);
    assert t[p] == s[0];
    IntToStringDigits(n);
    assert n >= 0 ==> IsDigit(s[0]);
    DigitsOfNumberAt(t, p, n);
  }

  /** The digit run of such a number: after the sign, up to the end of the number. */
  lemma DigitsOfNumberAt(t: string, p: nat, n: int)
    requires p + |IntToString(n)| <= |t|
    requires t[p..p + |IntToString(n)|] == IntToString(n)
    requires p + |IntToString(n)| < |t| ==> !IsDigit(t[p + |IntToString(n)|])
    ensures var d := if n < 0 then p + 1 else p;
      d < p + |IntToString(n)| && DigitsEnd(t, d) == p + |IntToString(n)|
      && DigitsValueIn(t, d, p + |IntToString(n)|) == if n < 0 then -n else n
  {
    var d, e := if n < 0 then p + 1 else p, p + |IntToString(n)|;
    var m: nat := if n < 0 then -n else n;
    DigitsSlice(t, p, n);
    NatToStringValue(m);
    DigitsEndOf(t, d, e);
    DigitsValueInSlice(t, d, e);
  }

  /** Past the sign, the number's text is the decimal digits of its magnitude. */
  lemma DigitsSlice(t: string, p: nat, n: int)
    requires p + |IntToString(n)| <= |t|
    requires t[p..p + |IntToString(n)|] == IntToString(n)
    ensures var d := if n < 0 then p + 1 else p;
      d <= p + |IntToString(n)| && t[d..p + |IntToString(n)|] == NatToString(if n < 0 then -n else n)
  {
    var s := IntToString(n);
    var sign := if n < 0 then "-" else "";
    var digits := NatToString(if n < 0 then -n else n);
    assert s == sign + digits;
    var d := p + |sign|;
    assert t[d..p + |s|] == t[p..p + |s|][|sign|..];
  }

  /** One `>>` of an int whose sign and digit run have been located. */
  lemma ReadIntSteps(t: string, q: nat, p: nat, d: nat, e: nat, n: int)
    requires q <= |t| && SkipSpaces(t, q) == p
    requires d == (if p < |t| && (t[p] == '-' || t[p] == '+') then p + 1 else p)
    requires d < e <= |t| && DigitsEnd(t, d) == e
    requires DigitsValueIn(t, d, e) == (if n < 0 then -n else n)
    requires (d == p + 1 && t[p] == '-') == (n < 0)
    ensures ReadInt(Stream(t, q, false)) == (Some(n), Stream(t, e, false))
  {
  }

  /** Whitespace from `q` up to a non-space at `p` is skipped exactly up to `p`. */
  lemma {:induction false} SkipSpacesTo(t: string, q: nat, p: nat)
    requires q <= p <= |t|
    requires forall k :: q <= k < p ==> IsSpace(t[k])
    requires p < |t| ==> !IsSpace(t[p])
    ensures SkipSpaces(t, q) == p
    decreases p - q
  {
    if q < p {
      SkipSpacesTo(t, q + 1, p);
    }
  }

  /** A run of digits followed by a non-digit (or the end) ends exactly there. */
  lemma {:induction false} DigitsEndOf(t: string, i: nat, j: nat)
    requires i <= j <= |t| && AllDigits(t[i..j])
    requires j < |t| ==> !IsDigit(t[j])
    ensures DigitsEnd(t, i) == j
    decreases j - i
  {
    if i < j {
      assert IsDigit(t[i..j][0]);
      assert t[i + 1..j] == t[i..j][1..];
      DigitsEndOf(t, i + 1, j);
    }
  }

  /** The position of the first `sep` in `t`, or `|t|` if there is none. */
  function IndexOf(t: string, sep: char): (i: nat)
    ensures i <= |t|
    ensures forall k :: 0 <= k < i ==> t[k] != sep
    ensures i < |t| ==> t[i] == sep
  {
    if t == [] || t[0] == sep then 0 else 1 + IndexOf(t[1..], sep)
  }

  /** The lines `std::getline(file, line)` yields: the text between newlines, without a
      final empty line after a trailing newline. */
  function Lines(content: string): (r: seq<string>)
    ensures forall k, j :: 0 <= k < |r| && 0 <= j < |r[k]| ==> r[k][j] != '\n'
    decreases |content|
  {
    if content == [] then []
    else
      var i := IndexOf(content, '\n');
      if i == |content| then [content]
      else [content[..i]] + Lines(content[i + 1..])
  }

  /** Lines joined back with newlines give the text they were read from: no line is lost or split. */
  lemma {:induction false} LinesJoin(content: string)
    requires content != [] ==> content[|content| - 1] == '\n'
    ensures Join(Lines(content)) == content
    decreases |content|
  {
    if content != [] {
      var i := IndexOf(content, '\n');
      var tail := content[i + 1..];
      IndexOfFinds(content, '\n', |content| - 1);
      LinesCons(content, i);
      LinesJoin(tail);
      JoinCons(content[..i], Lines(tail));
      SplitAt(content, i);
    }
  }

  lemma LinesCons(content: string, i: nat)
    requires i == IndexOf(content, '\n') < |content|
    ensures Lines(content) == [content[..i]] + Lines(content[i + 1..])
  {
  }

  /** A separator at `k` is found at or before `k`. */
  lemma IndexOfFinds(t: string, sep: char, k: nat)
    requires k < |t| && t[k] == sep
    ensures IndexOf(t, sep) <= k
  {
  }

  lemma JoinCons(line: string, rest: seq<string>)
    ensures Join([line] + rest) == line + "\n" + Join(rest)
  {
    assert ([line] + rest)[1..] == rest;
  }

  lemma SplitAt(t: string, i: nat)
    requires i < |t| && t[i] == '\n'
    ensures t == t[..i] + "\n" + t[i + 1..]
  {
  }

  /** Each line followed by a newline. */
  function Join(lines: seq<string>): string
  {
    if lines == [] then [] else lines[0] + "\n" + Join(lines[1..])
  }
}
