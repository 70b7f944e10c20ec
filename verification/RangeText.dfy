/** Printing ranges and parsing them back, for unsigned integer types of size values. */
module RangeText {
  import opened Options
  import opened IntRanges

  // ------------------------------------------------------------- strings

  function Digit(d: nat): (c: char)
    requires d < 10
    ensures '0' <= c <= '9' && c as int - '0' as int == d
  {
    (d + '0' as int) as char
  }

  predicate IsDigit(c: char) {
    '0' <= c <= '9'
  }

  /** The decimal digits of a number. */
  function Decimal(n: nat): string {
    if n < 10 then [Digit(n)] else Decimal(n / 10) + [Digit(n % 10)]
  }

  /** A machine integer in decimal. */
  function Itoa(n: int): string {
    if n < 0 then "-" + Decimal(-n) else Decimal(n)
  }

  /** The number some digits stand for. */
  function Value(s: string): nat
    requires forall i :: 0 <= i < |s| ==> IsDigit(s[i])
  {
    if s == [] then 0
    else
      assert IsDigit(s[|s| - 1]);
      Value(s[..|s| - 1]) * 10 + (s[|s| - 1] as int - '0' as int)
  }

  const MAX_UINT64: nat := 0xFFFF_FFFF_FFFF_FFFF

  /** Digits, at least one, of a number that fits 64 bits. */
  function ParseUint(s: string): Option<nat> {
    if s == [] || exists i :: 0 <= i < |s| && !IsDigit(s[i]) then None
    else if Value(s) > MAX_UINT64 then None
    else Some(Value(s))
  }

  /** What is parsed is cut down to the type, without a word if it does not fit. */
  function ParseUnsigned(s: string, size: nat): Option<nat>
    requires size > 0
  {
    var val := ParseUint(s);
    if val.None? then None else Some(val.value % size)
  }

  /** The white space of Unicode. */
  predicate IsSpace(c: char) {
    || c in {'\t', '\n', '\U{000B}', '\U{000C}', '\r', ' ', '\U{0085}', '\U{00A0}', '\U{1680}'}
    || '\U{2000}' <= c <= '\U{200A}'
    || c in {'\U{2028}', '\U{2029}', '\U{202F}', '\U{205F}', '\U{3000}'}
  }

  function TrimLeft(s: string, cut: char -> bool): string {
    if s != [] && cut(s[0]) then TrimLeft(s[1..], cut) else s
  }

  function TrimRight(s: string, cut: char -> bool): string {
    if s != [] && cut(s[|s| - 1]) then TrimRight(s[..|s| - 1], cut) else s
  }

  function Trim(s: string, cut: char -> bool): string {
    TrimRight(TrimLeft(s, cut), cut)
  }

  predicate IsBracket(c: char) {
    c in {'[', ' ', ']'}
  }

  function ReplaceAll(s: string, from: char, to: char): string {
    seq(|s|, i requires 0 <= i < |s| => if s[i] == from then to else s[i])
  }

  /** The pieces between separators; there is always at least one. */
  function Split(s: string, sep: char): (parts: seq<string>)
    ensures parts != []
  {
    if s == [] then [[]]
    else
      var rest := Split(s[1..], sep);
      if s[0] == sep then [[]] + rest else [[s[0]] + rest[0]] + rest[1..]
  }

  function Join(parts: seq<string>, sep: char): string {
    if parts == [] then [] else if |parts| == 1 then parts[0] else parts[0] + [sep] + Join(parts[1..], sep)
  }

  // ------------------------------------------------------------- printing

  const HALF: nat := 0x8000_0000_0000_0000

  /** An unsigned number turned into a signed one of 64 bits: from HALF on, it comes out negative. */
  function AsInt(n: nat): int {
    if n < HALF then n else n - 2 * HALF
  }

  function Term(r: Range): string
    requires 0 <= r.start <= r.end
  {
    if r.start == r.end then Itoa(AsInt(r.start)) else Itoa(AsInt(r.start)) + "-" + Itoa(AsInt(r.end))
  }

  ghost predicate Printable(ranges: seq<Range>) {
    forall i :: 0 <= i < |ranges| ==> 0 <= ranges[i].start <= ranges[i].end <= MAX_UINT64
  }

  ghost function Terms(ranges: seq<Range>): seq<string>
    requires Printable(ranges)
  {
    seq(|ranges|, i requires 0 <= i < |ranges| => Term(ranges[i]))
  }

  ghost function Print(ranges: seq<Range>): string
    requires Printable(ranges)
  {
    if ranges == [] then "*" else Join(Terms(ranges), '/')
  }

  method String(ranges: seq<Range>) returns (s: string)
    requires Printable(ranges)
    ensures s == Print(ranges)
  {
    if |ranges| == 0 {
      return "*";
    }
    var terms: seq<string> := [];
    for i := 0 to |ranges|
      invariant terms == Terms(ranges)[..i]
    {
      var r := ranges[i];
      var term;
      if r.start == r.end {
        term := Itoa(AsInt(r.start));
      } else {
        term := Itoa(AsInt(r.start)) + "-" + Itoa(AsInt(r.end));
      }
      terms := terms + [term];
    }
    assert terms == Terms(ranges);
    s := Join(terms, '/');
  }

  // ------------------------------------------------------------- parsing

  datatype Error = BadRange | TooMany

  const MAX_RANGES := 28

  /** One piece: nothing, a single number, or two numbers in either order. */
  function ParseItem(s: string, size: nat): Result<seq<Range>, Error>
    requires size > 0
  {
    if s == [] then Ok([])
    else
      var status := Split(s, '-');
      if |status| > 2 then Err(BadRange)
      else
        var start := ParseUnsigned(Trim(status[0], IsBracket), size);
        if start.None? then Err(BadRange)
        else if |status| == 1 then Ok([NewRange(start.value, start.value)])
        else
          var end := ParseUnsigned(Trim(status[1], IsBracket), size);
          if end.None? then Err(BadRange) else Ok([NewRange(start.value, end.value)])
  }

  function ParseList(list: seq<string>, size: nat): Result<seq<Range>, Error>
    requires size > 0
  {
    if list == [] then Ok([])
    else
      match ParseList(list[..|list| - 1], size)
      case Err(e) => Err(e)
      case Ok(ranges) => Extended(ranges, ParseItem(list[|list| - 1], size))
  }

  function Extended(ranges: seq<Range>, item: Result<seq<Range>, Error>): Result<seq<Range>, Error> {
    match item
    case Err(e) => Err(e)
    case Ok(more) => Ok(ranges + more)
  }

  function Parse(expected: string, size: nat): Result<seq<Range>, Error>
    requires size > 0
  {
    var trimmed := Trim(expected, IsSpace);
    if trimmed == "" || trimmed == "*" then Ok([])
    else
      var list := Split(ReplaceAll(trimmed, ',', '/'), '/');
      if |list| > MAX_RANGES then Err(TooMany) else ParseList(list, size)
  }

  // ------------------------------------------------------------- parsing what was printed

  ghost predicate Digits(s: string) {
    s != [] && forall i :: 0 <= i < |s| ==> IsDigit(s[i])
  }

  lemma {:induction false} DecimalDigits(n: nat)
    ensures Digits(Decimal(n)) && Value(Decimal(n)) == n
  {
    if n >= 10 {
      DecimalDigits(n / 10);
      var s := Decimal(n);
      assert s[..|s| - 1] == Decimal(n / 10);
    } else {
      assert Decimal(n)[..0] == [];
    }
  }

  lemma TrimDigits(s: string)
    requires Digits(s)
    ensures Trim(s, IsBracket) == s
  {
  }

  lemma {:induction false} SplitNone(s: string, sep: char)
    requires sep !in s
    ensures Split(s, sep) == [s]
  {
    if s != [] {
      assert s[0] in s;
      SplitNone(s[1..], sep);
      assert s == [s[0]] + s[1..];
    }
  }

  lemma {:induction false} SplitAt(a: string, b: string, sep: char)
    requires sep !in a
    ensures Split(a + [sep] + b, sep) == [a] + Split(b, sep)
  {
    var s := a + [sep] + b;
    if a == [] {
      assert s[1..] == b;
    } else {
      assert a[0] in a;
      SplitAt(a[1..], b, sep);
      assert s[1..] == a[1..] + [sep] + b;
      assert a == [a[0]] + a[1..];
    }
  }

  /** Joining and splitting undo each other when no piece holds the separator. */
  lemma {:induction false} SplitJoin(parts: seq<string>, sep: char)
    requires parts != [] && forall i :: 0 <= i < |parts| ==> sep !in parts[i]
    ensures Split(Join(parts, sep), sep) == parts
  {
    if |parts| == 1 {
      SplitNone(parts[0], sep);
    } else {
      SplitJoin(parts[1..], sep);
      SplitAt(parts[0], Join(parts[1..], sep), sep);
    }
  }

  lemma RemainderIsItself(n: nat, size: nat)
    requires size > 0
    ensures n % size == n <==> n < size
  {
  }

  lemma ParseDecimal(n: nat)
    requires n <= MAX_UINT64
    ensures ParseUint(Decimal(n)) == Some(n)
  {
    DecimalDigits(n);
  }

  /** A number too large for the type is not refused: it is read as another number. */
  lemma ParseCutsDown(n: nat, size: nat)
    requires 0 < size && n <= MAX_UINT64
    ensures ParseUnsigned(Decimal(n), size) == Some(n % size)
    ensures ParseUnsigned(Decimal(n), size) == Some(n) <==> n < size
  {
    ParseDecimal(n);
    RemainderIsItself(n, size);
  }

  lemma ParsePrinted(n: nat, size: nat)
    requires n < size <= MAX_UINT64 + 1
    ensures ParseUnsigned(Trim(Decimal(n), IsBracket), size) == Some(n)
  {
    DecimalDigits(n);
    TrimDigits(Decimal(n));
    ParseCutsDown(n, size);
  }

  lemma {:induction false} DigitsHaveNone(s: string, c: char)
    requires Digits(s) && !IsDigit(c)
    ensures c !in s
  {
  }

  lemma ItemOfOne(n: nat, size: nat)
    requires n < size <= MAX_UINT64 + 1
    ensures ParseItem(Decimal(n), size) == Ok([Range(n, n)])
  {
    DecimalDigits(n);
    DigitsHaveNone(Decimal(n), '-');
    ParsePrinted(n, size);
    SplitNone(Decimal(n), '-');
  }

  lemma ItemOfTwo(m: nat, n: nat, size: nat)
    requires m < n < size <= MAX_UINT64 + 1
    ensures ParseItem(Decimal(m) + ['-'] + Decimal(n), size) == Ok([Range(m, n)])
  {
    var a, b := Decimal(m), Decimal(n);
    DecimalDigits(m);
    DecimalDigits(n);
    DigitsHaveNone(a, '-');
    DigitsHaveNone(b, '-');
    ParsePrinted(m, size);
    ParsePrinted(n, size);
    SplitNone(b, '-');
    SplitAt(a, b, '-');
    assert Split(a + ['-'] + b, '-') == [a, b];
  }

  /** What is printed in place of a number too large starts with a second dash. */
  lemma SplitNegative(d: string)
    requires Digits(d)
    ensures Split("-" + d, '-') == ["", d]
  {
    DigitsHaveNone(d, '-');
    SplitNone(d, '-');
    SplitAt("", d, '-');
    assert "" + ['-'] + d == "-" + d;
  }

  /** A single number too large reads as a range without a start. */
  lemma ItemOfNegative(d: string, size: nat)
    requires size > 0 && Digits(d)
    ensures ParseItem("-" + d, size) == Err(BadRange)
  {
  }

  /** A range up to a number too large reads as three pieces or more. */
  lemma ItemUpToNegative(a: string, d: string, size: nat)
    requires size > 0 && Digits(d)
    requires Digits(a) || (a != [] && a[0] == '-' && Digits(a[1..]))
    ensures ParseItem(a + "-" + ("-" + d), size) == Err(BadRange)
  {
    SplitNegative(d);
    if Digits(a) {
      DigitsHaveNone(a, '-');
      SplitAt(a, "-" + d, '-');
    } else {
      DigitsHaveNone(a[1..], '-');
      SplitAt(a[1..], "-" + d, '-');
      SplitAt("", a[1..] + "-" + ("-" + d), '-');
      assert "" + ['-'] + (a[1..] + "-" + ("-" + d)) == a + "-" + ("-" + d);
    }
  }

  lemma ItoaOk(n: nat) returns (s: string)
    requires n <= MAX_UINT64
    ensures s == Itoa(AsInt(n)) && (if n < HALF then s == Decimal(n) && Digits(s) else s[..1] == "-" && Digits(s[1..]))
    ensures Plain(s)
  {
    s := Itoa(AsInt(n));
    if n < HALF {
      DecimalDigits(n);
    } else {
      DecimalDigits(2 * HALF - n);
      assert s[1..] == Decimal(2 * HALF - n);
    }
  }

  /** A term reads back as its range exactly when its numbers fit the machine's signed integer. */
  lemma TermOk(r: Range, size: nat)
    requires 0 <= r.start <= r.end < size <= MAX_UINT64 + 1
    ensures ParseItem(Term(r), size) == Read(r)
    ensures Plain(Term(r))
  {
    var a := ItoaOk(r.start);
    var b := ItoaOk(r.end);
    if r.end >= HALF {
      assert b == "-" + b[1..];
      if r.start == r.end {
        ItemOfNegative(b[1..], size);
      } else {
        ItemUpToNegative(a, b[1..], size);
      }
    } else if r.start == r.end {
      ItemOfOne(r.start, size);
    } else {
      ItemOfTwo(r.start, r.end, size);
    }
  }

  /** What a range printed reads as. */
  function Read(r: Range): Result<seq<Range>, Error> {
    if r.end < HALF then Ok([r]) else Err(BadRange)
  }

  /** Digits and dashes only. */
  ghost predicate Plain(s: string) {
    s != [] && forall i :: 0 <= i < |s| ==> IsDigit(s[i]) || s[i] == '-'
  }

  /** Joined terms are digits, dashes and slashes, with no slash at either end. */
  lemma {:induction false} JoinedPlain(parts: seq<string>)
    requires parts != [] && forall i :: 0 <= i < |parts| ==> Plain(parts[i])
    ensures var s := Join(parts, '/');
      && s != [] && s[0] != '/' && s[|s| - 1] != '/'
      && forall i :: 0 <= i < |s| ==> IsDigit(s[i]) || s[i] == '-' || s[i] == '/'
  {
    assert Plain(parts[0]);
    if |parts| > 1 {
      JoinedPlain(parts[1..]);
      var rest := Join(parts[1..], '/');
      var s := parts[0] + ['/'] + rest;
      assert s[|s| - 1] == rest[|rest| - 1];
    }
  }

  ghost predicate AllFit(ranges: seq<Range>) {
    forall i :: 0 <= i < |ranges| ==> ranges[i].end < HALF
  }

  lemma FitsOneMore(ranges: seq<Range>, n: nat)
    requires n < |ranges|
    ensures ranges[..n + 1] == ranges[..n] + [ranges[n]]
    ensures AllFit(ranges[..n + 1]) <==> AllFit(ranges[..n]) && ranges[n].end < HALF
  {
  }

  lemma {:induction false} ListReadsBack(list: seq<string>, ranges: seq<Range>, size: nat, n: nat)
    requires size > 0 && n <= |ranges| == |list|
    requires forall i :: 0 <= i < |ranges| ==> ParseItem(list[i], size) == Read(ranges[i])
    ensures ParseList(list[..n], size) == if AllFit(ranges[..n]) then Ok(ranges[..n]) else Err(BadRange)
  {
    if n > 0 {
      ListReadsBack(list, ranges, size, n - 1);
      assert list[..n][..n - 1] == list[..n - 1];
      FitsOneMore(ranges, n - 1);
    }
  }

  lemma TrimKeeps(s: string)
    requires s != [] && !IsSpace(s[0]) && !IsSpace(s[|s| - 1])
    ensures Trim(s, IsSpace) == s
  {
  }

  /** Plain pieces joined by slashes come apart again. */
  lemma PiecesOfJoined(terms: seq<string>) returns (s: string)
    requires terms != [] && forall i :: 0 <= i < |terms| ==> Plain(terms[i])
    ensures s == Join(terms, '/') && Trim(s, IsSpace) == s && s != "" && s != "*"
    ensures Split(ReplaceAll(s, ',', '/'), '/') == terms
  {
    s := Join(terms, '/');
    JoinedPlain(terms);
    TrimKeeps(s);
    assert ReplaceAll(s, ',', '/') == s;
    forall i | 0 <= i < |terms|
      ensures '/' !in terms[i]
    {
      assert Plain(terms[i]);
    }
    SplitJoin(terms, '/');
    assert IsDigit(s[0]) || s[0] == '-';
  }

  lemma TermsOk(ranges: seq<Range>, size: nat) returns (terms: seq<string>)
    requires 0 < size <= MAX_UINT64 + 1
    requires forall i :: 0 <= i < |ranges| ==> 0 <= ranges[i].start <= ranges[i].end < size
    ensures terms == Terms(ranges) && forall i :: 0 <= i < |terms| ==> Plain(terms[i])
    ensures ParseList(terms, size) == if AllFit(ranges) then Ok(ranges) else Err(BadRange)
  {
    terms := Terms(ranges);
    forall i | 0 <= i < |terms|
      ensures Plain(terms[i]) && ParseItem(terms[i], size) == Read(ranges[i])
    {
      TermOk(ranges[i], size);
    }
    ListReadsBack(terms, ranges, size, |ranges|);
    assert terms[..|terms|] == terms && ranges[..|ranges|] == ranges;
  }

  /** Parsing what was printed gives the list back exactly when the list is short enough to be
      parsed and its numbers fit the machine's signed integer; any other list is refused. The
      empty list goes through a star, and accepts everything again. */
  lemma ReadsBack(ranges: seq<Range>, size: nat)
    requires 0 < size <= MAX_UINT64 + 1
    requires forall i :: 0 <= i < |ranges| ==> 0 <= ranges[i].start <= ranges[i].end < size
    ensures Parse(Print(ranges), size) ==
            if |ranges| > MAX_RANGES then Err(TooMany) else if AllFit(ranges) then Ok(ranges) else Err(BadRange)
  {
    if ranges == [] {
      StarIsTrimmed();
    } else {
      var terms := TermsOk(ranges, size);
      var s := PiecesOfJoined(terms);
    }
  }

  lemma StarIsTrimmed()
    ensures Trim("*", IsSpace) == "*"
  {
  }

  // ------------------------------------------------------------- the text that is printed

  /** The decimal notation of a number: its digits, without a zero in front. */
  ghost predicate Canonical(s: string, n: nat) {
    Digits(s) && Value(s) == n && (s[0] == '0' ==> |s| == 1)
  }

  lemma {:induction false} DecimalIsCanonical(n: nat)
    ensures Canonical(Decimal(n), n) && (n > 0 ==> Decimal(n)[0] != '0')
  {
    DecimalDigits(n);
    if n >= 10 {
      DecimalIsCanonical(n / 10);
    }
  }

  /** The notation of an unsigned number turned into a signed one. */
  ghost predicate Notation(s: string, n: nat) {
    if n < HALF then Canonical(s, n) else n < 2 * HALF && s != [] && s[0] == '-' && Canonical(s[1..], 2 * HALF - n)
  }

  lemma {:induction false} ItoaNotation(n: nat) returns (s: string)
    requires n <= MAX_UINT64
    ensures s == Itoa(AsInt(n)) && Notation(s, n) && Plain(s)
  {
    s := ItoaOk(n);
    DecimalIsCanonical(if n < HALF then n else 2 * HALF - n);
  }

  lemma {:induction false} TermForm(r: Range) returns (start: string, end: string)
    requires 0 <= r.start <= r.end <= MAX_UINT64
    ensures Notation(start, r.start) && Notation(end, r.end)
    ensures Term(r) == (if r.start == r.end then start else start + "-" + end) && Plain(Term(r))
  {
    start := ItoaNotation(r.start);
    end := ItoaNotation(r.end);
  }

  /** The range is printed as one number, or as two with a dash in between. */
  ghost predicate Prints(term: string, r: Range)
    requires 0 <= r.start <= r.end
  {
    exists start, end :: Notation(start, r.start) && Notation(end, r.end)
                         && term == if r.start == r.end then start else start + "-" + end
  }

  /** A list is printed as a star if it is empty, and else range by range with a slash between any
      two, a range of one number as that number; there is no comma. */
  lemma {:induction false} PrintedForm(ranges: seq<Range>) returns (terms: seq<string>)
    requires forall i :: 0 <= i < |ranges| ==> 0 <= ranges[i].start <= ranges[i].end <= MAX_UINT64
    ensures |terms| == |ranges| && Print(ranges) == if ranges == [] then "*" else Join(terms, '/')
    ensures forall i :: 0 <= i < |terms| ==> Prints(terms[i], ranges[i]) && '/' !in terms[i]
    ensures ',' !in Print(ranges)
  {
    terms := Terms(ranges);
    forall i | 0 <= i < |terms|
      ensures Prints(terms[i], ranges[i]) && Plain(terms[i])
    {
      var start, end := TermForm(ranges[i]);
    }
    forall i | 0 <= i < |terms|
      ensures '/' !in terms[i]
    {
      assert Plain(terms[i]);
    }
    if ranges != [] {
      JoinedPlain(terms);
    }
  }
}
