/** What the text of a list of ranges means, said without a parser, and that the parser reads
    exactly the texts that mean something as what they mean. */
module RangeGrammar {
  import opened Options
  import opened IntRanges
  import opened RangeText

  // ------------------------------------------------------------- the grammar

  ghost predicate Only(s: string, cut: char -> bool) {
    forall i :: 0 <= i < |s| ==> cut(s[i])
  }

  /** The core with nothing but characters to cut around it, at place i. */
  ghost predicate At(s: string, i: nat, core: string, cut: char -> bool) {
    i + |core| <= |s| && s[i..i + |core|] == core && Only(s[..i], cut) && Only(s[i + |core|..], cut)
  }

  ghost predicate Within(s: string, core: string, cut: char -> bool) {
    exists i: nat :: At(s, i, core, cut)
  }

  /** Nothing to cut at either end. */
  ghost predicate Bare(core: string, cut: char -> bool) {
    core == [] || (!cut(core[0]) && !cut(core[|core| - 1]))
  }

  /** Zeros in front of some digits. */
  ghost predicate Zeros(s: string, z: nat) {
    z <= |s| && forall i :: 0 <= i < z ==> s[i] == '0'
  }

  /** The decimal notation of a number, zeros in front of it allowed. */
  ghost predicate Numeral(s: string, n: nat) {
    exists z: nat :: Zeros(s, z) && s[z..] == Decimal(n)
  }

  /** A number that fits 64 bits, with brackets and blanks around it. */
  ghost predicate NumberText(s: string, n: nat) {
    n <= MAX_UINT64 && exists core :: Within(s, core, IsBracket) && Numeral(core, n)
  }

  ghost predicate SingleText(s: string, size: nat, ranges: seq<Range>)
    requires size > 0
  {
    exists n: nat :: NumberText(s, n) && ranges == [Range(n % size, n % size)]
  }

  ghost predicate TwoNumbers(a: string, b: string, size: nat, ranges: seq<Range>)
    requires size > 0
  {
    exists m: nat, n: nat :: NumberText(a, m) && NumberText(b, n) && ranges == [NewRange(m % size, n % size)]
  }

  ghost predicate PairText(s: string, size: nat, ranges: seq<Range>)
    requires size > 0
  {
    exists a, b :: s == a + ['-'] + b && TwoNumbers(a, b, size, ranges)
  }

  /** A piece: nothing, a number, or two numbers in either order; a number too large for the type
      stands for its remainder. */
  ghost predicate ItemText(s: string, size: nat, ranges: seq<Range>)
    requires size > 0
  {
    (s == "" && ranges == []) || SingleText(s, size, ranges) || PairText(s, size, ranges)
  }

  function Flat(items: seq<seq<Range>>): seq<Range> {
    if items == [] then [] else Flat(items[..|items| - 1]) + items[|items| - 1]
  }

  ghost predicate ItemTexts(list: seq<string>, size: nat, items: seq<seq<Range>>)
    requires size > 0
  {
    |items| == |list| && forall i :: 0 <= i < |list| ==> ItemText(list[i], size, items[i])
  }

  /** The pieces one after the other. */
  ghost predicate ListText(list: seq<string>, size: nat, ranges: seq<Range>)
    requires size > 0
  {
    exists items :: ItemTexts(list, size, items) && ranges == Flat(items)
  }

  /** The pieces of a text, with slashes or commas between them. */
  ghost predicate Pieces(core: string, list: seq<string>) {
    list != [] && ReplaceAll(core, ',', '/') == Join(list, '/') && forall i :: 0 <= i < |list| ==> '/' !in list[i]
  }

  ghost predicate CoreText(core: string, size: nat, ranges: seq<Range>)
    requires size > 0
  {
    if core == "" || core == "*" then ranges == []
    else exists list :: Pieces(core, list) && |list| <= MAX_RANGES && ListText(list, size, ranges)
  }

  /** The whole text: a star or nothing, or at most as many pieces as allowed, in white space. */
  ghost predicate Text(s: string, size: nat, ranges: seq<Range>)
    requires size > 0
  {
    exists core :: Within(s, core, IsSpace) && Bare(core, IsSpace) && CoreText(core, size, ranges)
  }

  function Separators(s: string): nat {
    if s == [] then 0 else Separators(s[1..]) + if s[0] == '/' || s[0] == ',' then 1 else 0
  }

  /** Every range is in order and within the type, as merging them demands. */
  ghost predicate Mergeable(ranges: seq<Range>, size: nat) {
    WellFormed(ranges, Bounds(0, size - 1))
  }

  // ------------------------------------------------------------- trimming

  lemma {:induction false} TrimLeftAt(s: string, cut: char -> bool) returns (i: nat)
    ensures i <= |s| && TrimLeft(s, cut) == s[i..] && Only(s[..i], cut) && (i < |s| ==> !cut(s[i]))
  {
    i := 0;
    if s != [] && cut(s[0]) {
      var j := TrimLeftAt(s[1..], cut);
      i := j + 1;
      assert s[1..][j..] == s[i..];
      assert s[..i] == [s[0]] + s[1..][..j];
    }
  }

  lemma {:induction false} TrimRightAt(s: string, cut: char -> bool) returns (j: nat)
    ensures j <= |s| && TrimRight(s, cut) == s[..j] && Only(s[j..], cut) && (j > 0 ==> !cut(s[j - 1]))
  {
    j := |s|;
    if s != [] && cut(s[|s| - 1]) {
      var t := s[..|s| - 1];
      j := TrimRightAt(t, cut);
      assert t[..j] == s[..j];
      assert s[j..] == t[j..] + [s[|s| - 1]];
    }
  }

  lemma TrimIsWithin(s: string, cut: char -> bool)
    ensures Within(s, Trim(s, cut), cut) && Bare(Trim(s, cut), cut)
  {
    var i := TrimLeftAt(s, cut);
    var t := s[i..];
    var j := TrimRightAt(t, cut);
    assert s[i..i + j] == t[..j];
    assert s[i + j..] == t[j..];
    assert At(s, i, t[..j], cut);
  }

  lemma AroundAndInside(s: string, i: nat, core: string, cut: char -> bool)
    requires At(s, i, core, cut)
    ensures forall k :: 0 <= k < |s| ==> if i <= k < i + |core| then s[k] == core[k - i] else cut(s[k])
  {
    forall k | 0 <= k < |s|
      ensures if i <= k < i + |core| then s[k] == core[k - i] else cut(s[k])
    {
      if k < i {
        assert s[k] == s[..i][k];
      } else if k < i + |core| {
        assert s[k] == s[i..i + |core|][k - i];
      } else {
        assert s[k] == s[i + |core|..][k - (i + |core|)];
      }
    }
  }

  lemma SamePlace(s: string, i: nat, x: string, j: nat, y: string, cut: char -> bool)
    requires At(s, i, x, cut) && Bare(x, cut) && At(s, j, y, cut) && Bare(y, cut) && x != []
    ensures j <= i && i + |x| <= j + |y|
  {
    AroundAndInside(s, i, x, cut);
    AroundAndInside(s, j, y, cut);
    assert !cut(s[i]) && !cut(s[i + |x| - 1]);
  }

  /** Trimming finds the one bare core. */
  lemma TrimIsCore(s: string, core: string, cut: char -> bool)
    ensures core == Trim(s, cut) <==> Within(s, core, cut) && Bare(core, cut)
  {
    TrimIsWithin(s, cut);
    if Within(s, core, cut) && Bare(core, cut) {
      var trimmed := Trim(s, cut);
      var i: nat :| At(s, i, core, cut);
      var j: nat :| At(s, j, trimmed, cut);
      if core != [] {
        SamePlace(s, i, core, j, trimmed, cut);
      }
      if trimmed != [] {
        SamePlace(s, j, trimmed, i, core, cut);
      }
    }
  }

  // ------------------------------------------------------------- numbers

  lemma {:induction false} LeadingZeros(s: string, z: nat)
    requires Only(s, IsDigit) && Zeros(s, z)
    ensures Value(s) == Value(s[z..])
  {
    if z < |s| {
      var t := s[..|s| - 1];
      LeadingZeros(t, z);
      assert s[z..][..|s[z..]| - 1] == t[z..];
    } else if s != [] {
      var t := s[..|s| - 1];
      LeadingZeros(t, z - 1);
      assert t[z - 1..] == [] == s[z..];
    }
  }

  lemma ValueOfNumeral(s: string, n: nat)
    requires Numeral(s, n)
    ensures Digits(s) && Value(s) == n
  {
    var z: nat :| Zeros(s, z) && s[z..] == Decimal(n);
    DecimalDigits(n);
    forall i | 0 <= i < |s|
      ensures IsDigit(s[i])
    {
      if i >= z {
        assert s[i] == s[z..][i - z];
      }
    }
    LeadingZeros(s, z);
  }

  lemma OneMoreDigit(v: nat, d: nat)
    requires d < 10
    ensures Decimal(v * 10 + d) == if v == 0 then [Digit(d)] else Decimal(v) + [Digit(d)]
  {
    assert (v * 10 + d) / 10 == v && (v * 10 + d) % 10 == d;
  }

  lemma NumeralLonger(t: string, v: nat, d: nat)
    requires Numeral(t, v) && d < 10
    ensures Numeral(t + [Digit(d)], v * 10 + d)
  {
    var s := t + [Digit(d)];
    var z: nat :| Zeros(t, z) && t[z..] == Decimal(v);
    OneMoreDigit(v, d);
    if v == 0 {
      assert t[z..][0] == Digit(0) && |t[z..]| == 1;
      assert Zeros(s, |t|) && s[|t|..] == [Digit(d)];
    } else {
      assert Zeros(s, z) && s[z..] == t[z..] + [Digit(d)];
    }
  }

  lemma {:induction false} NumeralOfDigits(s: string)
    requires Digits(s)
    ensures Numeral(s, Value(s))
  {
    var t, last := s[..|s| - 1], s[|s| - 1];
    var d := last as int - '0' as int;
    assert s == t + [Digit(d)];
    if t == [] {
      assert Value(t) == 0;
      assert Zeros(s, 0) && s[0..] == Decimal(d);
    } else {
      NumeralOfDigits(t);
      NumeralLonger(t, Value(t), d);
    }
  }

  lemma DigitsAreBare(s: string)
    requires Digits(s)
    ensures Bare(s, IsBracket)
  {
  }

  /** A number is read from exactly the texts of it. */
  lemma NumberIs(s: string, n: nat)
    ensures ParseUint(Trim(s, IsBracket)) == Some(n) <==> NumberText(s, n)
  {
    var trimmed := Trim(s, IsBracket);
    TrimIsCore(s, trimmed, IsBracket);
    if ParseUint(trimmed) == Some(n) {
      NumeralOfDigits(trimmed);
    }
    if NumberText(s, n) {
      var core :| Within(s, core, IsBracket) && Numeral(core, n);
      ValueOfNumeral(core, n);
      DigitsAreBare(core);
      TrimIsCore(s, core, IsBracket);
    }
  }

  /** The text of a number holds no dash. */
  lemma NumberHasNoDash(s: string, n: nat)
    requires NumberText(s, n)
    ensures '-' !in s
  {
    var core :| Within(s, core, IsBracket) && Numeral(core, n);
    var i: nat :| At(s, i, core, IsBracket);
    ValueOfNumeral(core, n);
    AroundAndInside(s, i, core, IsBracket);
  }

  // ------------------------------------------------------------- pieces

  lemma {:induction false} JoinSplit(s: string, sep: char)
    ensures Join(Split(s, sep), sep) == s
    ensures forall i :: 0 <= i < |Split(s, sep)| ==> sep !in Split(s, sep)[i]
  {
    if s != [] {
      JoinSplit(s[1..], sep);
      var rest := Split(s[1..], sep);
      assert s == [s[0]] + s[1..];
      if s[0] == sep {
        assert ([[]] + rest)[1..] == rest;
      } else {
        assert ([[s[0]] + rest[0]] + rest[1..])[1..] == rest[1..];
        assert |rest| == 1 ==> Join(rest, sep) == rest[0];
        assert |rest| > 1 ==> Join(rest, sep) == rest[0] + [sep] + Join(rest[1..], sep);
      }
    }
  }

  /** Splitting gives the one list of pieces without the separator that joins to the text. */
  lemma SplitIs(s: string, sep: char, parts: seq<string>)
    ensures Split(s, sep) == parts <==>
            parts != [] && Join(parts, sep) == s && forall i :: 0 <= i < |parts| ==> sep !in parts[i]
  {
    JoinSplit(s, sep);
    if parts != [] && Join(parts, sep) == s && forall i :: 0 <= i < |parts| ==> sep !in parts[i] {
      SplitJoin(parts, sep);
    }
  }

  lemma SplitInTwo(s: string, a: string, b: string)
    ensures Split(s, '-') == [a, b] <==> s == a + ['-'] + b && '-' !in a && '-' !in b
  {
    SplitIs(s, '-', [a, b]);
    assert [a, b][1..] == [b];
    assert Join([a, b], '-') == a + ['-'] + b;
    if '-' !in a && '-' !in b {
      assert forall i :: 0 <= i < 2 ==> '-' !in [a, b][i];
    }
    assert [a, b][0] == a && [a, b][1] == b;
  }

  lemma ItemOfNumber(s: string, size: nat)
    requires size > 0 && s != "" && |Split(s, '-')| == 1
    ensures Split(s, '-') == [s] && forall ranges :: ParseItem(s, size) == Ok(ranges) <==> SingleText(s, size, ranges)
  {
    SplitIs(s, '-', Split(s, '-'));
    assert Split(s, '-') == [s];
    forall ranges
      ensures ParseItem(s, size) == Ok(ranges) <==> SingleText(s, size, ranges)
    {
      var val := ParseUint(Trim(s, IsBracket));
      if val.Some? {
        NumberIs(s, val.value);
      }
      if SingleText(s, size, ranges) {
        var n: nat :| NumberText(s, n) && ranges == [Range(n % size, n % size)];
        NumberIs(s, n);
      }
    }
  }

  lemma ItemOfPair(s: string, size: nat, a: string, b: string, ranges: seq<Range>)
    requires size > 0 && Split(s, '-') == [a, b]
    ensures ParseItem(s, size) == Ok(ranges) <==> TwoNumbers(a, b, size, ranges)
  {
    var x, y := ParseUint(Trim(a, IsBracket)), ParseUint(Trim(b, IsBracket));
    assert s != "";
    if x.Some? && y.Some? {
      NumberIs(a, x.value);
      NumberIs(b, y.value);
    }
    if m: nat, n: nat :| NumberText(a, m) && NumberText(b, n) && ranges == [NewRange(m % size, n % size)] {
      NumberIs(a, m);
      NumberIs(b, n);
    }
  }

  lemma PairIsSplit(s: string, size: nat, ranges: seq<Range>)
    requires size > 0
    ensures PairText(s, size, ranges) <==> |Split(s, '-')| == 2 && TwoNumbers(Split(s, '-')[0], Split(s, '-')[1], size, ranges)
  {
    var parts := Split(s, '-');
    if PairText(s, size, ranges) {
      var a, b :| s == a + ['-'] + b && TwoNumbers(a, b, size, ranges);
      var m: nat, n: nat :| NumberText(a, m) && NumberText(b, n) && ranges == [NewRange(m % size, n % size)];
      NumberHasNoDash(a, m);
      NumberHasNoDash(b, n);
      SplitInTwo(s, a, b);
    }
    if |parts| == 2 {
      assert parts == [parts[0], parts[1]];
      SplitInTwo(s, parts[0], parts[1]);
    }
  }

  lemma SingleIsNotSplit(s: string, size: nat, ranges: seq<Range>)
    requires size > 0 && SingleText(s, size, ranges)
    ensures Split(s, '-') == [s] && s != ""
  {
    var n: nat :| NumberText(s, n) && ranges == [Range(n % size, n % size)];
    NumberHasNoDash(s, n);
    SplitNone(s, '-');
    NumberIs(s, n);
  }

  /** A piece is read exactly as what it means, and refused when it means nothing. */
  lemma ItemIs(s: string, size: nat, ranges: seq<Range>)
    requires size > 0
    ensures ParseItem(s, size) == Ok(ranges) <==> ItemText(s, size, ranges)
  {
    var parts := Split(s, '-');
    PairIsSplit(s, size, ranges);
    if SingleText(s, size, ranges) {
      SingleIsNotSplit(s, size, ranges);
    }
    if s == "" {
    } else if |parts| == 1 {
      ItemOfNumber(s, size);
    } else if |parts| == 2 {
      assert parts == [parts[0], parts[1]];
      ItemOfPair(s, size, parts[0], parts[1], ranges);
    }
  }

  // ------------------------------------------------------------- lists

  lemma {:induction false} OneMoreItem(list: seq<string>, s: string, size: nat, ranges: seq<Range>, item: seq<Range>)
    requires size > 0 && ListText(list, size, ranges) && ItemText(s, size, item)
    ensures ListText(list + [s], size, ranges + item)
  {
    var items :| ItemTexts(list, size, items) && ranges == Flat(items);
    var all := items + [item];
    assert all[..|all| - 1] == items;
    assert ItemTexts(list + [s], size, all);
  }

  lemma {:induction false} ReadOneMore(list: seq<string>, s: string, size: nat)
    requires size > 0 && ParseList(list + [s], size).Ok?
    ensures ParseList(list, size).Ok? && ParseItem(s, size).Ok?
    ensures ParseList(list + [s], size).value == ParseList(list, size).value + ParseItem(s, size).value
  {
    assert (list + [s])[..|list|] == list;
  }

  lemma {:induction false} ListMeans(list: seq<string>, size: nat)
    requires size > 0 && ParseList(list, size).Ok?
    ensures ListText(list, size, ParseList(list, size).value)
  {
    if list == [] {
      assert ItemTexts(list, size, []);
    } else {
      var front, last := list[..|list| - 1], list[|list| - 1];
      assert list == front + [last];
      ReadOneMore(front, last, size);
      ListMeans(front, size);
      ItemIs(last, size, ParseItem(last, size).value);
      OneMoreItem(front, last, size, ParseList(front, size).value, ParseItem(last, size).value);
    }
  }

  lemma {:induction false} ListIsRead(list: seq<string>, size: nat, items: seq<seq<Range>>)
    requires size > 0 && ItemTexts(list, size, items)
    ensures ParseList(list, size) == Ok(Flat(items))
  {
    if list != [] {
      var n := |list| - 1;
      ListIsRead(list[..n], size, items[..n]);
      ItemIs(list[n], size, items[n]);
    }
  }

  /** A list of pieces is read exactly as what the pieces mean one after the other. */
  lemma ListIs(list: seq<string>, size: nat, ranges: seq<Range>)
    requires size > 0
    ensures ParseList(list, size) == Ok(ranges) <==> ListText(list, size, ranges)
  {
    if ParseList(list, size) == Ok(ranges) {
      ListMeans(list, size);
    }
    if ListText(list, size, ranges) {
      var items :| ItemTexts(list, size, items) && ranges == Flat(items);
      ListIsRead(list, size, items);
    }
  }

  lemma ItemInBounds(s: string, size: nat)
    requires size > 0 && ParseItem(s, size).Ok?
    ensures |ParseItem(s, size).value| <= 1 && Mergeable(ParseItem(s, size).value, size)
  {
  }

  /** Whatever was read is within the type and in order, one range at most for each piece. */
  lemma {:induction false} ListInBounds(list: seq<string>, size: nat)
    requires size > 0 && ParseList(list, size).Ok?
    ensures |ParseList(list, size).value| <= |list| && Mergeable(ParseList(list, size).value, size)
  {
    if list != [] {
      ListInBounds(list[..|list| - 1], size);
      ItemInBounds(list[|list| - 1], size);
    }
  }

  // ------------------------------------------------------------- texts

  lemma {:induction false} SplitCount(s: string)
    ensures |Split(ReplaceAll(s, ',', '/'), '/')| == Separators(s) + 1
  {
    if s != [] {
      SplitCount(s[1..]);
      assert ReplaceAll(s, ',', '/')[1..] == ReplaceAll(s[1..], ',', '/');
    }
  }

  lemma PiecesAre(core: string, list: seq<string>)
    ensures Pieces(core, list) <==> list == Split(ReplaceAll(core, ',', '/'), '/')
  {
    SplitIs(ReplaceAll(core, ',', '/'), '/', list);
  }

  /** The text is read exactly as what it means. */
  lemma TextIs(s: string, size: nat, ranges: seq<Range>)
    requires size > 0
    ensures Parse(s, size) == Ok(ranges) <==> Text(s, size, ranges)
  {
    var trimmed := Trim(s, IsSpace);
    TrimIsCore(s, trimmed, IsSpace);
    if trimmed != "" && trimmed != "*" {
      CoreIs(trimmed, size, ranges);
    }
    if Text(s, size, ranges) {
      var core :| Within(s, core, IsSpace) && Bare(core, IsSpace) && CoreText(core, size, ranges);
      TrimIsCore(s, core, IsSpace);
    }
  }

  lemma CoreIs(core: string, size: nat, ranges: seq<Range>)
    requires size > 0 && core != "" && core != "*"
    ensures var list := Split(ReplaceAll(core, ',', '/'), '/');
            CoreText(core, size, ranges) <==> |list| <= MAX_RANGES && ParseList(list, size) == Ok(ranges)
  {
    var list := Split(ReplaceAll(core, ',', '/'), '/');
    PiecesAre(core, list);
    ListIs(list, size, ranges);
    if CoreText(core, size, ranges) {
      var pieces :| Pieces(core, pieces) && |pieces| <= MAX_RANGES && ListText(pieces, size, ranges);
      PiecesAre(core, pieces);
    }
  }

  /** Too many separators are the only fault told apart from the others. */
  lemma TooManyIs(s: string, size: nat)
    requires size > 0
    ensures Parse(s, size) == Err(TooMany) <==> Separators(Trim(s, IsSpace)) >= MAX_RANGES
  {
    var trimmed := Trim(s, IsSpace);
    SplitCount(trimmed);
    OnlyBadRange(Split(ReplaceAll(trimmed, ',', '/'), '/'), size);
  }

  lemma {:induction false} OnlyBadRange(list: seq<string>, size: nat)
    requires size > 0
    ensures ParseList(list, size) != Err(TooMany)
  {
    if list != [] {
      OnlyBadRange(list[..|list| - 1], size);
    }
  }

  // ------------------------------------------------------------- the operations

  lemma OneMore(list: seq<string>, n: nat, size: nat)
    requires size > 0 && n < |list| && ParseList(list[..n], size).Ok?
    ensures ParseList(list[..n + 1], size) == Extended(ParseList(list[..n], size).value, ParseItem(list[n], size))
  {
    assert list[..n + 1][..n] == list[..n];
  }

  lemma {:induction false} FaultStays(list: seq<string>, n: nat, size: nat)
    requires size > 0 && n <= |list| && ParseList(list[..n], size).Err?
    ensures ParseList(list, size) == ParseList(list[..n], size)
    decreases |list|
  {
    if n < |list| {
      assert list[..|list| - 1][..n] == list[..n];
      FaultStays(list[..|list| - 1], n, size);
    } else {
      assert list[..n] == list;
    }
  }

  /** The loop over the pieces. */
  method ReadList(list: seq<string>, size: nat) returns (result: Result<seq<Range>, Error>)
    requires size > 0
    ensures result == ParseList(list, size)
  {
    var ranges: seq<Range> := [];
    for n := 0 to |list|
      invariant ParseList(list[..n], size) == Ok(ranges)
    {
      OneMore(list, n, size);
      var s := list[n];
      if s == "" {
        assert ranges + [] == ranges;
        continue;
      }
      var item := ParseItem(s, size);
      if item.Err? {
        FaultStays(list, n + 1, size);
        return item;
      }
      ranges := ranges + item.value;
    }
    assert list[..|list|] == list;
    result := Ok(ranges);
  }

  /** The pieces of a list, read as what they mean one after the other. */
  method NewUnsignedRangesFromList(list: seq<string>, size: nat) returns (result: Result<seq<Range>, Error>)
    requires size > 0
    ensures result == ParseList(list, size)
    ensures forall ranges :: result == Ok(ranges) <==> ListText(list, size, ranges)
    ensures result.Ok? ==> |result.value| <= |list| && Mergeable(result.value, size)
    ensures result != Err(TooMany)
  {
    result := ReadList(list, size);
    forall ranges
      ensures result == Ok(ranges) <==> ListText(list, size, ranges)
    {
      ListIs(list, size, ranges);
    }
    OnlyBadRange(list, size);
    if result.Ok? {
      ListInBounds(list, size);
    }
  }

  /** A text, read as what it means; whatever was read can be merged. */
  method NewUnsignedRanges(expected: string, size: nat) returns (result: Result<seq<Range>, Error>)
    requires size > 0
    ensures result == Parse(expected, size)
    ensures forall ranges :: result == Ok(ranges) <==> Text(expected, size, ranges)
    ensures result.Ok? ==> |result.value| <= MAX_RANGES && Mergeable(result.value, size)
    ensures result == Err(TooMany) <==> Separators(Trim(expected, IsSpace)) >= MAX_RANGES
  {
    TextIsRead(expected, size);
    TooManyIs(expected, size);
    var trimmed := Trim(expected, IsSpace);
    if |trimmed| == 0 || trimmed == "*" {
      return Ok([]);
    }
    var list := Split(ReplaceAll(trimmed, ',', '/'), '/');
    if |list| > 28 {
      return Err(TooMany);
    }
    result := NewUnsignedRangesFromList(list, size);
  }

  lemma TextIsRead(s: string, size: nat)
    requires size > 0
    ensures forall ranges :: Parse(s, size) == Ok(ranges) <==> Text(s, size, ranges)
  {
    forall ranges
      ensures Parse(s, size) == Ok(ranges) <==> Text(s, size, ranges)
    {
      TextIs(s, size, ranges);
    }
  }

  lemma {:induction false} TextInBounds(s: string, size: nat, ranges: seq<Range>)
    requires size > 0 && Text(s, size, ranges)
    ensures |ranges| <= MAX_RANGES && Mergeable(ranges, size)
  {
    TextIs(s, size, ranges);
    ParsedInBounds(s, size, Trim(s, IsSpace));
  }

  lemma {:induction false} ParsedInBounds(s: string, size: nat, trimmed: string)
    requires size > 0 && trimmed == Trim(s, IsSpace) && Parse(s, size).Ok?
    ensures |Parse(s, size).value| <= MAX_RANGES && Mergeable(Parse(s, size).value, size)
  {
    if trimmed != "" && trimmed != "*" {
      ListInBounds(Split(ReplaceAll(trimmed, ',', '/'), '/'), size);
    }
  }

  /** Printing what a text means gives a text that means the same, exactly when the numbers fit the
      machine's signed integer; otherwise it means nothing. */
  lemma PrintedMeansTheSame(s: string, size: nat, ranges: seq<Range>)
    requires 0 < size <= MAX_UINT64 + 1 && Text(s, size, ranges)
    ensures Printable(ranges)
    ensures Text(Print(ranges), size, ranges) <==> AllFit(ranges)
    ensures !AllFit(ranges) ==> !exists other :: Text(Print(ranges), size, other)
  {
    TextInBounds(s, size, ranges);
    ReadsBack(ranges, size);
    TextIsRead(Print(ranges), size);
  }
}
