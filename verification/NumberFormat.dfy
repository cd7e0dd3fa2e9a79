/**
 Number formatting (ChartNew.js): fmtChartJS writes a number with a decimal and a thousands separator,
 unFormat takes them out again. Both are modelled on the decimal text of the number; the separators are
 single characters, the thousands separator may be absent.
 */
module NumberFormat {
  import opened Numbers

  predicate IsDigit(c: char) {
    '0' <= c <= '9'
  }

  /** The characters that a regular expression calls \w. */
  predicate IsWord(c: char) {
    IsDigit(c) || 'a' <= c <= 'z' || 'A' <= c <= 'Z' || c == '_'
  }

  predicate Digits(s: string) {
    forall i | 0 <= i < |s| :: IsDigit(s[i])
  }

  /** A number that JavaScript prints without exponent. */
  datatype Decimal = Decimal(negative: bool, whole: string, fraction: string) {
    predicate Valid() {
      whole != "" && Digits(whole) && Digits(fraction)
    }

    function Integer(): string {
      (if negative then "-" else "") + whole
    }

    function Text(point: char): string {
      Integer() + (if fraction == "" then "" else [point] + fraction)
    }
  }

  // ----- String operations -----

  function ReplaceAll(s: string, from: char, to: char): (r: string)
    ensures |r| == |s|
  {
    seq(|s|, i requires 0 <= i < |s| => if s[i] == from then to else s[i])
  }

  function ReplaceFirst(s: string, from: char, to: string): string {
    var i := IndexOf(s, from);
    if i == -1 then s else s[..i] + to + s[i + 1..]
  }

  function RemoveAll(s: string, c: char): string {
    if s == "" then "" else if s[0] == c then RemoveAll(s[1..], c) else [s[0]] + RemoveAll(s[1..], c)
  }

  function Reverse(s: string): (r: string)
    ensures |r| == |s|
  {
    if s == "" then "" else Reverse(s[1..]) + [s[0]]
  }

  function LeadingDigits(s: string): nat {
    if s == "" || !IsDigit(s[0]) then 0 else 1 + LeadingDigits(s[1..])
  }

  /** A separator goes between two word characters when a whole number of groups of three digits follows. */
  function Group(s: string, sep: char): string {
    if |s| <= 1 then s
    else [s[0]]
         + (if IsWord(s[0]) && IsDigit(s[1]) && LeadingDigits(s[1..]) % 3 == 0 then [sep] else "")
         + Group(s[1..], sep)
  }

  // ----- fmtChartJS and unFormat -----

  datatype Config = Config(decimalSeparator: char, thousandSeparator: Option<char>) {
    predicate Active() {
      decimalSeparator != '.' || thousandSeparator.Some?
    }

    predicate Separator(c: char) {
      !IsDigit(c) && c != '-'
    }

    /** Neither separator can be part of a number. */
    predicate Valid() {
      Separator(decimalSeparator) && (thousandSeparator.Some? ==> Separator(thousandSeparator.value))
    }
  }

  /** Groups the part before the decimal separator; the fraction is turned round twice on the way. */
  function Separated(config: Config, text: string): string {
    if config.thousandSeparator.None? then text
    else
      var posdec := IndexOf(text, config.decimalSeparator);
      var part1 := if posdec >= 0 then text[..posdec] else text;
      var part2 := if posdec >= 0 then Reverse(text[posdec + 1..]) else "";
      var grouped := Group(part1, config.thousandSeparator.value);
      var fraction := Reverse(part2);
      if fraction != "" then grouped + [config.decimalSeparator] + fraction else grouped
  }

  function Format(config: Config, value: string): string {
    if !config.Active() then value else Separated(config, ReplaceAll(value, '.', config.decimalSeparator))
  }

  function Ungrouped(config: Config, text: string): string {
    if config.thousandSeparator.Some? then RemoveAll(text, config.thousandSeparator.value) else text
  }

  function WithPoint(config: Config, text: string): string {
    if config.decimalSeparator != '.' then ReplaceFirst(text, config.decimalSeparator, ".") else text
  }

  function Unformatted(config: Config, text: string): string {
    if !config.Active() then text else WithPoint(config, Ungrouped(config, text))
  }

  method Unformat(config: Config, text: string) returns (v1: string)
    ensures v1 == Unformatted(config, text)
  {
    v1 := text;
    if config.Active() {
      if config.thousandSeparator.Some? {
        var sep := config.thousandSeparator.value;
        while IndexOf(v1, sep) >= 0
          invariant RemoveAll(v1, sep) == RemoveAll(text, sep)
          decreases |v1|
        {
          RemoveOne(v1, IndexOf(v1, sep));
          v1 := ReplaceFirst(v1, sep, "");
        }
        RemoveNone(v1, sep);
      }
      if config.decimalSeparator != '.' {
        v1 := ReplaceFirst(v1, config.decimalSeparator, ".");
      }
    }
  }

  lemma {:induction false} RemoveOne(s: string, i: nat)
    requires i < |s|
    ensures RemoveAll(s[..i] + "" + s[i + 1..], s[i]) == RemoveAll(s, s[i])
  {
    if i == 0 {
      assert s[..0] + "" + s[1..] == s[1..];
    } else {
      RemoveOne(s[1..], i - 1);
      assert (s[..i] + "" + s[i + 1..])[1..] == s[1..][..i - 1] + "" + s[1..][i..];
    }
  }

  lemma {:induction false} RemoveNone(s: string, c: char)
    ensures c !in s ==> RemoveAll(s, c) == s
  {
    if s != "" {
      RemoveNone(s[1..], c);
      assert s == [s[0]] + s[1..];
    }
  }

  // ----- Where the separators go -----

  /** A group separator stands at every fourth place from the right, digits everywhere else, in order. */
  lemma {:induction false} GroupedDigits(s: string, sep: char)
    requires s != "" && Digits(s)
    ensures |Group(s, sep)| == |s| + (|s| - 1) / 3
    ensures forall q | 0 <= q < |Group(s, sep)| ::
              Group(s, sep)[|Group(s, sep)| - 1 - q] == if q % 4 == 3 then sep else s[|s| - 1 - (q - q / 4)]
  {
    if |s| > 1 {
      GroupedDigits(s[1..], sep);
      LeadingAll(s[1..]);
    }
  }

  lemma {:induction false} LeadingAll(s: string)
    requires Digits(s)
    ensures LeadingDigits(s) == |s|
  {
    if s != "" { LeadingAll(s[1..]); }
  }

  /** The part of a number before its point is formatted by grouping its digits; the sign stays in front. */
  lemma GroupedIntegerIs(config: Config, d: Decimal)
    requires d.Valid()
    ensures var sign := if d.negative then "-" else "";
            GroupedInteger(config, d.Integer())
            == sign + if config.thousandSeparator.Some? then Group(d.whole, config.thousandSeparator.value) else d.whole
  {
    assert ("-" + d.whole)[1..] == d.whole && "" + d.whole == d.whole;
    if config.thousandSeparator.Some? {
      assert "" + Group(d.whole, config.thousandSeparator.value) == Group(d.whole, config.thousandSeparator.value);
    }
  }

  /**
   Where the separators of a formatted number are: at every fourth place left of the point, never right of
   the sign, and there are as many as full groups of three before the last one to three digits.
   */
  lemma SeparatorPositions(config: Config, d: Decimal)
    requires config.Valid() && d.Valid() && config.thousandSeparator.Some?
    ensures var g, n := GroupedInteger(config, d.Integer()), |d.whole| + (|d.whole| - 1) / 3;
            && |g| == (if d.negative then 1 else 0) + n
            && (d.negative ==> g[0] == '-')
            && forall q | 0 <= q < n ::
                 g[|g| - 1 - q] == if q % 4 == 3 then config.thousandSeparator.value
                                   else d.whole[|d.whole| - 1 - (q - q / 4)]
  {
    GroupedIntegerIs(config, d);
    GroupedDigits(d.whole, config.thousandSeparator.value);
  }

  // ----- Round trip -----

  lemma {:induction false} GroupUndone(s: string, sep: char)
    requires sep !in s
    ensures RemoveAll(Group(s, sep), sep) == s
  {
    if |s| <= 1 {
      RemoveNone(s, sep);
    } else {
      GroupUndone(s[1..], sep);
      var rest := Group(s[1..], sep);
      RemoveConcat([s[0]], [sep] + rest, sep);
      RemoveConcat([s[0]], rest, sep);
      RemoveConcat([sep], rest, sep);
      assert [s[0]] + [sep] + rest == [s[0]] + ([sep] + rest);
      assert [s[0]] + "" + rest == [s[0]] + rest;
      assert s == [s[0]] + s[1..];
    }
  }

  lemma {:induction false} RemoveConcat(a: string, b: string, c: char)
    ensures RemoveAll(a + b, c) == RemoveAll(a, c) + RemoveAll(b, c)
  {
    if a == "" {
      assert a + b == b;
    } else {
      RemoveConcat(a[1..], b, c);
      assert (a + b)[1..] == a[1..] + b && (a + b)[0] == a[0];
    }
  }

  /** Replacing a character that occurs only between two given parts, or not at all. */
  lemma ReplacePoint(a: string, b: string, from: char, to: char)
    requires from !in a && from !in b
    ensures ReplaceAll(a + [from] + b, from, to) == a + [to] + b
    ensures ReplaceAll(a, from, to) == a
  {
  }

  lemma {:induction false} ReverseTwice(s: string)
    ensures Reverse(Reverse(s)) == s
  {
    if s != "" {
      ReverseTwice(s[1..]);
      ReverseAppend(Reverse(s[1..]), s[0]);
    }
  }

  lemma {:induction false} ReverseAppend(s: string, c: char)
    ensures Reverse(s + [c]) == [c] + Reverse(s)
  {
    if s != "" {
      ReverseAppend(s[1..], c);
      assert (s + [c])[1..] == s[1..] + [c];
    } else {
      assert s + [c] == [c];
    }
  }

  /** The position of a character that does not occur before it. */
  lemma {:induction false} IndexBetween(a: string, b: string, c: char)
    requires c !in a
    ensures IndexOf(a + [c] + b, c) == |a|
  {
    if a == "" {
      assert a + [c] + b == [c] + b;
    } else {
      IndexBetween(a[1..], b, c);
      assert (a + [c] + b)[1..] == a[1..] + [c] + b;
    }
  }

  lemma SeparatedWhole(config: Config, integer: string)
    requires config.decimalSeparator !in integer
    ensures Separated(config, integer) == GroupedInteger(config, integer)
  {
  }

  lemma SeparatedFraction(config: Config, integer: string, fraction: string)
    requires config.decimalSeparator !in integer && fraction != ""
    ensures Separated(config, integer + [config.decimalSeparator] + fraction)
            == GroupedInteger(config, integer) + [config.decimalSeparator] + fraction
  {
    SplitAtPoint(integer, fraction, config.decimalSeparator);
    ReverseTwice(fraction);
  }

  lemma TextIs(d: Decimal)
    ensures d.Text('.') == if d.fraction == "" then d.Integer() else d.Integer() + ['.'] + d.fraction
  {
    assert d.Integer() + "" == d.Integer();
    assert d.Integer() + (['.'] + d.fraction) == d.Integer() + ['.'] + d.fraction;
  }

  lemma FormatActive(config: Config, d: Decimal)
    requires config.Valid() && d.Valid() && config.Active()
    ensures Format(config, d.Text('.'))
            == if d.fraction == "" then GroupedInteger(config, d.Integer())
               else GroupedInteger(config, d.Integer()) + [config.decimalSeparator] + d.fraction
  {
    TextIs(d);
    ReplacePoint(d.Integer(), d.fraction, '.', config.decimalSeparator);
    if d.fraction == "" {
      SeparatedWhole(config, d.Integer());
    } else {
      SeparatedFraction(config, d.Integer(), d.fraction);
    }
  }

  /** With any separators the decimal point is replaced, the fraction kept, and the integer part grouped. */
  lemma FormatIs(config: Config, d: Decimal)
    requires config.Valid() && d.Valid()
    ensures Format(config, d.Text('.'))
            == if d.fraction == "" then GroupedInteger(config, d.Integer())
               else GroupedInteger(config, d.Integer()) + [config.decimalSeparator] + d.fraction
  {
    if config.Active() {
      FormatActive(config, d);
    } else {
      TextIs(d);
    }
  }

  lemma SplitAtPoint(a: string, b: string, c: char)
    requires c !in a
    ensures IndexOf(a + [c] + b, c) == |a|
    ensures (a + [c] + b)[..|a|] == a && (a + [c] + b)[|a| + 1..] == b
  {
    IndexBetween(a, b, c);
  }

  /** What fmtChartJS puts before the decimal point. */
  function GroupedInteger(config: Config, integer: string): string {
    if config.thousandSeparator.Some? then Group(integer, config.thousandSeparator.value) else integer
  }

  /** A formatted text without its thousands separators. */
  lemma SeparatorsRemoved(config: Config, integer: string, tail: string)
    requires config.thousandSeparator.Some? ==> config.thousandSeparator.value !in integer
    ensures Ungrouped(config, GroupedInteger(config, integer)) == integer
    ensures Ungrouped(config, GroupedInteger(config, integer) + tail) == integer + Ungrouped(config, tail)
  {
    if config.thousandSeparator.Some? {
      var sep := config.thousandSeparator.value;
      GroupUndone(integer, sep);
      RemoveConcat(Group(integer, sep), tail, sep);
    }
  }

  lemma FractionRemoved(fraction: string, dec: char, sep: char)
    requires sep !in fraction
    ensures RemoveAll([dec] + fraction, sep) == if dec == sep then fraction else [dec] + fraction
  {
    RemoveNone(fraction, sep);
    assert ([dec] + fraction)[1..] == fraction;
  }

  /** Putting the decimal point back. */
  lemma PointRestored(integer: string, fraction: string, dec: char)
    requires dec !in integer
    ensures ReplaceFirst(integer + [dec] + fraction, dec, ".") == integer + "." + fraction
    ensures ReplaceFirst(integer, dec, ".") == integer
  {
    SplitAtPoint(integer, fraction, dec);
  }

  /** Numbers without a fraction always survive. */
  lemma WholeRoundTrip(config: Config, d: Decimal)
    requires config.Valid() && d.Valid() && config.Active() && d.fraction == ""
    ensures Unformatted(config, Format(config, d.Text('.'))) == d.Text('.')
  {
    TextIs(d);
    FormatActive(config, d);
    SeparatorsRemoved(config, d.Integer(), "");
    PointRestored(d.Integer(), "", config.decimalSeparator);
  }

  lemma ConcatAssociative(a: string, b: string, c: string)
    ensures a + (b + c) == a + b + c
  {
  }

  lemma FractionUngrouped(config: Config, integer: string, fraction: string)
    requires config.thousandSeparator.Some? ==>
               config.thousandSeparator.value !in integer && config.thousandSeparator.value !in fraction
    ensures Ungrouped(config, GroupedInteger(config, integer) + [config.decimalSeparator] + fraction)
            == if config.thousandSeparator == Some(config.decimalSeparator) then integer + fraction
               else integer + [config.decimalSeparator] + fraction
  {
    var tail := [config.decimalSeparator] + fraction;
    SeparatorsRemoved(config, integer, tail);
    if config.thousandSeparator.Some? {
      FractionRemoved(fraction, config.decimalSeparator, config.thousandSeparator.value);
    }
    ConcatAssociative(GroupedInteger(config, integer), [config.decimalSeparator], fraction);
    ConcatAssociative(integer, [config.decimalSeparator], fraction);
  }

  /** With two different separators the fraction survives as well. */
  lemma FractionRoundTrip(config: Config, d: Decimal)
    requires config.Valid() && d.Valid() && config.Active() && d.fraction != ""
    requires config.thousandSeparator != Some(config.decimalSeparator)
    ensures Unformatted(config, Format(config, d.Text('.'))) == d.Text('.')
  {
    TextIs(d);
    FormatActive(config, d);
    FractionUngrouped(config, d.Integer(), d.fraction);
    PointRestored(d.Integer(), d.fraction, config.decimalSeparator);
  }

  /** With equal separators the decimal point is lost. */
  lemma EqualSeparatorsLosePoint(config: Config, d: Decimal)
    requires config.Valid() && d.Valid() && d.fraction != ""
    requires config.thousandSeparator == Some(config.decimalSeparator)
    ensures Unformatted(config, Format(config, d.Text('.'))) == d.Integer() + d.fraction != d.Text('.')
  {
    TextIs(d);
    FormatActive(config, d);
    FractionUngrouped(config, d.Integer(), d.fraction);
    PointRestored(d.Integer() + d.fraction, "", config.decimalSeparator);
    assert |d.Text('.')| == |d.Integer() + d.fraction| + 1;
  }

  /**
   unFormat undoes fmtChartJS for every number, unless both separators are the same character and the
   number has a fraction.
   */
  lemma FormatRoundTripIff(config: Config, d: Decimal)
    requires config.Valid() && d.Valid()
    ensures Unformatted(config, Format(config, d.Text('.'))) == d.Text('.')
            <==> d.fraction == "" || config.thousandSeparator != Some(config.decimalSeparator)
  {
    if config.Active() {
      if d.fraction == "" {
        WholeRoundTrip(config, d);
      } else if config.thousandSeparator == Some(config.decimalSeparator) {
        EqualSeparatorsLosePoint(config, d);
      } else {
        FractionRoundTrip(config, d);
      }
    }
  }

  /** With a comma for both separators 1.5 comes back as 15. */
  lemma CommaForBoth()
    ensures var config := Config(',', Some(','));
            Unformatted(config, Format(config, "1.5")) == "15"
  {
    EqualSeparatorsLosePoint(Config(',', Some(',')), Decimal(false, "1", "5"));
    assert "" + "1" == "1" && "1" + ("." + "5") == "1.5" && "1" + "5" == "15";
  }
}
