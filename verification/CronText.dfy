/** What the texts of cron fields mean, told by writing them down: lists, ranges, steps, numbers and words. */
module CronText {
  import opened Common
  import opened DecimalText
  import opened Cron

  // ---------------------------------------------------------------------
  // Numbers
  // ---------------------------------------------------------------------

  lemma {:induction false} DigitsOfDecimal(n: nat)
    ensures Digits(Decimal(n)) == Some(n)
    decreases n
  {
    NumberOfDecimal(n);
    if n >= 10 {
      DigitsOfDecimal(n / 10);
      var text := Decimal(n);
      assert text[..|text| - 1] == Decimal(n / 10);
      assert IsDigit(text[|text| - 2]) && IsDigit(text[|text| - 1]);
    }
  }

  /** A single underscore between two digits does not count. */
  lemma {:induction false} UnderscoreIsSkipped(text: string, digit: char)
    requires text != "" && text[|text| - 1] != '_' && IsDigit(digit)
    ensures Digits(text + ['_', digit]) == Digits(text + [digit])
  {
    var apart, together := text + ['_', digit], text + [digit];
    assert apart[..|apart| - 2] == text == together[..|together| - 1];
  }

  /** Nothing but digits and underscores is a number. */
  lemma {:induction false} OnlyDigitsCount(text: string, i: nat)
    requires i < |text| && !IsDigit(text[i]) && text[i] != '_'
    ensures Digits(text).None?
    decreases |text|
  {
    var n := |text|;
    if n > 1 && IsDigit(text[n - 1]) {
      if text[n - 2] == '_' {
        OnlyDigitsCount(text[..n - 2], i);
      } else {
        OnlyDigitsCount(text[..n - 1], i);
      }
    }
  }

  /** A number may carry a sign. */
  lemma IntegerTexts(n: nat)
    ensures Integer(Decimal(n)) == Some(n)
    ensures Integer("+" + Decimal(n)) == Some(n)
    ensures Integer("-" + Decimal(n)) == Some(0 - n)
  {
    NumberOfDecimal(n);
    DigitsOfDecimal(n);
    var text := Decimal(n);
    assert IsDigit(text[0]);
    assert ("+" + text)[1..] == text && ("-" + text)[1..] == text;
  }

  // ---------------------------------------------------------------------
  // Items
  // ---------------------------------------------------------------------

  lemma FirstAt(text: string, c: char, i: nat)
    requires i < |text| && text[i] == c && c !in text[..i]
    ensures IndexOf(text, c) == Some(i)
  {
    assert c in text;
  }

  lemma PlainDigits(n: nat)
    ensures var text := Decimal(n);
            text != "" && text != "*" && '/' !in text && '-' !in text && ',' !in text
  {
    NumberOfDecimal(n);
    assert forall i | 0 <= i < |Decimal(n)| :: IsDigit(Decimal(n)[i]);
  }

  predicate InField(a: int, z: int, b: Bounds) {
    b.minimum <= a <= z <= if b.sundayAlias then 7 else b.maximum
  }

  /** A star is the whole field, a number itself; a number outside the field is refused. */
  lemma NumberItems(a: nat, b: Bounds)
    requires b.minimum <= b.maximum && (b.sundayAlias ==> b.maximum <= 7)
    ensures ParseItem("*", b) == Ok(Item(b.minimum, b.maximum, 1))
    ensures if InField(a, a, b) then ParseItem(Decimal(a), b) == Ok(Item(a, a, 1)) else ParseItem(Decimal(a), b).Err?
  {
    hide Digits, Decimal;
    PlainDigits(a);
    IntegerTexts(a);
    hide Integer;
  }

  /** A range is all its numbers; one that leaves the field or runs backwards is refused. */
  lemma RangeItems(a: nat, z: nat, b: Bounds)
    ensures var part := Decimal(a) + "-" + Decimal(z);
            if InField(a, z, b) then ParseItem(part, b) == Ok(Item(a, z, 1)) else ParseItem(part, b).Err?
  {
    hide Digits, Decimal;
    PlainDigits(a);
    PlainDigits(z);
    IntegerTexts(a);
    IntegerTexts(z);
    hide Integer;
    var part := Decimal(a) + "-" + Decimal(z);
    FirstAt(part, '-', |Decimal(a)|);
    assert part[..|Decimal(a)|] == Decimal(a) && part[|Decimal(a)| + 1..] == Decimal(z);
  }

  /** A step after any of them: from a single number it runs to the end of the field. */
  lemma SteppedItems(a: nat, z: nat, step: nat, b: Bounds)
    requires b.minimum <= b.maximum && (b.sundayAlias ==> b.maximum <= 7)
    ensures 1 <= step ==> ParseItem("*/" + Decimal(step), b) == Ok(Item(b.minimum, b.maximum, step))
    ensures 1 <= step && InField(a, b.maximum, b) ==>
              ParseItem(Decimal(a) + "/" + Decimal(step), b) == Ok(Item(a, b.maximum, step))
    ensures 1 <= step && InField(a, z, b) ==>
              ParseItem(Decimal(a) + "-" + Decimal(z) + "/" + Decimal(step), b) == Ok(Item(a, z, step))
    ensures step == 0 ==> ParseItem("*/" + Decimal(step), b).Err?
  {
    hide Decimal, ParseItem;
    PlainDigits(a);
    PlainDigits(z);
    IntegerTexts(a);
    IntegerTexts(z);
    hide Integer;
    StepAfter("*", step, b);
    assert "*" + "/" + Decimal(step) == "*/" + Decimal(step);
    StepAfter(Decimal(a), step, b);
    var range := Decimal(a) + "-" + Decimal(z);
    StepAfter(range, step, b);
    FirstAt(range, '-', |Decimal(a)|);
    assert range[..|Decimal(a)|] == Decimal(a) && range[|Decimal(a)| + 1..] == Decimal(z);
  }

  /** Reading `base/step`. */
  lemma StepAfter(base: string, step: nat, b: Bounds)
    requires base != "" && '/' !in base
    ensures var part := base + "/" + Decimal(step);
            && (step == 0 ==> ParseItem(part, b).Err?)
            && (1 <= step && base == "*" && b.minimum <= b.maximum && (b.sundayAlias ==> b.maximum <= 7) ==>
                  ParseItem(part, b) == Ok(Item(b.minimum, b.maximum, step)))
            && (1 <= step && base != "*" && IndexOf(base, '-').None? && Integer(base).Some? ==>
                  (InField(Integer(base).value, b.maximum, b) ==>
                     ParseItem(part, b) == Ok(Item(Integer(base).value, b.maximum, step))))
            && (1 <= step && base != "*" && IndexOf(base, '-').Some? ==>
                  var dash := IndexOf(base, '-').value;
                  var start, end := Integer(base[..dash]), Integer(base[dash + 1..]);
                  start.Some? && end.Some? && InField(start.value, end.value, b) ==>
                    ParseItem(part, b) == Ok(Item(start.value, end.value, step)))
  {
    hide Decimal, Integer;
    IntegerTexts(step);
    var part := base + "/" + Decimal(step);
    FirstAt(part, '/', |base|);
    assert part[..|base|] == base && part[|base| + 1..] == Decimal(step);
  }

  // ---------------------------------------------------------------------
  // Lists and words
  // ---------------------------------------------------------------------

  /** The parts with the separator between them. */
  function Listing(parts: seq<string>, c: char): string {
    if parts == [] then "" else if |parts| == 1 then parts[0] else parts[0] + [c] + Listing(parts[1..], c)
  }

  lemma SplitFirst(first: string, rest: string, c: char)
    requires c !in first
    ensures Split(first + [c] + rest, c) == [first] + Split(rest, c)
  {
    var text := first + [c] + rest;
    assert text[..|first|] == first && text[|first| + 1..] == rest;
    FirstAt(text, c, |first|);
  }

  /** Splitting a list gives its parts. */
  lemma {:induction false} SplitOfListing(parts: seq<string>, c: char)
    requires parts != [] && forall p | p in parts :: c !in p
    ensures Split(Listing(parts, c), c) == parts
    decreases |parts|
  {
    if |parts| == 1 {
      assert parts == [parts[0]];
    } else {
      hide Split, IndexOf;
      SplitOfListing(parts[1..], c);
      SplitFirst(parts[0], Listing(parts[1..], c), c);
      assert parts == [parts[0]] + parts[1..];
    }
  }

  /** Every text is the list of the parts it splits into, none of which holds a separator. */
  lemma {:induction false} ListingOfSplit(text: string, c: char)
    ensures Listing(Split(text, c), c) == text
    ensures forall p | p in Split(text, c) :: c !in p
    decreases |text|
  {
    var i := IndexOf(text, c);
    if i.Some? {
      ListingOfSplit(text[i.value + 1..], c);
      assert text == text[..i.value] + [c] + text[i.value + 1..];
      assert Split(text, c)[1..] == Split(text[i.value + 1..], c);
    }
  }

  predicate IsWord(text: string) {
    text != "" && forall i | 0 <= i < |text| :: !IsSpace(text[i])
  }

  lemma {:induction false} WordEnds(text: string, from: nat, n: nat)
    requires from < n <= |text| && forall i | 0 <= i < n :: !IsSpace(text[i])
    requires n < |text| ==> IsSpace(text[n])
    ensures WordEnd(text, from) == n
    decreases n - from
  {
    if from + 1 < n {
      WordEnds(text, from + 1, n);
    }
  }

  /** A word and the whitespace after it are followed by the words of the rest; leading whitespace does not count. */
  lemma FirstWord(text: string, n: nat)
    requires n <= |text| && IsWord(text[..n]) && (n < |text| ==> IsSpace(text[n]))
    ensures Words(text) == [text[..n]] + if n < |text| then Words(text[n + 1..]) else []
    ensures n < |text| ==> Words([text[n]] + text) == Words(text)
  {
    assert forall i | 0 <= i < n :: text[i] == text[..n][i];
    WordEnds(text, 0, n);
    if n < |text| {
      assert text[n..][1..] == text[n + 1..];
      assert ([text[n]] + text)[1..] == text;
    }
  }

  /** The words of words with any whitespace character between them are those words. */
  lemma {:induction false} WordsOfListing(words: seq<string>, space: char)
    requires IsSpace(space) && forall w | w in words :: IsWord(w)
    ensures Words(Listing(words, space)) == words
    decreases |words|
  {
    hide IsWord, IsSpace;
    if words == [] {
      assert Words("") == [];
    } else {
      hide Words;
      var first, text := words[0], Listing(words, space);
      if |words| == 1 {
        assert words == [first] && text[..|first|] == first;
        FirstWord(text, |first|);
      } else {
        var rest := Listing(words[1..], space);
        WordsOfListing(words[1..], space);
        assert text[..|first|] == first && text[|first| + 1..] == rest;
        FirstWord(text, |first|);
        assert words == [first] + words[1..];
      }
    }
  }

  /** Within ASCII: tab, line feed, vertical tab, form feed, carriage return, the four separators, and space. */
  lemma SpaceExactlyWhen(c: char)
    ensures IsSpace(c) <==> c as int in {9, 10, 11, 12, 13, 28, 29, 30, 31, 32}
  {
  }
}
