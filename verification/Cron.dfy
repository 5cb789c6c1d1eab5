/** Five-field cron expressions: parsing, calendar feasibility and the search for the next match. */
module Cron {
  import opened Common

  datatype Error = Malformed(detail: string) | Infeasible | Exhausted

  // ---------------------------------------------------------------------
  // Text
  // ---------------------------------------------------------------------

  /** What `str.split()` splits at, within ASCII. */
  predicate IsSpace(c: char) {
    c == ' ' || '\t' <= c <= '\r' || '\U{1c}' <= c <= '\U{1f}'
  }

  /** The whitespace-separated words of a text. */
  function Words(text: string): seq<string>
    decreases |text|, 1
  {
    if text == "" then []
    else if IsSpace(text[0]) then Words(text[1..])
    else
      var n := WordEnd(text, 0);
      [text[..n]] + Words(text[n..])
  }

  function WordEnd(text: string, from: nat): (n: nat)
    requires from < |text| && !IsSpace(text[from])
    ensures from < n <= |text|
    decreases |text| - from
  {
    if from + 1 == |text| || IsSpace(text[from + 1]) then from + 1 else WordEnd(text, from + 1)
  }

  function IndexOf(text: string, c: char): (i: Option<nat>)
    ensures i.None? <==> c !in text
    ensures i.Some? ==> i.value < |text| && text[i.value] == c && c !in text[..i.value]
  {
    if text == "" then None
    else if text[0] == c then Some(0)
    else
      var i :- IndexOf(text[1..], c);
      assert text[..i + 1] == [text[0]] + text[1..][..i];
      Some(i + 1)
  }

  /** The parts of a text between separators; an empty text has one empty part. */
  function Split(text: string, c: char): (parts: seq<string>)
    ensures |parts| >= 1
    decreases |text|
  {
    match IndexOf(text, c)
    case None => [text]
    case Some(i) => [text[..i]] + Split(text[i + 1..], c)
  }

  /** Decimal digits, with single underscores allowed between them. */
  function Digits(text: string): Option<nat>
    decreases |text|
  {
    var n := |text|;
    if n == 0 || !('0' <= text[n - 1] <= '9') then None
    else
      var digit := (text[n - 1] - '0') as nat;
      if n == 1 then Some(digit)
      else
        var high :- Digits(if text[n - 2] == '_' then text[..n - 2] else text[..n - 1]);
        Some(10 * high + digit)
  }

  /** `int(text)` on ASCII text without spaces. */
  function Integer(text: string): Option<int> {
    if text != "" && text[0] == '+' then Digits(text[1..])
    else if text != "" && text[0] == '-' then
      var n :- Digits(text[1..]);
      Some(0 - n as int)
    else Digits(text)
  }

  // ---------------------------------------------------------------------
  // Fields
  // ---------------------------------------------------------------------

  datatype CronField = CronField(values: set<int>, wildcard: bool)

  /** What a field may hold; `sundayAlias` also admits 7 for 0. */
  datatype Bounds = Bounds(minimum: int, maximum: int, sundayAlias: bool)

  const MINUTES := Bounds(0, 59, false)
  const HOURS := Bounds(0, 23, false)
  const DAYS := Bounds(1, 31, false)
  const MONTHS := Bounds(1, 12, false)
  const WEEKDAYS := Bounds(0, 6, true)

  datatype Item = Item(start: int, end: int, step: nat)

  function OrError<T>(value: Option<T>, detail: string): Result<T, Error> {
    if value.Some? then Ok(value.value) else Err(Malformed(detail))
  }

  /** One comma-separated item of a field: `*`, `n` or `a-b`, each with an optional `/step`. */
  function ParseItem(part: string, b: Bounds): (r: Result<Item, Error>)
    ensures r.Err? ==> r.error.Malformed?
  {
    if part == "" then Err(Malformed("cron field contains an empty item"))
    else
      var slash := IndexOf(part, '/');
      var base := if slash.Some? then part[..slash.value] else part;
      var step :- if slash.Some? then OrError(Integer(part[slash.value + 1..]), "cron step is invalid") else Ok(1);
      if step < 1 then Err(Malformed("cron step must be positive"))
      else
        var dash := IndexOf(base, '-');
        var start :-
          if base == "*" then Ok(b.minimum)
          else if dash.Some? then OrError(Integer(base[..dash.value]), "cron range is invalid")
          else OrError(Integer(base), "cron value is invalid");
        var end :-
          if base == "*" then Ok(b.maximum)
          else if dash.Some? then OrError(Integer(base[dash.value + 1..]), "cron range is invalid")
          else if slash.Some? then Ok(b.maximum)
          else Ok(start);
        if start < b.minimum || end > (if b.sundayAlias then 7 else b.maximum) || start > end then
          Err(Malformed("cron value is outside its field range"))
        else Ok(Item(start, end, step))
  }

  function Folded(k: int, b: Bounds): int {
    if b.sundayAlias && k == 7 then 0 else k
  }

  /** The n-th number of the arithmetic progression of an item. */
  function Nth(item: Item, n: nat): int {
    if n == 0 then item.start else Nth(item, n - 1) + item.step
  }

  /** The numbers an item selects: those of its progression that do not pass its end. */
  ghost predicate Selects(item: Item, b: Bounds, v: int) {
    exists n: nat :: Nth(item, n) <= item.end && v == Folded(Nth(item, n), b)
  }

  ghost predicate Listed(parts: seq<string>, b: Bounds, v: int) {
    exists i | 0 <= i < |parts| :: ParseItem(parts[i], b).Ok? && Selects(ParseItem(parts[i], b).value, b, v)
  }

  /** Every value the bounds allow. */
  predicate Complete(values: set<int>, b: Bounds) {
    forall k | b.minimum <= k <= b.maximum :: k in values
  }

  /** What the parser guarantees of every field. */
  predicate FieldInv(f: CronField, b: Bounds) {
    && (exists v | b.minimum <= v <= b.maximum :: v in f.values)
    && (forall v | v in f.values :: b.minimum <= v <= b.maximum)
    && (f.wildcard <==> Complete(f.values, b))
  }

  lemma ItemInRange(part: string, b: Bounds)
    requires ParseItem(part, b).Ok?
    ensures var item := ParseItem(part, b).value;
            && 1 <= item.step && b.minimum <= item.start <= item.end <= (if b.sundayAlias then 7 else b.maximum)
  {
    hide Integer, IndexOf;
  }

  /** The inner loop of the parser over `range(start, end + 1, step)`. */
  method AddItem(values: set<int>, item: Item, b: Bounds) returns (after: set<int>)
    requires 1 <= item.step && item.start <= item.end
    ensures forall v :: v in after <==> v in values || Selects(item, b, v)
  {
    after := values;
    var k := item.start;
    ghost var n: nat := 0;
    while k <= item.end
      invariant k == Nth(item, n)
      invariant n > 0 ==> Nth(item, n - 1) <= item.end
      invariant forall v :: v in after <==> v in values || exists l: nat | l < n :: v == Folded(Nth(item, l), b)
      decreases item.end - k
    {
      after := after + {if k == 7 && b.sundayAlias then 0 else k};
      k := k + item.step;
      n := n + 1;
    }
    forall l: nat
      ensures l < n <==> Nth(item, l) <= item.end
    {
      if l < n {
        Increasing(item, l, n - 1);
      } else {
        Increasing(item, n, l);
      }
    }
  }

  lemma {:induction false} Increasing(item: Item, m: nat, n: nat)
    requires m <= n
    ensures Nth(item, m) <= Nth(item, n)
  {
    if m < n {
      Increasing(item, m, n - 1);
    }
  }

  ghost predicate SomeMalformed(parts: seq<string>, b: Bounds) {
    exists i | 0 <= i < |parts| :: ParseItem(parts[i], b).Err?
  }

  /** The outer loop of the parser. */
  method CollectItems(parts: seq<string>, b: Bounds) returns (result: Result<set<int>, Error>)
    ensures result.Err? <==> SomeMalformed(parts, b)
    ensures result.Err? ==> result.error.Malformed?
    ensures result.Ok? ==> forall v :: v in result.value <==> Listed(parts, b, v)
  {
    hide ParseItem, Selects, Listed;
    var values: set<int> := {};
    NothingListed(parts, b);
    for i := 0 to |parts|
      invariant forall j | 0 <= j < i :: ParseItem(parts[j], b).Ok?
      invariant forall v :: v in values <==> Listed(parts[..i], b, v)
    {
      var item :- ParseItem(parts[i], b);
      ItemInRange(parts[i], b);
      ghost var before := values;
      values := AddItem(values, item, b);
      forall v
        ensures v in values <==> Listed(parts[..i + 1], b, v)
      {
        ListedOneMore(parts, i, b, v);
      }
    }
    assert parts[..|parts|] == parts;
    result := Ok(values);
  }

  lemma NothingListed(parts: seq<string>, b: Bounds)
    ensures forall v :: !Listed(parts[..0], b, v)
  {
  }

  /** `_CronField.parse`: fails exactly if some item is malformed; otherwise collects exactly the listed values. */
  method ParseField(expression: string, b: Bounds) returns (result: Result<CronField, Error>)
    requires b in {MINUTES, HOURS, DAYS, MONTHS, WEEKDAYS}
    ensures result.Err? <==> SomeMalformed(Split(expression, ','), b)
    ensures result.Err? ==> result.error.Malformed?
    ensures result.Ok? ==> FieldInv(result.value, b)
    ensures result.Ok? ==> forall v :: v in result.value.values <==> Listed(Split(expression, ','), b, v)
  {
    hide ParseItem, Selects, Listed, Split, SomeMalformed;
    var parts := Split(expression, ',');
    var values :- CollectItems(parts, b);
    forall v | v in values
      ensures b.minimum <= v <= b.maximum
    {
      ListedInRange(parts, b, v);
    }
    SomethingListed(parts, b);
    result := Ok(CronField(values, Complete(values, b)));
  }

  lemma SomethingListed(parts: seq<string>, b: Bounds)
    requires |parts| >= 1 && !SomeMalformed(parts, b)
    ensures exists v :: Listed(parts, b, v)
  {
    hide ParseItem;
    assert ParseItem(parts[0], b).Ok?;
    ItemInRange(parts[0], b);
    var item := ParseItem(parts[0], b).value;
    StartSelected(item, b);
    assert Listed(parts, b, Folded(item.start, b));
  }

  lemma StartSelected(item: Item, b: Bounds)
    requires 1 <= item.step && item.start <= item.end
    ensures Selects(item, b, Folded(item.start, b))
  {
    assert Nth(item, 0) == item.start;
  }

  lemma ListedOneMore(parts: seq<string>, i: nat, b: Bounds, v: int)
    requires i < |parts| && ParseItem(parts[i], b).Ok?
    ensures Listed(parts[..i + 1], b, v) <==> Listed(parts[..i], b, v) || Selects(ParseItem(parts[i], b).value, b, v)
  {
    hide ParseItem, Selects;
    if Selects(ParseItem(parts[i], b).value, b, v) {
      assert parts[..i + 1][i] == parts[i];
    }
    if j :| 0 <= j < i && ParseItem(parts[..i][j], b).Ok? && Selects(ParseItem(parts[..i][j], b).value, b, v) {
      assert parts[..i + 1][j] == parts[..i][j];
    }
  }

  lemma ListedInRange(parts: seq<string>, b: Bounds, v: int)
    requires b in {MINUTES, HOURS, DAYS, MONTHS, WEEKDAYS} && Listed(parts, b, v)
    ensures b.minimum <= v <= b.maximum
  {
    hide ParseItem;
    var i :| 0 <= i < |parts| && ParseItem(parts[i], b).Ok? && Selects(ParseItem(parts[i], b).value, b, v);
    ItemInRange(parts[i], b);
    var item := ParseItem(parts[i], b).value;
    var n: nat :| Nth(item, n) <= item.end && v == Folded(Nth(item, n), b);
    Increasing(item, 0, n);
  }
}
