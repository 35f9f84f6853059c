/**
 * `calculate_points`: seven independent rules added into one accumulator, with
 * the `ValueError` raised when the total, a scored item's price, the purchase
 * date or the purchase time does not parse.
 *
 * The rules are stated once as specification functions (`Points` and the rule
 * functions it sums); the method `CalculatePoints` follows the source's loops
 * and conditional increments and is proved equal to `Points`.
 */
module Scoring {
  import opened Results
  import opened Text
  import opened Money
  import opened Calendar

  datatype Item = Item(shortDescription: string, price: string)

  datatype Receipt = Receipt(
    retailer: string,
    purchaseDate: string,
    purchaseTime: string,
    total: string,
    items: seq<Item>)

  /** The `ValueError` that escapes `calculate_points`, with the text that did not parse. */
  datatype PointsError = InvalidAmount(text: string) | InvalidDate(text: string) | InvalidTime(text: string)

  /** The exclusive bounds of the afternoon window, 14:00 and 16:00, in minutes since midnight. */
  const AfternoonStart: nat := 14 * 60
  const AfternoonEnd: nat := 16 * 60

  // ---------------------------------------------------------------------------
  // The seven rules
  // ---------------------------------------------------------------------------

  /** +50 for a whole-dollar total. */
  function RoundDollarPoints(totalCents: int): nat {
    if totalCents % 100 == 0 then 50 else 0
  }

  /** +25 for a total that is a multiple of $0.25. */
  function QuarterPoints(totalCents: int): nat {
    if totalCents % 25 == 0 then 25 else 0
  }

  /** +5 for every complete pair of items. */
  function PairPoints(itemCount: nat): nat {
    (itemCount / 2) * 5
  }

  /** An item earns a price bonus when its stripped description has a length divisible by 3. */
  predicate IsScored(item: Item) {
    |Strip(item.shortDescription)| % 3 == 0
  }

  /** The bonus of one item; only a scored item's price is ever parsed. */
  function ItemPoints(item: Item): Result<int, PointsError> {
    if IsScored(item) then
      match ParseCents(item.price)
      case None => Err(InvalidAmount(item.price))
      case Some(cents) => Ok(PriceBonus(cents))
    else
      Ok(0)
  }

  /** The item bonuses summed in list order; the first price that does not parse is the error. */
  function ItemsPoints(items: seq<Item>): Result<int, PointsError> {
    if items == [] then Ok(0)
    else
      match ItemsPoints(items[..|items| - 1])
      case Err(e) => Err(e)
      case Ok(p) =>
        match ItemPoints(items[|items| - 1])
        case Err(e) => Err(e)
        case Ok(q) => Ok(p + q)
  }

  /** +6 for an odd day of the month. */
  function OddDayPoints(date: Date): nat {
    if date.day % 2 != 0 then 6 else 0
  }

  /** +10 for a time strictly between 14:00 and 16:00. */
  function AfternoonPoints(minutes: nat): nat {
    if AfternoonStart < minutes < AfternoonEnd then 10 else 0
  }

  /** The points of a receipt, or the error of the first field that fails to parse, in source order. */
  function Points(r: Receipt): Result<int, PointsError> {
    match ParseCents(r.total)
    case None => Err(InvalidAmount(r.total))
    case Some(totalCents) =>
      match ItemsPoints(r.items)
      case Err(e) => Err(e)
      case Ok(itemPoints) =>
        match ParseDate(r.purchaseDate)
        case None => Err(InvalidDate(r.purchaseDate))
        case Some(date) =>
          match ParseTime(r.purchaseTime)
          case None => Err(InvalidTime(r.purchaseTime))
          case Some(minutes) =>
            Ok(AlnumCount(r.retailer)
               + RoundDollarPoints(totalCents) + QuarterPoints(totalCents)
               + PairPoints(|r.items|)
               + itemPoints
               + OddDayPoints(date)
               + AfternoonPoints(minutes))
  }

  // ---------------------------------------------------------------------------
  // The imperative computation
  // ---------------------------------------------------------------------------

  lemma {:induction false} ItemsErrorPersists(items: seq<Item>, k: nat)
    requires k <= |items| && ItemsPoints(items[..k]).Err?
    ensures ItemsPoints(items) == ItemsPoints(items[..k])
  {
    if k < |items| {
      var front := items[..|items| - 1];
      assert front[..k] == items[..k];
      ItemsErrorPersists(front, k);
    } else {
      assert items[..k] == items;
    }
  }

  lemma ItemsPointsStep(items: seq<Item>, i: nat)
    requires i < |items| && ItemsPoints(items[..i]).Ok?
    ensures ItemPoints(items[i]).Ok? ==>
      ItemsPoints(items[..i + 1]) == Ok(ItemsPoints(items[..i]).value + ItemPoints(items[i]).value)
    ensures ItemPoints(items[i]).Err? ==> ItemsPoints(items[..i + 1]) == ItemPoints(items[i])
  {
    assert items[..i + 1][..i] == items[..i];
  }

  /**
   * The second loop of `calculate_points`: adds each scored item's bonus to the
   * running total `acc`, parsing prices in list order and stopping at the first
   * price that does not parse.
   */
  method AddItemPoints(acc: int, items: seq<Item>) returns (result: Result<int, PointsError>)
    ensures result == match ItemsPoints(items)
                      case Ok(p) => Ok(acc + p)
                      case Err(e) => Err(e)
  {
    var pointsTotal := acc;
    for i := 0 to |items|
      invariant ItemsPoints(items[..i]) == Ok(pointsTotal - acc)
    {
      var item := items[i];
      ItemsPointsStep(items, i);
      if |Strip(item.shortDescription)| % 3 == 0 {
        var price := ParseCents(item.price);
        if price.None? {
          ItemsErrorPersists(items, i + 1);
          return Err(InvalidAmount(item.price));
        }
        pointsTotal := pointsTotal + PriceBonus(price.value);
      }
    }
    assert items[..|items|] == items;
    return Ok(pointsTotal);
  }

  /** `calculate_points`, accumulating into one running total as the source does. */
  method CalculatePoints(receipt: Receipt) returns (result: Result<int, PointsError>)
    ensures result == Points(receipt)
  {
    var pointsTotal := 0;

    var retailer := receipt.retailer;
    for i := 0 to |retailer|
      invariant pointsTotal == AlnumCount(retailer[..i])
    {
      assert retailer[..i + 1][..i] == retailer[..i];
      if IsAlnum(retailer[i]) {
        pointsTotal := pointsTotal + 1;
      }
    }
    assert retailer[..|retailer|] == retailer;

    var total := ParseCents(receipt.total);
    if total.None? {
      return Err(InvalidAmount(receipt.total));
    }
    if total.value % 100 == 0 {
      pointsTotal := pointsTotal + 50;
    }
    if total.value % 25 == 0 {
      pointsTotal := pointsTotal + 25;
    }

    assert pointsTotal == AlnumCount(retailer) + RoundDollarPoints(total.value) + QuarterPoints(total.value);

    var items := receipt.items;
    pointsTotal := pointsTotal + (|items| / 2) * 5;

    var afterItems := AddItemPoints(pointsTotal, items);
    if afterItems.Err? {
      return Err(afterItems.error);
    }
    pointsTotal := afterItems.value;

    var date := ParseDate(receipt.purchaseDate);
    if date.None? {
      return Err(InvalidDate(receipt.purchaseDate));
    }
    if date.value.day % 2 != 0 {
      pointsTotal := pointsTotal + 6;
    }

    var time := ParseTime(receipt.purchaseTime);
    if time.None? {
      return Err(InvalidTime(receipt.purchaseTime));
    }
    if AfternoonStart < time.value < AfternoonEnd {
      pointsTotal := pointsTotal + 10;
    }

    return Ok(pointsTotal);
  }

  // ---------------------------------------------------------------------------
  // The item rule, read from the front
  // ---------------------------------------------------------------------------

  /** An item whose price is parsed and does not parse. */
  predicate Fails(item: Item) {
    IsScored(item) && ParseCents(item.price).None?
  }

  /** The bonus an item contributes when its price parses (0 for an unscored item). */
  function ItemBonus(item: Item): int {
    if IsScored(item) && ParseCents(item.price).Some? then PriceBonus(ParseCents(item.price).value) else 0
  }

  /** Position of the first item whose price fails to parse, or the length of the list. */
  function FirstFailure(items: seq<Item>): (i: nat)
    ensures i <= |items|
  {
    if items == [] then 0
    else if Fails(items[0]) then 0
    else 1 + FirstFailure(items[1..])
  }

  /** The item bonuses added from the front. */
  function ItemBonusSum(items: seq<Item>): int {
    if items == [] then 0 else ItemBonus(items[0]) + ItemBonusSum(items[1..])
  }

  /** Every item before the first failure parses, and the one at it does not. */
  lemma {:induction false} FirstFailureSpec(items: seq<Item>)
    ensures forall j :: 0 <= j < FirstFailure(items) ==> !Fails(items[j])
    ensures FirstFailure(items) < |items| ==> Fails(items[FirstFailure(items)])
  {
    if items != [] && !Fails(items[0]) {
      FirstFailureSpec(items[1..]);
    }
  }

  lemma {:induction false} FirstFailureAppend(items: seq<Item>, item: Item)
    ensures FirstFailure(items + [item])
         == if FirstFailure(items) < |items| then FirstFailure(items)
            else if Fails(item) then |items| else |items| + 1
  {
    if items == [] {
      assert [] + [item] == [item];
    } else {
      assert (items + [item])[1..] == items[1..] + [item];
      FirstFailureAppend(items[1..], item);
    }
  }

  lemma {:induction false} ItemBonusSumAppend(items: seq<Item>, item: Item)
    ensures ItemBonusSum(items + [item]) == ItemBonusSum(items) + ItemBonus(item)
  {
    if items == [] {
      assert [] + [item] == [item];
    } else {
      assert (items + [item])[1..] == items[1..] + [item];
      ItemBonusSumAppend(items[1..], item);
    }
  }

  /**
   * The item loop either fails with the price of the first scored item whose
   * price does not parse, or yields the sum of every item's bonus.
   */
  lemma {:induction false} ItemsPointsMeaning(items: seq<Item>)
    ensures ItemsPoints(items)
         == if FirstFailure(items) < |items| then Err(InvalidAmount(items[FirstFailure(items)].price))
            else Ok(ItemBonusSum(items))
  {
    if items != [] {
      var front, last := items[..|items| - 1], items[|items| - 1];
      assert items == front + [last];
      ItemsPointsMeaning(front);
      FirstFailureAppend(front, last);
      ItemBonusSumAppend(front, last);
    }
  }

  /** The item loop succeeds exactly when no scored item has an unreadable price. */
  lemma ItemsSucceedIff(items: seq<Item>)
    ensures ItemsPoints(items).Ok? <==> forall j :: 0 <= j < |items| ==> !Fails(items[j])
  {
    ItemsPointsMeaning(items);
    FirstFailureSpec(items);
  }

  /** `calculate_points` returns exactly when every amount, the date and the time parse. */
  lemma PointsSucceedIff(r: Receipt)
    ensures Points(r).Ok?
        <==> && ParseCents(r.total).Some?
             && (forall j :: 0 <= j < |r.items| ==> !Fails(r.items[j]))
             && ParseDate(r.purchaseDate).Some?
             && ParseTime(r.purchaseTime).Some?
  {
    ItemsSucceedIff(r.items);
  }

  /** With no price below zero the points are never negative. */
  lemma {:induction false} ItemBonusSumNonNegative(items: seq<Item>)
    requires forall j :: 0 <= j < |items| ==> ParseCents(items[j].price).Some? ==> ParseCents(items[j].price).value >= 0
    ensures ItemBonusSum(items) >= 0
  {
    if items != [] {
      ItemBonusSumNonNegative(items[1..]);
      if ParseCents(items[0].price).Some? {
        PriceBonusSign(ParseCents(items[0].price).value);
      }
    }
  }

  lemma PointsNonNegative(r: Receipt)
    requires forall j :: 0 <= j < |r.items| ==> ParseCents(r.items[j].price).Some? ==> ParseCents(r.items[j].price).value >= 0
    ensures Points(r).Ok? ==> Points(r).value >= 0
  {
    ItemsPointsMeaning(r.items);
    ItemBonusSumNonNegative(r.items);
  }

  // ---------------------------------------------------------------------------
  // How each rule responds to the receipt
  // ---------------------------------------------------------------------------

  /** Renaming the retailer changes the points by the difference in alphanumeric characters. */
  lemma RetailerRule(r: Receipt, name: string)
    ensures var renamed := Points(r.(retailer := name));
      && renamed.Ok? == Points(r).Ok?
      && (renamed.Ok? ==> renamed.value == Points(r).value - AlnumCount(r.retailer) + AlnumCount(name))
  {
  }

  /** The two total rules stack: 75 for a whole-dollar total, 25 for any other multiple of $0.25, else 0. */
  lemma TotalRules(cents: int)
    ensures RoundDollarPoints(cents) + QuarterPoints(cents) == if cents % 100 == 0 then 75 else if cents % 25 == 0 then 25 else 0
  {
    if cents % 100 == 0 {
      assert cents == 25 * (4 * (cents / 100));
    }
  }

  /** Appending an item adds its bonus, plus 5 when it completes a pair. */
  lemma AppendItem(r: Receipt, item: Item)
    requires Points(r).Ok?
    ensures ItemPoints(item).Err? ==> Points(r.(items := r.items + [item])) == ItemPoints(item)
    ensures ItemPoints(item).Ok? ==>
      Points(r.(items := r.items + [item])) == Ok(Points(r).value + ItemPoints(item).value + (if |r.items| % 2 == 0 then 0 else 5))
  {
    var items := r.items + [item];
    assert items[..|items| - 1] == r.items;
    var n := |r.items|;
    assert PairPoints(n + 1) == PairPoints(n) + (if n % 2 == 0 then 0 else 5);
    var itemPoints := ItemsPoints(r.items).value;
    if ItemPoints(item).Ok? {
      assert ItemsPoints(items) == Ok(itemPoints + ItemPoints(item).value);
    }
  }

  lemma {:induction false} ItemsPointsPointwise(a: seq<Item>, b: seq<Item>)
    requires |a| == |b| && forall j :: 0 <= j < |a| ==> ItemPoints(a[j]) == ItemPoints(b[j])
    ensures ItemsPoints(a) == ItemsPoints(b)
  {
    if a != [] {
      var a', b' := a[..|a| - 1], b[..|b| - 1];
      forall j | 0 <= j < |a'|
        ensures ItemPoints(a'[j]) == ItemPoints(b'[j])
      {
        assert a'[j] == a[j] && b'[j] == b[j];
      }
      ItemsPointsPointwise(a', b');
      assert ItemPoints(a[|a| - 1]) == ItemPoints(b[|b| - 1]);
    }
  }

  /** The price of an item that is not scored is never read: changing it changes nothing. */
  lemma UnscoredPriceIrrelevant(r: Receipt, i: nat, price: string)
    requires i < |r.items| && !IsScored(r.items[i])
    ensures Points(r.(items := r.items[i := r.items[i].(price := price)])) == Points(r)
  {
    ItemsPointsPointwise(r.items, r.items[i := r.items[i].(price := price)]);
  }

  /** Whitespace around a description does not change the item's contribution. */
  lemma DescriptionPadding(item: Item, before: string, after: string)
    requires AllSpace(before) && AllSpace(after)
    ensures ItemPoints(item.(shortDescription := before + item.shortDescription + after)) == ItemPoints(item)
  {
    StripPadding(before, item.shortDescription, after);
  }

  /** The date rule reads only the parity of the last digit of the day. */
  lemma DayRuleReadsLastDigit(s: string)
    requires ParseDate(s).Some?
    ensures OddDayPoints(ParseDate(s).value) == if DigitValue(s[9]) % 2 == 1 then 6 else 0
  {
    var tens := DigitValue(s[8]);
    assert ParseDate(s).value.day == 2 * (5 * tens) + DigitValue(s[9]);
  }

  /** 14:01 to 15:59 score 10; 14:00, 16:00 and every other time of day score 0. */
  lemma AfternoonWindow(h: nat, m: nat)
    requires h < 24 && m < 60
    ensures ParseTime(FormatTime(h, m)).Some?
    ensures AfternoonPoints(ParseTime(FormatTime(h, m)).value) == if h == 15 || (h == 14 && m > 0) then 10 else 0
  {
    TimeRoundTrip(h, m);
  }

  // ---------------------------------------------------------------------------
  // Worked receipts
  // ---------------------------------------------------------------------------

  lemma ExampleRetailerCount()
    ensures AlnumCount("M&M Corner Market") == 14
  {
    var amp, space := "&", " ";
    assert amp[..0] == [] && space[..0] == [];
    AlnumCountAllAlnum("M");
    AlnumCountAllAlnum("Corner");
    AlnumCountAllAlnum("Market");
    AlnumCountAppend("M", amp);
    AlnumCountAppend("M" + amp, "M");
    AlnumCountAppend("M" + amp + "M", space);
    AlnumCountAppend("M" + amp + "M" + space, "Corner");
    AlnumCountAppend("M" + amp + "M" + space + "Corner", space);
    AlnumCountAppend("M" + amp + "M" + space + "Corner" + space, "Market");
    assert "M" + amp + "M" + space + "Corner" + space + "Market" == "M&M Corner Market";
  }

  lemma ExampleItemUnscored()
    ensures ItemsPoints([Item("Mountain Dew 12PK", "6.49")]) == Ok(0)
  {
    var description := "Mountain Dew 12PK";
    StripSpec(description);
    assert |Strip(description)| == 17;
    var items := [Item(description, "6.49")];
    assert items[..0] == [];
  }

  lemma ExampleDateAndTime()
    ensures ParseDate("2022-01-01") == Some(Date(2022, 1, 1))
    ensures ParseTime("13:01") == Some(13 * 60 + 1)
    ensures ParseDate("2022-01-02") == Some(Date(2022, 1, 2))
    ensures ParseTime("13:00") == Some(13 * 60)
  {
  }

  /** The receipt of the test suite scores 20: 14 for the retailer and 6 for the odd day. */
  lemma ExampleReceiptScoresTwenty()
    ensures Points(Receipt("M&M Corner Market", "2022-01-01", "13:01", "6.49",
                           [Item("Mountain Dew 12PK", "6.49")])) == Ok(20)
  {
    ExampleRetailerCount();
    ExampleAmount();
    ExampleItemUnscored();
    ExampleDateAndTime();
  }

  lemma ExampleNegativeAmounts()
    ensures ParseCents("1.01") == Some(101)
    ensures ParseCents("-10.00") == Some(-1000)
  {
    assert "1" + "." + ['0', '1'] == "1.01";
    assert "1"[..0] == [];
    ScanTwoFractionDigits("1", '0', '1');
    SignedAmount("1.01");
    assert "10" + "." + ['0', '0'] == "10.00";
    assert "10"[..1] == "1";
    ScanTwoFractionDigits("10", '0', '0');
    SignedAmount("10.00");
    assert "-" + "10.00" == "-10.00";
  }

  lemma ExampleScoredItem()
    ensures ItemsPoints([Item("abc", "-10.00")]) == Ok(-2)
  {
    ExampleNegativeAmounts();
    StripSpec("abc");
    var items := [Item("abc", "-10.00")];
    assert items[..0] == [];
  }

  /** A negative price on a scored item lowers the points below zero: nothing in the scoring rejects it. */
  lemma ExampleNegativePoints()
    ensures Points(Receipt("", "2022-01-02", "13:00", "1.01", [Item("abc", "-10.00")])) == Ok(-2)
  {
    ExampleNegativeAmounts();
    ExampleScoredItem();
    ExampleDateAndTime();
  }

  /** February 29th of a common year is refused like any impossible date. */
  lemma ExampleImpossibleDate()
    ensures Points(Receipt("Target", "2023-02-29", "13:00", "1.00", [Item("Gum", "1.00")]))
         == Err(InvalidDate("2023-02-29"))
  {
    CanonicalAmount("1", "00");
    assert "1" + "." + "00" == "1.00";
    StripSpec("Gum");
    var items := [Item("Gum", "1.00")];
    assert items[..0] == [];
    assert ParseDate("2023-02-29") == None;
  }
}
