/** `get_customer_orders` of app/utils/dynamo_utils.py: find a customer by
    name in the customer table and normalise that customer's raw orders.

  The table is a sequence of customer items in scan order, or `Unavailable`
  when the scan raises.  Python's `int(...)` is modelled for the values a
  DynamoDB item can hold, reading only the ASCII digits `0`-`9` and without
  CPython's cap on the length of a digit string; `float(...)` of a *string*
  is a parameter.
 */
module CustomerOrders {
  import opened Outcomes
  import Text
  import Dates

  /** An attribute value as boto3 deserialises it: a string, a number
      (`Decimal`, held exactly as a `real`), a boolean, or anything else
      (null, list, map, set, binary). */
  datatype Field = Str(s: string) | Num(n: real) | Bool(b: bool) | Other

  /** One element of a customer's `orders` list: a map item, or a value that
      is not one (indexing it by a key raises). */
  datatype RawOrder = Item(fields: map<string, Field>) | NotAnItem

  /** The `orders` attribute of a customer item, by what `for order in
      order_list` does with it: the attribute is absent; it is a list of raw
      orders; it is another iterable value (a string, a map, a set), whose
      elements are never order maps, so each one is skipped; or it cannot be
      iterated (null, a number, a boolean, binary), and the `TypeError`
      reaches the outer handler. */
  datatype OrdersAttr = Absent | OrderList(raws: seq<RawOrder>) | OtherIterable | NotIterable

  datatype Customer = Customer(firstName: string, lastName: string, orders: OrdersAttr)

  datatype Store = Table(items: seq<Customer>) | Unavailable

  /** A processed order, with the date already rendered for display. */
  datatype Order = Order(orderId: Field, product: Field, quantity: int, orderDate: string, totalPrice: real)

  // ---------------------------------------------------------------------
  // Python's int()

  /** Value of a string of decimal digits. */
  function DigitsValue(d: string): (n: nat)
    requires forall i :: 0 <= i < |d| ==> Dates.IsDigit(d[i])
    decreases |d|
  {
    if |d| == 0 then 0 else 10 * DigitsValue(d[..|d| - 1]) + Dates.DigitValue(d[|d| - 1])
  }

  /** Digits with single underscores between them, as `int(str)` allows. */
  predicate IsDigitGroups(b: string) {
    && |b| > 0 && Dates.IsDigit(b[0]) && Dates.IsDigit(b[|b| - 1])
    && (forall i :: 0 <= i < |b| ==> Dates.IsDigit(b[i]) || b[i] == '_')
    && (forall i :: 0 <= i < |b| - 1 ==> b[i] != '_' || b[i + 1] != '_')
  }

  lemma WithoutUnderscoreDigits(b: string)
    requires forall i :: 0 <= i < |b| ==> Dates.IsDigit(b[i]) || b[i] == '_'
    ensures forall i :: 0 <= i < |Text.Without(b, '_')| ==> Dates.IsDigit(Text.Without(b, '_')[i])
    decreases |b|
  {
    if |b| > 0 {
      WithoutUnderscoreDigits(b[1..]);
    }
  }

  /** `int(s)` for a string: surrounding whitespace, an optional sign, then digit groups. */
  function ParseIntText(s: string): Option<int> {
    ParseSigned(Text.Strip(s, Text.IsPySpace))
  }

  /** An optional sign followed by digit groups, with nothing around them. */
  function ParseSigned(t: string): Option<int> {
    if |t| > 0 && t[0] == '-' then
      match ParseUnsigned(t[1..]) case Some(n) => Some(-n) case None => None
    else if |t| > 0 && t[0] == '+' then ParseUnsigned(t[1..])
    else ParseUnsigned(t)
  }

  function ParseUnsigned(b: string): Option<int> {
    if !IsDigitGroups(b) then None
    else
      WithoutUnderscoreDigits(b);
      Some(DigitsValue(Text.Without(b, '_')))
  }

  /** `int(x)` of a number truncates toward zero. */
  function TruncateTowardZero(x: real): (r: int)
    ensures x >= 0.0 ==> r as real <= x < r as real + 1.0
    ensures x < 0.0 ==> r as real - 1.0 < x <= r as real
  {
    if x >= 0.0 then x.Floor else -((-x).Floor)
  }

  /** `int(field)`; `None` where Python raises. */
  function ToInt(f: Field): Option<int> {
    match f
    case Str(s) => ParseIntText(s)
    case Num(n) => Some(TruncateTowardZero(n))
    case Bool(b) => Some(if b then 1 else 0)
    case Other => None
  }

  /** `float(field)`, with the conversion of strings supplied as `strToFloat`. */
  function ToFloat(f: Field, strToFloat: string -> Option<real>): Option<real> {
    match f
    case Str(s) => strToFloat(s)
    case Num(n) => Some(n)
    case Bool(b) => Some(if b then 1.0 else 0.0)
    case Other => None
  }

  /** The decimal text of an integer, as `str(n)` writes it. */
  function DecimalDigits(n: nat): (d: string)
    ensures |d| > 0 && forall i :: 0 <= i < |d| ==> Dates.IsDigit(d[i])
    ensures DigitsValue(d) == n
    decreases n
  {
    if n < 10 then [Dates.DigitChar(n)]
    else
      var d := DecimalDigits(n / 10) + [Dates.DigitChar(n % 10)];
      assert d[..|d| - 1] == DecimalDigits(n / 10);
      d
  }

  function DecimalText(n: int): string {
    if n < 0 then "-" + DecimalDigits(-n) else DecimalDigits(n)
  }

  /** `int(str(n)) == n`. */
  lemma ParseDecimalText(n: int)
    ensures ParseIntText(DecimalText(n)) == Some(n)
  {
    DecimalUnspaced(n);
    if n < 0 {
      var d := DecimalDigits(-n);
      ParseDigits(d);
      NegativeSign(d, -n);
    } else {
      ParsePlainDigits(DecimalDigits(n));
    }
  }

  lemma NegativeSign(d: string, n: int)
    requires ParseUnsigned(d) == Some(n)
    ensures ParseSigned("-" + d) == Some(-n)
  {
    var t := "-" + d;
    assert |t| > 0 && t[0] == '-' && t[1..] == d;
  }

  lemma ParsePlainDigits(d: string)
    requires |d| > 0 && forall i :: 0 <= i < |d| ==> Dates.IsDigit(d[i])
    ensures ParseSigned(d) == Some(DigitsValue(d))
  {
    ParseDigits(d);
    assert Dates.IsDigit(d[0]);
  }

  /** `str(n)` has no surrounding whitespace, so stripping keeps it. */
  lemma DecimalUnspaced(n: int)
    ensures Text.Strip(DecimalText(n), Text.IsPySpace) == DecimalText(n)
  {
    var t := DecimalText(n);
    var d := DecimalDigits(if n < 0 then -n else n);
    assert t == if n < 0 then "-" + d else d;
    assert t[|t| - 1] == d[|d| - 1];
    Text.StripUnspaced(t, Text.IsPySpace);
  }

  /** A plain run of digits parses to its value. */
  lemma ParseDigits(d: string)
    requires |d| > 0 && forall i :: 0 <= i < |d| ==> Dates.IsDigit(d[i])
    ensures ParseUnsigned(d) == Some(DigitsValue(d))
  {
    DigitsAreGroups(d);
  }

  lemma DigitsAreGroups(d: string)
    requires |d| > 0 && forall i :: 0 <= i < |d| ==> Dates.IsDigit(d[i])
    ensures IsDigitGroups(d)
    ensures Text.Without(d, '_') == d
  {
    assert forall i :: 0 <= i < |d| ==> d[i] != '_';
    Text.WithoutAbsent(d, '_');
  }

  // ---------------------------------------------------------------------
  // Orders

  /** The raw order has every key it is read at. */
  predicate HasOrderKeys(f: map<string, Field>) {
    "order_id" in f && "product" in f && "quantity" in f && "order_date" in f && "total_price" in f
  }

  /** The processed order for one raw order, or `None` when building it raises:
      a missing key, a date `strptime` rejects, a quantity `int` rejects or a
      price `float` rejects. */
  function ParseOrder(raw: RawOrder, strToFloat: string -> Option<real>): (r: Option<Order>)
    ensures r.Some? <==>
      raw.Item? && HasOrderKeys(raw.fields)
      && raw.fields["order_date"].Str? && Dates.ParseIso(raw.fields["order_date"].s).Some?
      && ToInt(raw.fields["quantity"]).Some? && ToFloat(raw.fields["total_price"], strToFloat).Some?
    ensures r.Some? ==> r.value == Order(raw.fields["order_id"], raw.fields["product"],
      ToInt(raw.fields["quantity"]).value,
      Dates.LongForm(Dates.ParseIso(raw.fields["order_date"].s).value),
      ToFloat(raw.fields["total_price"], strToFloat).value)
  {
    if raw.NotAnItem? then None
    else
      var f := raw.fields;
      if !HasOrderKeys(f) then None
      else
        var date := if f["order_date"].Str? then Dates.ParseIso(f["order_date"].s) else None;
        var quantity := ToInt(f["quantity"]);
        var price := ToFloat(f["total_price"], strToFloat);
        if date.None? || quantity.None? || price.None? then None
        else Some(Order(f["order_id"], f["product"], quantity.value, Dates.LongForm(date.value), price.value))
  }

  /** The loop over `customer['orders']`: the orders that parse, in input
      order; each one that raises is skipped. */
  function ProcessOrders(raws: seq<RawOrder>, strToFloat: string -> Option<real>): (r: seq<Order>)
    ensures |r| <= |raws|
    ensures forall i :: 0 <= i < |r| ==> exists j :: 0 <= j < |raws| && ParseOrder(raws[j], strToFloat) == Some(r[i])
  {
    FilterMap(raws, (raw: RawOrder) => ParseOrder(raw, strToFloat))
  }

  /** Processing distributes over concatenation: each order is handled on its own. */
  lemma ProcessOrdersAppend(a: seq<RawOrder>, b: seq<RawOrder>, strToFloat: string -> Option<real>)
    ensures ProcessOrders(a + b, strToFloat) == ProcessOrders(a, strToFloat) + ProcessOrders(b, strToFloat)
  {
    FilterMapAppend(a, b, (raw: RawOrder) => ParseOrder(raw, strToFloat));
  }

  /** A malformed order is dropped without disturbing the orders around it. */
  lemma MalformedOrderSkipped(a: seq<RawOrder>, bad: RawOrder, b: seq<RawOrder>, strToFloat: string -> Option<real>)
    requires ParseOrder(bad, strToFloat).None?
    ensures ProcessOrders(a + [bad] + b, strToFloat) == ProcessOrders(a + b, strToFloat)
  {
    ProcessOrdersAppend(a + [bad], b, strToFloat);
    ProcessOrdersAppend(a, [bad], strToFloat);
    ProcessOrdersAppend(a, b, strToFloat);
  }

  /** When every order parses, the output is the parsed input, one for one. */
  lemma ProcessOrdersAllValid(raws: seq<RawOrder>, strToFloat: string -> Option<real>)
    requires forall j :: 0 <= j < |raws| ==> ParseOrder(raws[j], strToFloat).Some?
    ensures |ProcessOrders(raws, strToFloat)| == |raws|
    ensures forall j :: 0 <= j < |raws| ==> ProcessOrders(raws, strToFloat)[j] == ParseOrder(raws[j], strToFloat).value
  {
    FilterMapAllSome(raws, (raw: RawOrder) => ParseOrder(raw, strToFloat));
  }

  /** The output has one order per raw order that parses. */
  lemma ProcessOrdersLength(raws: seq<RawOrder>, strToFloat: string -> Option<real>)
    ensures |ProcessOrders(raws, strToFloat)| == CountSome(raws, (raw: RawOrder) => ParseOrder(raw, strToFloat))
  {
    FilterMapLength(raws, (raw: RawOrder) => ParseOrder(raw, strToFloat));
  }

  // ---------------------------------------------------------------------
  // The lookup

  /** The scan filter `first_name = :fn and last_name = :ln`. */
  predicate Matches(c: Customer, first: string, last: string) {
    c.firstName == first && c.lastName == last
  }

  /** The items the scan returns, in table order. */
  function ScanMatches(items: seq<Customer>, first: string, last: string): (r: seq<Customer>)
    ensures forall c :: c in r <==> c in items && Matches(c, first, last)
    decreases |items|
  {
    if |items| == 0 then []
    else if Matches(items[0], first, last) then [items[0]] + ScanMatches(items[1..], first, last)
    else ScanMatches(items[1..], first, last)
  }

  /** The answer for a found customer: `[]` when the item has no `orders`
      attribute, and `None` when that attribute cannot be iterated. */
  function CustomerOrdersOf(c: Customer, strToFloat: string -> Option<real>): (r: Option<seq<Order>>)
    ensures r.None? <==> c.orders.NotIterable?
    ensures c.orders.OrderList? ==> r == Some(ProcessOrders(c.orders.raws, strToFloat))
    ensures c.orders.Absent? || c.orders.OtherIterable? ==> r == Some([])
  {
    match c.orders
    case Absent => Some([])
    case OrderList(raws) => Some(ProcessOrders(raws, strToFloat))
    case OtherIterable => Some([])
    case NotIterable => None
  }

  /** Position of the first customer the scan returns. */
  predicate IsFirstMatch(items: seq<Customer>, i: int, first: string, last: string) {
    0 <= i < |items| && Matches(items[i], first, last)
    && forall j :: 0 <= j < i ==> !Matches(items[j], first, last)
  }

  lemma {:induction false} ScanFirst(items: seq<Customer>, first: string, last: string)
    requires |ScanMatches(items, first, last)| > 0
    ensures exists i :: IsFirstMatch(items, i, first, last) && items[i] == ScanMatches(items, first, last)[0]
    decreases |items|
  {
    if !Matches(items[0], first, last) {
      ScanFirst(items[1..], first, last);
      var i :| IsFirstMatch(items[1..], i, first, last) && items[1..][i] == ScanMatches(items[1..], first, last)[0];
      assert IsFirstMatch(items, i + 1, first, last);
    } else {
      assert IsFirstMatch(items, 0, first, last);
    }
  }

  /** `get_customer_orders(dynamodb, first_name, last_name)`:
      `None` when the store fails or no customer matches the title-cased
      names; otherwise the answer for the first matching customer. */
  function GetCustomerOrders(store: Store, firstName: string, lastName: string, strToFloat: string -> Option<real>)
    : (r: Option<seq<Order>>)
    ensures store.Unavailable? ==> r.None?
    ensures store.Table? && (forall i :: 0 <= i < |store.items| ==>
                               !Matches(store.items[i], Text.Title(firstName), Text.Title(lastName)))
            ==> r.None?
    ensures store.Table? ==> forall i ::
      IsFirstMatch(store.items, i, Text.Title(firstName), Text.Title(lastName))
      ==> r == CustomerOrdersOf(store.items[i], strToFloat)
  {
    match store
    case Unavailable => None
    case Table(items) =>
      var first := Text.Title(firstName);
      var last := Text.Title(lastName);
      var found := ScanMatches(items, first, last);
      if |found| == 0 then
        assert forall i :: 0 <= i < |items| ==> !Matches(items[i], first, last) by {
          forall i | 0 <= i < |items| ensures !Matches(items[i], first, last) {
            assert items[i] in items;
          }
        }
        None
      else
        ScanFirst(items, first, last);
        assert forall i :: IsFirstMatch(items, i, first, last) ==> items[i] == found[0] by {
          forall i | IsFirstMatch(items, i, first, last) ensures items[i] == found[0] {
            var k :| IsFirstMatch(items, k, first, last) && items[k] == found[0];
            FirstMatchUnique(items, i, k, first, last);
          }
        }
        CustomerOrdersOf(found[0], strToFloat)
  }

  /** Names are compared after title-casing, so the letter case of the
      query never changes the answer. */
  lemma LookupIgnoresCase(store: Store, f1: string, l1: string, f2: string, l2: string, strToFloat: string -> Option<real>)
    requires Text.Lower(f1) == Text.Lower(f2) && Text.Lower(l1) == Text.Lower(l2)
    ensures GetCustomerOrders(store, f1, l1, strToFloat) == GetCustomerOrders(store, f2, l2, strToFloat)
  {
    Text.TitleIgnoresCase(f1, f2);
    Text.TitleIgnoresCase(l1, l2);
  }

  /** A customer stored under a name that is not already in title case
      (`McDonald`, say) is never found, whatever casing the query uses. */
  lemma UntitledNameUnreachable(c: Customer, firstName: string, lastName: string)
    requires Text.Title(c.firstName) != c.firstName || Text.Title(c.lastName) != c.lastName
    ensures !Matches(c, Text.Title(firstName), Text.Title(lastName))
  {
    Text.TitleIdempotent(firstName);
    Text.TitleIdempotent(lastName);
  }

  /** A found customer without an `orders` attribute gives `[]`, not `None`. */
  lemma MissingOrdersIsEmpty(store: Store, firstName: string, lastName: string, i: int, strToFloat: string -> Option<real>)
    requires store.Table? && IsFirstMatch(store.items, i, Text.Title(firstName), Text.Title(lastName))
    requires store.items[i].orders.Absent?
    ensures GetCustomerOrders(store, firstName, lastName, strToFloat) == Some([])
  {
  }

  /** A found customer whose `orders` cannot be iterated gives `None`, the
      same answer as a customer who does not exist. */
  lemma UniterableOrdersLookLikeNotFound(store: Store, firstName: string, lastName: string, i: int,
                                         strToFloat: string -> Option<real>)
    requires store.Table? && IsFirstMatch(store.items, i, Text.Title(firstName), Text.Title(lastName))
    requires store.items[i].orders.NotIterable?
    ensures GetCustomerOrders(store, firstName, lastName, strToFloat) == None
      == GetCustomerOrders(Table([]), firstName, lastName, strToFloat)
  {
  }

  /** The result is `None` exactly when the store fails, nobody matches, or
      the first match's `orders` cannot be iterated. */
  lemma NoneCases(store: Store, firstName: string, lastName: string, strToFloat: string -> Option<real>)
    ensures GetCustomerOrders(store, firstName, lastName, strToFloat).None? <==>
      store.Unavailable?
      || (forall i :: 0 <= i < |store.items| ==> !Matches(store.items[i], Text.Title(firstName), Text.Title(lastName)))
      || exists i :: IsFirstMatch(store.items, i, Text.Title(firstName), Text.Title(lastName))
                     && store.items[i].orders.NotIterable?
  {
    if store.Table? {
      var first, last := Text.Title(firstName), Text.Title(lastName);
      if |ScanMatches(store.items, first, last)| > 0 {
        ScanFirst(store.items, first, last);
      } else {
        forall i | 0 <= i < |store.items| ensures !Matches(store.items[i], first, last) {
          assert store.items[i] in store.items;
        }
      }
    }
  }

  lemma FirstMatchUnique(items: seq<Customer>, i: int, k: int, first: string, last: string)
    requires IsFirstMatch(items, i, first, last) && IsFirstMatch(items, k, first, last)
    ensures i == k
  {
  }

  /** A store fault and a missing customer give the same answer. */
  lemma FaultLooksLikeNotFound(firstName: string, lastName: string, strToFloat: string -> Option<real>)
    ensures GetCustomerOrders(Unavailable, firstName, lastName, strToFloat)
      == GetCustomerOrders(Table([]), firstName, lastName, strToFloat)
      == None
  {
  }

  /** The example of the order table: `2024-03-01`, quantity `"2"` and
      price 45 become an order shown as `March 01, 2024`. */
  lemma ExampleOrder(strToFloat: string -> Option<real>)
    ensures ParseOrder(Item(map["order_id" := Str("AB1234567"), "product" := Str("Maple Sphere"),
        "quantity" := Str("2"), "order_date" := Str("2024-03-01"), "total_price" := Num(45.0)]), strToFloat)
      == Some(Order(Str("AB1234567"), Str("Maple Sphere"), 2, "March 01, 2024", 45.0))
  {
    var f := map["order_id" := Str("AB1234567"), "product" := Str("Maple Sphere"),
        "quantity" := Str("2"), "order_date" := Str("2024-03-01"), "total_price" := Num(45.0)];
    assert f["order_date"] == Str("2024-03-01");
    assert f["quantity"] == Str("2");
    assert f["total_price"] == Num(45.0);
    assert f["order_id"] == Str("AB1234567");
    assert f["product"] == Str("Maple Sphere");
    Dates.ExampleDate();
    ParseDecimalText(2);
    assert DecimalText(2) == "2";
  }
}
