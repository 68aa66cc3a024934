/** The multi-row INSERT commands both replica writers send: the VALUES list with one placeholder tuple per
    record (`(@orderId0, @customerId0, ...)`), and the indexed parameters bound to those placeholders. */
module SqlCommand {
  import opened Optional
  import opened Text
  import opened Records

  // ---------------------------------------------------------------------------------------------------
  // Placeholders in a command text

  /** Characters that can continue a placeholder after `@`. */
  predicate IsNameChar(c: char) {
    IsLetter(c) || IsDigit(c) || c == '_'
  }

  predicate AllNameChars(s: string) {
    forall i :: 0 <= i < |s| ==> IsNameChar(s[i])
  }

  /** The placeholder name at the start of `s`: its longest prefix of name characters. */
  function NamePrefix(s: string): (r: string)
    ensures |r| <= |s| && r == s[..|r|]
  {
    if s == [] || !IsNameChar(s[0]) then [] else [s[0]] + NamePrefix(s[1..])
  }

  /** The parameter names a command text refers to, as `@name`, in order of appearance. */
  function Placeholders(text: string): seq<string>
    decreases |text|
  {
    if text == [] then []
    else if text[0] == '@' then
      var name := NamePrefix(text[1..]);
      [name] + Placeholders(text[1 + |name|..])
    else Placeholders(text[1..])
  }

  /** `s` does not stop in the middle of a placeholder. */
  predicate EndsOutsideName(s: string) {
    s == [] || (!IsNameChar(s[|s| - 1]) && s[|s| - 1] != '@')
  }

  lemma {:induction false} NamePrefixOfName(name: string, rest: string)
    requires AllNameChars(name)
    requires rest == [] || !IsNameChar(rest[0])
    ensures NamePrefix(name + rest) == name
  {
    if name != [] {
      assert (name + rest)[1..] == name[1..] + rest;
      NamePrefixOfName(name[1..], rest);
    }
  }

  lemma {:induction false} NamePrefixStops(s: string, rest: string)
    requires s != [] && !IsNameChar(s[|s| - 1])
    ensures NamePrefix(s + rest) == NamePrefix(s) && |NamePrefix(s)| < |s|
  {
    if IsNameChar(s[0]) {
      assert (s + rest)[1..] == s[1..] + rest;
      NamePrefixStops(s[1..], rest);
    }
  }

  /** Text that does not stop inside a placeholder can be scanned separately from what follows it. */
  lemma {:induction false} PlaceholdersAppend(a: string, b: string)
    requires EndsOutsideName(a)
    ensures Placeholders(a + b) == Placeholders(a) + Placeholders(b)
    decreases |a|
  {
    if a == [] {
      assert a + b == b;
    } else if a[0] == '@' {
      var name := NamePrefix(a[1..]);
      assert (a + b)[1..] == a[1..] + b;
      NamePrefixStops(a[1..], b);
      assert (a + b)[1 + |name|..] == a[1 + |name|..] + b;
      PlaceholdersAppend(a[1 + |name|..], b);
    } else {
      assert (a + b)[1..] == a[1..] + b;
      PlaceholdersAppend(a[1..], b);
    }
  }

  lemma PlaceholdersAt(name: string, rest: string)
    requires AllNameChars(name)
    requires rest == [] || !IsNameChar(rest[0])
    ensures Placeholders("@" + name + rest) == [name] + Placeholders(rest)
  {
    var t := "@" + name + rest;
    assert t[1..] == name + rest;
    NamePrefixOfName(name, rest);
    assert t[1 + |name|..] == rest;
  }

  // ---------------------------------------------------------------------------------------------------
  // The VALUES list

  /** The placeholder columns of one `orders` tuple and of one `payments` tuple, in statement order. */
  const OrderColumns: seq<string> := ["orderId", "customerId", "orderDate", "totalAmount", "orderState"]
  const PaymentColumns: seq<string> :=
    ["paymentId", "orderId", "paymentDate", "paymentAmount", "paymentMethod", "paymentState"]

  predicate ValidColumns(columns: seq<string>) {
    && (forall k :: 0 <= k < |columns| ==> AllLetters(columns[k]))
    && (forall k, k' :: 0 <= k < k' < |columns| ==> columns[k] != columns[k'])
  }

  lemma ColumnsValid()
    ensures ValidColumns(OrderColumns) && ValidColumns(PaymentColumns)
  {
    OrderColumnsValid();
    PaymentColumnsValid();
  }

  lemma OrderColumnsValid()
    ensures ValidColumns(OrderColumns)
  {
    assert AllLetters("orderId") && AllLetters("customerId") && AllLetters("orderDate");
    assert AllLetters("totalAmount") && AllLetters("orderState");
    assert "customerId"[0] != "orderState"[0];
  }

  lemma PaymentColumnsValid()
    ensures ValidColumns(PaymentColumns)
  {
    assert AllLetters("paymentId") && AllLetters("orderId") && AllLetters("paymentDate");
    assert AllLetters("paymentAmount") && AllLetters("paymentMethod") && AllLetters("paymentState");
    assert "paymentAmount"[7] != "paymentMethod"[7];
  }

  /** `$"{column}{i}"`: the parameter name of `column` in the tuple at position `i`. */
  function ParamName(column: string, i: nat): string {
    column + NatToString(i)
  }

  /** A parameter name determines its column and its position. */
  lemma ParamNameInjective(c1: string, c2: string, i: nat, j: nat)
    requires AllLetters(c1) && AllLetters(c2)
    requires ParamName(c1, i) == ParamName(c2, j)
    ensures c1 == c2 && i == j
  {
    var s := ParamName(c1, i);
    assert |c1| == |c2| by {
      DigitsStartAfterColumn(c1, i);
      DigitsStartAfterColumn(c2, j);
    }
    assert c1 == s[..|c1|] == c2;
    assert NatToString(i) == s[|c1|..] == NatToString(j);
    NatToStringInjective(i, j);
  }

  /** In a parameter name, the first digit is the first character after the column. */
  lemma DigitsStartAfterColumn(c: string, i: nat)
    requires AllLetters(c)
    ensures IsDigit(ParamName(c, i)[|c|])
    ensures forall t :: 0 <= t < |c| ==> !IsDigit(ParamName(c, i)[t])
  {
    var s := ParamName(c, i);
    assert s[|c|] == NatToString(i)[0];
    forall t | 0 <= t < |c| ensures !IsDigit(s[t]) {
      assert s[t] == c[t] && IsLetter(c[t]);
    }
  }

  /** The parameter names of the tuple at position `i`. */
  function TupleNames(columns: seq<string>, i: nat): seq<string> {
    seq(|columns|, k requires 0 <= k < |columns| => ParamName(columns[k], i))
  }

  function AtNames(names: seq<string>): seq<string> {
    seq(|names|, k requires 0 <= k < |names| => "@" + names[k])
  }

  /** `$"(@orderId{i}, @customerId{i}, ...)"`: the placeholder tuple at position `i`. */
  function TupleText(columns: seq<string>, i: nat): string {
    "(" + Join(", ", AtNames(TupleNames(columns, i))) + ")"
  }

  /** The tuples at positions `0 .. n - 1`. */
  function Tuples(columns: seq<string>, n: nat): (r: seq<string>)
    ensures |r| == n
  {
    if n == 0 then [] else Tuples(columns, n - 1) + [TupleText(columns, n - 1)]
  }

  /** `string.Join(", ", records.Select((_, i) => $"(@orderId{i}, ...)"))` for a list of `n` records. */
  function ValuesText(columns: seq<string>, n: nat): string {
    Join(", ", Tuples(columns, n))
  }

  /** The parameter names a VALUES list of `n` tuples must have bound, tuple by tuple. */
  function ValuesNames(columns: seq<string>, n: nat): (r: seq<string>)
    ensures |r| == n * |columns|
  {
    if n == 0 then [] else ValuesNames(columns, n - 1) + TupleNames(columns, n - 1)
  }

  /** A name with a suffix of `n` or more is not among the names of the first `n` tuples. */
  lemma {:induction false} FreshName(columns: seq<string>, n: nat, c: string, m: nat)
    requires ValidColumns(columns) && AllLetters(c) && n <= m
    ensures ParamName(c, m) !in ValuesNames(columns, n)
  {
    if n > 0 {
      FreshName(columns, n - 1, c, m);
      if ParamName(c, m) in TupleNames(columns, n - 1) {
        var k :| 0 <= k < |columns| && TupleNames(columns, n - 1)[k] == ParamName(c, m);
        ParamNameInjective(columns[k], c, n - 1, m);
      }
    }
  }

  /** The `, ` between two tuple entries holds no placeholder. */
  lemma SeparatorPlaceholders(rest: string)
    ensures Placeholders(", " + rest) == Placeholders(rest)
  {
    var s := ", " + rest;
    assert s[1..] == " " + rest;
    assert s[1..][1..] == rest;
  }

  /** Splitting off the last entry of a joined list of placeholders. */
  lemma AtJoinSnoc(names: seq<string>, t: string)
    requires |names| > 1
    ensures Join(", ", AtNames(names)) + t
            == Join(", ", AtNames(names[..|names| - 1])) + (", " + ("@" + names[|names| - 1] + t))
  {
    var m := |names|;
    var ats := AtNames(names);
    assert ats[..m - 1] == AtNames(names[..m - 1]);
    var head, last := Join(", ", AtNames(names[..m - 1])), "@" + names[m - 1];
    assert Join(", ", ats) == head + ", " + last;
    assert head + ", " + last + t == head + (", " + (last + t));
  }

  lemma {:induction false} AtJoinPlaceholders(names: seq<string>, t: string)
    requires forall k :: 0 <= k < |names| ==> AllNameChars(names[k])
    requires t != [] && !IsNameChar(t[0])
    ensures Placeholders(Join(", ", AtNames(names)) + t) == names + Placeholders(t)
  {
    var ats := AtNames(names);
    var m := |names|;
    if m == 1 {
      PlaceholdersAt(names[0], t);
    } else if m > 1 {
      var init := names[..m - 1];
      var rest := "@" + names[m - 1] + t;
      AtJoinSnoc(names, t);
      AtJoinPlaceholders(init, ", " + rest);
      SeparatorPlaceholders(rest);
      PlaceholdersAt(names[m - 1], t);
      calc {
        Placeholders(Join(", ", ats) + t);
        Placeholders(Join(", ", AtNames(init)) + (", " + rest));
        init + Placeholders(", " + rest);
        init + Placeholders(rest);
        init + ([names[m - 1]] + Placeholders(t));
        { assert init + [names[m - 1]] == names; }
        names + Placeholders(t);
      }
    } else {
      assert Join(", ", ats) + t == t;
    }
  }

  lemma TuplePlaceholders(columns: seq<string>, i: nat)
    requires ValidColumns(columns)
    ensures Placeholders(TupleText(columns, i)) == TupleNames(columns, i)
    ensures EndsOutsideName(TupleText(columns, i))
  {
    var names := TupleNames(columns, i);
    forall k | 0 <= k < |names| ensures AllNameChars(names[k]) {
      assert names[k] == columns[k] + NatToString(i);
    }
    var x := Join(", ", AtNames(names));
    assert TupleText(columns, i)[1..] == x + ")";
    AtJoinPlaceholders(names, ")");
  }

  /** The VALUES list refers to exactly the names of its tuples, in order: one tuple per record, with the
      record's position as suffix. */
  lemma {:induction false} ValuesPlaceholders(columns: seq<string>, n: nat)
    requires ValidColumns(columns)
    ensures Placeholders(ValuesText(columns, n)) == ValuesNames(columns, n)
    ensures EndsOutsideName(ValuesText(columns, n))
  {
    if n == 1 {
      TuplePlaceholders(columns, 0);
    } else if n > 1 {
      var init := Tuples(columns, n - 1);
      var last := TupleText(columns, n - 1);
      assert Tuples(columns, n)[..n - 1] == init;
      ValuesPlaceholders(columns, n - 1);
      PlaceholdersAppend(ValuesText(columns, n - 1), ", " + last);
      var sl := ", " + last;
      assert sl[1..][1..] == last;
      assert Tuples(columns, n) == init + [last];
      assert ValuesText(columns, n) == Join(", ", init) + ", " + last;
      assert ValuesText(columns, n - 1) == Join(", ", init);
      assert Join(", ", init) + ", " + last == ValuesText(columns, n - 1) + sl;
      TuplePlaceholders(columns, n - 1);
      calc {
        Placeholders(ValuesText(columns, n));
        Placeholders(ValuesText(columns, n - 1) + sl);
        Placeholders(ValuesText(columns, n - 1)) + Placeholders(sl);
        { assert sl[0] == ',' && sl[1..][0] == ' '; }
        ValuesNames(columns, n - 1) + Placeholders(last);
        ValuesNames(columns, n);
      }
    }
  }

  // ---------------------------------------------------------------------------------------------------
  // Parameters

  /** A value bound with `AddWithValue`; `DBNull.Value` is `Null`. */
  datatype SqlValue =
    | BigInt(int64: Int64)
    | Integer(int32: Int32)
    | Timestamp(dateTime: DateTime)
    | Numeric(decimal: Decimal)
    | Varchar(text: string)
    | Null

  datatype Param = Param(name: string, value: SqlValue)

  function ParamNames(params: seq<Param>): seq<string> {
    seq(|params|, k requires 0 <= k < |params| => params[k].name)
  }

  /** The value the driver binds to placeholder `@name`. */
  function Lookup(params: seq<Param>, name: string): Option<SqlValue> {
    if params == [] then None
    else if params[0].name == name then Some(params[0].value)
    else Lookup(params[1..], name)
  }

  lemma {:induction false} LookupAppendBound(p: seq<Param>, q: seq<Param>, name: string)
    requires Lookup(p, name).Some?
    ensures Lookup(p + q, name) == Lookup(p, name)
  {
    if p[0].name != name {
      assert (p + q)[1..] == p[1..] + q;
      LookupAppendBound(p[1..], q, name);
    }
  }

  lemma {:induction false} LookupAppendFresh(p: seq<Param>, q: seq<Param>, name: string)
    requires name !in ParamNames(p)
    ensures Lookup(p + q, name) == Lookup(q, name)
  {
    if p != [] {
      assert p[0].name == ParamNames(p)[0];
      assert (p + q)[1..] == p[1..] + q;
      assert ParamNames(p[1..]) == ParamNames(p)[1..];
      LookupAppendFresh(p[1..], q, name);
    } else {
      assert p + q == q;
    }
  }

  function NullIfNone<T>(v: Option<T>, wrap: T -> SqlValue): SqlValue {
    match v
    case Some(x) => wrap(x)
    case None => Null
  }

  /** The values bound for a record's `orders` tuple, column by column. */
  function OrderValues(r: OrderPaymentRecord): seq<SqlValue> {
    [BigInt(r.orderId), Integer(r.customerId), Timestamp(r.orderDate), Numeric(r.totalAmount), Varchar(r.orderState)]
  }

  /** The values bound for a record's `payments` tuple; an absent field is bound as `DBNull.Value`. */
  function PaymentValues(r: OrderPaymentRecord): seq<SqlValue>
    requires HasPayment(r)
  {
    [ BigInt(r.paymentId.value), BigInt(r.orderId),
      NullIfNone(r.paymentDate, d => Timestamp(d)), NullIfNone(r.paymentAmount, a => Numeric(a)),
      NullIfNone(r.paymentMethod, m => Varchar(m)), NullIfNone(r.paymentState, s => Varchar(s)) ]
  }

  /** The loop `for (var i = 0; i < records.Count; i++) { orderCommand.Parameters.AddWithValue($"orderId{i}", ...); ... }`:
      the parameters bound are exactly the names of the VALUES list, and each placeholder of tuple `i`
      receives the matching column of `records[i]`. */
  method BuildOrderParameters(records: seq<OrderPaymentRecord>) returns (params: seq<Param>)
    ensures ParamNames(params) == ValuesNames(OrderColumns, |records|)
    ensures forall i, k :: 0 <= i < |records| && 0 <= k < |OrderColumns| ==>
              Lookup(params, ParamName(OrderColumns[k], i)) == Some(OrderValues(records[i])[k])
  {
    ColumnsValid();
    params := [];
    ghost var rows := OrderValueRows(records);
    for i := 0 to |records|
      invariant ParamNames(params) == ValuesNames(OrderColumns, i)
      invariant forall j, k :: 0 <= j < i && 0 <= k < |OrderColumns| && k < |rows[j]| ==>
                  Lookup(params, ParamName(OrderColumns[k], j)) == Some(rows[j][k])
    {
      var r := records[i];
      var tuple := [
        Param("orderId" + NatToString(i), BigInt(r.orderId)),
        Param("customerId" + NatToString(i), Integer(r.customerId)),
        Param("orderDate" + NatToString(i), Timestamp(r.orderDate)),
        Param("totalAmount" + NatToString(i), Numeric(r.totalAmount)),
        Param("orderState" + NatToString(i), Varchar(r.orderState))];
      TupleBound(OrderColumns, params, tuple, i, OrderValues(r));
      BindingsKept(params, tuple, OrderColumns, rows, i);
      params := params + tuple;
    }
    assert forall j :: 0 <= j < |records| ==> rows[j] == OrderValues(records[j]) && |rows[j]| == |OrderColumns|;
  }

  /** The loop over `paymentRecords` that binds `paymentId{i}`, `orderId{i}`, ...: positions are those of the
      filtered list. */
  method BuildPaymentParameters(paymentRecords: seq<OrderPaymentRecord>) returns (params: seq<Param>)
    requires forall i :: 0 <= i < |paymentRecords| ==> HasPayment(paymentRecords[i])
    ensures ParamNames(params) == ValuesNames(PaymentColumns, |paymentRecords|)
    ensures forall i, k :: 0 <= i < |paymentRecords| && 0 <= k < |PaymentColumns| ==>
              Lookup(params, ParamName(PaymentColumns[k], i)) == Some(PaymentValues(paymentRecords[i])[k])
  {
    ColumnsValid();
    params := [];
    ghost var rows := PaymentValueRows(paymentRecords);
    for i := 0 to |paymentRecords|
      invariant ParamNames(params) == ValuesNames(PaymentColumns, i)
      invariant forall j, k :: 0 <= j < i && 0 <= k < |PaymentColumns| && k < |rows[j]| ==>
                  Lookup(params, ParamName(PaymentColumns[k], j)) == Some(rows[j][k])
    {
      var r := paymentRecords[i];
      var tuple := [
        Param("paymentId" + NatToString(i), BigInt(r.paymentId.value)),
        Param("orderId" + NatToString(i), BigInt(r.orderId)),
        Param("paymentDate" + NatToString(i), if r.paymentDate.Some? then Timestamp(r.paymentDate.value) else Null),
        Param("paymentAmount" + NatToString(i), if r.paymentAmount.Some? then Numeric(r.paymentAmount.value) else Null),
        Param("paymentMethod" + NatToString(i), if r.paymentMethod.Some? then Varchar(r.paymentMethod.value) else Null),
        Param("paymentState" + NatToString(i), if r.paymentState.Some? then Varchar(r.paymentState.value) else Null)];
      TupleBound(PaymentColumns, params, tuple, i, PaymentValues(r));
      BindingsKept(params, tuple, PaymentColumns, rows, i);
      params := params + tuple;
    }
    assert forall j :: 0 <= j < |paymentRecords| ==> rows[j] == PaymentValues(paymentRecords[j]) && |rows[j]| == |PaymentColumns|;
  }

  /** Appending parameters keeps every binding made before. */
  lemma BindingsKept(params: seq<Param>, tuple: seq<Param>, columns: seq<string>, rows: seq<seq<SqlValue>>, i: nat)
    requires i <= |rows|
    requires forall j, k :: 0 <= j < i && 0 <= k < |columns| && k < |rows[j]| ==>
               Lookup(params, ParamName(columns[k], j)) == Some(rows[j][k])
    ensures forall j, k :: 0 <= j < i && 0 <= k < |columns| && k < |rows[j]| ==>
              Lookup(params + tuple, ParamName(columns[k], j)) == Some(rows[j][k])
  {
    forall j, k | 0 <= j < i && 0 <= k < |columns| && k < |rows[j]|
      ensures Lookup(params + tuple, ParamName(columns[k], j)) == Some(rows[j][k])
    {
      LookupAppendBound(params, tuple, ParamName(columns[k], j));
    }
  }

  /** Appending the tuple at position `i` after the parameters of positions `0 .. i - 1` binds each of its
      names to its value and extends the name list by one tuple. */
  lemma TupleBound(columns: seq<string>, params: seq<Param>, tuple: seq<Param>, i: nat, values: seq<SqlValue>)
    requires ValidColumns(columns)
    requires ParamNames(params) == ValuesNames(columns, i)
    requires |tuple| == |columns| == |values|
    requires forall k :: 0 <= k < |tuple| ==> tuple[k] == Param(ParamName(columns[k], i), values[k])
    ensures ParamNames(params + tuple) == ValuesNames(columns, i + 1)
    ensures forall k :: 0 <= k < |columns| ==> Lookup(params + tuple, ParamName(columns[k], i)) == Some(values[k])
  {
    assert ParamNames(params + tuple) == ParamNames(params) + ParamNames(tuple);
    assert ParamNames(tuple) == TupleNames(columns, i);
    forall k | 0 <= k < |columns| ensures Lookup(params + tuple, ParamName(columns[k], i)) == Some(values[k]) {
      FreshName(columns, i, columns[k], i);
      LookupAppendFresh(params, tuple, ParamName(columns[k], i));
      LookupInTuple(columns, tuple, i, values, k);
    }
  }

  lemma {:induction false} LookupInTuple(columns: seq<string>, tuple: seq<Param>, i: nat, values: seq<SqlValue>, k: nat)
    requires ValidColumns(columns)
    requires |tuple| == |columns| == |values| && k < |columns|
    requires forall j :: 0 <= j < |tuple| ==> tuple[j] == Param(ParamName(columns[j], i), values[j])
    ensures Lookup(tuple, ParamName(columns[k], i)) == Some(values[k])
  {
    if k > 0 {
      if tuple[0].name == ParamName(columns[k], i) {
        ParamNameInjective(columns[0], columns[k], i, i);
      }
      var columns', tuple', values' := columns[1..], tuple[1..], values[1..];
      assert ValidColumns(columns') by {
        forall a, b | 0 <= a < b < |columns'| ensures columns'[a] != columns'[b] {
          assert columns'[a] == columns[a + 1] && columns'[b] == columns[b + 1];
        }
      }
      LookupInTuple(columns', tuple', i, values', k - 1);
    }
  }

  // ---------------------------------------------------------------------------------------------------
  // Commands

  /** A command sent to the server: its text and its bound parameters. */
  datatype Command = Command(text: string, params: seq<Param>)

  /** Where a batch transaction throws, if at all: opening the connection or beginning the transaction (before
      the `try`), the `orders` statement, the `payments` statement, or the commit. */
  datatype FailurePoint = NoFailure | OpenFails | OrdersFail | PaymentsFail | CommitFails

  /** A batch throws when it reaches its failure point; the `payments` statement is reached only when some
      record carries a payment. */
  predicate BatchThrows(failure: FailurePoint, hasPayments: bool) {
    failure != NoFailure && (failure != PaymentsFail || hasPayments)
  }

  /** The fixed text before the VALUES list. */
  const OrdersHead := "INSERT INTO orders (order_id, customer_id, order_date, total_amount, state) VALUES "
  const PaymentsHead :=
    "INSERT INTO payments (payment_id, order_id, payment_date, payment_amount, payment_method, state) VALUES "

  function OrderValueRows(records: seq<OrderPaymentRecord>): seq<seq<SqlValue>> {
    seq(|records|, i requires 0 <= i < |records| => OrderValues(records[i]))
  }

  function PaymentValueRows(paymentRecords: seq<OrderPaymentRecord>): seq<seq<SqlValue>>
    requires forall i :: 0 <= i < |paymentRecords| ==> HasPayment(paymentRecords[i])
  {
    seq(|paymentRecords|, i requires 0 <= i < |paymentRecords| && HasPayment(paymentRecords[i]) =>
      PaymentValues(paymentRecords[i]))
  }

  /** `cmd` is the multi-row INSERT `head VALUES (...), ... tail` with one tuple of `columns` per row, and its
      parameters bind exactly the placeholders of those tuples, tuple `i` to `rows[i]`. */
  ghost predicate IsInsert(cmd: Command, head: string, columns: seq<string>, rows: seq<seq<SqlValue>>, tail: string) {
    && cmd.text == head + ValuesText(columns, |rows|) + tail
    && ParamNames(cmd.params) == ValuesNames(columns, |rows|)
    && forall i, k :: 0 <= i < |rows| && 0 <= k < |columns| && k < |rows[i]| ==>
         Lookup(cmd.params, ParamName(columns[k], i)) == Some(rows[i][k])
  }

  /** In such a command every placeholder of the VALUES list has a parameter and every parameter a
      placeholder, in the same order. */
  lemma InsertPlaceholdersBound(cmd: Command, head: string, columns: seq<string>, rows: seq<seq<SqlValue>>, tail: string)
    requires ValidColumns(columns)
    requires IsInsert(cmd, head, columns, rows, tail)
    ensures Placeholders(ValuesText(columns, |rows|)) == ParamNames(cmd.params)
  {
    ValuesPlaceholders(columns, |rows|);
  }

  /** The `orders` statement of a non-empty batch, with the given conflict clause. */
  method OrdersCommand(records: seq<OrderPaymentRecord>, tail: string) returns (cmd: Command)
    ensures IsInsert(cmd, OrdersHead, OrderColumns, OrderValueRows(records), tail)
  {
    var params := BuildOrderParameters(records);
    cmd := Command(OrdersHead + ValuesText(OrderColumns, |records|) + tail, params);
  }

  /** The `payments` statement over the records that carry a payment, with the given conflict clause. */
  method PaymentsCommand(paymentRecords: seq<OrderPaymentRecord>, tail: string) returns (cmd: Command)
    requires forall i :: 0 <= i < |paymentRecords| ==> HasPayment(paymentRecords[i])
    ensures IsInsert(cmd, PaymentsHead, PaymentColumns, PaymentValueRows(paymentRecords), tail)
  {
    var params := BuildPaymentParameters(paymentRecords);
    cmd := Command(PaymentsHead + ValuesText(PaymentColumns, |paymentRecords|) + tail, params);
  }

  /** The statements of a non-empty batch in the order its transaction runs them: the `orders` statement, then,
      when some record carries a payment, the `payments` statement over those records. */
  method BatchStatements(records: seq<OrderPaymentRecord>, ordersTail: string, paymentsTail: string)
    returns (commands: seq<Command>)
    ensures |commands| == (if PaymentRecords(records) == [] then 1 else 2)
    ensures IsInsert(commands[0], OrdersHead, OrderColumns, OrderValueRows(records), ordersTail)
    ensures |commands| == 2 ==>
              IsInsert(commands[1], PaymentsHead, PaymentColumns, PaymentValueRows(PaymentRecords(records)), paymentsTail)
  {
    var orderCommand := OrdersCommand(records, ordersTail);
    commands := [orderCommand];
    var paymentRecords := PaymentRecords(records);
    if |paymentRecords| > 0 {
      var paymentCommand := PaymentsCommand(paymentRecords, paymentsTail);
      commands := commands + [paymentCommand];
    }
  }
}
