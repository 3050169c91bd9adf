/**
 * Cleaning the order table: column renaming to snake case, date and number
 * conversion of known columns, the derived delay and on-time columns,
 * deduplication on the order line id, and dropping rows with a missing key.
 * Rows keep their order throughout; rows are only ever left out.
 */
module DataLoader {
  import opened Wrappers
  import opened Tables

  // ---------------------------------------------------------------------------
  // rename_columns

  /** The rename map of `rename_columns`, source name to new name, in pieces of nine pairs. */
  const Renames1: seq<(string, string)> := [
    ("Type", "payment_type"),
    ("Days for shipping (real)", "days_for_shipping_real"),
    ("Days for shipment (scheduled)", "days_for_shipment_scheduled"),
    ("Benefit per order", "benefit_per_order"),
    ("Sales per customer", "sales_per_customer"),
    ("Delivery Status", "delivery_status"),
    ("Late_delivery_risk", "late_delivery_risk"),
    ("Category Id", "category_id"),
    ("Category Name", "category_name")
  ]
  const Renames2: seq<(string, string)> := [
    ("Customer City", "customer_city"),
    ("Customer Country", "customer_country"),
    ("Customer Email", "customer_email"),
    ("Customer Fname", "customer_fname"),
    ("Customer Id", "customer_id"),
    ("Customer Lname", "customer_lname"),
    ("Customer Password", "customer_password"),
    ("Customer Segment", "customer_segment"),
    ("Customer State", "customer_state")
  ]
  const Renames3: seq<(string, string)> := [
    ("Customer Street", "customer_street"),
    ("Customer Zipcode", "customer_zipcode"),
    ("Department Id", "department_id"),
    ("Department Name", "department_name"),
    ("Latitude", "latitude"),
    ("Longitude", "longitude"),
    ("Market", "market"),
    ("Order City", "order_city"),
    ("Order Country", "order_country")
  ]
  const Renames4: seq<(string, string)> := [
    ("Order Customer Id", "order_customer_id"),
    ("order date (DateOrders)", "order_date"),
    ("Order Id", "order_id"),
    ("Order Item Cardprod Id", "order_item_cardprod_id"),
    ("Order Item Discount", "order_item_discount"),
    ("Order Item Discount Rate", "order_item_discount_rate"),
    ("Order Item Id", "order_item_id"),
    ("Order Item Product Price", "order_item_product_price"),
    ("Order Item Profit Ratio", "order_item_profit_ratio")
  ]
  const Renames5: seq<(string, string)> := [
    ("Order Item Quantity", "order_item_quantity"),
    ("Sales", "sales"),
    ("Order Item Total", "order_item_total"),
    ("Order Profit Per Order", "order_profit_per_order"),
    ("Order Region", "order_region"),
    ("Order State", "order_state"),
    ("Order Status", "order_status"),
    ("Order Zipcode", "order_zipcode"),
    ("Product Card Id", "product_card_id")
  ]
  const Renames6: seq<(string, string)> := [
    ("Product Category Id", "product_category_id"),
    ("Product Description", "product_description"),
    ("Product Image", "product_image"),
    ("Product Name", "product_name"),
    ("Product Price", "product_price"),
    ("Product Status", "product_status"),
    ("shipping date (DateOrders)", "shipping_date"),
    ("Shipping Mode", "shipping_mode")
  ]

  const Renames: seq<(string, string)> := Renames1 + Renames2 + Renames3 + Renames4 + Renames5 + Renames6

  function Sources(ps: seq<(string, string)>): (r: seq<string>)
    ensures |r| == |ps| && forall i :: 0 <= i < |ps| ==> r[i] == ps[i].0
  {
    seq(|ps|, i requires 0 <= i < |ps| => ps[i].0)
  }

  function Targets(ps: seq<(string, string)>): (r: seq<string>)
    ensures |r| == |ps| && forall i :: 0 <= i < |ps| ==> r[i] == ps[i].1
  {
    seq(|ps|, i requires 0 <= i < |ps| => ps[i].1)
  }

  predicate Distinct(s: seq<string>) {
    forall i, j :: 0 <= i < j < |s| ==> s[i] != s[j]
  }

  predicate Apart(s: seq<string>, t: seq<string>) {
    forall i, j :: 0 <= i < |s| && 0 <= j < |t| ==> s[i] != t[j]
  }

  /** `rename_map.get(name)`. */
  function Lookup(ps: seq<(string, string)>, name: string): (r: Option<string>)
    ensures r.Some? <==> name in Sources(ps)
    ensures r.Some? ==> exists i :: 0 <= i < |ps| && ps[i] == (name, r.value)
  {
    if ps == [] then None
    else if ps[0].0 == name then Some(ps[0].1)
    else
      assert Sources(ps) == [ps[0].0] + Sources(ps[1..]);
      var r := Lookup(ps[1..], name);
      assert r.Some? ==> exists i :: 0 <= i < |ps| - 1 && ps[1..][i] == (name, r.value);
      r
  }

  /** The new name of one column: the mapped name, or the name itself when the map lacks it. */
  function RenameColumn(name: string): string {
    match Lookup(Renames, name)
    case Some(target) => target
    case None => name
  }

  /** `rename_columns(df)`: the same rows under the renamed columns, in the same order. */
  function RenameColumns(t: Table): (r: Table)
    ensures r.rows == t.rows && |r.columns| == |t.columns|
    ensures forall i :: 0 <= i < |t.columns| ==>
      && (t.columns[i] !in Sources(Renames) ==> r.columns[i] == t.columns[i])
      && (t.columns[i] in Sources(Renames) ==> (t.columns[i], r.columns[i]) in Renames)
  {
    Table(seq(|t.columns|, i requires 0 <= i < |t.columns| => RenameColumn(t.columns[i])), t.rows)
  }

  /** The map is a dictionary with one entry per source name. */
  lemma RenameMapIsDictionary()
    ensures Distinct(Sources(Renames))
  {
    SourcesDistinctUpTo6();
  }

  /** No two source names share a target. */
  lemma RenameMapInjective()
    ensures Distinct(Targets(Renames))
  {
    TargetsDistinctUpTo6();
  }

  /** Two different columns the map knows get different new names. */
  lemma RenameKeepsMappedApart(a: string, b: string)
    requires a in Sources(Renames) && b in Sources(Renames) && a != b
    ensures RenameColumn(a) != RenameColumn(b)
  {
    RenameMapInjective();
    var i :| 0 <= i < |Renames| && Renames[i] == (a, RenameColumn(a));
    var j :| 0 <= j < |Renames| && Renames[j] == (b, RenameColumn(b));
    assert Targets(Renames)[i] == RenameColumn(a) && Targets(Renames)[j] == RenameColumn(b);
  }

  lemma Join(a: seq<(string, string)>, b: seq<(string, string)>)
    ensures Targets(a + b) == Targets(a) + Targets(b)
    ensures Sources(a + b) == Sources(a) + Sources(b)
  {
  }

  lemma DistinctJoin(a: seq<string>, b: seq<string>)
    requires Distinct(a) && Distinct(b) && Apart(a, b)
    ensures Distinct(a + b)
  {
    forall i, j | 0 <= i < j < |a + b| ensures (a + b)[i] != (a + b)[j] {
      if j < |a| {
        assert (a + b)[i] == a[i] && (a + b)[j] == a[j];
      } else if i < |a| {
        assert (a + b)[i] == a[i] && (a + b)[j] == b[j - |a|];
      } else {
        assert (a + b)[i] == b[i - |a|] && (a + b)[j] == b[j - |a|];
      }
    }
  }

  lemma ApartJoin(a: seq<string>, b: seq<string>, c: seq<string>)
    requires Apart(a, c) && Apart(b, c)
    ensures Apart(a + b, c)
  {
    forall i, j | 0 <= i < |a + b| && 0 <= j < |c| ensures (a + b)[i] != c[j] {
      if i < |a| {
        assert (a + b)[i] == a[i];
      } else {
        assert (a + b)[i] == b[i - |a|];
      }
    }
  }

  lemma TargetsChunk1() ensures Distinct(Targets(Renames1)) {}
  lemma SourcesChunk1() ensures Distinct(Sources(Renames1)) {}
  lemma TargetsChunk2() ensures Distinct(Targets(Renames2)) {}
  lemma SourcesChunk2() ensures Distinct(Sources(Renames2)) {}
  lemma TargetsChunk3() ensures Distinct(Targets(Renames3)) {}
  lemma SourcesChunk3() ensures Distinct(Sources(Renames3)) {}
  lemma TargetsChunk4() ensures Distinct(Targets(Renames4)) {}
  lemma SourcesChunk4() ensures Distinct(Sources(Renames4)) {}
  lemma TargetsChunk5() ensures Distinct(Targets(Renames5)) {}
  lemma SourcesChunk5() ensures Distinct(Sources(Renames5)) {}
  lemma TargetsChunk6() ensures Distinct(Targets(Renames6)) {}
  lemma SourcesChunk6() ensures Distinct(Sources(Renames6)) {}
  lemma TargetsApart12() ensures Apart(Targets(Renames1), Targets(Renames2)) {}
  lemma SourcesApart12() ensures Apart(Sources(Renames1), Sources(Renames2)) {}
  lemma TargetsApart13() ensures Apart(Targets(Renames1), Targets(Renames3)) {}
  lemma SourcesApart13() ensures Apart(Sources(Renames1), Sources(Renames3)) {}
  lemma TargetsApart14() ensures Apart(Targets(Renames1), Targets(Renames4)) {}
  lemma SourcesApart14() ensures Apart(Sources(Renames1), Sources(Renames4)) {}
  lemma TargetsApart15() ensures Apart(Targets(Renames1), Targets(Renames5)) {}
  lemma SourcesApart15() ensures Apart(Sources(Renames1), Sources(Renames5)) {}
  lemma TargetsApart16() ensures Apart(Targets(Renames1), Targets(Renames6)) {}
  lemma SourcesApart16() ensures Apart(Sources(Renames1), Sources(Renames6)) {}
  lemma TargetsApart23() ensures Apart(Targets(Renames2), Targets(Renames3)) {}
  lemma SourcesApart23() ensures Apart(Sources(Renames2), Sources(Renames3)) {}
  lemma TargetsApart24() ensures Apart(Targets(Renames2), Targets(Renames4)) {}
  lemma SourcesApart24() ensures Apart(Sources(Renames2), Sources(Renames4)) {}
  lemma TargetsApart25() ensures Apart(Targets(Renames2), Targets(Renames5)) {}
  lemma SourcesApart25() ensures Apart(Sources(Renames2), Sources(Renames5)) {}
  lemma TargetsApart26() ensures Apart(Targets(Renames2), Targets(Renames6)) {}
  lemma SourcesApart26() ensures Apart(Sources(Renames2), Sources(Renames6)) {}
  lemma TargetsApart34() ensures Apart(Targets(Renames3), Targets(Renames4)) {}
  lemma SourcesApart34() ensures Apart(Sources(Renames3), Sources(Renames4)) {}
  lemma TargetsApart35() ensures Apart(Targets(Renames3), Targets(Renames5)) {}
  lemma SourcesApart35() ensures Apart(Sources(Renames3), Sources(Renames5)) {}
  lemma TargetsApart36() ensures Apart(Targets(Renames3), Targets(Renames6)) {}
  lemma SourcesApart36() ensures Apart(Sources(Renames3), Sources(Renames6)) {}
  lemma TargetsApart45() ensures Apart(Targets(Renames4), Targets(Renames5)) {}
  lemma SourcesApart45() ensures Apart(Sources(Renames4), Sources(Renames5)) {}
  lemma TargetsApart46() ensures Apart(Targets(Renames4), Targets(Renames6)) {}
  lemma SourcesApart46() ensures Apart(Sources(Renames4), Sources(Renames6)) {}
  lemma TargetsApart56() ensures Apart(Targets(Renames5), Targets(Renames6)) {}
  lemma SourcesApart56() ensures Apart(Sources(Renames5), Sources(Renames6)) {}

  lemma TargetsDistinctUpTo2()
    ensures Distinct(Targets(Renames1 + Renames2))
  {
    TargetsChunk1();
    TargetsChunk2();
    TargetsApart12();
    DistinctJoin(Targets(Renames1), Targets(Renames2));
    Join(Renames1, Renames2);
  }

  lemma TargetsDistinctUpTo3()
    ensures Distinct(Targets(Renames1 + Renames2 + Renames3))
  {
    TargetsDistinctUpTo2();
    TargetsChunk3();
    TargetsApart13();
    TargetsApart23();
    ApartJoin(Targets(Renames1), Targets(Renames2), Targets(Renames3));
    Join(Renames1, Renames2);
    DistinctJoin(Targets(Renames1 + Renames2), Targets(Renames3));
    Join(Renames1 + Renames2, Renames3);
  }

  lemma TargetsDistinctUpTo4()
    ensures Distinct(Targets(Renames1 + Renames2 + Renames3 + Renames4))
  {
    TargetsDistinctUpTo3();
    TargetsChunk4();
    TargetsApart14();
    TargetsApart24();
    TargetsApart34();
    ApartJoin(Targets(Renames1), Targets(Renames2), Targets(Renames4));
    Join(Renames1, Renames2);
    ApartJoin(Targets(Renames1 + Renames2), Targets(Renames3), Targets(Renames4));
    Join(Renames1 + Renames2, Renames3);
    DistinctJoin(Targets(Renames1 + Renames2 + Renames3), Targets(Renames4));
    Join(Renames1 + Renames2 + Renames3, Renames4);
  }

  lemma TargetsDistinctUpTo5()
    ensures Distinct(Targets(Renames1 + Renames2 + Renames3 + Renames4 + Renames5))
  {
    TargetsDistinctUpTo4();
    TargetsChunk5();
    TargetsApart15();
    TargetsApart25();
    TargetsApart35();
    TargetsApart45();
    ApartJoin(Targets(Renames1), Targets(Renames2), Targets(Renames5));
    Join(Renames1, Renames2);
    ApartJoin(Targets(Renames1 + Renames2), Targets(Renames3), Targets(Renames5));
    Join(Renames1 + Renames2, Renames3);
    ApartJoin(Targets(Renames1 + Renames2 + Renames3), Targets(Renames4), Targets(Renames5));
    Join(Renames1 + Renames2 + Renames3, Renames4);
    DistinctJoin(Targets(Renames1 + Renames2 + Renames3 + Renames4), Targets(Renames5));
    Join(Renames1 + Renames2 + Renames3 + Renames4, Renames5);
  }

  lemma TargetsDistinctUpTo6()
    ensures Distinct(Targets(Renames1 + Renames2 + Renames3 + Renames4 + Renames5 + Renames6))
  {
    TargetsDistinctUpTo5();
    TargetsChunk6();
    TargetsApart16();
    TargetsApart26();
    TargetsApart36();
    TargetsApart46();
    TargetsApart56();
    ApartJoin(Targets(Renames1), Targets(Renames2), Targets(Renames6));
    Join(Renames1, Renames2);
    ApartJoin(Targets(Renames1 + Renames2), Targets(Renames3), Targets(Renames6));
    Join(Renames1 + Renames2, Renames3);
    ApartJoin(Targets(Renames1 + Renames2 + Renames3), Targets(Renames4), Targets(Renames6));
    Join(Renames1 + Renames2 + Renames3, Renames4);
    ApartJoin(Targets(Renames1 + Renames2 + Renames3 + Renames4), Targets(Renames5), Targets(Renames6));
    Join(Renames1 + Renames2 + Renames3 + Renames4, Renames5);
    DistinctJoin(Targets(Renames1 + Renames2 + Renames3 + Renames4 + Renames5), Targets(Renames6));
    Join(Renames1 + Renames2 + Renames3 + Renames4 + Renames5, Renames6);
  }

  lemma SourcesDistinctUpTo2()
    ensures Distinct(Sources(Renames1 + Renames2))
  {
    SourcesChunk1();
    SourcesChunk2();
    SourcesApart12();
    DistinctJoin(Sources(Renames1), Sources(Renames2));
    Join(Renames1, Renames2);
  }

  lemma SourcesDistinctUpTo3()
    ensures Distinct(Sources(Renames1 + Renames2 + Renames3))
  {
    SourcesDistinctUpTo2();
    SourcesChunk3();
    SourcesApart13();
    SourcesApart23();
    ApartJoin(Sources(Renames1), Sources(Renames2), Sources(Renames3));
    Join(Renames1, Renames2);
    DistinctJoin(Sources(Renames1 + Renames2), Sources(Renames3));
    Join(Renames1 + Renames2, Renames3);
  }

  lemma SourcesDistinctUpTo4()
    ensures Distinct(Sources(Renames1 + Renames2 + Renames3 + Renames4))
  {
    SourcesDistinctUpTo3();
    SourcesChunk4();
    SourcesApart14();
    SourcesApart24();
    SourcesApart34();
    ApartJoin(Sources(Renames1), Sources(Renames2), Sources(Renames4));
    Join(Renames1, Renames2);
    ApartJoin(Sources(Renames1 + Renames2), Sources(Renames3), Sources(Renames4));
    Join(Renames1 + Renames2, Renames3);
    DistinctJoin(Sources(Renames1 + Renames2 + Renames3), Sources(Renames4));
    Join(Renames1 + Renames2 + Renames3, Renames4);
  }

  lemma SourcesDistinctUpTo5()
    ensures Distinct(Sources(Renames1 + Renames2 + Renames3 + Renames4 + Renames5))
  {
    SourcesDistinctUpTo4();
    SourcesChunk5();
    SourcesApart15();
    SourcesApart25();
    SourcesApart35();
    SourcesApart45();
    ApartJoin(Sources(Renames1), Sources(Renames2), Sources(Renames5));
    Join(Renames1, Renames2);
    ApartJoin(Sources(Renames1 + Renames2), Sources(Renames3), Sources(Renames5));
    Join(Renames1 + Renames2, Renames3);
    ApartJoin(Sources(Renames1 + Renames2 + Renames3), Sources(Renames4), Sources(Renames5));
    Join(Renames1 + Renames2 + Renames3, Renames4);
    DistinctJoin(Sources(Renames1 + Renames2 + Renames3 + Renames4), Sources(Renames5));
    Join(Renames1 + Renames2 + Renames3 + Renames4, Renames5);
  }

  lemma SourcesDistinctUpTo6()
    ensures Distinct(Sources(Renames1 + Renames2 + Renames3 + Renames4 + Renames5 + Renames6))
  {
    SourcesDistinctUpTo5();
    SourcesChunk6();
    SourcesApart16();
    SourcesApart26();
    SourcesApart36();
    SourcesApart46();
    SourcesApart56();
    ApartJoin(Sources(Renames1), Sources(Renames2), Sources(Renames6));
    Join(Renames1, Renames2);
    ApartJoin(Sources(Renames1 + Renames2), Sources(Renames3), Sources(Renames6));
    Join(Renames1 + Renames2, Renames3);
    ApartJoin(Sources(Renames1 + Renames2 + Renames3), Sources(Renames4), Sources(Renames6));
    Join(Renames1 + Renames2 + Renames3, Renames4);
    ApartJoin(Sources(Renames1 + Renames2 + Renames3 + Renames4), Sources(Renames5), Sources(Renames6));
    Join(Renames1 + Renames2 + Renames3 + Renames4, Renames5);
    DistinctJoin(Sources(Renames1 + Renames2 + Renames3 + Renames4 + Renames5), Sources(Renames6));
    Join(Renames1 + Renames2 + Renames3 + Renames4 + Renames5, Renames6);
  }

  // ---------------------------------------------------------------------------
  // Column conversion

  const DateColumns: seq<string> := ["order_date", "shipping_date"]

  const NumericColumns: seq<string> := [
    "days_for_shipping_real",
    "days_for_shipment_scheduled",
    "benefit_per_order",
    "sales_per_customer",
    "late_delivery_risk",
    "order_item_discount",
    "order_item_discount_rate",
    "order_item_product_price",
    "order_item_profit_ratio",
    "order_item_quantity",
    "sales",
    "order_item_total",
    "order_profit_per_order",
    "latitude",
    "longitude",
    "product_price"
  ]

  /** The cell in column `c` of a row, missing when the row is too short. */
  function Key(row: Row, c: nat): Cell {
    if c < |row| then row[c] else None
  }

  /** A row with the cell in column `k` converted by `f`. */
  function ConvertCell(row: Row, k: nat, f: Cell -> Cell): (r: Row)
    ensures |r| == |row|
    ensures forall c :: 0 <= c < |row| ==> r[c] == (if c == k then f(row[c]) else row[c])
  {
    if k < |row| then row[k := f(row[k])] else row
  }

  /** `df[col] = convert(df[col])` for the first column called `col`, when there is one. */
  function ConvertNamed(t: Table, col: string, f: Cell -> Cell): (r: Table)
    ensures r.columns == t.columns && |r.rows| == |t.rows|
    ensures forall i :: 0 <= i < |t.rows| ==> |r.rows[i]| == |t.rows[i]|
    ensures forall i, c :: 0 <= i < |t.rows| && 0 <= c < |t.rows[i]| && ColumnIndex(t.columns, col) != Some(c) ==>
      r.rows[i][c] == t.rows[i][c]
    ensures forall i, c :: 0 <= i < |t.rows| && 0 <= c < |t.rows[i]| && ColumnIndex(t.columns, col) == Some(c) ==>
      r.rows[i][c] == f(t.rows[i][c])
  {
    match ColumnIndex(t.columns, col)
    case None => t
    case Some(k) => Table(t.columns, seq(|t.rows|, i requires 0 <= i < |t.rows| => ConvertCell(t.rows[i], k, f)))
  }

  /** The column a cell is in was converted when it is the first one bearing a listed name. */
  predicate ConvertedAt(cols: seq<string>, names: seq<string>, c: nat) {
    c < |cols| && cols[c] in names && ColumnIndex(cols, cols[c]) == Some(c)
  }

  /**
   * The effect of `for col in names: if col in df.columns: df[col] = convert(df[col])`:
   * the columns and the shape stay, the first column of each listed name is
   * converted cell by cell, and every other cell is as it was.
   */
  function ConvertAll(t: Table, names: seq<string>, f: Cell -> Cell): (r: Table)
    requires Distinct(names)
    ensures r.columns == t.columns && |r.rows| == |t.rows|
    ensures forall i :: 0 <= i < |t.rows| ==> |r.rows[i]| == |t.rows[i]|
    ensures forall i, c :: 0 <= i < |t.rows| && 0 <= c < |t.rows[i]| ==>
      r.rows[i][c] == (if ConvertedAt(t.columns, names, c) then f(t.rows[i][c]) else t.rows[i][c])
    decreases |names|
  {
    if names == [] then t
    else
      var init := names[..|names| - 1];
      var last := names[|names| - 1];
      assert Distinct(init);
      assert last !in init;
      var r := ConvertNamed(ConvertAll(t, init, f), last, f);
      ConvertStep(t, init, last, f, ConvertAll(t, init, f), r);
      assert init + [last] == names;
      r
  }

  lemma ConvertStep(t: Table, init: seq<string>, last: string, f: Cell -> Cell, mid: Table, r: Table)
    requires last !in init
    requires mid.columns == t.columns && |mid.rows| == |t.rows|
    requires forall i :: 0 <= i < |t.rows| ==> |mid.rows[i]| == |t.rows[i]|
    requires forall i, c :: 0 <= i < |t.rows| && 0 <= c < |t.rows[i]| ==>
      mid.rows[i][c] == (if ConvertedAt(t.columns, init, c) then f(t.rows[i][c]) else t.rows[i][c])
    requires r == ConvertNamed(mid, last, f)
    ensures forall i, c :: 0 <= i < |t.rows| && 0 <= c < |t.rows[i]| ==>
      r.rows[i][c] == (if ConvertedAt(t.columns, init + [last], c) then f(t.rows[i][c]) else t.rows[i][c])
  {
    forall i, c | 0 <= i < |t.rows| && 0 <= c < |t.rows[i]|
      ensures r.rows[i][c] == (if ConvertedAt(t.columns, init + [last], c) then f(t.rows[i][c]) else t.rows[i][c])
    {
      if ColumnIndex(t.columns, last) == Some(c) {
        assert !ConvertedAt(t.columns, init, c);
        assert ConvertedAt(t.columns, init + [last], c);
      } else {
        assert ConvertedAt(t.columns, init + [last], c) <==> ConvertedAt(t.columns, init, c);
      }
    }
  }

  /** The conversion loop, one listed name after another. */
  method ConvertColumns(t: Table, names: seq<string>, f: Cell -> Cell) returns (r: Table)
    requires Distinct(names)
    ensures r == ConvertAll(t, names, f)
  {
    r := t;
    for i := 0 to |names|
      invariant Distinct(names[..i]) && r == ConvertAll(t, names[..i], f)
    {
      assert names[..i + 1][..i] == names[..i];
      assert Distinct(names[..i + 1]);
      if names[i] in r.columns {
        r := ConvertNamed(r, names[i], f);
      }
    }
    assert names[..|names|] == names;
  }

  // ---------------------------------------------------------------------------
  // Derived columns

  const RealDays: string := "days_for_shipping_real"
  const ScheduledDays: string := "days_for_shipment_scheduled"
  const DelayColumn: string := "shipping_delay_days"
  const OnTimeColumn: string := "on_time_delivery"

  /**
   * `df[name] = cells`: the first column called `name` gets the cells, or,
   * when there is none, a new last column does.
   */
  function SetColumn(t: Table, name: string, cells: seq<Cell>): (r: Table)
    requires t.Valid() && |cells| == |t.rows|
    ensures r.Valid() && |r.rows| == |t.rows|
    ensures name in t.columns ==> r.columns == t.columns
    ensures name !in t.columns ==> r.columns == t.columns + [name]
    ensures forall i, c :: 0 <= i < |t.rows| && 0 <= c < |t.columns| && t.columns[c] != name ==>
      r.rows[i][c] == t.rows[i][c]
    ensures ColumnIndex(r.columns, name).Some?
    ensures forall i :: 0 <= i < |t.rows| ==> r.rows[i][ColumnIndex(r.columns, name).value] == cells[i]
  {
    match ColumnIndex(t.columns, name)
    case Some(k) =>
      Table(t.columns, seq(|t.rows|, i requires 0 <= i < |t.rows| => t.rows[i][k := cells[i]]))
    case None =>
      var r := Table(t.columns + [name], seq(|t.rows|, i requires 0 <= i < |t.rows| => t.rows[i] + [cells[i]]));
      assert r.columns[|t.columns|] == name && name !in r.columns[..|t.columns|];
      r
  }

  /** Real minus scheduled shipping days; missing when either is not a number. */
  function DelayCell(actual: Cell, scheduled: Cell): Cell {
    if actual.Some? && actual.value.Num? && scheduled.Some? && scheduled.value.Num?
    then Some(Num(actual.value.n - scheduled.value.n))
    else None
  }

  /** `delay <= 0`, where a missing delay compares false. */
  function OnTimeCell(delay: Cell): Cell {
    Some(Bool(delay.Some? && delay.value.Num? && delay.value.n <= 0))
  }

  /** The new column `shipping_delay_days`, added only when both day columns exist. */
  function AddDelay(t: Table): (r: Table)
    requires t.Valid()
    ensures r.Valid() && |r.rows| == |t.rows|
  {
    if RealDays in t.columns && ScheduledDays in t.columns then
      var kr, ks := ColumnIndex(t.columns, RealDays).value, ColumnIndex(t.columns, ScheduledDays).value;
      SetColumn(t, DelayColumn, seq(|t.rows|, i requires 0 <= i < |t.rows| => DelayCell(Key(t.rows[i], kr), Key(t.rows[i], ks))))
    else t
  }

  /** The new column `on_time_delivery`, added whenever there is a delay column. */
  function AddOnTime(t: Table): (r: Table)
    requires t.Valid()
    ensures r.Valid() && |r.rows| == |t.rows|
  {
    if DelayColumn in t.columns then
      var kd := ColumnIndex(t.columns, DelayColumn).value;
      SetColumn(t, OnTimeColumn, seq(|t.rows|, i requires 0 <= i < |t.rows| => OnTimeCell(Key(t.rows[i], kd))))
    else t
  }

  /** The cell of the first column called `name`, missing when there is no such column. */
  function Field(t: Table, row: Row, name: string): Cell {
    match ColumnIndex(t.columns, name)
    case Some(k) => Key(row, k)
    case None => None
  }

  /**
   * The delay column exists after the step exactly when it did before or both
   * day columns do; when it was added, every row's delay is its real days
   * minus its scheduled days. `DelayKeeps` states that the other columns stay.
   */
  lemma DelayDerived(t: Table)
    requires t.Valid()
    ensures !(RealDays in t.columns && ScheduledDays in t.columns) ==> AddDelay(t) == t
    ensures RealDays in t.columns && ScheduledDays in t.columns ==>
      var r := AddDelay(t);
      && DelayColumn in r.columns && RealDays in r.columns && ScheduledDays in r.columns
      && forall i :: 0 <= i < |r.rows| ==>
           Field(r, r.rows[i], DelayColumn) == DelayCell(Field(r, r.rows[i], RealDays), Field(r, r.rows[i], ScheduledDays))
  {
    if RealDays in t.columns && ScheduledDays in t.columns {
      var r := AddDelay(t);
      var kr, ks := ColumnIndex(t.columns, RealDays).value, ColumnIndex(t.columns, ScheduledDays).value;
      ColumnIndexKept(t.columns, r.columns, RealDays);
      ColumnIndexKept(t.columns, r.columns, ScheduledDays);
    }
  }

  /**
   * The on-time column is added exactly when there is a delay column, and then
   * every row is on time exactly when its delay is a number no greater than zero.
   */
  lemma OnTimeDerived(t: Table)
    requires t.Valid()
    ensures DelayColumn !in t.columns ==> AddOnTime(t) == t
    ensures DelayColumn in t.columns ==>
      var r := AddOnTime(t);
      && OnTimeColumn in r.columns && DelayColumn in r.columns
      && forall i :: 0 <= i < |r.rows| ==>
           var delay := Field(r, r.rows[i], DelayColumn);
           Field(r, r.rows[i], OnTimeColumn) == Some(Bool(delay.Some? && delay.value.Num? && delay.value.n <= 0))
  {
    if DelayColumn in t.columns {
      var r := AddOnTime(t);
      ColumnIndexKept(t.columns, r.columns, DelayColumn);
    }
  }

  /** Appending a column, or none, leaves the first position of every existing name. */
  lemma ColumnIndexKept(cols: seq<string>, more: seq<string>, name: string)
    requires name in cols && |cols| <= |more| && more[..|cols|] == cols
    ensures ColumnIndex(more, name) == ColumnIndex(cols, name)
  {
    var k := ColumnIndex(cols, name).value;
    assert more[..k] == cols[..k];
  }

  // ---------------------------------------------------------------------------
  // Filtering rows: deduplication and dropping missing keys

  /** `a` is `b` with some rows left out: `idx` says where each row of `a` sits in `b`, in increasing order. */
  predicate Embedding(idx: seq<nat>, a: seq<Row>, b: seq<Row>) {
    && |idx| == |a|
    && (forall k :: 0 <= k < |idx| ==> idx[k] < |b| && a[k] == b[idx[k]])
    && (forall k, l :: 0 <= k < l < |idx| ==> idx[k] < idx[l])
  }

  ghost predicate SubsequenceOf(a: seq<Row>, b: seq<Row>) {
    exists idx: seq<nat> :: Embedding(idx, a, b)
  }

  /** The positions below `n` that `keep` accepts, in increasing order. */
  function Chosen(n: nat, keep: nat -> bool): (idx: seq<nat>)
    ensures forall k :: 0 <= k < |idx| ==> idx[k] < n && keep(idx[k])
    ensures forall k, l :: 0 <= k < l < |idx| ==> idx[k] < idx[l]
    ensures forall i :: 0 <= i < n && keep(i) ==> i in idx
  {
    if n == 0 then [] else Chosen(n - 1, keep) + (if keep(n - 1) then [n - 1] else [])
  }

  /** The rows at the given positions. */
  function Pick(rows: seq<Row>, idx: seq<nat>): (r: seq<Row>)
    requires forall k :: 0 <= k < |idx| ==> idx[k] < |rows|
    ensures |r| == |idx| && forall k :: 0 <= k < |idx| ==> r[k] == rows[idx[k]]
  {
    seq(|idx|, k requires 0 <= k < |idx| => rows[idx[k]])
  }

  /** The rows `keep` accepts, in their order. */
  function Select(rows: seq<Row>, keep: nat -> bool): (r: seq<Row>)
    ensures Embedding(Chosen(|rows|, keep), r, rows)
  {
    Pick(rows, Chosen(|rows|, keep))
  }

  /** Leaving out rows twice is leaving out rows once. */
  lemma SubsequenceTransitive(a: seq<Row>, b: seq<Row>, c: seq<Row>, ab: seq<nat>, bc: seq<nat>)
    requires Embedding(ab, a, b) && Embedding(bc, b, c)
    ensures Embedding(seq(|ab|, k requires 0 <= k < |ab| => bc[ab[k]]), a, c)
  {
  }

  const ItemIdColumn: string := "order_item_id"

  /** No earlier row has the same cell in column `c`. */
  predicate FirstOfKey(rows: seq<Row>, c: nat, i: nat)
    requires i < |rows|
  {
    forall j :: 0 <= j < i ==> Key(rows[j], c) != Key(rows[i], c)
  }

  /** Whether row `i` is kept by deduplication on column `c`. */
  function KeepFirst(rows: seq<Row>, c: nat): nat -> bool {
    (i: nat) => i < |rows| && FirstOfKey(rows, c, i)
  }

  /** `drop_duplicates(subset=["order_item_id"])`: the first row of each id, missing ids counting as one value. */
  function DropDuplicates(t: Table): (r: Table)
    requires t.Valid()
    ensures r.Valid() && r.columns == t.columns && SubsequenceOf(r.rows, t.rows)
  {
    match ColumnIndex(t.columns, ItemIdColumn)
    case None => assert Embedding(seq(|t.rows|, k => k), t.rows, t.rows); t
    case Some(c) => Table(t.columns, Select(t.rows, KeepFirst(t.rows, c)))
  }

  /** After deduplication no id appears twice, each row left is the first of its id, and every id is left. */
  lemma DuplicatesDropped(t: Table)
    requires t.Valid() && ItemIdColumn in t.columns
    ensures var c := ColumnIndex(t.columns, ItemIdColumn).value;
      var r := DropDuplicates(t);
      && (forall k, l :: 0 <= k < l < |r.rows| ==> Key(r.rows[k], c) != Key(r.rows[l], c))
      && Embedding(Chosen(|t.rows|, KeepFirst(t.rows, c)), r.rows, t.rows)
      && (forall i :: 0 <= i < |t.rows| ==> exists k :: 0 <= k < |r.rows| && Key(r.rows[k], c) == Key(t.rows[i], c))
  {
    var c := ColumnIndex(t.columns, ItemIdColumn).value;
    KeptKeysUnique(t.rows, c);
    EveryKeyKept(t.rows, c);
  }

  lemma KeptKeysUnique(rows: seq<Row>, c: nat)
    ensures var r := Select(rows, KeepFirst(rows, c));
      forall k, l :: 0 <= k < l < |r| ==> Key(r[k], c) != Key(r[l], c)
  {
    var idx := Chosen(|rows|, KeepFirst(rows, c));
    var r := Select(rows, KeepFirst(rows, c));
    forall k, l | 0 <= k < l < |r| ensures Key(r[k], c) != Key(r[l], c) {
      assert idx[k] < idx[l] && KeepFirst(rows, c)(idx[l]);
    }
  }

  lemma EveryKeyKept(rows: seq<Row>, c: nat)
    ensures var r := Select(rows, KeepFirst(rows, c));
      forall i :: 0 <= i < |rows| ==> exists k :: 0 <= k < |r| && Key(r[k], c) == Key(rows[i], c)
  {
    var keep := KeepFirst(rows, c);
    var idx := Chosen(|rows|, keep);
    var r := Select(rows, keep);
    forall i | 0 <= i < |rows| ensures exists k :: 0 <= k < |r| && Key(r[k], c) == Key(rows[i], c) {
      var j := EarliestWithKey(rows, c, i);
      assert keep(j);
      var k :| 0 <= k < |idx| && idx[k] == j;
      assert r[k] == rows[j];
    }
  }

  /** The first row with the same id as row `i`. */
  lemma {:induction false} EarliestWithKey(rows: seq<Row>, c: nat, i: nat) returns (j: nat)
    requires i < |rows|
    ensures j <= i && FirstOfKey(rows, c, j) && Key(rows[j], c) == Key(rows[i], c)
    decreases i
  {
    if FirstOfKey(rows, c, i) {
      j := i;
    } else {
      var m :| 0 <= m < i && Key(rows[m], c) == Key(rows[i], c);
      j := EarliestWithKey(rows, c, m);
    }
  }

  const KeyColumns: seq<string> := ["order_id", "order_date", "sales"]

  /** The positions of the key columns that exist, in the order listed. */
  function KeyIndices(cols: seq<string>, names: seq<string>): (ks: seq<nat>)
    ensures forall m :: 0 <= m < |ks| ==> ks[m] < |cols|
    ensures forall name :: name in names && name in cols ==> ColumnIndex(cols, name).value in ks
    ensures |ks| == 0 <==> forall name :: name in names ==> name !in cols
  {
    if names == [] then []
    else
      (match ColumnIndex(cols, names[0]) case Some(k) => [k] case None => []) + KeyIndices(cols, names[1..])
  }

  /** A row with a cell in the column of every name that exists has a cell at every key position. */
  lemma {:induction false} KeyIndicesPresent(cols: seq<string>, names: seq<string>, row: Row)
    requires forall name :: name in names && name in cols ==> Key(row, ColumnIndex(cols, name).value).Some?
    ensures HasKeys(row, KeyIndices(cols, names))
  {
    if names != [] {
      KeyIndicesPresent(cols, names[1..], row);
      var head := match ColumnIndex(cols, names[0]) case Some(k) => [k] case None => [];
      var rest := KeyIndices(cols, names[1..]);
      assert HasKeys(row, head);
      HasKeysJoin(row, head, rest);
    }
  }

  lemma HasKeysJoin(row: Row, a: seq<nat>, b: seq<nat>)
    requires HasKeys(row, a) && HasKeys(row, b)
    ensures HasKeys(row, a + b)
  {
    forall m | 0 <= m < |a + b| ensures Key(row, (a + b)[m]).Some? {
      if m >= |a| {
        assert (a + b)[m] == b[m - |a|];
      }
    }
  }

  /** Every key cell of the row is present. */
  predicate HasKeys(row: Row, ks: seq<nat>) {
    forall m :: 0 <= m < |ks| ==> Key(row, ks[m]).Some?
  }

  /** Whether row `i` is kept by dropping rows with a missing key. */
  function KeepComplete(rows: seq<Row>, ks: seq<nat>): nat -> bool {
    (i: nat) => i < |rows| && HasKeys(rows[i], ks)
  }

  /** Every key column that exists has a value in the row. */
  predicate KeysPresent(t: Table, row: Row) {
    forall name :: name in KeyColumns && name in t.columns ==> Field(t, row, name).Some?
  }

  /** A row has a cell at every key position exactly when it has a value in every existing key column. */
  lemma HasKeysPresent(t: Table, row: Row)
    ensures HasKeys(row, KeyIndices(t.columns, KeyColumns)) <==> KeysPresent(t, row)
  {
    var ks := KeyIndices(t.columns, KeyColumns);
    if HasKeys(row, ks) {
      forall name | name in KeyColumns && name in t.columns ensures Field(t, row, name).Some? {
        var m :| 0 <= m < |ks| && ks[m] == ColumnIndex(t.columns, name).value;
      }
    }
    if KeysPresent(t, row) {
      forall name | name in KeyColumns && name in t.columns
        ensures Key(row, ColumnIndex(t.columns, name).value).Some?
      {
        assert Field(t, row, name).Some?;
      }
      KeyIndicesPresent(t.columns, KeyColumns, row);
    }
  }

  /** The rows `keep` accepts are the rows that pass `keep`'s test, whatever copy of them. */
  lemma KeptComplete(t: Table, r: seq<Row>)
    requires r == Select(t.rows, KeepComplete(t.rows, KeyIndices(t.columns, KeyColumns)))
    ensures forall i :: 0 <= i < |t.rows| ==> (t.rows[i] in r <==> KeysPresent(t, t.rows[i]))
  {
    var keep := KeepComplete(t.rows, KeyIndices(t.columns, KeyColumns));
    var idx := Chosen(|t.rows|, keep);
    forall i | 0 <= i < |t.rows| ensures t.rows[i] in r <==> KeysPresent(t, t.rows[i]) {
      HasKeysPresent(t, t.rows[i]);
      if t.rows[i] in r {
        var k :| 0 <= k < |r| && r[k] == t.rows[i];
        assert keep(idx[k]);
      }
      if KeysPresent(t, t.rows[i]) {
        assert keep(i);
        var k :| 0 <= k < |idx| && idx[k] == i;
        assert r[k] == t.rows[i];
      }
    }
  }

  /**
   * `dropna(subset=key_cols)`, skipped when none of the key columns exists:
   * exactly the rows with a value in every existing key column, in order.
   */
  function DropMissingKeys(t: Table): (r: Table)
    requires t.Valid()
    ensures r.Valid() && r.columns == t.columns && SubsequenceOf(r.rows, t.rows)
    ensures forall k, name :: 0 <= k < |r.rows| && name in KeyColumns && name in t.columns ==> Field(t, r.rows[k], name).Some?
    ensures (forall name :: name in KeyColumns ==> name !in t.columns) ==> r == t
    ensures var ks := KeyIndices(t.columns, KeyColumns);
      ks != [] ==> Embedding(Chosen(|t.rows|, KeepComplete(t.rows, ks)), r.rows, t.rows)
    ensures forall i :: 0 <= i < |t.rows| ==> (t.rows[i] in r.rows <==> KeysPresent(t, t.rows[i]))
  {
    var ks := KeyIndices(t.columns, KeyColumns);
    if ks == [] then
      assert Embedding(seq(|t.rows|, k => k), t.rows, t.rows);
      t
    else
      KeptComplete(t, Select(t.rows, KeepComplete(t.rows, ks)));
      Table(t.columns, Select(t.rows, KeepComplete(t.rows, ks)))
  }

  // ---------------------------------------------------------------------------
  // clean_data

  lemma ConvertedListsDistinct()
    ensures Distinct(DateColumns) && Distinct(NumericColumns)
  {
  }

  /** The renamed table with its dates and numbers converted. */
  function Converted(raw: Table, toDatetime: Cell -> Cell, toNumeric: Cell -> Cell): (t: Table)
    requires raw.Valid()
    ensures t.Valid() && |t.rows| == |raw.rows| && t.columns == RenameColumns(raw).columns
  {
    ConvertedListsDistinct();
    ConvertAll(ConvertAll(RenameColumns(raw), DateColumns, toDatetime), NumericColumns, toNumeric)
  }

  /** The table before any row is dropped: converted, with the derived columns. */
  function Prepared(raw: Table, toDatetime: Cell -> Cell, toNumeric: Cell -> Cell): (t: Table)
    requires raw.Valid()
    ensures t.Valid() && |t.rows| == |raw.rows|
  {
    AddOnTime(AddDelay(Converted(raw, toDatetime, toNumeric)))
  }

  /** `clean_data(df)`: duplicates dropped first, then rows with a missing key. */
  function Cleaned(raw: Table, toDatetime: Cell -> Cell, toNumeric: Cell -> Cell): (r: Table)
    requires raw.Valid()
    ensures r.Valid()
  {
    DropMissingKeys(DropDuplicates(Prepared(raw, toDatetime, toNumeric)))
  }

  /**
   * The steps of `clean_data` in order, reassigning the table after each:
   * `toDatetime` and `toNumeric` stand for `pd.to_datetime` and
   * `pd.to_numeric` with `errors="coerce"`, applied cell by cell.
   */
  method CleanData(raw: Table, toDatetime: Cell -> Cell, toNumeric: Cell -> Cell) returns (df: Table)
    requires raw.Valid()
    ensures df == Cleaned(raw, toDatetime, toNumeric)
  {
    ConvertedListsDistinct();
    df := RenameColumns(raw);
    df := ConvertColumns(df, DateColumns, toDatetime);
    df := ConvertColumns(df, NumericColumns, toNumeric);
    df := AddDelay(df);
    df := AddOnTime(df);
    if ItemIdColumn in df.columns {
      df := DropDuplicates(df);
    }
    df := DropMissingKeys(df);
  }

  /** The output rows are prepared input rows, in their input order; the columns are the prepared ones. */
  lemma CleanedRowsInOrder(raw: Table, toDatetime: Cell -> Cell, toNumeric: Cell -> Cell)
    requires raw.Valid()
    ensures var p := Prepared(raw, toDatetime, toNumeric);
      var r := Cleaned(raw, toDatetime, toNumeric);
      && r.columns == p.columns && |p.rows| == |raw.rows| && SubsequenceOf(r.rows, p.rows)
  {
    var p := Prepared(raw, toDatetime, toNumeric);
    var d := DropDuplicates(p);
    var r := DropMissingKeys(d);
    var ab: seq<nat> :| Embedding(ab, r.rows, d.rows);
    var bc: seq<nat> :| Embedding(bc, d.rows, p.rows);
    SubsequenceTransitive(r.rows, d.rows, p.rows, ab, bc);
  }

  /**
   * No order line id appears twice in `r`, and every row of `r` is the first
   * row of `p` with its id.
   */
  predicate FirstRowsOnce(p: Table, r: Table)
    requires p.Valid() && ItemIdColumn in p.columns
  {
    var c := ColumnIndex(p.columns, ItemIdColumn).value;
    && (forall k, l :: 0 <= k < l < |r.rows| ==> Key(r.rows[k], c) != Key(r.rows[l], c))
    && (forall k :: 0 <= k < |r.rows| ==> exists i :: 0 <= i < |p.rows| && r.rows[k] == p.rows[i] && FirstOfKey(p.rows, c, i))
  }

  /**
   * Deduplication comes first: no order line id appears twice in the output,
   * and every output row is the first prepared row with its id, so a
   * duplicate never stands in for a first row that lost a key.
   */
  lemma CleanedIdsUnique(raw: Table, toDatetime: Cell -> Cell, toNumeric: Cell -> Cell)
    requires raw.Valid()
    requires ItemIdColumn in Prepared(raw, toDatetime, toNumeric).columns
    ensures FirstRowsOnce(Prepared(raw, toDatetime, toNumeric), Cleaned(raw, toDatetime, toNumeric))
  {
    DedupThenDrop(Prepared(raw, toDatetime, toNumeric));
  }

  lemma DedupThenDrop(p: Table)
    requires p.Valid() && ItemIdColumn in p.columns
    ensures FirstRowsOnce(p, DropMissingKeys(DropDuplicates(p)))
  {
    var c := ColumnIndex(p.columns, ItemIdColumn).value;
    var d := DropDuplicates(p);
    var r := DropMissingKeys(d);
    DuplicatesDropped(p);
    var rd: seq<nat> :| Embedding(rd, r.rows, d.rows);
    FirstRowsKept(p, c, d.rows, r, rd);
  }

  /** Leaving out rows of a deduplicated table keeps the ids apart and the rows first of their ids. */
  lemma FirstRowsKept(p: Table, c: nat, d: seq<Row>, r: Table, rd: seq<nat>)
    requires p.Valid() && ItemIdColumn in p.columns && c == ColumnIndex(p.columns, ItemIdColumn).value
    requires Embedding(Chosen(|p.rows|, KeepFirst(p.rows, c)), d, p.rows)
    requires forall k, l :: 0 <= k < l < |d| ==> Key(d[k], c) != Key(d[l], c)
    requires Embedding(rd, r.rows, d)
    ensures FirstRowsOnce(p, r)
  {
    var dp := Chosen(|p.rows|, KeepFirst(p.rows, c));
    forall k, l | 0 <= k < l < |r.rows| ensures Key(r.rows[k], c) != Key(r.rows[l], c) {
      assert rd[k] < rd[l];
    }
    forall k | 0 <= k < |r.rows| ensures exists i :: 0 <= i < |p.rows| && r.rows[k] == p.rows[i] && FirstOfKey(p.rows, c, i) {
      var m := rd[k];
      assert r.rows[k] == d[m] == p.rows[dp[m]];
      assert KeepFirst(p.rows, c)(dp[m]);
    }
  }

  /**
   * Nothing else is dropped: every prepared row that is the first with its
   * order line id (when that column exists) and has a value in every existing
   * key column is in the output.
   */
  lemma CleanedKeepsFirstComplete(raw: Table, toDatetime: Cell -> Cell, toNumeric: Cell -> Cell)
    requires raw.Valid()
    ensures var p := Prepared(raw, toDatetime, toNumeric);
      var r := Cleaned(raw, toDatetime, toNumeric);
      forall i :: 0 <= i < |p.rows| && KeysPresent(p, p.rows[i]) &&
        (ItemIdColumn in p.columns ==> FirstOfKey(p.rows, ColumnIndex(p.columns, ItemIdColumn).value, i))
        ==> p.rows[i] in r.rows
  {
    FirstCompleteKept(Prepared(raw, toDatetime, toNumeric));
  }

  lemma FirstCompleteKept(p: Table)
    requires p.Valid()
    ensures var r := DropMissingKeys(DropDuplicates(p));
      forall i :: 0 <= i < |p.rows| && KeysPresent(p, p.rows[i]) &&
        (ItemIdColumn in p.columns ==> FirstOfKey(p.rows, ColumnIndex(p.columns, ItemIdColumn).value, i))
        ==> p.rows[i] in r.rows
  {
    var d := DropDuplicates(p);
    var r := DropMissingKeys(d);
    forall i | 0 <= i < |p.rows| && KeysPresent(p, p.rows[i]) &&
        (ItemIdColumn in p.columns ==> FirstOfKey(p.rows, ColumnIndex(p.columns, ItemIdColumn).value, i))
      ensures p.rows[i] in r.rows
    {
      if ItemIdColumn in p.columns {
        var c := ColumnIndex(p.columns, ItemIdColumn).value;
        var idx := Chosen(|p.rows|, KeepFirst(p.rows, c));
        assert KeepFirst(p.rows, c)(i);
        var k :| 0 <= k < |idx| && idx[k] == i;
        assert d.rows[k] == p.rows[i];
        assert KeysPresent(d, d.rows[k]);
      }
    }
  }

  /** No output row lacks a value in a key column that exists. */
  lemma CleanedHasKeys(raw: Table, toDatetime: Cell -> Cell, toNumeric: Cell -> Cell)
    requires raw.Valid()
    ensures var p := Prepared(raw, toDatetime, toNumeric);
      var r := Cleaned(raw, toDatetime, toNumeric);
      forall k, name :: 0 <= k < |r.rows| && name in KeyColumns && name in p.columns ==> Field(r, r.rows[k], name).Some?
  {
  }

  /** The derived columns of a row, as `clean_data` computes them. */
  predicate DerivedRow(t: Table, row: Row) {
    && Field(t, row, DelayColumn) == DelayCell(Field(t, row, RealDays), Field(t, row, ScheduledDays))
    && Field(t, row, OnTimeColumn) == OnTimeCell(Field(t, row, DelayColumn))
  }

  /** Adding the delay column leaves every other existing column where and as it was. */
  lemma DelayKeeps(t: Table, other: string)
    requires t.Valid() && other in t.columns && other != DelayColumn
    ensures other in AddDelay(t).columns
    ensures ColumnIndex(AddDelay(t).columns, other) == ColumnIndex(t.columns, other)
    ensures forall i :: 0 <= i < |t.rows| ==> Field(AddDelay(t), AddDelay(t).rows[i], other) == Field(t, t.rows[i], other)
  {
    ColumnIndexKept(t.columns, AddDelay(t).columns, other);
  }

  /** Adding the on-time column leaves every other existing column where and as it was. */
  lemma OnTimeKeeps(t: Table, other: string)
    requires t.Valid() && other in t.columns && other != OnTimeColumn
    ensures other in AddOnTime(t).columns
    ensures ColumnIndex(AddOnTime(t).columns, other) == ColumnIndex(t.columns, other)
    ensures forall i :: 0 <= i < |t.rows| ==> Field(AddOnTime(t), AddOnTime(t).rows[i], other) == Field(t, t.rows[i], other)
  {
    ColumnIndexKept(t.columns, AddOnTime(t).columns, other);
  }

  lemma PreparedRowsDerived(t: Table)
    requires t.Valid() && RealDays in t.columns && ScheduledDays in t.columns
    ensures var p := AddOnTime(AddDelay(t));
      && DelayColumn in p.columns && OnTimeColumn in p.columns
      && forall i :: 0 <= i < |p.rows| ==> DerivedRow(p, p.rows[i])
  {
    var d := AddDelay(t);
    DelayDerived(t);
    OnTimeDerived(d);
    OnTimeKeeps(d, RealDays);
    OnTimeKeeps(d, ScheduledDays);
    OnTimeKeeps(d, DelayColumn);
  }

  /**
   * When both day columns come in, every output row carries its delay, real
   * minus scheduled days, and is on time exactly when that delay is a number
   * no greater than zero.
   */
  lemma CleanedDelays(raw: Table, toDatetime: Cell -> Cell, toNumeric: Cell -> Cell)
    requires raw.Valid()
    requires RealDays in RenameColumns(raw).columns && ScheduledDays in RenameColumns(raw).columns
    ensures var r := Cleaned(raw, toDatetime, toNumeric);
      && DelayColumn in r.columns && OnTimeColumn in r.columns
      && forall k :: 0 <= k < |r.rows| ==> DerivedRow(r, r.rows[k])
  {
    var p := Prepared(raw, toDatetime, toNumeric);
    var r := Cleaned(raw, toDatetime, toNumeric);
    PreparedRowsDerived(Converted(raw, toDatetime, toNumeric));
    CleanedRowsInOrder(raw, toDatetime, toNumeric);
    var idx: seq<nat> :| Embedding(idx, r.rows, p.rows);
    KeptRowsDerived(p, r, idx);
  }

  lemma KeptRowsDerived(p: Table, r: Table, idx: seq<nat>)
    requires r.columns == p.columns && Embedding(idx, r.rows, p.rows)
    requires forall i :: 0 <= i < |p.rows| ==> DerivedRow(p, p.rows[i])
    ensures forall k :: 0 <= k < |r.rows| ==> DerivedRow(r, r.rows[k])
  {
    forall k | 0 <= k < |r.rows| ensures DerivedRow(r, r.rows[k]) {
      assert r.rows[k] == p.rows[idx[k]];
      assert DerivedRow(p, r.rows[k]);
    }
  }

  /**
   * The delay column is there after cleaning only if it came in or both day
   * columns did, and the on-time column only if it came in or the delay column is there.
   */
  lemma DerivedOnlyWithSources(raw: Table, toDatetime: Cell -> Cell, toNumeric: Cell -> Cell)
    requires raw.Valid()
    ensures var cols := RenameColumns(raw).columns;
      var r := Cleaned(raw, toDatetime, toNumeric);
      && (DelayColumn in r.columns <==> DelayColumn in cols || (RealDays in cols && ScheduledDays in cols))
      && (OnTimeColumn in r.columns <==> OnTimeColumn in cols || DelayColumn in r.columns)
  {
    CleanedRowsInOrder(raw, toDatetime, toNumeric);
  }
}
