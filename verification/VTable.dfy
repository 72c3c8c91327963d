/** Many tables in one: every row of the blob table carries a type tag, and a virtual table shows the
    rows with its own tag. */
module VTable {
  import opened Options
  import opened Bytes
  import opened Lists
  import UbjValue

  // ----- rows -----

  /** A field value; of a float the text it prints as is kept, of an object or array the encoding. */
  datatype Cell = Null | Bool(b: bool) | Int(i: int) | Text(s: bytes) | Real(shown: bytes) | Tree(data: bytes)

  type Record = map<bytes, Cell>

  datatype Row = Row(id: nat, rec: Record)

  const TAG: bytes := [95, 36, 116, 121, 112, 101]

  function Digits(n: nat): (d: bytes)
    ensures d != []
  {
    (if n < 10 then [] else Digits(n / 10)) + [(48 + n % 10) as byte]
  }

  function Decimal(i: int): bytes {
    if i < 0 then [45] + Digits(-i) else Digits(i)
  }

  function Shown(c: Cell): bytes {
    match c
    case Int(i) => Decimal(i)
    case Text(s) => s
    case Real(shown) => shown
    case _ => []
  }

  lemma ShownIs(c: Cell)
    ensures c.Text? ==> Shown(c) == c.s
    ensures c.Int? ==> Shown(c) == if c.i < 0 then Ascii("-") + Digits(-c.i) else Digits(c.i)
    ensures c.Null? || c.Bool? || c.Tree? ==> Shown(c) == []
  {}

  function Undigits(d: bytes): nat
    requires forall k :: 0 <= k < |d| ==> 48 <= d[k]
    decreases |d|
  {
    if d == [] then 0 else 10 * Undigits(d[..|d| - 1]) + (d[|d| - 1] as int - 48)
  }

  lemma {:induction false} DigitsRoundTrip(n: nat)
    ensures forall k :: 0 <= k < |Digits(n)| ==> 48 <= Digits(n)[k]
    ensures Undigits(Digits(n)) == n
    decreases n
  {
    var init := if n < 10 then [] else Digits(n / 10);
    if n >= 10 {
      DigitsRoundTrip(n / 10);
    }
    assert Digits(n) == init + [(48 + n % 10) as byte];
    hide Digits, Undigits;
    UndigitsOneMore(init, n % 10);
    assert init == [] ==> Undigits(init) == 0 by { UndigitsNone(); }
    DivMod10(n);
  }

  lemma UndigitsNone()
    ensures Undigits([]) == 0
  {}

  lemma DivMod10(n: nat)
    ensures 10 * (n / 10) + n % 10 == n && (n < 10 ==> n % 10 == n)
  {}

  lemma UndigitsOneMore(init: bytes, last: nat)
    requires last < 10 && forall k :: 0 <= k < |init| ==> 48 <= init[k]
    ensures var d := init + [(48 + last) as byte];
            (forall k :: 0 <= k < |d| ==> 48 <= d[k]) && Undigits(d) == 10 * Undigits(init) + last
  {
    var d := init + [(48 + last) as byte];
    assert d[..|d| - 1] == init;
  }

  /** A number of four digits, as the types of the store's tables are, and its negative. */
  lemma DecimalIs(a: nat, b: nat, c: nat, d: nat)
    requires 0 < a < 10 && b < 10 && c < 10 && d < 10
    ensures Decimal(1000 * a + 100 * b + 10 * c + d)
            == [(48 + a) as byte, (48 + b) as byte, (48 + c) as byte, (48 + d) as byte]
    ensures Decimal(-(1000 * a + 100 * b + 10 * c + d))
            == [45, (48 + a) as byte, (48 + b) as byte, (48 + c) as byte, (48 + d) as byte]
  {
    NextDigit(a, b);
    NextDigit(10 * a + b, c);
    NextDigit(100 * a + 10 * b + c, d);
    assert Digits(a) == [(48 + a) as byte];
  }

  lemma NextDigit(n: nat, d: nat)
    requires n > 0 && d < 10
    ensures Digits(10 * n + d) == Digits(n) + [(48 + d) as byte]
  {
    assert (10 * n + d) / 10 == n && (10 * n + d) % 10 == d;
  }

  /** Different types have different tags. */
  lemma TypesDiffer(t: nat, u: nat)
    ensures Decimal(t) == Decimal(u) <==> t == u
  {
    DigitsRoundTrip(t);
    DigitsRoundTrip(u);
  }

  // ----- tables as views of the rows -----

  predicate HasTag(r: Row, text: bytes) {
    TAG in r.rec && Shown(r.rec[TAG]) == text
  }

  function OfType(t: nat): Row -> bool { (r: Row) => HasTag(r, Decimal(t)) }

  /** The rows a virtual table shows. */
  function View(rows: seq<Row>, t: nat): seq<Row> {
    Keep(rows, OfType(t))
  }

  predicate Sorted(rows: seq<Row>) {
    (forall i :: 0 <= i < |rows| ==> rows[i].id > 0)
    && forall i, j :: 0 <= i < j < |rows| ==> rows[i].id < rows[j].id
  }

  function Ids(rows: seq<Row>): (ids: seq<nat>)
    ensures |ids| == |rows| && forall i :: 0 <= i < |ids| ==> ids[i] == rows[i].id
  {
    seq(|rows|, i requires 0 <= i < |rows| => rows[i].id)
  }

  /** A condition, and the row id it compares with if the planner found one. */
  datatype Where = Where(rowid: Option<nat>, holds: Row -> bool)

  /** A condition with a row id holds of that row at most. */
  ghost predicate Coherent(w: Where) {
    w.rowid.Some? ==> forall r :: w.holds(r) ==> r.id == w.rowid.value
  }

  /** A query by row id looks at the row whatever its tag. */
  function Queried(rows: seq<Row>, t: nat, w: Where): seq<Row> {
    if w.rowid.Some? then Keep(rows, w.holds) else Keep(View(rows, t), w.holds)
  }

  /** No row of another table is hit. */
  ghost predicate Private(rows: seq<Row>, t: nat, w: Where) {
    w.rowid.Some? ==> forall r :: r in rows && w.holds(r) ==> HasTag(r, Decimal(t))
  }

  /** What a value is after it was written and read by the codec: texts are cut at the first zero byte,
      and an empty one is null. */
  function Kept(c: Cell): Cell {
    if c.Text? then
      match UbjValue.Canon(UbjValue.Str(c.s))
      case Str(cut) => Text(cut)
      case _ => Null
    else c
  }

  function Encoded(rec: Record): Record {
    map k | k in rec :: Kept(rec[k])
  }

  /** Records are what the codec gave back. */
  ghost predicate Canonical(rows: seq<Row>) {
    forall r :: r in rows ==> Encoded(r.rec) == r.rec
  }

  /** Mentioned fields are set, to what the codec keeps of the values; the others stay. */
  function Changed(r: Row, changes: Record): Row {
    Row(r.id, r.rec + Encoded(changes))
  }

  /** Which is what writing the merged record stores. */
  lemma ChangedIsEncoded(r: Row, changes: Record)
    requires Encoded(r.rec) == r.rec
    ensures Changed(r, changes) == Row(r.id, Encoded(r.rec + changes))
    ensures Encoded(Changed(r, changes).rec) == Changed(r, changes).rec
  {
    forall k | k in r.rec ensures Kept(r.rec[k]) == r.rec[k] {
      assert Encoded(r.rec)[k] == Kept(r.rec[k]);
    }
    forall k | k in changes ensures Kept(Kept(changes[k])) == Kept(changes[k]) {
      KeptTwice(changes[k]);
    }
  }

  lemma KeptTwice(c: Cell)
    ensures Kept(Kept(c)) == Kept(c)
  {}

  function Rewritten(rows: seq<Row>, ids: seq<nat>, changes: Record): (r: seq<Row>)
    ensures |r| == |rows|
  {
    seq(|rows|, i requires 0 <= i < |rows| =>
      if rows[i].id in ids then Changed(rows[i], changes) else rows[i])
  }

  function IdNotIn(ids: seq<nat>): Row -> bool { (r: Row) => r.id !in ids }

  function Updated(rows: seq<Row>, t: nat, w: Where, changes: Record): seq<Row> {
    Rewritten(rows, Ids(Queried(rows, t, w)), changes)
  }

  function Removed(rows: seq<Row>, t: nat, w: Where): seq<Row> {
    Keep(rows, IdNotIn(Ids(Queried(rows, t, w))))
  }

  /** The database picks one more than the largest id. */
  function NextId(rows: seq<Row>): nat {
    if rows == [] then 1 else rows[|rows| - 1].id + 1
  }

  /** It is the first id beyond all others. */
  lemma NextIdIs(rows: seq<Row>)
    requires Sorted(rows)
    ensures NextId(rows) > 0 && forall r :: r in rows ==> r.id < NextId(rows)
    ensures NextId(rows) == 1 || exists r :: r in rows && r.id == NextId(rows) - 1
  {
    if rows != [] {
      assert rows[|rows| - 1] in rows;
    }
  }

  /** What an insert stores of a value: truth values as numbers, text up to a zero byte, no nulls and
      no floats. */
  function Stored(c: Cell): Option<Cell> {
    match c
    case Null => None
    case Bool(b) => Some(Int(if b then 1 else 0))
    case Int(_) => Some(c)
    case Text(_) => Some(Kept(c))
    case Real(_) => None
    case Tree(_) => Some(c)
  }

  function InsertedRecord(columns: seq<bytes>, fields: Record, t: nat): Record {
    (map k | k in columns && k in fields && Stored(fields[k]).Some? :: Stored(fields[k]).value)[TAG := Int(t)]
  }

  // ----- one table on its own -----

  function NotHolds(w: Where): Row -> bool { (r: Row) => !w.holds(r) }

  function TabUpdated(tab: seq<Row>, w: Where, changes: Record): seq<Row> {
    seq(|tab|, i requires 0 <= i < |tab| =>
      if w.holds(tab[i]) then Changed(tab[i], changes) else tab[i])
  }

  lemma KeepFirst(s: seq<Row>, p: Row -> bool)
    ensures s == [] ==> Keep(s, p) == []
    ensures s != [] ==> Keep(s, p) == (if p(s[0]) then [s[0]] else []) + Keep(s[1..], p)
  {}

  lemma {:induction false} KeepAppend(a: seq<Row>, b: seq<Row>, p: Row -> bool)
    ensures Keep(a + b, p) == Keep(a, p) + Keep(b, p)
    decreases |a|
  {
    hide Keep;
    KeepFirst(a, p);
    if a == [] {
      assert a + b == b;
    } else {
      assert (a + b)[0] == a[0] && (a + b)[1..] == a[1..] + b;
      KeepFirst(a + b, p);
      KeepAppend(a[1..], b, p);
    }
  }

  lemma {:induction false} KeepSwap(rows: seq<Row>, p: Row -> bool, q: Row -> bool)
    ensures Keep(Keep(rows, p), q) == Keep(Keep(rows, q), p)
  {
    var both := (r: Row) => p(r) && q(r);
    KeepTwice(rows, p, q, both);
    KeepTwice(rows, q, p, both);
  }

  lemma {:induction false} KeepSorted(rows: seq<Row>, p: Row -> bool)
    requires Sorted(rows)
    ensures Sorted(Keep(rows, p))
    decreases |rows|
  {
    if rows != [] {
      KeepSorted(rows[1..], p);
      forall j | 0 <= j < |Keep(rows[1..], p)| ensures rows[0].id < Keep(rows[1..], p)[j].id {
        assert Keep(rows[1..], p)[j] in rows[1..];
      }
    }
  }

  lemma SameRow(rows: seq<Row>, r: Row, q: Row)
    requires Sorted(rows) && r in rows && q in rows && r.id == q.id
    ensures r == q
  {
    var i :| 0 <= i < |rows| && rows[i] == r;
    var j :| 0 <= j < |rows| && rows[j] == q;
  }

  /** The rows a private query finds, by id: those of the table's own rows of which it holds. */
  lemma Hit(rows: seq<Row>, t: nat, w: Where, r: Row)
    requires Sorted(rows) && Private(rows, t, w) && r in rows
    ensures r.id in Ids(Queried(rows, t, w)) <==> HasTag(r, Decimal(t)) && w.holds(r)
  {
    var hit := Queried(rows, t, w);
    if r.id in Ids(hit) {
      var i :| 0 <= i < |hit| && hit[i].id == r.id;
      assert hit[i] in hit;
      SameRow(rows, r, hit[i]);
    }
    if HasTag(r, Decimal(t)) && w.holds(r) {
      assert r in hit;
      var i :| 0 <= i < |hit| && hit[i] == r;
      assert Ids(hit)[i] == r.id;
    }
  }

  // ----- main results -----

  /** A query sees only its own table exactly if its row id does not name another table's row. */
  lemma QueryIsPrivateIff(rows: seq<Row>, t: nat, w: Where)
    ensures Queried(rows, t, w) == Keep(View(rows, t), w.holds) <==> Private(rows, t, w)
  {
    if w.rowid.Some? {
      KeepSwap(rows, OfType(t), w.holds);
      if Private(rows, t, w) {
        KeepEverything(Keep(rows, w.holds), OfType(t));
      }
    }
  }

  lemma {:induction false} RewriteView(rows: seq<Row>, ids: seq<nat>, changes: Record, u: nat)
    requires forall r :: r in rows && r.id in ids ==> OfType(u)(Changed(r, changes)) == OfType(u)(r)
    ensures View(Rewritten(rows, ids, changes), u) == Rewritten(View(rows, u), ids, changes)
    decreases |rows|
  {
    if rows != [] {
      hide HasTag, Changed, View, Rewritten;
      var r, rest := rows[0], rows[1..];
      assert r in rows;
      var q := if r.id in ids then Changed(r, changes) else r;
      RewriteView(rest, ids, changes, u);
      RewriteFirst(r, rest, ids, changes);
      assert rows == [r] + rest;
      ViewFirst(r, rest, u);
      ViewFirst(q, Rewritten(rest, ids, changes), u);
      RewriteFirst(r, View(rest, u), ids, changes);
    }
  }

  lemma ViewFirst(r: Row, rest: seq<Row>, u: nat)
    ensures View([r] + rest, u) == (if HasTag(r, Decimal(u)) then [r] else []) + View(rest, u)
  {
    assert ([r] + rest)[1..] == rest;
  }

  lemma RewriteFirst(r: Row, rest: seq<Row>, ids: seq<nat>, changes: Record)
    ensures Rewritten([r] + rest, ids, changes)
            == [if r.id in ids then Changed(r, changes) else r] + Rewritten(rest, ids, changes)
  {}

  /** An update that leaves the tag alone changes the rows it holds of in its own table, keeping their
      other fields, and no other table. */
  lemma UpdateRefines(rows: seq<Row>, t: nat, w: Where, changes: Record, u: nat)
    requires Sorted(rows) && Private(rows, t, w) && TAG !in changes
    ensures View(Updated(rows, t, w, changes), u)
            == if u == t then TabUpdated(View(rows, t), w, changes) else View(rows, u)
  {
    var ids := Ids(Queried(rows, t, w));
    forall r | r in rows && r.id in ids ensures OfType(u)(Changed(r, changes)) == OfType(u)(r) {}
    RewriteView(rows, ids, changes, u);
    hide Decimal, Queried, Changed;
    TypesDiffer(t, u);
    var tab := View(rows, u);
    forall i | 0 <= i < |tab| ensures tab[i].id in ids <==> u == t && w.holds(tab[i]) {
      assert tab[i] in tab;
      Hit(rows, t, w, tab[i]);
    }
    hide View;
    if u == t {
      assert Rewritten(tab, ids, changes) == TabUpdated(tab, w, changes);
    } else {
      assert Rewritten(tab, ids, changes) == tab;
    }
  }

  /** A removal takes the rows it holds of from its own table, and nothing from the others. */
  lemma RemoveRefines(rows: seq<Row>, t: nat, w: Where, u: nat)
    requires Sorted(rows) && Private(rows, t, w)
    ensures View(Removed(rows, t, w), u) == if u == t then Keep(View(rows, t), NotHolds(w)) else View(rows, u)
  {
    var ids := Ids(Queried(rows, t, w));
    KeepSwap(rows, IdNotIn(ids), OfType(u));
    TypesDiffer(t, u);
    forall r | r in View(rows, u) ensures r.id in ids <==> u == t && w.holds(r) {
      Hit(rows, t, w, r);
    }
    if u == t {
      KeepSame(View(rows, u), IdNotIn(ids), NotHolds(w));
    } else {
      KeepEverything(View(rows, u), IdNotIn(ids));
    }
  }

  /** An inserted row appears at the end of its own table, under an id no table has. */
  lemma InsertRefines(rows: seq<Row>, t: nat, columns: seq<bytes>, fields: Record, u: nat)
    requires Sorted(rows)
    ensures var r := Row(NextId(rows), InsertedRecord(columns, fields, t));
            && Sorted(rows + [r]) && (forall q :: q in rows ==> q.id != r.id)
            && View(rows + [r], u) == if u == t then View(rows, t) + [r] else View(rows, u)
  {
    hide InsertedRecord, HasTag, Decimal, View, Sorted, NextId;
    var r := Row(NextId(rows), InsertedRecord(columns, fields, t));
    InsertedTag(columns, fields, t, u, r.id);
    AppendSorted(rows, r);
    ViewAppend(rows, r, u);
  }

  lemma AppendSorted(rows: seq<Row>, r: Row)
    requires Sorted(rows) && r.id == NextId(rows)
    ensures Sorted(rows + [r]) && forall q :: q in rows ==> q.id != r.id
  {}

  lemma ViewAppend(rows: seq<Row>, r: Row, u: nat)
    ensures View(rows + [r], u) == View(rows, u) + if HasTag(r, Decimal(u)) then [r] else []
  {
    hide HasTag, Decimal;
    KeepAppend(rows, [r], OfType(u));
    assert [r][1..] == [];
  }

  /** What is left of a text: the part before its first zero byte, or null if that is empty. */
  predicate IsCut(s: bytes, c: Cell) {
    if s == [] || s[0] == 0 then c == Null
    else c.Text? && c.s != [] && c.s <= s && 0 !in c.s && (c.s == s || s[|c.s|] == 0)
  }

  /** What a record shows in a column in which this value was inserted. */
  predicate ShowsInserted(rec: Record, k: bytes, c: Cell) {
    match c
    case Int(i) => k in rec && rec[k] == Int(i)
    case Bool(b) => k in rec && rec[k] == Int(if b then 1 else 0)
    case Text(s) => k in rec && IsCut(s, rec[k])
    case Tree(data) => k in rec && rec[k] == Tree(data)
    case Null => k !in rec
    case Real(_) => k !in rec
  }

  lemma InsertedIs(columns: seq<bytes>, fields: Record, t: nat, k: bytes)
    requires forall f :: f in fields ==> f in columns
    ensures var rec := InsertedRecord(columns, fields, t);
            && (k == Ascii("_$type") ==> k in rec && rec[k] == Int(t))
            && (k != Ascii("_$type") ==> if k in fields then ShowsInserted(rec, k, fields[k]) else k !in rec)
  {
    TagIs();
    if k in fields { KeptIs(fields[k]); }
  }

  /** A view has one row more at its end: with the tag, and with what was inserted in its columns. */
  ghost predicate Appeared(before: seq<Row>, after: seq<Row>, id: nat, t: nat, fields: Record) {
    && |after| == |before| + 1 && after[..|before|] == before
    && var r := after[|before|];
       && r.id == id && Ascii("_$type") in r.rec && r.rec[Ascii("_$type")] == Int(t)
       && forall k :: k != Ascii("_$type") ==>
            if k in fields then ShowsInserted(r.rec, k, fields[k]) else k !in r.rec
  }

  lemma InsertAppears(rows: seq<Row>, columns: seq<bytes>, fields: Record, t: nat)
    requires Sorted(rows) && forall f :: f in fields ==> f in columns
    ensures var r := Row(NextId(rows), InsertedRecord(columns, fields, t));
            Appeared(View(rows, t), View(rows + [r], t), r.id, t, fields)
  {
    hide InsertedRecord, ShowsInserted, View, Ascii, Sorted;
    InsertRefines(rows, t, columns, fields, t);
    var r := Row(NextId(rows), InsertedRecord(columns, fields, t));
    InsertedIs(columns, fields, t, Ascii("_$type"));
    forall k | k != Ascii("_$type")
      ensures if k in fields then ShowsInserted(r.rec, k, fields[k]) else k !in r.rec
    {
      InsertedIs(columns, fields, t, k);
    }
  }

  lemma TagIs()
    ensures TAG == Ascii("_$type")
  {}

  /** The codec keeps everything but texts, of which it keeps what is before a zero byte. */
  lemma KeptIs(c: Cell)
    ensures if c.Text? then IsCut(c.s, Kept(c)) else Kept(c) == c
  {}

  /** An update sets the fields it mentions, cuts their texts, and leaves the others and the id. */
  lemma ChangedIs(r: Row, changes: Record, k: bytes)
    ensures var after := Changed(r, changes);
            && after.id == r.id && (k in after.rec <==> k in r.rec || k in changes)
            && (k in r.rec && k !in changes ==> after.rec[k] == r.rec[k])
            && (k in changes ==>
                  if changes[k].Text? then IsCut(changes[k].s, after.rec[k]) else after.rec[k] == changes[k])
  {
    if k in changes { KeptIs(changes[k]); }
  }

  /** The codec gives an inserted record back as it is. */
  lemma InsertedKept(columns: seq<bytes>, fields: Record, t: nat)
    ensures Encoded(InsertedRecord(columns, fields, t)) == InsertedRecord(columns, fields, t)
  {
    hide Kept;
    var rec := InsertedRecord(columns, fields, t);
    forall k | k in rec ensures Kept(rec[k]) == rec[k] {
      if k == TAG {
        KeptPlain(rec[k]);
      } else {
        StoredKept(fields[k]);
      }
    }
  }

  lemma KeptPlain(c: Cell)
    ensures !c.Text? ==> Kept(c) == c
  {}

  lemma StoredKept(c: Cell)
    ensures Stored(c).Some? ==> Kept(Stored(c).value) == Stored(c).value
  {
    KeptTwice(c);
  }

  lemma InsertedTag(columns: seq<bytes>, fields: Record, t: nat, u: nat, id: nat)
    ensures HasTag(Row(id, InsertedRecord(columns, fields, t)), Decimal(u)) <==> u == t
  {
    TypesDiffer(t, u);
  }

  /** An update keeps the rows of its table exactly if it changes none, or leaves the tag alone, or
      sets it to a text that the codec cuts to what it was: any other tag takes the rows away. */
  lemma UpdateKeepsTableIff(rows: seq<Row>, t: nat, w: Where, changes: Record)
    requires Sorted(rows) && Private(rows, t, w)
    ensures Ids(View(Updated(rows, t, w, changes), t)) == Ids(View(rows, t))
            <==> TAG !in changes || Shown(Kept(changes[TAG])) == Decimal(t) || Keep(View(rows, t), w.holds) == []
  {
    var hit := Keep(View(rows, t), w.holds);
    QueryIsPrivateIff(rows, t, w);
    hide Queried, Decimal, Kept, Encoded;
    var ids := Ids(hit);
    forall r | r in rows && r.id in ids ensures HasTag(r, Decimal(t)) {
      Hit(rows, t, w, r);
    }
    if TAG !in changes || Shown(Kept(changes[TAG])) == Decimal(t) || hit == [] {
      forall r | r in rows && r.id in ids ensures OfType(t)(Changed(r, changes)) == OfType(t)(r) {
        ChangedTag(r, changes, Decimal(t));
      }
      RewriteView(rows, ids, changes, t);
    } else {
      RowLost(rows, t, ids, changes, hit[0]);
    }
  }

  lemma ChangedTag(r: Row, changes: Record, tag: bytes)
    ensures HasTag(Changed(r, changes), tag)
            <==> if TAG in changes then Shown(Kept(changes[TAG])) == tag else HasTag(r, tag)
  {}

  /** A rewritten row with another tag is no longer in the table. */
  lemma RowLost(rows: seq<Row>, t: nat, ids: seq<nat>, changes: Record, lost: Row)
    requires Sorted(rows) && lost in View(rows, t) && lost.id in ids
    requires TAG in changes && Shown(Kept(changes[TAG])) != Decimal(t)
    ensures Ids(View(Rewritten(rows, ids, changes), t)) != Ids(View(rows, t))
  {
    hide Decimal, Kept, Encoded, Changed, HasTag;
    var after := Rewritten(rows, ids, changes);
    InIds(View(rows, t), lost);
    forall r | r in View(after, t) ensures r.id != lost.id {
      var i :| 0 <= i < |rows| && after[i] == r;
      ChangedTag(rows[i], changes, Decimal(t));
      SameId(rows[i], changes);
    }
    NotInIds(View(after, t), lost.id);
  }

  lemma SameId(r: Row, changes: Record)
    ensures Changed(r, changes).id == r.id
  {}

  /** The text 5, NUL, x is stored as 5: the rows of table 5 stay. */
  lemma CutTagExample()
    ensures var tag := Text([53, 0, 120]);
            Shown(tag) != Decimal(5) && Shown(Kept(tag)) == Decimal(5)
  {
    var s: bytes := [53, 0, 120];
    assert s[1..][0] == 0 && CStr(s[1..]) == [];
  }

  lemma NotInIds(rows: seq<Row>, id: nat)
    requires forall r :: r in rows ==> r.id != id
    ensures id !in Ids(rows)
  {}

  lemma InIds(rows: seq<Row>, r: Row)
    requires r in rows
    ensures r.id in Ids(rows)
  {
    var i :| 0 <= i < |rows| && rows[i] == r;
    assert Ids(rows)[i] == r.id;
  }

  // ----- runs -----

  datatype Call =
    | Insert(t: nat, columns: seq<bytes>, fields: Record, id: nat)
    | Update(t: nat, w: Where, changes: Record)
    | Remove(t: nat, w: Where)

  ghost predicate Allowed(rows: seq<Row>, c: Call) {
    match c
    case Insert(_, _, _, id) => id == NextId(rows)
    case Update(t, w, changes) => Private(rows, t, w) && TAG !in changes
    case Remove(t, w) => Private(rows, t, w)
  }

  /** A call on the one blob table. */
  function Apply(rows: seq<Row>, c: Call): seq<Row> {
    match c
    case Insert(t, columns, fields, id) => rows + [Row(id, InsertedRecord(columns, fields, t))]
    case Update(t, w, changes) => Updated(rows, t, w, changes)
    case Remove(t, w) => Removed(rows, t, w)
  }

  /** The same call on tables that are maps of their own: only table `c.t` changes. */
  function TabApply(tab: seq<Row>, u: nat, c: Call): seq<Row> {
    if c.t != u then tab
    else
      match c
      case Insert(t, columns, fields, id) => tab + [Row(id, InsertedRecord(columns, fields, t))]
      case Update(_, w, changes) => TabUpdated(tab, w, changes)
      case Remove(_, w) => Keep(tab, NotHolds(w))
  }

  function Run(rows: seq<Row>, cs: seq<Call>): seq<Row>
    decreases |cs|
  {
    if cs == [] then rows else Run(Apply(rows, cs[0]), cs[1..])
  }

  function TabRun(tab: seq<Row>, u: nat, cs: seq<Call>): seq<Row>
    decreases |cs|
  {
    if cs == [] then tab else TabRun(TabApply(tab, u, cs[0]), u, cs[1..])
  }

  ghost predicate AllAllowed(rows: seq<Row>, cs: seq<Call>)
    decreases |cs|
  {
    cs == [] || (Allowed(rows, cs[0]) && AllAllowed(Apply(rows, cs[0]), cs[1..]))
  }

  lemma UpdateSorted(rows: seq<Row>, ids: seq<nat>, changes: Record)
    requires Sorted(rows)
    ensures Sorted(Rewritten(rows, ids, changes))
  {}

  lemma ApplyRefines(rows: seq<Row>, c: Call, u: nat)
    requires Sorted(rows) && Allowed(rows, c)
    ensures Sorted(Apply(rows, c)) && View(Apply(rows, c), u) == TabApply(View(rows, u), u, c)
  {
    match c
    case Insert(t, columns, fields, id) => InsertRefines(rows, t, columns, fields, u);
    case Update(t, w, changes) =>
      UpdateSorted(rows, Ids(Queried(rows, t, w)), changes);
      UpdateRefines(rows, t, w, changes, u);
    case Remove(t, w) =>
      KeepSorted(rows, IdNotIn(Ids(Queried(rows, t, w))));
      RemoveRefines(rows, t, w, u);
  }

  /** Over every run of inserts, updates and removals, the tables in the one blob table are
      independent tables. */
  lemma {:induction false} RunRefines(rows: seq<Row>, cs: seq<Call>, u: nat)
    requires Sorted(rows) && AllAllowed(rows, cs)
    ensures View(Run(rows, cs), u) == TabRun(View(rows, u), u, cs) && Sorted(Run(rows, cs))
    decreases |cs|
  {
    hide View, Apply, TabApply, Allowed, Sorted;
    if cs != [] {
      ApplyRefines(rows, cs[0], u);
      RunRefines(Apply(rows, cs[0]), cs[1..], u);
    }
  }

  // ----- postings -----

  function Find(rows: seq<Row>, id: nat): Option<Record>
    decreases |rows|
  {
    if rows == [] then None else if rows[0].id == id then Some(rows[0].rec) else Find(rows[1..], id)
  }

  lemma {:induction false} FindRow(rows: seq<Row>, r: Row)
    requires Sorted(rows) && r in rows
    ensures Find(rows, r.id) == Some(r.rec)
    decreases |rows|
  {
    if rows[0] != r {
      assert r in rows[1..];
      FindRow(rows[1..], r);
    }
  }

  lemma {:induction false} FindNone(rows: seq<Row>, id: nat)
    requires forall r :: r in rows ==> r.id != id
    ensures Find(rows, id) == None
    decreases |rows|
  {
    if rows != [] {
      assert rows[0] in rows;
      FindNone(rows[1..], id);
    }
  }

  predicate Shows(rows: seq<Row>, id: nat, column: bytes, text: bytes) {
    var rec := Find(rows, id);
    rec.Some? && column in rec.value && Shown(rec.value[column]) == text
  }

  /** The ids, in order, of the rows that show a text in a column. */
  function Postings(rows: seq<Row>, ids: seq<nat>, column: bytes, text: bytes): (p: seq<nat>)
    ensures forall id :: id in p <==> id in ids && Shows(rows, id, column, text)
    decreases |ids|
  {
    if ids == [] then []
    else
      var last := |ids| - 1;
      Postings(rows, ids[..last], column, text) + if Shows(rows, ids[last], column, text) then [ids[last]] else []
  }

  ghost predicate IsIndex(index: map<bytes, seq<nat>>, rows: seq<Row>, ids: seq<nat>, column: bytes) {
    forall text: bytes ::
      && (text in index <==> Postings(rows, ids, column, text) != [])
      && (text in index ==> index[text] == Postings(rows, ids, column, text))
  }

  lemma {:induction false} PostingsAreView(rows: seq<Row>, n: nat, t: nat)
    requires Sorted(rows) && n <= |rows|
    ensures Postings(rows, Ids(rows[..n]), TAG, Decimal(t)) == Ids(View(rows[..n], t))
    decreases n
  {
    if n > 0 {
      hide Decimal, Shows, View;
      PostingsAreView(rows, n - 1, t);
      var r, ids := rows[n - 1], Ids(rows[..n]);
      assert ids[..n - 1] == Ids(rows[..n - 1]) && ids[n - 1] == r.id;
      ShowsTag(rows, r, t);
      ViewOneMore(rows, n - 1, t);
    }
  }

  lemma ShowsTag(rows: seq<Row>, r: Row, t: nat)
    requires Sorted(rows) && r in rows
    ensures Shows(rows, r.id, TAG, Decimal(t)) <==> HasTag(r, Decimal(t))
  {
    FindRow(rows, r);
  }

  lemma ViewOneMore(rows: seq<Row>, k: nat, t: nat)
    requires k < |rows|
    ensures View(rows[..k + 1], t) == View(rows[..k], t) + if HasTag(rows[k], Decimal(t)) then [rows[k]] else []
  {
    KeepOneMore(rows, k, OfType(t));
  }

  // ----- the objects -----

  /** The table of blobs; statements on it are the database's. */
  class BlobTable {
    var rows: seq<Row>

    ghost predicate Valid()
      reads this
    {
      Sorted(rows) && Canonical(rows)
    }

    constructor ()
      ensures Valid() && rows == []
    {
      rows := [];
    }

    /** Records go through the codec. */
    method CreateBlob(rec: Record) returns (id: nat)
      modifies this
      ensures id == NextId(old(rows)) && rows == old(rows) + [Row(id, Encoded(rec))]
    {
      id := NextId(rows);
      rows := rows + [Row(id, Encoded(rec))];
    }

    method UpdateBlobData(id: nat, rec: Record)
      modifies this
      ensures rows == Replaced(old(rows), id, Encoded(rec))
    {
      rows := Replaced(rows, id, Encoded(rec));
    }

    method RemoveBlob(id: nat) returns (ok: bool)
      modifies this
      ensures ok == Find(old(rows), id).Some? && rows == Keep(old(rows), IdNotIn([id]))
    {
      ok := Find(rows, id).Some?;
      rows := Keep(rows, IdNotIn([id]));
    }
  }

  function Replaced(rows: seq<Row>, id: nat, rec: Record): seq<Row> {
    seq(|rows|, i requires 0 <= i < |rows| => if rows[i].id == id then Row(id, rec) else rows[i])
  }

  class VirtualTable {
    const table: BlobTable
    const kind: nat
    const columns: seq<bytes>
    var ids: seq<nat>

    constructor (table: BlobTable, kind: nat, columns: seq<bytes>)
      ensures this.table == table && this.kind == kind && this.columns == columns && ids == []
    {
      this.table, this.kind, this.columns, ids := table, kind, columns, [];
    }

    static method HasIndexItem(index: map<bytes, seq<nat>>, text: bytes, id: nat) returns (has: bool)
      ensures has <==> text in index && id in index[text]
    {
      has := false;
      if text in index {
        for k := 0 to |index[text]|
          invariant id !in index[text][..k]
        {
          if index[text][k] == id {
            return true;
          }
        }
      }
    }

    static method AddIndexItem(index: map<bytes, seq<nat>>, text: bytes, id: nat) returns (r: map<bytes, seq<nat>>)
      ensures r == if text !in index then index[text := [id]]
                   else if id in index[text] then index else index[text := index[text] + [id]]
    {
      r := index;
      if text !in index {
        r := index[text := [id]];
      } else {
        var has := HasIndexItem(index, text, id);
        if !has {
          r := index[text := index[text] + [id]];
        }
      }
    }

    /** The posting lists of a column, built row by row. */
    method CreateIndex(column: bytes, ids: seq<nat>) returns (index: map<bytes, seq<nat>>)
      requires forall i, j :: 0 <= i < j < |ids| ==> ids[i] != ids[j]
      ensures IsIndex(index, table.rows, ids, column)
    {
      hide Shows, IsIndex, Postings;
      index := map[];
      IndexOfNone(table.rows, column);
      assert ids[..0] == [];
      for k := 0 to |ids|
        invariant IsIndex(index, table.rows, ids[..k], column)
      {
        var rec := Find(table.rows, ids[k]);
        IndexGrows(index, table.rows, ids, k, column);
        assert [] + [ids[k]] == [ids[k]];
        if rec.Some? && column in rec.value {
          index := AddIndexItem(index, Shown(rec.value[column]), ids[k]);
        }
      }
      assert ids[..|ids|] == ids;
    }

    /** The ids of the table's own rows, in order. */
    method UpdateIds()
      requires table.Valid()
      modifies this`ids
      ensures ids == Ids(View(table.rows, kind))
    {
      hide IsIndex, View, Postings, Decimal;
      var all := Ids(table.rows);
      var index := CreateIndex(TAG, all);
      ids := if Decimal(kind) in index then index[Decimal(kind)] else [];
      IndexEntry(index, table.rows, all, TAG, Decimal(kind));
      assert table.rows[..|table.rows|] == table.rows;
      PostingsAreView(table.rows, |table.rows|, kind);
    }

    /** The cursor's rows: the one asked for by id, or the table's own. */
    method Filter(rowid: Option<nat>) returns (found: seq<Row>)
      requires table.Valid() && ids == Ids(View(table.rows, kind))
      ensures found == if rowid.Some? then Keep(table.rows, HasId(rowid.value)) else View(table.rows, kind)
    {
      hide View, Keep;
      var picked := if rowid.Some? then [rowid.value] else [];
      if picked == [] {
        picked := ids;
      }
      ghost var wanted := if rowid.Some? then Keep(table.rows, HasId(rowid.value)) else View(table.rows, kind);
      found := [];
      for k := 0 to |picked|
        invariant found == Collected(table.rows, picked[..k])
      {
        assert picked[..k + 1][..k] == picked[..k];
        var rec := Find(table.rows, picked[k]);
        if rec.Some? {
          found := found + [Row(picked[k], rec.value)];
        }
      }
      assert picked[..|picked|] == picked;
      if rowid.Some? {
        CollectedOne(table.rows, rowid.value);
      } else {
        ViewInside(table.rows, kind);
        CollectedRows(table.rows, View(table.rows, kind));
      }
    }

    method Query(w: Where) returns (found: seq<Row>)
      requires table.Valid() && Coherent(w)
      modifies this`ids
      ensures found == Queried(table.rows, kind, w)
    {
      hide View, Keep;
      UpdateIds();
      var cursor := Filter(w.rowid);
      found := [];
      KeepNone(w.holds);
      for k := 0 to |cursor|
        invariant found == Keep(cursor[..k], w.holds)
      {
        KeepOneMore(cursor, k, w.holds);
        if w.holds(cursor[k]) {
          found := found + [cursor[k]];
        }
      }
      assert cursor[..|cursor|] == cursor;
      if w.rowid.Some? {
        KeepTwice(table.rows, HasId(w.rowid.value), w.holds, w.holds);
      }
    }

    method Count(w: Where) returns (n: nat)
      requires table.Valid() && Coherent(w)
      modifies this`ids
      ensures n == |Queried(table.rows, kind, w)|
    {
      var found := Query(w);
      n := |found|;
    }

    /** Fails for no fields at all and for a column the table does not have. */
    method Insert(fields: Record) returns (id: nat)
      requires table.Valid()
      modifies table
      ensures table.Valid()
      ensures var ok := fields != map[] && forall k :: k in fields ==> k in columns;
              && id == (if ok then NextId(old(table.rows)) else 0)
              && table.rows == if ok then old(table.rows) + [Row(id, InsertedRecord(columns, fields, kind))]
                               else old(table.rows)
      ensures fields != map[] && (forall k :: k in fields ==> k in columns) ==>
                Appeared(View(old(table.rows), kind), View(table.rows, kind), id, kind, fields)
    {
      id := 0;
      if fields == map[] || exists k :: k in fields && k !in columns {
        return;
      }
      var obj: Record := map[];
      for i := 0 to |columns|
        invariant obj == map k | k in columns[..i] && k in fields && Stored(fields[k]).Some? :: Stored(fields[k]).value
      {
        var key := columns[i];
        if key in fields && Stored(fields[key]).Some? {
          obj := obj[key := Stored(fields[key]).value];
        }
      }
      assert columns[..|columns|] == columns;
      obj := obj[TAG := Int(kind)];
      InsertRefines(table.rows, kind, columns, fields, kind);
      InsertedKept(columns, fields, kind);
      InsertAppears(table.rows, columns, fields, kind);
      id := table.CreateBlob(obj);
    }

    /** Rewrites the rows found, one after the other; says how many there were. */
    method Update(changes: Record, w: Where) returns (n: nat)
      requires table.Valid() && Coherent(w)
      modifies this`ids, table
      ensures table.Valid() && table.rows == Updated(old(table.rows), kind, w, changes)
      ensures n == |Queried(old(table.rows), kind, w)|
    {
      hide Queried, Encoded, Canonical, Sorted;
      var found := Query(w);
      var rowIds := Ids(found);
      n := |rowIds|;
      ghost var rows0 := table.rows;
      RewrittenNone(rows0, changes);
      QueriedDistinct(rows0, kind, w);
      for k := 0 to |rowIds|
        invariant table.rows == Rewritten(rows0, rowIds[..k], changes)
      {
        FindRewritten(rows0, rowIds, k, changes);
        var data := Find(table.rows, rowIds[k]);
        if data.Some? {
          table.UpdateBlobData(rowIds[k], data.value + changes);
        }
      }
      assert rowIds[..|rowIds|] == rowIds;
      UpdateSorted(rows0, rowIds, changes);
      UpdateCanonical(rows0, rowIds, changes);
    }

    method Remove(w: Where) returns (n: nat)
      requires table.Valid() && Coherent(w)
      modifies this`ids, table
      ensures table.Valid() && table.rows == Removed(old(table.rows), kind, w)
      ensures n == |Queried(old(table.rows), kind, w)|
    {
      hide Queried;
      var found := Query(w);
      var rowIds := Ids(found);
      n := |rowIds|;
      ghost var rows0 := table.rows;
      KeepEverything(rows0, IdNotIn(rowIds[..0]));
      for k := 0 to |rowIds|
        invariant table.rows == Keep(rows0, IdNotIn(rowIds[..k]))
      {
        KeepTwice(rows0, IdNotIn(rowIds[..k]), IdNotIn([rowIds[k]]), IdNotIn(rowIds[..k + 1]));
        var _ := table.RemoveBlob(rowIds[k]);
      }
      assert rowIds[..|rowIds|] == rowIds;
      KeepSorted(rows0, IdNotIn(rowIds));
    }
  }

  // ----- what the loops need -----

  lemma ShowsIf(rows: seq<Row>, id: nat, column: bytes)
    ensures var rec := Find(rows, id);
            forall text :: Shows(rows, id, column, text) <==>
              rec.Some? && column in rec.value && text == Shown(rec.value[column])
  {}

  lemma IndexOfNone(rows: seq<Row>, column: bytes)
    ensures IsIndex(map[], rows, [], column)
  {}

  /** The next row goes into the posting list of the text it shows. */
  lemma IndexGrows(index: map<bytes, seq<nat>>, rows: seq<Row>, ids: seq<nat>, k: nat, column: bytes)
    requires k < |ids| && ids[k] !in ids[..k] && IsIndex(index, rows, ids[..k], column)
    ensures var rec := Find(rows, ids[k]);
            if rec.Some? && column in rec.value then
              var text := Shown(rec.value[column]);
              && (text in index ==> ids[k] !in index[text])
              && IsIndex(index[text := (if text in index then index[text] else []) + [ids[k]]], rows,
                         ids[..k + 1], column)
            else IsIndex(index, rows, ids[..k + 1], column)
  {
    assert ids[..k + 1][..k] == ids[..k];
    hide Find, Shown;
    ShowsIf(rows, ids[k], column);
    hide Shows;
  }

  lemma IndexEntry(index: map<bytes, seq<nat>>, rows: seq<Row>, ids: seq<nat>, column: bytes, text: bytes)
    requires IsIndex(index, rows, ids, column)
    ensures (if text in index then index[text] else []) == Postings(rows, ids, column, text)
  {}

  function HasId(id: nat): Row -> bool { (r: Row) => r.id == id }

  function Collected(rows: seq<Row>, ids: seq<nat>): seq<Row>
    decreases |ids|
  {
    if ids == [] then []
    else
      var last := |ids| - 1;
      var rec := Find(rows, ids[last]);
      Collected(rows, ids[..last]) + if rec.Some? then [Row(ids[last], rec.value)] else []
  }

  lemma {:induction false} CollectedRows(rows: seq<Row>, some: seq<Row>)
    requires Sorted(rows) && forall r :: r in some ==> r in rows
    ensures Collected(rows, Ids(some)) == some
    decreases |some|
  {
    if some != [] {
      var last := |some| - 1;
      assert Ids(some)[..last] == Ids(some[..last]);
      CollectedRows(rows, some[..last]);
      FindRow(rows, some[last]);
    }
  }

  lemma CollectedOne(rows: seq<Row>, id: nat)
    requires Sorted(rows)
    ensures Collected(rows, [id]) == Keep(rows, HasId(id))
  {
    var hit := Keep(rows, HasId(id));
    KeepSorted(rows, HasId(id));
    assert Collected(rows, [id][..0]) == [];
    OneHit(hit, id);
    if hit == [] {
      assert forall r :: r in rows && HasId(id)(r) ==> r in hit;
      FindNone(rows, id);
    } else {
      assert hit[0] in hit;
      FindRow(rows, hit[0]);
    }
  }

  lemma OneHit(hit: seq<Row>, id: nat)
    requires Sorted(hit) && forall r :: r in hit ==> r.id == id
    ensures |hit| <= 1
  {
    if |hit| > 1 {
      Apart(hit, 0, 1);
      assert false;
    }
  }

  lemma Apart(rows: seq<Row>, i: nat, j: nat)
    requires Sorted(rows) && i < j < |rows|
    ensures rows[i] in rows && rows[j] in rows && rows[i].id < rows[j].id
  {}

  lemma ViewInside(rows: seq<Row>, t: nat)
    ensures forall r :: r in View(rows, t) ==> r in rows
  {}

  lemma KeepNone(p: Row -> bool)
    ensures Keep([], p) == []
  {}

  lemma KeepOneMore(s: seq<Row>, k: nat, p: Row -> bool)
    requires k < |s|
    ensures s[..0] == [] && Keep(s[..k + 1], p) == Keep(s[..k], p) + if p(s[k]) then [s[k]] else []
  {
    assert s[..k + 1] == s[..k] + [s[k]];
    KeepAppend(s[..k], [s[k]], p);
    assert [s[k]][1..] == [];
  }

  lemma RewrittenNone(rows: seq<Row>, changes: Record)
    ensures Rewritten(rows, [], changes) == rows
  {}

  lemma QueriedDistinct(rows: seq<Row>, t: nat, w: Where)
    requires Sorted(rows)
    ensures Sorted(Queried(rows, t, w)) && forall r :: r in Queried(rows, t, w) ==> r in rows
  {
    KeepSorted(rows, w.holds);
    KeepSorted(rows, OfType(t));
    KeepSorted(View(rows, t), w.holds);
  }

  lemma FindRewritten(rows: seq<Row>, ids: seq<nat>, k: nat, changes: Record)
    requires Sorted(rows) && Canonical(rows) && k < |ids| && ids[k] !in ids[..k]
    requires exists r :: r in rows && r.id == ids[k]
    ensures var now := Rewritten(rows, ids[..k], changes);
            && Find(now, ids[k]).Some?
            && Replaced(now, ids[k], Encoded(Find(now, ids[k]).value + changes))
               == Rewritten(rows, ids[..k + 1], changes)
  {
    hide Encoded, Canonical;
    var r :| r in rows && r.id == ids[k];
    var i :| 0 <= i < |rows| && rows[i] == r;
    var now := Rewritten(rows, ids[..k], changes);
    UpdateSorted(rows, ids[..k], changes);
    assert now[i] == r;
    FindRow(now, r);
    CanonicalRow(rows, r);
    ChangedIsEncoded(r, changes);
    forall j | 0 <= j < |rows|
      ensures Replaced(now, ids[k], Encoded(r.rec + changes))[j] == Rewritten(rows, ids[..k + 1], changes)[j]
    {
      if j != i { assert rows[j].id != ids[k]; }
    }
  }

  lemma CanonicalRow(rows: seq<Row>, r: Row)
    requires Canonical(rows) && r in rows
    ensures Encoded(r.rec) == r.rec
  {}

  lemma UpdateCanonical(rows: seq<Row>, ids: seq<nat>, changes: Record)
    requires Canonical(rows)
    ensures Canonical(Rewritten(rows, ids, changes))
  {
    hide Encoded;
    var now := Rewritten(rows, ids, changes);
    forall r | r in now ensures Encoded(r.rec) == r.rec {
      var i :| 0 <= i < |now| && now[i] == r;
      CanonicalRow(rows, rows[i]);
      ChangedIsEncoded(rows[i], changes);
    }
  }
}
