/** A nested query on a virtual table: the clause built from it, read as SQL and evaluated on the rows
    with what its parameters hold, selects the rows the query means. */
module Selection {
  import opened Options
  import opened Lists
  import opened UbjValue
  import VTable
  import Where

  /** How the values of a row compare. */
  type Compare = VTable.Row -> Where.Atoms

  /** The values a statement sees in its parameters. */
  function Held(ps: seq<Where.Parameter>): seq<Value>
    requires forall i :: 0 <= i < |ps| ==> ps[i].Holds?
  {
    seq(|ps|, i requires 0 <= i < |ps| => ps[i].v)
  }

  /** No operand is a 32-bit float, which would be bound as some other number. */
  ghost predicate NoFloat32(query: seq<Field>) {
    forall v :: v in Where.WhereBound(query) ==> !v.F32?
  }

  /** For a virtual table every value can be bound, so each is held by its own parameter. */
  lemma OperandsHeld(query: seq<Field>)
    requires NoFloat32(query)
    ensures var ps := Where.Parameters(Where.WhereBound(query), true);
            (forall i :: 0 <= i < |ps| ==> ps[i].Holds?) && Held(ps) == Where.WhereBound(query)
  {
    Where.AllBound(Where.WhereBound(query), true);
  }

  /** A row is selected if there is no condition or it is true of the row. */
  function Selected(clause: seq<Where.Token>, params: seq<Value>, compare: Compare): VTable.Row -> bool {
    var cond := Where.ParseClause(clause, 0);
    (r: VTable.Row) => clause == [] || (cond.Some? && Where.EvalAny(cond.value, compare(r), params) == Where.True)
  }

  function Meant(query: seq<Field>, compare: Compare): VTable.Row -> bool {
    (r: VTable.Row) => Where.Mean(query, compare(r)) == Where.True
  }

  /** What is asked of the database for a query: the clause and what the parameters hold. */
  function Statement(query: seq<Field>, rowid: Option<nat>, compare: Compare): VTable.Where
    requires forall p :: p in Where.Parameters(Where.WhereBound(query), true) ==> p.Holds?
  {
    var ps := Where.Parameters(Where.WhereBound(query), true);
    VTable.Where(rowid, Selected(Where.WhereTokens(query), Held(ps), compare))
  }

  /** Every condition of the query reaches SQL, with its one operator and its operand. */
  ghost predicate Expressible(query: seq<Field>) {
    (query == [] || (Where.Emits(query) && Where.SingleAll(query))) && NoFloat32(query)
  }

  lemma SelectedIsMeant(query: seq<Field>, rowid: Option<nat>, compare: Compare, r: VTable.Row)
    requires Expressible(query)
    ensures forall p :: p in Where.Parameters(Where.WhereBound(query), true) ==> p.Holds?
    ensures Statement(query, rowid, compare).holds(r) == Meant(query, compare)(r)
  {
    OperandsHeld(query);
    if query != [] {
      var bound := Where.WhereBound(query);
      Where.ClauseMeansQuery(query, [], [], compare(r));
      Where.AcceptedIff(query, 0);
      Where.NoClauseIff(query);
      assert [] + bound + [] == bound;
    }
  }

  /** A query finds the rows of its own table that it means. */
  lemma QueryFindsWhatIsMeant(rows: seq<VTable.Row>, t: nat, query: seq<Field>, rowid: Option<nat>, compare: Compare)
    requires Expressible(query)
    ensures forall p :: p in Where.Parameters(Where.WhereBound(query), true) ==> p.Holds?
    ensures var w := Statement(query, rowid, compare);
            && (VTable.Private(rows, t, w) <==>
                  VTable.Queried(rows, t, w) == Keep(VTable.View(rows, t), Meant(query, compare)))
            && (VTable.Private(rows, t, w) ==>
                  forall r :: r in VTable.Queried(rows, t, w) <==>
                    r in VTable.View(rows, t) && Where.Mean(query, compare(r)).True?)
  {
    OperandsHeld(query);
    var w := Statement(query, rowid, compare);
    forall r ensures w.holds(r) == Meant(query, compare)(r) {
      SelectedIsMeant(query, rowid, compare, r);
    }
    VTable.QueryIsPrivateIff(rows, t, w);
    KeepSame(VTable.View(rows, t), w.holds, Meant(query, compare));
  }

  /** An update changes just those, with what the codec keeps of the new values. */
  lemma UpdateChangesWhatIsMeant(
    rows: seq<VTable.Row>, t: nat, query: seq<Field>, rowid: Option<nat>, compare: Compare, changes: VTable.Record)
    requires Expressible(query) && VTable.Sorted(rows) && VTable.TAG !in changes
    requires forall p :: p in Where.Parameters(Where.WhereBound(query), true) ==> p.Holds?
    requires VTable.Private(rows, t, Statement(query, rowid, compare))
    ensures var before := VTable.View(rows, t);
            var after := VTable.View(VTable.Updated(rows, t, Statement(query, rowid, compare), changes), t);
            && |after| == |before|
            && forall i :: 0 <= i < |before| ==>
                 after[i] == if Meant(query, compare)(before[i]) then VTable.Changed(before[i], changes) else before[i]
  {
    var w := Statement(query, rowid, compare);
    VTable.UpdateRefines(rows, t, w, changes, t);
    forall r ensures w.holds(r) == Meant(query, compare)(r) {
      SelectedIsMeant(query, rowid, compare, r);
    }
  }

  /** A removal takes just those. */
  lemma RemovalTakesWhatIsMeant(
    rows: seq<VTable.Row>, t: nat, query: seq<Field>, rowid: Option<nat>, compare: Compare)
    requires Expressible(query) && VTable.Sorted(rows)
    requires forall p :: p in Where.Parameters(Where.WhereBound(query), true) ==> p.Holds?
    requires VTable.Private(rows, t, Statement(query, rowid, compare))
    ensures var left := VTable.View(VTable.Removed(rows, t, Statement(query, rowid, compare)), t);
            forall r :: r in left <==> r in VTable.View(rows, t) && !Meant(query, compare)(r)
  {
    var w := Statement(query, rowid, compare);
    VTable.RemoveRefines(rows, t, w, t);
    forall r ensures w.holds(r) == Meant(query, compare)(r) {
      SelectedIsMeant(query, rowid, compare, r);
    }
  }
}
