/** Queries to SQL: the clauses an action builds from nested objects, on tokens, the grammar SQL
    reads them with (AND binds tighter than OR), and the values bound to the placeholders. */
module Where {
  import opened Options
  import opened Bytes
  import opened UbjSyntax
  import opened UbjValue

  datatype Rel = Eq | Ne | Gt | Le | Lt | Ge | Like

  datatype Token =
    | Name(name: bytes) | Is(rel: Rel) | Param | LPar | RPar | AndWord | OrWord | Comma | WhereWord

  const OR_KEY: bytes := [36, 111, 114]

  /** The operators in the order their map lists them. */
  const OPERATORS: seq<(bytes, Rel)> := [
    ([36, 103, 101], Ge), ([36, 103, 116], Gt), ([36, 108, 101], Le),
    ([36, 108, 105, 107, 101], Like), ([36, 108, 116], Lt), ([36, 110, 101], Ne)]

  // ----- objects -----

  predicate HasField(fields: seq<Field>, key: bytes) {
    exists i :: 0 <= i < |fields| && fields[i].key == key
  }

  function FieldValue(fields: seq<Field>, key: bytes): Value
    requires HasField(fields, key)
    decreases |fields|
  {
    if fields[0].key == key then fields[0].value else FieldValue(fields[1..], key)
  }

  /** The first operator, from position `k` of the list on, that an object has. */
  function FirstOp(fields: seq<Field>, k: nat): Option<nat>
    requires k <= |OPERATORS|
    decreases |OPERATORS| - k
  {
    if k == |OPERATORS| then None
    else if HasField(fields, OPERATORS[k].0) then Some(k)
    else FirstOp(fields, k + 1)
  }

  lemma {:induction false} FirstOpIs(fields: seq<Field>, k: nat)
    requires k <= |OPERATORS|
    ensures match FirstOp(fields, k) {
              case Some(j) => k <= j < |OPERATORS| && HasField(fields, OPERATORS[j].0)
                              && forall i :: k <= i < j ==> !HasField(fields, OPERATORS[i].0)
              case None => forall i :: k <= i < |OPERATORS| ==> !HasField(fields, OPERATORS[i].0)
            }
    decreases |OPERATORS| - k
  {
    if k < |OPERATORS| && !HasField(fields, OPERATORS[k].0) {
      FirstOpIs(fields, k + 1);
    }
  }

  // ----- what the action emits and binds -----

  function Comparison(key: bytes, rel: Rel): seq<Token> {
    [Name(key), Is(rel), Param]
  }

  function FieldTokens(f: Field): seq<Token>
    decreases f, 0
  {
    match f.value
    case Arr(items) =>
      if f.key != OR_KEY || items == [] then []
      else if |items| == 1 then ItemTokens(items[0])
      else [LPar] + OrTokens(items) + [RPar]
    case Buf(_) => []
    case Obj(fields) =>
      if fields == [] then Comparison(f.key, Eq)
      else
        FirstOpIs(fields, 0);
        (match FirstOp(fields, 0)
         case Some(k) => Comparison(f.key, OPERATORS[k].1)
         case None => [])
    case _ => Comparison(f.key, Eq)
  }

  /** A value that is no object counts as an empty one. */
  function ItemTokens(v: Value): seq<Token>
    decreases v, 0
  {
    if v.Obj? then WhereTokens(v.fields) else []
  }

  function OrTokens(items: seq<Value>): seq<Token>
    requires items != []
    decreases items, 0
  {
    var first := ItemTokens(items[0]);
    if |items| == 1 then first else first + [OrWord] + OrTokens(items[1..])
  }

  function WhereTokens(query: seq<Field>): seq<Token>
    decreases query, 1
  {
    if query == [] then []
    else if |query| == 1 then FieldTokens(query[0])
    else FieldTokens(query[0]) + [AndWord] + WhereTokens(query[1..])
  }

  function FieldBound(f: Field): seq<Value>
    decreases f, 0
  {
    match f.value
    case Arr(items) => if f.key != OR_KEY then [] else OrBound(items)
    case Buf(_) => []
    case Obj(fields) =>
      if fields == [] then [f.value]
      else
        FirstOpIs(fields, 0);
        (match FirstOp(fields, 0)
         case Some(k) => [FieldValue(fields, OPERATORS[k].0)]
         case None => [])
    case _ => [f.value]
  }

  function ItemBound(v: Value): seq<Value>
    decreases v, 0
  {
    if v.Obj? then WhereBound(v.fields) else []
  }

  function OrBound(items: seq<Value>): seq<Value>
    decreases items, 0
  {
    if items == [] then [] else ItemBound(items[0]) + OrBound(items[1..])
  }

  function WhereBound(query: seq<Field>): seq<Value>
    decreases query, 1
  {
    if query == [] then [] else FieldBound(query[0]) + WhereBound(query[1..])
  }

  // ----- the grammar -----

  /** A conjunction is a list of pieces; parentheses hold alternatives, each a conjunction. A hole
      is a condition for which nothing was emitted. Parameters are numbered by position. */
  datatype Piece = Cmp(key: bytes, rel: Rel, param: nat) | Group(alts: seq<Conj>) | Hole

  datatype Conj = Conj(pieces: seq<Piece>)

  datatype Parsed<T> = Parsed(tree: T, rest: seq<Token>, next: nat)

  predicate StartsWith(ts: seq<Token>, t: Token) {
    ts != [] && ts[0] == t
  }

  function ParsePiece(ts: seq<Token>, n: nat): (r: Option<Parsed<Piece>>)
    ensures r.Some? ==> |r.value.rest| < |ts|
    decreases |ts|, 0
  {
    if |ts| >= 3 && ts[0].Name? && ts[1].Is? && ts[2].Param? then
      Some(Parsed(Cmp(ts[0].name, ts[1].rel, n), ts[3..], n + 1))
    else if StartsWith(ts, LPar) then
      match ParseAny(ts[1..], n)
      case Some(d) => if StartsWith(d.rest, RPar) then Some(Parsed(Group(d.tree), d.rest[1..], d.next)) else None
      case None => None
    else None
  }

  function ParseAll(ts: seq<Token>, n: nat): (r: Option<Parsed<seq<Piece>>>)
    ensures r.Some? ==> |r.value.rest| < |ts|
    decreases |ts|, 1
  {
    match ParsePiece(ts, n)
    case None => None
    case Some(p) =>
      if !StartsWith(p.rest, AndWord) then Some(Parsed([p.tree], p.rest, p.next))
      else
        match ParseAll(p.rest[1..], p.next)
        case Some(more) => Some(Parsed([p.tree] + more.tree, more.rest, more.next))
        case None => None
  }

  function ParseAny(ts: seq<Token>, n: nat): (r: Option<Parsed<seq<Conj>>>)
    ensures r.Some? ==> |r.value.rest| < |ts|
    decreases |ts|, 2
  {
    match ParseAll(ts, n)
    case None => None
    case Some(c) =>
      if !StartsWith(c.rest, OrWord) then Some(Parsed([Conj(c.tree)], c.rest, c.next))
      else
        match ParseAny(c.rest[1..], c.next)
        case Some(more) => Some(Parsed([Conj(c.tree)] + more.tree, more.rest, more.next))
        case None => None
  }

  /** A whole clause whose first placeholder is parameter `n`. */
  function ParseClause(ts: seq<Token>, n: nat): Option<seq<Conj>> {
    match ParseAny(ts, n)
    case Some(d) => if d.rest == [] then Some(d.tree) else None
    case None => None
  }

  // ----- three-valued meaning -----

  datatype Truth = True | False | Unknown

  type Atoms = (bytes, Rel, Value) -> Truth

  function And3(a: Truth, b: Truth): Truth {
    if a.False? || b.False? then False else if a.Unknown? || b.Unknown? then Unknown else True
  }

  function Or3(a: Truth, b: Truth): Truth {
    if a.True? || b.True? then True else if a.Unknown? || b.Unknown? then Unknown else False
  }

  /** A parameter nothing was bound to is NULL: a comparison with it is unknown. */
  function EvalPiece(p: Piece, atoms: Atoms, params: seq<Value>): Truth
    decreases p, 0
  {
    match p
    case Cmp(key, rel, k) => if k < |params| then atoms(key, rel, params[k]) else Unknown
    case Group(alts) => EvalAny(alts, atoms, params)
    case Hole => True
  }

  function EvalAll(ps: seq<Piece>, atoms: Atoms, params: seq<Value>): Truth
    decreases ps, 1
  {
    if ps == [] then True else And3(EvalPiece(ps[0], atoms, params), EvalAll(ps[1..], atoms, params))
  }

  function EvalAny(alts: seq<Conj>, atoms: Atoms, params: seq<Value>): Truth
    decreases alts, 2
  {
    if alts == [] then False else Or3(EvalAll(alts[0].pieces, atoms, params), EvalAny(alts[1..], atoms, params))
  }

  // ----- what a query means -----

  /** All operators of an operator object have to hold. */
  function MeanOps(key: bytes, fields: seq<Field>, k: nat, atoms: Atoms): Truth
    requires k <= |OPERATORS|
    decreases |OPERATORS| - k
  {
    if k == |OPERATORS| then True
    else
      And3(if HasField(fields, OPERATORS[k].0) then atoms(key, OPERATORS[k].1, FieldValue(fields, OPERATORS[k].0))
           else True,
           MeanOps(key, fields, k + 1, atoms))
  }

  function MeanField(f: Field, atoms: Atoms): Truth
    decreases f, 0
  {
    if f.value.Arr? && f.key == OR_KEY then MeanAny(f.value.items, atoms)
    else if f.value.Obj? && f.value.fields != [] then MeanOps(f.key, f.value.fields, 0, atoms)
    else atoms(f.key, Eq, f.value)
  }

  function MeanAny(items: seq<Value>, atoms: Atoms): Truth
    decreases items, 0
  {
    if items == [] then False
    else Or3(if items[0].Obj? then Mean(items[0].fields, atoms) else True, MeanAny(items[1..], atoms))
  }

  function Mean(query: seq<Field>, atoms: Atoms): Truth
    decreases query, 1
  {
    if query == [] then True else And3(MeanField(query[0], atoms), Mean(query[1..], atoms))
  }

  // ----- clauses and meanings, spelled out -----

  /** The text a token stands for in the statement. */
  function Text(t: Token): bytes {
    match t
    case Name(name) => name
    case Is(rel) =>
      (match rel
       case Eq => Ascii("=")
       case Ne => Ascii("<>")
       case Gt => Ascii(">")
       case Le => Ascii("<=")
       case Lt => Ascii("<")
       case Ge => Ascii(">=")
       case Like => Ascii(" like "))
    case Param => Ascii("?")
    case LPar => Ascii("(")
    case RPar => Ascii(")")
    case AndWord => Ascii(" AND ")
    case OrWord => Ascii(" OR ")
    case Comma => Ascii(",")
    case WhereWord => Ascii(" WHERE ")
  }

  function Sql(ts: seq<Token>): bytes {
    if ts == [] then [] else Text(ts[0]) + Sql(ts[1..])
  }

  lemma {:induction false} SqlAppend(a: seq<Token>, b: seq<Token>)
    ensures Sql(a + b) == Sql(a) + Sql(b)
    decreases |a|
  {
    hide Text;
    if a == [] {
      assert a + b == b;
    } else {
      assert (a + b)[1..] == a[1..] + b;
      SqlAppend(a[1..], b);
    }
  }

  lemma SqlOfThree(a: Token, b: Token, c: Token)
    ensures Sql([a, b, c]) == Text(a) + Text(b) + Text(c)
  {
    hide Text;
    assert [a, b, c][1..] == [b, c] && [b, c][1..] == [c] && [c][1..] == [];
    assert Sql([c]) == Text(c) && Sql([b, c]) == Text(b) + Sql([c]);
  }

  lemma OperatorsAre()
    ensures |OPERATORS| == 6
    ensures OPERATORS[0] == (Ascii("$ge"), Ge) && OPERATORS[1] == (Ascii("$gt"), Gt)
    ensures OPERATORS[2] == (Ascii("$le"), Le) && OPERATORS[3] == (Ascii("$like"), Like)
    ensures OPERATORS[4] == (Ascii("$lt"), Lt)
    ensures OPERATORS[5] == (Ascii("$ne"), Ne) && OR_KEY == Ascii("$or")
  {
    NamesAre();
  }

  lemma NamesAre()
    ensures Ascii("$ge") == [36, 103, 101] && Ascii("$gt") == [36, 103, 116] && Ascii("$le") == [36, 108, 101]
    ensures Ascii("$like") == [36, 108, 105, 107, 101] && Ascii("$lt") == [36, 108, 116]
    ensures Ascii("$ne") == [36, 110, 101] && Ascii("$or") == [36, 111, 114]
  {}

  /** The comparison emitted for a relation. */
  predicate Emitted(key: bytes, fields: seq<Field>, name: bytes, rel: Rel) {
    var query := [Field(key, Obj(fields))];
    && HasField(fields, name) && WhereTokens(query) == [Name(key), Is(rel), Param]
    && WhereBound(query) == [FieldValue(fields, name)]
  }

  /** Which operator of an object reaches SQL: the first of these that it has. */
  lemma OperatorEmitted(key: bytes, fields: seq<Field>)
    requires fields != []
    ensures if HasField(fields, Ascii("$ge")) then Emitted(key, fields, Ascii("$ge"), Ge)
            else if HasField(fields, Ascii("$gt")) then Emitted(key, fields, Ascii("$gt"), Gt)
            else if HasField(fields, Ascii("$le")) then Emitted(key, fields, Ascii("$le"), Le)
            else if HasField(fields, Ascii("$like")) then Emitted(key, fields, Ascii("$like"), Like)
            else if HasField(fields, Ascii("$lt")) then Emitted(key, fields, Ascii("$lt"), Lt)
            else if HasField(fields, Ascii("$ne")) then Emitted(key, fields, Ascii("$ne"), Ne)
            else WhereTokens([Field(key, Obj(fields))]) == [] && WhereBound([Field(key, Obj(fields))]) == []
  {
    OperatorsAre();
    hide Ascii, HasField, FieldValue, FirstOp;
    FirstOpIs(fields, 0);
    OneField(Field(key, Obj(fields)));
  }

  lemma OneField(f: Field)
    ensures WhereTokens([f]) == FieldTokens(f) && WhereBound([f]) == FieldBound(f)
  {
    assert [f][1..] == [];
    assert FieldBound(f) + [] == FieldBound(f);
  }

  /** What an operator of an object asks for, if the object has it. */
  function Asked(key: bytes, fields: seq<Field>, name: bytes, rel: Rel, atoms: Atoms): Truth {
    if HasField(fields, name) then atoms(key, rel, FieldValue(fields, name)) else True
  }

  /** All operators of an object have to hold. */
  lemma OperatorsMean(key: bytes, fields: seq<Field>, atoms: Atoms)
    requires fields != []
    ensures var ge, gt := Asked(key, fields, Ascii("$ge"), Ge, atoms), Asked(key, fields, Ascii("$gt"), Gt, atoms);
            var le, lt := Asked(key, fields, Ascii("$le"), Le, atoms), Asked(key, fields, Ascii("$lt"), Lt, atoms);
            var ne := Asked(key, fields, Ascii("$ne"), Ne, atoms);
            var like := Asked(key, fields, Ascii("$like"), Like, atoms);
            var m := Mean([Field(key, Obj(fields))], atoms);
            && (m.True? <==> ge.True? && gt.True? && le.True? && like.True? && lt.True? && ne.True?)
            && (m.False? <==> ge.False? || gt.False? || le.False? || like.False? || lt.False? || ne.False?)
  {
    OperatorsAre();
    hide Ascii, Asked;
    MeanOpsIs(key, fields, 0, atoms);
    OneMeaning(Field(key, Obj(fields)), atoms);
    hide MeanOps, Mean, MeanField;
    MeanOfOps(key, fields, atoms);
  }

  lemma OneMeaning(f: Field, atoms: Atoms)
    ensures Mean([f], atoms) == MeanField(f, atoms)
  {
    assert [f][1..] == [];
    assert Mean([f], atoms) == And3(MeanField(f, atoms), True);
  }

  lemma {:induction false} MeanOpsIs(key: bytes, fields: seq<Field>, k: nat, atoms: Atoms)
    requires k <= |OPERATORS|
    ensures var m := MeanOps(key, fields, k, atoms);
            && (m.False? <==> exists i :: k <= i < |OPERATORS|
                                && Asked(key, fields, OPERATORS[i].0, OPERATORS[i].1, atoms).False?)
            && (m.True? <==> forall i :: k <= i < |OPERATORS| ==>
                               Asked(key, fields, OPERATORS[i].0, OPERATORS[i].1, atoms).True?)
    decreases |OPERATORS| - k
  {
    hide HasField, FieldValue;
    if k < |OPERATORS| {
      MeanOpsIs(key, fields, k + 1, atoms);
      assert MeanOps(key, fields, k, atoms)
             == And3(Asked(key, fields, OPERATORS[k].0, OPERATORS[k].1, atoms), MeanOps(key, fields, k + 1, atoms));
    }
  }

  /** What an operator is called in a query, its relation, and its text in the clause. */
  predicate OperatorIs(name: bytes, rel: Rel, text: bytes) {
    || (name == Ascii("$ge") && rel == Ge && text == Ascii(">=?"))
    || (name == Ascii("$gt") && rel == Gt && text == Ascii(">?"))
    || (name == Ascii("$le") && rel == Le && text == Ascii("<=?"))
    || (name == Ascii("$like") && rel == Like && text == Ascii(" like ?"))
    || (name == Ascii("$lt") && rel == Lt && text == Ascii("<?"))
    || (name == Ascii("$ne") && rel == Ne && text == Ascii("<>?"))
  }

  /** A field with one operator: the text, the value bound, and the comparison that is meant. */
  lemma OperatorMeans(key: bytes, name: bytes, rel: Rel, text: bytes, v: Value, atoms: Atoms)
    requires OperatorIs(name, rel, text)
    ensures var query := [Field(key, Obj([Field(name, v)]))];
            && WhereTokens(query) == [Name(key), Is(rel), Param] && Sql(WhereTokens(query)) == key + text
            && WhereBound(query) == [v] && Mean(query, atoms) == atoms(key, rel, v)
  {
    TextIs(rel, text);
    EmittedOne(key, name, rel, text, v);
    MeanOfOne(key, name, rel, text, v, atoms);
    hide Ascii, Text, Sql, Mean, WhereTokens, WhereBound, OperatorIs;
    SqlOfThree(Name(key), Is(rel), Param);
    assert (key + Text(Is(rel))) + Text(Param) == key + (Text(Is(rel)) + Text(Param));
  }

  lemma EmittedOne(key: bytes, name: bytes, rel: Rel, text: bytes, v: Value)
    requires OperatorIs(name, rel, text)
    ensures var query := [Field(key, Obj([Field(name, v)]))];
            WhereTokens(query) == [Name(key), Is(rel), Param] && WhereBound(query) == [v]
  {
    NamesDiffer();
    var fields := [Field(name, v)];
    assert fields[0].key == name && FieldValue(fields, name) == v;
    assert forall other :: HasField(fields, other) <==> other == name;
    hide Ascii, HasField, FieldValue;
    OperatorEmitted(key, fields);
  }

  lemma MeanOfOne(key: bytes, name: bytes, rel: Rel, text: bytes, v: Value, atoms: Atoms)
    requires OperatorIs(name, rel, text)
    ensures Mean([Field(key, Obj([Field(name, v)]))], atoms) == atoms(key, rel, v)
  {
    NamesDiffer();
    var fields := [Field(name, v)];
    assert fields[0].key == name && FieldValue(fields, name) == v;
    assert forall other :: HasField(fields, other) <==> other == name;
    hide Ascii, HasField, FieldValue;
    OperatorsMean(key, fields, atoms);
    hide Mean;
  }

  lemma TextIs(rel: Rel, text: bytes)
    requires exists name :: OperatorIs(name, rel, text)
    ensures Text(Is(rel)) + Text(Param) == text
  {}

  lemma NamesDiffer()
    ensures var ge, gt, le, like, lt, ne :=
              Ascii("$ge"), Ascii("$gt"), Ascii("$le"), Ascii("$like"), Ascii("$lt"), Ascii("$ne");
            && ge != gt && ge != le && ge != like && ge != lt && ge != ne
            && gt != le && gt != like && gt != lt && gt != ne
            && le != like && le != lt && le != ne && like != lt && like != ne && lt != ne
  {
    NamesAre();
    hide Ascii;
  }

  /** A field with a plain value, or an empty object: equality. */
  lemma EqualityMeans(key: bytes, v: Value, atoms: Atoms)
    requires !v.Arr? && !v.Buf? && (v.Obj? ==> v.fields == [])
    ensures var query := [Field(key, v)];
            && WhereTokens(query) == [Name(key), Is(Eq), Param] && Sql(WhereTokens(query)) == key + Ascii("=?")
            && WhereBound(query) == [v] && Mean(query, atoms) == atoms(key, Eq, v)
  {
    var f := Field(key, v);
    OneField(f);
    OneMeaning(f, atoms);
    SqlOfThree(Name(key), Is(Eq), Param);
    EqualText(key);
  }

  lemma EqualText(key: bytes)
    ensures key + Text(Is(Eq)) + Text(Param) == key + Ascii("=?")
  {}

  /** Fields are joined by AND: all have to hold. */
  lemma FieldsMean(f: Field, query: seq<Field>, atoms: Atoms)
    requires query != []
    ensures Sql(WhereTokens([f] + query)) == Sql(WhereTokens([f])) + Ascii(" AND ") + Sql(WhereTokens(query))
    ensures WhereBound([f] + query) == WhereBound([f]) + WhereBound(query)
    ensures Mean([f] + query, atoms).True? <==> Mean([f], atoms).True? && Mean(query, atoms).True?
    ensures Mean([f] + query, atoms).False? <==> Mean([f], atoms).False? || Mean(query, atoms).False?
  {
    OneField(f);
    OneMeaning(f, atoms);
    assert ([f] + query)[1..] == query;
    hide FieldTokens, FieldBound, MeanField, Ascii;
    SqlAppend(FieldTokens(f) + [AndWord], WhereTokens(query));
    SqlAppend(FieldTokens(f), [AndWord]);
    assert Sql([AndWord]) == Ascii(" AND ") by { assert [AndWord][1..] == []; }
  }

  /** The items of a list called $or are joined by OR, in parentheses: one has to hold. */
  lemma AlternativesMean(a: seq<Field>, b: seq<Field>, atoms: Atoms)
    ensures var query := [Field(Ascii("$or"), Arr([Obj(a), Obj(b)]))];
            && Sql(WhereTokens(query))
               == Ascii("(") + Sql(WhereTokens(a)) + Ascii(" OR ") + Sql(WhereTokens(b)) + Ascii(")")
            && WhereBound(query) == WhereBound(a) + WhereBound(b)
            && (Mean(query, atoms).True? <==> Mean(a, atoms).True? || Mean(b, atoms).True?)
            && (Mean(query, atoms).False? <==> Mean(a, atoms).False? && Mean(b, atoms).False?)
  {
    NamesAre();
    var items := [Obj(a), Obj(b)];
    var f := Field(Ascii("$or"), Arr(items));
    OneField(f);
    OneMeaning(f, atoms);
    assert items[1..] == [Obj(b)] && [Obj(b)][1..] == [];
    AlternativesBound(a, b);
    AlternativesTruth(a, b, atoms);
    hide Ascii, Mean, WhereBound;
    var x, y := WhereTokens(a), WhereTokens(b);
    assert OrTokens([Obj(b)]) == y && OrTokens(items) == x + [OrWord] + y;
    hide WhereTokens, OrTokens;
    assert FieldTokens(f) == [LPar] + (x + [OrWord] + y) + [RPar];
    AlternativesText(x, y);
  }

  lemma AlternativesBound(a: seq<Field>, b: seq<Field>)
    ensures OrBound([Obj(a), Obj(b)]) == WhereBound(a) + WhereBound(b)
  {
    assert [Obj(a), Obj(b)][1..] == [Obj(b)] && [Obj(b)][1..] == [];
    hide WhereBound;
    assert OrBound([Obj(b)]) == WhereBound(b) + [];
  }

  lemma AlternativesTruth(a: seq<Field>, b: seq<Field>, atoms: Atoms)
    ensures var m := MeanAny([Obj(a), Obj(b)], atoms);
            && (m.True? <==> Mean(a, atoms).True? || Mean(b, atoms).True?)
            && (m.False? <==> Mean(a, atoms).False? && Mean(b, atoms).False?)
  {
    assert [Obj(a), Obj(b)][1..] == [Obj(b)] && [Obj(b)][1..] == [];
    hide Mean;
    assert MeanAny([Obj(b)], atoms) == Or3(Mean(b, atoms), False);
  }

  lemma AlternativesText(x: seq<Token>, y: seq<Token>)
    ensures Sql([LPar] + (x + [OrWord] + y) + [RPar])
            == Ascii("(") + Sql(x) + Ascii(" OR ") + Sql(y) + Ascii(")")
  {
    SqlOfOne(LPar);
    SqlOfOne(OrWord);
    SqlOfOne(RPar);
    SqlAppend([LPar] + (x + [OrWord] + y), [RPar]);
    SqlAppend([LPar], x + [OrWord] + y);
    SqlAppend(x + [OrWord], y);
    SqlAppend(x, [OrWord]);
    hide Sql, Ascii;
    var l, o, r := Ascii("("), Ascii(" OR "), Ascii(")");
    assert l + (Sql(x) + o + Sql(y)) == l + Sql(x) + o + Sql(y);
  }

  lemma SqlOfOne(t: Token)
    ensures Sql([t]) == Text(t)
  {
    assert [t][1..] == [];
  }

  // ----- which queries the builder can express -----

  /** Something is emitted for every condition. */
  predicate EmitsField(f: Field)
    decreases f, 0
  {
    match f.value
    case Arr(items) => f.key == OR_KEY && items != [] && EmitsAny(items)
    case Buf(_) => false
    case Obj(fields) => fields == [] || FirstOp(fields, 0).Some?
    case _ => true
  }

  predicate EmitsAny(items: seq<Value>)
    decreases items, 0
  {
    items == [] || (items[0].Obj? && Emits(items[0].fields) && EmitsAny(items[1..]))
  }

  predicate EmitsAll(query: seq<Field>)
    decreases query, 1
  {
    query == [] || (EmitsField(query[0]) && EmitsAll(query[1..]))
  }

  predicate Emits(query: seq<Field>)
    decreases query, 2
  {
    query != [] && EmitsAll(query)
  }

  /** The operators named in an object: exactly one. */
  predicate OneOp(fields: seq<Field>) {
    exists k :: 0 <= k < |OPERATORS| && HasField(fields, OPERATORS[k].0)
                && forall i :: 0 <= i < |OPERATORS| && i != k ==> !HasField(fields, OPERATORS[i].0)
  }

  /** Every operator object, at any depth, has exactly one operator. */
  predicate SingleField(f: Field)
    decreases f, 0
  {
    match f.value
    case Arr(items) => SingleAny(items)
    case Obj(fields) => fields == [] || OneOp(fields)
    case _ => true
  }

  predicate SingleAny(items: seq<Value>)
    decreases items, 0
  {
    items == [] || ((items[0].Obj? ==> SingleAll(items[0].fields)) && SingleAny(items[1..]))
  }

  predicate SingleAll(query: seq<Field>)
    decreases query, 1
  {
    query == [] || (SingleField(query[0]) && SingleAll(query[1..]))
  }

  // ----- the tree behind the tokens -----

  function FlatField(f: Field, n: nat): (ps: seq<Piece>)
    ensures ps != []
    decreases f, 0
  {
    match f.value
    case Arr(items) =>
      if f.key != OR_KEY || items == [] then [Hole]
      else if |items| == 1 then
        var inner := FlatItem(items[0], n);
        if inner == [] then [Hole] else inner
      else [Group(FlatAny(items, n))]
    case Buf(_) => [Hole]
    case Obj(fields) =>
      if fields == [] then [Cmp(f.key, Eq, n)]
      else
        FirstOpIs(fields, 0);
        (match FirstOp(fields, 0)
         case Some(k) => [Cmp(f.key, OPERATORS[k].1, n)]
         case None => [Hole])
    case _ => [Cmp(f.key, Eq, n)]
  }

  function FlatItem(v: Value, n: nat): seq<Piece>
    decreases v, 0
  {
    if v.Obj? then Flat(v.fields, n) else []
  }

  function FlatAny(items: seq<Value>, n: nat): (alts: seq<Conj>)
    ensures |alts| == |items|
    decreases items, 0
  {
    if items == [] then []
    else [Conj(FlatItem(items[0], n))] + FlatAny(items[1..], n + |ItemBound(items[0])|)
  }

  function Flat(query: seq<Field>, n: nat): (ps: seq<Piece>)
    ensures query != [] ==> ps != []
    decreases query, 1
  {
    if query == [] then [] else FlatField(query[0], n) + Flat(query[1..], n + |FieldBound(query[0])|)
  }

  function ShowPiece(p: Piece): seq<Token>
    decreases p, 0
  {
    match p
    case Cmp(key, rel, _) => Comparison(key, rel)
    case Group(alts) => [LPar] + ShowAny(alts) + [RPar]
    case Hole => []
  }

  function ShowAll(ps: seq<Piece>): seq<Token>
    decreases ps, 1
  {
    if ps == [] then []
    else if |ps| == 1 then ShowPiece(ps[0])
    else ShowPiece(ps[0]) + [AndWord] + ShowAll(ps[1..])
  }

  function ShowAny(alts: seq<Conj>): seq<Token>
    decreases alts, 2
  {
    if alts == [] then []
    else if |alts| == 1 then ShowAll(alts[0].pieces)
    else ShowAll(alts[0].pieces) + [OrWord] + ShowAny(alts[1..])
  }

  lemma {:induction false} ShowJoin(a: seq<Piece>, b: seq<Piece>)
    requires a != [] && b != []
    ensures ShowAll(a + b) == ShowAll(a) + [AndWord] + ShowAll(b)
    decreases |a|
  {
    assert (a + b)[0] == a[0] && (a + b)[1..] == a[1..] + b;
    if |a| > 1 {
      ShowJoin(a[1..], b);
    } else {
      assert a[1..] + b == b;
    }
  }

  lemma {:induction false} ShowFlatField(f: Field, n: nat)
    ensures ShowAll(FlatField(f, n)) == FieldTokens(f)
    decreases f, 0
  {
    if f.value.Arr? && f.key == OR_KEY && f.value.items != [] {
      if |f.value.items| == 1 {
        ShowFlatItem(f.value.items[0], n);
      } else {
        ShowFlatAny(f.value.items, n);
      }
    }
  }

  lemma {:induction false} ShowFlatItem(v: Value, n: nat)
    ensures ShowAll(FlatItem(v, n)) == ItemTokens(v)
    decreases v, 0
  {
    if v.Obj? { ShowFlat(v.fields, n); }
  }

  lemma {:induction false} ShowFlatAny(items: seq<Value>, n: nat)
    requires items != []
    ensures ShowAny(FlatAny(items, n)) == OrTokens(items)
    decreases items, 0
  {
    ShowFlatItem(items[0], n);
    if |items| > 1 {
      ShowFlatAny(items[1..], n + |ItemBound(items[0])|);
    }
  }

  lemma {:induction false} ShowFlat(query: seq<Field>, n: nat)
    ensures ShowAll(Flat(query, n)) == WhereTokens(query)
    decreases query, 1
  {
    if query != [] {
      ShowFlatField(query[0], n);
      var next := n + |FieldBound(query[0])|;
      if |query| > 1 {
        ShowFlat(query[1..], next);
        ShowJoin(FlatField(query[0], n), Flat(query[1..], next));
      } else {
        assert FlatField(query[0], n) + Flat(query[1..], next) == FlatField(query[0], n);
      }
    }
  }

  // ----- reading the tokens back -----

  function CountPiece(p: Piece): nat
    decreases p, 0
  {
    match p
    case Cmp(_, _, _) => 1
    case Group(alts) => CountAny(alts)
    case Hole => 0
  }

  function CountAll(ps: seq<Piece>): nat
    decreases ps, 1
  {
    if ps == [] then 0 else CountPiece(ps[0]) + CountAll(ps[1..])
  }

  function CountAny(alts: seq<Conj>): nat
    decreases alts, 2
  {
    if alts == [] then 0 else CountAll(alts[0].pieces) + CountAny(alts[1..])
  }

  /** Parameters are numbered from `n` on, left to right. */
  predicate NumberedPiece(p: Piece, n: nat)
    decreases p, 0
  {
    match p
    case Cmp(_, _, k) => k == n
    case Group(alts) => NumberedAny(alts, n)
    case Hole => true
  }

  predicate NumberedAll(ps: seq<Piece>, n: nat)
    decreases ps, 1
  {
    ps == [] || (NumberedPiece(ps[0], n) && NumberedAll(ps[1..], n + CountPiece(ps[0])))
  }

  predicate NumberedAny(alts: seq<Conj>, n: nat)
    decreases alts, 2
  {
    alts == [] || (NumberedAll(alts[0].pieces, n) && NumberedAny(alts[1..], n + CountAll(alts[0].pieces)))
  }

  /** No hole anywhere, and nothing empty. */
  predicate CleanPiece(p: Piece)
    decreases p, 0
  {
    match p
    case Cmp(_, _, _) => true
    case Group(alts) => alts != [] && CleanAny(alts)
    case Hole => false
  }

  predicate CleanAll(ps: seq<Piece>)
    decreases ps, 1
  {
    ps == [] || (CleanPiece(ps[0]) && CleanAll(ps[1..]))
  }

  predicate CleanAny(alts: seq<Conj>)
    decreases alts, 2
  {
    alts == [] || (alts[0].pieces != [] && CleanAll(alts[0].pieces) && CleanAny(alts[1..]))
  }

  predicate Ends(rest: seq<Token>) {
    rest == [] || rest[0] == RPar
  }

  lemma NothingToRead(rest: seq<Token>, n: nat)
    requires Ends(rest) || rest[0] in {AndWord, OrWord}
    ensures ParsePiece(rest, n) == None && ParseAll(rest, n) == None && ParseAny(rest, n) == None
  {}

  lemma {:induction false} ParsePieceShow(p: Piece, rest: seq<Token>, n: nat)
    requires NumberedPiece(p, n)
    requires Ends(rest) || rest[0] in {AndWord, OrWord}
    ensures ParsePiece(ShowPiece(p) + rest, n)
            == if CleanPiece(p) then Some(Parsed(p, rest, n + CountPiece(p))) else None
    decreases p, 0
  {
    match p
    case Cmp(key, rel, _) =>
      assert (ShowPiece(p) + rest)[3..] == rest;
    case Group(alts) =>
      var tail := [RPar] + rest;
      assert (ShowPiece(p) + rest)[1..] == ShowAny(alts) + tail;
      ParseAnyShow(alts, tail, n);
      assert tail[1..] == rest;
    case Hole =>
      assert ShowPiece(p) + rest == rest;
  }

  lemma {:induction false} ParseAllShow(ps: seq<Piece>, rest: seq<Token>, n: nat)
    requires NumberedAll(ps, n) && (Ends(rest) || rest[0] == OrWord)
    ensures ParseAll(ShowAll(ps) + rest, n)
            == if ps != [] && CleanAll(ps) then Some(Parsed(ps, rest, n + CountAll(ps))) else None
    decreases ps, 1
  {
    hide ShowPiece, CleanPiece, CountPiece, NumberedPiece, ParsePiece;
    if ps == [] {
      assert ShowAll(ps) + rest == rest;
      NothingToRead(rest, n);
    } else if |ps| == 1 {
      ParsePieceShow(ps[0], rest, n);
      assert ps == [ps[0]];
    } else {
      var tail := [AndWord] + (ShowAll(ps[1..]) + rest);
      assert ShowAll(ps) + rest == ShowPiece(ps[0]) + tail;
      ParsePieceShow(ps[0], tail, n);
      assert tail[1..] == ShowAll(ps[1..]) + rest;
      ParseAllShow(ps[1..], rest, n + CountPiece(ps[0]));
      assert ps == [ps[0]] + ps[1..];
    }
  }

  lemma {:induction false} ParseAnyShow(alts: seq<Conj>, rest: seq<Token>, n: nat)
    requires NumberedAny(alts, n) && Ends(rest)
    ensures ParseAny(ShowAny(alts) + rest, n)
            == if alts != [] && CleanAny(alts) then Some(Parsed(alts, rest, n + CountAny(alts))) else None
    decreases alts, 2
  {
    hide ShowAll, CleanAll, CountAll, NumberedAll, ParseAll;
    if alts == [] {
      assert ShowAny(alts) + rest == rest;
      NothingToRead(rest, n);
    } else if |alts| == 1 {
      ParseAllShow(alts[0].pieces, rest, n);
      assert alts[1..] == [];
      assert alts == [Conj(alts[0].pieces)];
    } else {
      var tail := [OrWord] + (ShowAny(alts[1..]) + rest);
      assert ShowAny(alts) + rest == ShowAll(alts[0].pieces) + tail;
      ParseAllShow(alts[0].pieces, tail, n);
      assert tail[1..] == ShowAny(alts[1..]) + rest;
      ParseAnyShow(alts[1..], rest, n + CountAll(alts[0].pieces));
      assert alts == [Conj(alts[0].pieces)] + alts[1..];
    }
  }

  // ----- the tree is numbered by the bound values, clean if nothing is missing, and means the query -----

  lemma {:induction false} Joined(a: seq<Piece>, b: seq<Piece>, n: nat)
    ensures NumberedAll(a + b, n) <==> NumberedAll(a, n) && NumberedAll(b, n + CountAll(a))
    ensures CountAll(a + b) == CountAll(a) + CountAll(b)
    ensures CleanAll(a + b) <==> CleanAll(a) && CleanAll(b)
    decreases |a|
  {
    hide NumberedPiece, CountPiece, CleanPiece;
    if a == [] {
      assert a + b == b;
    } else {
      assert (a + b)[0] == a[0] && (a + b)[1..] == a[1..] + b;
      Joined(a[1..], b, n + CountPiece(a[0]));
    }
  }

  lemma {:induction false} EvalJoined(a: seq<Piece>, b: seq<Piece>, atoms: Atoms, params: seq<Value>)
    ensures EvalAll(a + b, atoms, params) == And3(EvalAll(a, atoms, params), EvalAll(b, atoms, params))
    decreases |a|
  {
    hide EvalPiece;
    if a == [] {
      assert a + b == b;
    } else {
      assert (a + b)[0] == a[0] && (a + b)[1..] == a[1..] + b;
      EvalJoined(a[1..], b, atoms, params);
    }
  }

  lemma OnePiece(p: Piece, n: nat)
    ensures NumberedAll([p], n) <==> NumberedPiece(p, n)
    ensures CountAll([p]) == CountPiece(p) && CleanAll([p]) == CleanPiece(p)
  {
    assert [p][1..] == [];
  }

  lemma OneItem(items: seq<Value>)
    requires |items| == 1
    ensures OrBound(items) == ItemBound(items[0])
    ensures EmitsAny(items) <==> items[0].Obj? && Emits(items[0].fields)
    ensures SingleAny(items) && items[0].Obj? ==> SingleAll(items[0].fields)
  {
    assert items[1..] == [];
    assert ItemBound(items[0]) + [] == ItemBound(items[0]);
  }

  lemma OneItemMeans(items: seq<Value>, atoms: Atoms)
    requires |items| == 1 && items[0].Obj?
    ensures MeanAny(items, atoms) == Mean(items[0].fields, atoms)
  {
    assert items[1..] == [];
  }

  lemma {:induction false} FlatFieldFacts(f: Field, n: nat)
    ensures var ps := FlatField(f, n);
            NumberedAll(ps, n) && CountAll(ps) == |FieldBound(f)| && CleanAll(ps) == EmitsField(f)
    decreases f, 0
  {
    if f.value.Arr? && f.key == OR_KEY && f.value.items != [] {
      var items := f.value.items;
      if |items| == 1 {
        FlatItemFacts(items[0], n);
        OneItem(items);
      } else {
        FlatAnyFacts(items, n);
      }
    }
    OnePiece(FlatField(f, n)[0], n);
  }

  lemma {:induction false} FlatItemFacts(v: Value, n: nat)
    ensures var ps := FlatItem(v, n);
            && NumberedAll(ps, n) && CountAll(ps) == |ItemBound(v)|
            && (ps != [] && CleanAll(ps) <==> v.Obj? && Emits(v.fields))
    decreases v, 0
  {
    if v.Obj? { FlatFacts(v.fields, n); }
  }

  lemma {:induction false} FlatAnyFacts(items: seq<Value>, n: nat)
    ensures var alts := FlatAny(items, n);
            NumberedAny(alts, n) && CountAny(alts) == |OrBound(items)| && CleanAny(alts) == EmitsAny(items)
    decreases items, 0
  {
    if items != [] {
      FlatItemFacts(items[0], n);
      FlatAnyFacts(items[1..], n + |ItemBound(items[0])|);
    }
  }

  lemma {:induction false} FlatFacts(query: seq<Field>, n: nat)
    ensures var ps := Flat(query, n);
            && NumberedAll(ps, n) && CountAll(ps) == |WhereBound(query)| && CleanAll(ps) == EmitsAll(query)
            && (ps == [] <==> query == [])
    decreases query, 1
  {
    if query != [] {
      var next := n + |FieldBound(query[0])|;
      FlatFieldFacts(query[0], n);
      FlatFacts(query[1..], next);
      Joined(FlatField(query[0], n), Flat(query[1..], next), n);
    }
  }

  /** The values from parameter `n` on start with `bound`. */
  predicate BoundAt(params: seq<Value>, n: nat, bound: seq<Value>) {
    n + |bound| <= |params| && params[n..n + |bound|] == bound
  }

  lemma BoundSplit(params: seq<Value>, n: nat, a: seq<Value>, b: seq<Value>)
    requires BoundAt(params, n, a + b)
    ensures BoundAt(params, n, a) && BoundAt(params, n + |a|, b)
  {
    assert a == (a + b)[..|a|] && b == (a + b)[|a|..];
  }

  lemma {:induction false} OnlyOne(key: bytes, fields: seq<Field>, k: nat, j: nat, atoms: Atoms)
    requires k <= |OPERATORS| && j < |OPERATORS| && HasField(fields, OPERATORS[j].0)
    requires forall i :: 0 <= i < |OPERATORS| && i != j ==> !HasField(fields, OPERATORS[i].0)
    ensures MeanOps(key, fields, k, atoms)
            == if k <= j then atoms(key, OPERATORS[j].1, FieldValue(fields, OPERATORS[j].0)) else True
    decreases |OPERATORS| - k
  {
    if k < |OPERATORS| { OnlyOne(key, fields, k + 1, j, atoms); }
  }

  lemma {:induction false} EvalField(f: Field, n: nat, atoms: Atoms, params: seq<Value>)
    requires EmitsField(f) && SingleField(f) && BoundAt(params, n, FieldBound(f))
    ensures EvalAll(FlatField(f, n), atoms, params) == MeanField(f, atoms)
    decreases f, 0
  {
    match f.value
    case Arr(items) =>
      if |items| == 1 {
        OneItem(items);
        OneItemMeans(items, atoms);
        EvalItem(items[0], n, atoms, params);
      } else {
        EvalItems(items, n, atoms, params);
      }
    case Obj(fields) =>
      if fields != [] {
        FirstOpIs(fields, 0);
        var k := FirstOp(fields, 0).value;
        var j :| 0 <= j < |OPERATORS| && HasField(fields, OPERATORS[j].0)
          && forall i :: 0 <= i < |OPERATORS| && i != j ==> !HasField(fields, OPERATORS[i].0);
        OnlyOne(f.key, fields, 0, j, atoms);
        assert params[n] == params[n..n + 1][0];
      } else {
        assert params[n] == params[n..n + 1][0];
      }
    case Buf(_) =>
    case _ =>
      assert params[n] == params[n..n + 1][0];
  }

  lemma {:induction false} EvalItem(v: Value, n: nat, atoms: Atoms, params: seq<Value>)
    requires v.Obj? && Emits(v.fields) && SingleAll(v.fields) && BoundAt(params, n, ItemBound(v))
    ensures EvalAll(FlatItem(v, n), atoms, params) == Mean(v.fields, atoms)
    decreases v, 0
  {
    EvalFlat(v.fields, n, atoms, params);
  }

  lemma {:induction false} EvalItems(items: seq<Value>, n: nat, atoms: Atoms, params: seq<Value>)
    requires EmitsAny(items) && SingleAny(items) && BoundAt(params, n, OrBound(items))
    ensures EvalAny(FlatAny(items, n), atoms, params) == MeanAny(items, atoms)
    decreases items, 0
  {
    if items != [] {
      BoundSplit(params, n, ItemBound(items[0]), OrBound(items[1..]));
      EvalItem(items[0], n, atoms, params);
      EvalItems(items[1..], n + |ItemBound(items[0])|, atoms, params);
    }
  }

  lemma {:induction false} EvalFlat(query: seq<Field>, n: nat, atoms: Atoms, params: seq<Value>)
    requires EmitsAll(query) && SingleAll(query) && BoundAt(params, n, WhereBound(query))
    ensures EvalAll(Flat(query, n), atoms, params) == Mean(query, atoms)
    decreases query, 1
  {
    if query != [] {
      var next := n + |FieldBound(query[0])|;
      BoundSplit(params, n, FieldBound(query[0]), WhereBound(query[1..]));
      EvalField(query[0], n, atoms, params);
      EvalFlat(query[1..], next, atoms, params);
      EvalJoined(FlatField(query[0], n), Flat(query[1..], next), atoms, params);
    }
  }

  // ----- main results on the clause -----

  /** SQL reads the emitted clause exactly if something was emitted for every condition. */
  lemma AcceptedIff(query: seq<Field>, n: nat)
    ensures ParseClause(WhereTokens(query), n).Some? <==> Emits(query)
    ensures Emits(query) ==> ParseClause(WhereTokens(query), n) == Some([Conj(Flat(query, n))])
  {
    hide ParseAll, ShowAll, CleanAll, NumberedAll, CountAll, Flat;
    var tree := [Conj(Flat(query, n))];
    FlatFacts(query, n);
    ShowFlat(query, n);
    assert tree[1..] == [] && ShowAny(tree) == WhereTokens(query);
    assert NumberedAny(tree, n);
    ParseAnyShow(tree, [], n);
    assert WhereTokens(query) + [] == WhereTokens(query);
  }

  /** The clause of a well-formed query means the query, under every truth of its comparisons,
      wherever its placeholders start among the bound values. */
  lemma ClauseMeansQuery(query: seq<Field>, before: seq<Value>, after: seq<Value>, atoms: Atoms)
    requires Emits(query) && SingleAll(query)
    ensures var clause := ParseClause(WhereTokens(query), |before|);
            clause.Some? && EvalAny(clause.value, atoms, before + WhereBound(query) + after) == Mean(query, atoms)
  {
    hide Flat, EvalAll, Mean, WhereTokens, WhereBound;
    var params := before + WhereBound(query) + after;
    AcceptedIff(query, |before|);
    assert params[|before|..|before| + |WhereBound(query)|] == WhereBound(query);
    EvalFlat(query, |before|, atoms, params);
    var tree := [Conj(Flat(query, |before|))];
    assert tree[1..] == [];
  }

  /** What is emitted for one field means what was asked. */
  ghost predicate ReadsRight(f: Field, n: nat, params: seq<Value>, atoms: Atoms) {
    EvalAll(FlatField(f, n), atoms, params) == MeanField(f, atoms)
  }

  /** A condition on one field by several operators is emitted as the first of them alone: it means
      what was asked, whatever the comparisons turn out to be, exactly if there is one operator. */
  lemma FirstOperatorOnly(key: bytes, fields: seq<Field>, n: nat, params: seq<Value>)
    requires FirstOp(fields, 0).Some? && BoundAt(params, n, FieldBound(Field(key, Obj(fields))))
    ensures (forall atoms :: ReadsRight(Field(key, Obj(fields)), n, params, atoms)) <==> OneOp(fields)
  {
    var f := Field(key, Obj(fields));
    FirstOpIs(fields, 0);
    if OneOp(fields) {
      forall atoms ensures ReadsRight(f, n, params, atoms) {
        EvalField(f, n, atoms, params);
      }
    } else {
      var atoms := DroppedOperator(key, fields, n, params);
      hide EvalAll, MeanField, FlatField;
      assert !ReadsRight(f, n, params, atoms);
    }
  }

  lemma DroppedOperator(key: bytes, fields: seq<Field>, n: nat, params: seq<Value>) returns (atoms: Atoms)
    requires FirstOp(fields, 0).Some? && BoundAt(params, n, FieldBound(Field(key, Obj(fields)))) && !OneOp(fields)
    ensures EvalAll(FlatField(Field(key, Obj(fields)), n), atoms, params) == True
    ensures MeanField(Field(key, Obj(fields)), atoms) == False
  {
    hide FirstOp, HasField, EvalAll, MeanOps, MeanField, FlatField, FieldBound, FieldValue;
    var k := FirstEmits(key, fields, n);
    var j := SecondOperator(fields, k);
    var kept := OPERATORS[k].1;
    atoms := (_, rel, _) => if rel == kept then True else False;
    DistinctRels(j, k);
    FalseOperator(key, fields, 0, j, atoms);
    EvalOne(Cmp(key, kept, n), atoms, params);
    MeanOfOps(key, fields, atoms);
  }

  lemma MeanOfOps(key: bytes, fields: seq<Field>, atoms: Atoms)
    requires fields != []
    ensures MeanField(Field(key, Obj(fields)), atoms) == MeanOps(key, fields, 0, atoms)
  {}

  lemma FirstEmits(key: bytes, fields: seq<Field>, n: nat) returns (k: nat)
    requires FirstOp(fields, 0).Some?
    ensures k < |OPERATORS| && HasField(fields, OPERATORS[k].0) && fields != []
    ensures FlatField(Field(key, Obj(fields)), n) == [Cmp(key, OPERATORS[k].1, n)]
    ensures |FieldBound(Field(key, Obj(fields)))| == 1
  {
    FirstOpIs(fields, 0);
    k := FirstOp(fields, 0).value;
  }

  lemma SecondOperator(fields: seq<Field>, k: nat) returns (j: nat)
    requires k < |OPERATORS| && HasField(fields, OPERATORS[k].0) && !OneOp(fields)
    ensures j < |OPERATORS| && j != k && HasField(fields, OPERATORS[j].0)
  {
    hide HasField;
    j :| 0 <= j < |OPERATORS| && j != k && HasField(fields, OPERATORS[j].0);
  }

  lemma EvalOne(p: Piece, atoms: Atoms, params: seq<Value>)
    ensures EvalAll([p], atoms, params) == EvalPiece(p, atoms, params)
  {
    assert [p][1..] == [];
  }

  lemma DistinctRels(j: nat, k: nat)
    requires j < |OPERATORS| && k < |OPERATORS| && j != k
    ensures OPERATORS[j].1 != OPERATORS[k].1
  {}

  lemma {:induction false} FalseOperator(key: bytes, fields: seq<Field>, k: nat, j: nat, atoms: Atoms)
    requires k <= j < |OPERATORS| && HasField(fields, OPERATORS[j].0)
    requires atoms(key, OPERATORS[j].1, FieldValue(fields, OPERATORS[j].0)) == False
    ensures MeanOps(key, fields, k, atoms) == False
    decreases |OPERATORS| - k
  {
    if k < j { FalseOperator(key, fields, k + 1, j, atoms); }
  }

  /** A condition for which nothing at all is emitted. */
  predicate Vanishes(f: Field)
    decreases f
  {
    match f.value
    case Arr(items) =>
      f.key != OR_KEY || items == []
      || (|items| == 1 && (!items[0].Obj? || items[0].fields == []
                           || (|items[0].fields| == 1 && Vanishes(items[0].fields[0]))))
    case Buf(_) => true
    case Obj(fields) => fields != [] && FirstOp(fields, 0).None?
    case _ => false
  }

  /** The statement loses its WHERE, and so touches every row, exactly if the query is empty or its
      only condition vanishes. */
  lemma {:induction false} NoClauseIff(query: seq<Field>)
    ensures WhereTokens(query) == [] <==> query == [] || (|query| == 1 && Vanishes(query[0]))
    decreases query
  {
    if |query| == 1 {
      var f := query[0];
      assert WhereTokens(query) == FieldTokens(f);
      if f.value.Arr? && f.key == OR_KEY && |f.value.items| == 1 && f.value.items[0].Obj? {
        var inner := f.value.items[0].fields;
        NoClauseIff(inner);
        assert FieldTokens(f) == WhereTokens(inner);
      } else if f.value.Obj? {
        FirstOpIs(f.value.fields, 0);
      }
    }
  }

  // ----- the UPDATE statement: placeholders of SET come before those of WHERE -----

  function SetTokens(update: seq<Field>): seq<Token>
    decreases |update|
  {
    if update == [] then []
    else Comparison(update[0].key, Eq) + (if |update| == 1 then [] else [Comma] + SetTokens(update[1..]))
  }

  function Operands(update: seq<Field>): (r: seq<Value>)
    ensures |r| == |update| && forall k :: 0 <= k < |r| ==> r[k] == update[k].value
  {
    seq(|update|, k requires 0 <= k < |update| => update[k].value)
  }

  function UpdateTokens(update: seq<Field>, where: seq<Field>): seq<Token> {
    var clause := WhereTokens(where);
    SetTokens(update) + (if clause == [] then [] else [WhereWord] + clause)
  }

  /** Assignments are separated by commas. */
  lemma SetText(f: Field, update: seq<Field>)
    ensures Sql(SetTokens([f])) == f.key + Ascii("=?")
    ensures update != [] ==>
              Sql(SetTokens([f] + update)) == f.key + Ascii("=?") + Ascii(",") + Sql(SetTokens(update))
  {
    var one := Comparison(f.key, Eq);
    assert ([f] + update)[1..] == update;
    SqlOfThree(Name(f.key), Is(Eq), Param);
    EqualText(f.key);
    SqlOfOne(Comma);
    hide Text, Ascii, Sql;
    assert SetTokens([f]) == one + [] == one;
    if update != [] {
      SqlAppend(one, [Comma] + SetTokens(update));
      SqlAppend([Comma], SetTokens(update));
    }
  }

  /** WHERE comes before a condition only. */
  lemma UpdateText(update: seq<Field>, where: seq<Field>)
    ensures Sql(UpdateTokens(update, where))
            == Sql(SetTokens(update))
               + if WhereTokens(where) == [] then [] else Ascii(" WHERE ") + Sql(WhereTokens(where))
  {
    SqlOfOne(WhereWord);
    var sets, clause := SetTokens(update), WhereTokens(where);
    hide Ascii, WhereTokens, SetTokens, Sql;
    if clause != [] {
      SqlAppend(sets, [WhereWord] + clause);
      SqlAppend([WhereWord], clause);
    } else {
      assert sets + [] == sets;
    }
  }

  /** Assignments of a column by a parameter. */
  function ParseSets(ts: seq<Token>, n: nat): Option<Parsed<seq<(bytes, nat)>>>
    decreases |ts|
  {
    if |ts| < 3 || !ts[0].Name? || ts[1] != Is(Eq) || !ts[2].Param? then None
    else if !StartsWith(ts[3..], Comma) then Some(Parsed([(ts[0].name, n)], ts[3..], n + 1))
    else
      match ParseSets(ts[4..], n + 1)
      case Some(more) => Some(Parsed([(ts[0].name, n)] + more.tree, more.rest, more.next))
      case None => None
  }

  datatype Update = Update(sets: seq<(bytes, nat)>, cond: Option<seq<Conj>>)

  function ParseUpdate(ts: seq<Token>): Option<Update> {
    match ParseSets(ts, 0)
    case None => None
    case Some(sets) =>
      if sets.rest == [] then Some(Update(sets.tree, None))
      else if sets.rest[0] != WhereWord then None
      else
        match ParseClause(sets.rest[1..], sets.next)
        case Some(cond) => Some(Update(sets.tree, Some(cond)))
        case None => None
  }

  function Columns(update: seq<Field>, n: nat): seq<(bytes, nat)> {
    seq(|update|, k requires 0 <= k < |update| => (update[k].key, n + k))
  }

  lemma ColumnsStep(update: seq<Field>, n: nat)
    requires update != []
    ensures Columns(update, n) == [(update[0].key, n)] + Columns(update[1..], n + 1)
    ensures |update| == 1 ==> Columns(update, n) == [(update[0].key, n)]
  {}

  lemma {:induction false} ParseSetsShow(update: seq<Field>, rest: seq<Token>, n: nat)
    requires rest == [] || rest[0] == WhereWord
    ensures ParseSets(SetTokens(update) + rest, n)
            == if update == [] then None else Some(Parsed(Columns(update, n), rest, n + |update|))
    decreases |update|
  {
    if update == [] {
      assert SetTokens(update) + rest == rest;
    } else {
      hide Columns, ParseSets, SetTokens;
      ColumnsStep(update, n);
      SetTokensStep(update, rest);
      if |update| > 1 {
        var more := SetTokens(update[1..]) + rest;
        ParseSetsStep(update[0].key, [Comma] + more, n);
        assert ([Comma] + more)[1..] == more;
        ParseSetsShow(update[1..], rest, n + 1);
      } else {
        ParseSetsStep(update[0].key, rest, n);
      }
    }
  }

  lemma SetTokensStep(update: seq<Field>, rest: seq<Token>)
    requires update != []
    ensures SetTokens(update) + rest == Comparison(update[0].key, Eq)
            + if |update| == 1 then rest else [Comma] + (SetTokens(update[1..]) + rest)
  {}

  lemma ParseSetsStep(key: bytes, tail: seq<Token>, n: nat)
    ensures ParseSets(Comparison(key, Eq) + tail, n) ==
            if !StartsWith(tail, Comma) then Some(Parsed([(key, n)], tail, n + 1))
            else
              match ParseSets(tail[1..], n + 1)
              case Some(more) => Some(Parsed([(key, n)] + more.tree, more.rest, more.next))
              case None => None
  {
    var ts := Comparison(key, Eq) + tail;
    assert ts[3..] == tail;
    assert tail != [] ==> ts[4..] == tail[1..];
  }

  /** An update is read by SQL exactly if it sets something and its condition, if any is emitted, is
      complete; then every column gets its own value and the condition means the query. */
  lemma UpdateIsRight(update: seq<Field>, where: seq<Field>, atoms: Atoms)
    ensures var stmt := ParseUpdate(UpdateTokens(update, where));
            && (stmt.Some? <==> update != [] && (WhereTokens(where) == [] || Emits(where)))
            && (stmt.Some? ==> stmt.value.sets == Columns(update, 0))
            && (stmt.Some? ==> (stmt.value.cond.None? <==> WhereTokens(where) == []))
            && (stmt.Some? && stmt.value.cond.Some? && SingleAll(where) ==>
                  EvalAny(stmt.value.cond.value, atoms, Operands(update) + WhereBound(where)) == Mean(where, atoms))
  {
    hide ParseSets, SetTokens, WhereTokens, EvalAny, Mean, SingleAll, Emits, WhereBound;
    var clause := WhereTokens(where);
    var rest := if clause == [] then [] else [WhereWord] + clause;
    ParseSetsShow(update, rest, 0);
    AcceptedIff(where, |update|);
    if clause != [] {
      assert rest[1..] == clause;
      if Emits(where) && SingleAll(where) {
        ClauseMeansQuery(where, Operands(update), [], atoms);
        assert Operands(update) + WhereBound(where) + [] == Operands(update) + WhereBound(where);
      }
    }
  }

  // ----- binding -----

  const ZERO_BLOB: bytes := [36, 122, 101, 114, 111, 66, 108, 111, 98]
  const BIND_NULL: bytes := [36, 98, 105, 110, 100, 78, 117, 108, 108]

  /** Objects and arrays without a buffer can only be bound for a virtual table. */
  predicate Bindable(v: Value, vtab: bool) {
    match v
    case Obj(fields) => HasField(fields, ZERO_BLOB) || HasField(fields, BIND_NULL) || vtab
    case Buf(data) => data != [] || vtab
    case Arr(_) => vtab
    case _ => true
  }

  /** For a table that is not virtual only objects that ask for a zero blob or for NULL can be bound,
      and of the arrays only non-empty buffers. */
  lemma BindableIs(v: Value)
    ensures Bindable(v, true)
    ensures Bindable(v, false) <==>
              && !v.Arr? && (v.Buf? ==> v.data != [])
              && (v.Obj? ==> HasField(v.fields, Ascii("$zeroBlob")) || HasField(v.fields, Ascii("$bindNull")))
  {
    assert Ascii("$zeroBlob") == ZERO_BLOB && Ascii("$bindNull") == BIND_NULL;
  }

  /** A parameter of a statement: nothing, the value it was bound from, or, for a 32-bit float, the
      double that eight bytes read from its four-byte buffer happen to be. */
  datatype Parameter = Unbound | Holds(v: Value) | Overread

  function Bind(v: Value): Parameter {
    if v.F32? then Overread else Holds(v)
  }

  /** The positions of the values that end up in the statement's parameters, from the first one on. */
  function Sources(bound: seq<Value>, vtab: bool): (ks: seq<nat>)
    ensures |ks| <= |bound| && forall i :: 0 <= i < |ks| ==> i <= ks[i] < |bound| && Bindable(bound[ks[i]], vtab)
    decreases |bound|
  {
    if bound == [] then []
    else
      var last := |bound| - 1;
      var ks := Sources(bound[..last], vtab);
      if Bindable(bound[last], vtab) then ks + [last] else ks
  }

  /** What the parameters are bound to. */
  function Parameters(bound: seq<Value>, vtab: bool): (ps: seq<Parameter>)
    ensures |ps| == |Sources(bound, vtab)|
    ensures forall i :: 0 <= i < |ps| ==> ps[i] == Bind(bound[Sources(bound, vtab)[i]])
  {
    var ks := Sources(bound, vtab);
    seq(|ks|, i requires 0 <= i < |ks| => Bind(bound[ks[i]]))
  }

  lemma ParametersStep(bound: seq<Value>, k: nat, vtab: bool)
    requires k < |bound|
    ensures Sources(bound[..k + 1], vtab)
            == Sources(bound[..k], vtab) + if Bindable(bound[k], vtab) then [k] else []
    ensures Parameters(bound[..k + 1], vtab)
            == Parameters(bound[..k], vtab) + if Bindable(bound[k], vtab) then [Bind(bound[k])] else []
  {
    assert bound[..k + 1][..k] == bound[..k];
  }

  /** The sources of the first values come first, and those of later values are later. */
  lemma {:induction false} SourcesPrefix(bound: seq<Value>, k: nat, vtab: bool)
    requires k <= |bound|
    ensures Sources(bound[..k], vtab) <= Sources(bound, vtab)
    ensures forall i :: |Sources(bound[..k], vtab)| <= i < |Sources(bound, vtab)| ==> k <= Sources(bound, vtab)[i]
    decreases |bound|
  {
    var last := |bound| - 1;
    if k < |bound| {
      assert bound[..last][..k] == bound[..k];
      SourcesPrefix(bound[..last], k, vtab);
    } else {
      assert bound[..k] == bound;
    }
  }

  lemma {:induction false} AllSources(bound: seq<Value>, vtab: bool)
    ensures |Sources(bound, vtab)| == |bound| <==> forall j :: 0 <= j < |bound| ==> Bindable(bound[j], vtab)
    ensures |Sources(bound, vtab)| == |bound| ==> forall i :: 0 <= i < |bound| ==> Sources(bound, vtab)[i] == i
    decreases |bound|
  {
    if bound != [] {
      AllSources(bound[..|bound| - 1], vtab);
    }
  }

  /** If every value can be bound, parameter k is bound from value k, and holds it unless that is a
      32-bit float. */
  lemma AllBound(bound: seq<Value>, vtab: bool)
    requires forall k :: 0 <= k < |bound| ==> Bindable(bound[k], vtab)
    ensures |Parameters(bound, vtab)| == |bound|
    ensures forall k :: 0 <= k < |bound| ==>
              Sources(bound, vtab)[k] == k && (Parameters(bound, vtab)[k] == Holds(bound[k]) <==> !bound[k].F32?)
  {
    AllSources(bound, vtab);
  }

  /** Parameter k is bound from value k and holds it exactly if neither that value nor an earlier one
      is unbindable and it is no 32-bit float. */
  lemma ParameterIff(bound: seq<Value>, k: nat, vtab: bool)
    requires k < |bound|
    ensures (k < |Sources(bound, vtab)| && Sources(bound, vtab)[k] == k
             && Parameters(bound, vtab)[k] == Holds(bound[k]))
            <==> (forall j :: 0 <= j <= k ==> Bindable(bound[j], vtab)) && !bound[k].F32?
  {
    AllSources(bound[..k], vtab);
    SourcesPrefix(bound, k, vtab);
    ParametersStep(bound, k, vtab);
    SourcesPrefix(bound, k + 1, vtab);
    assert forall j :: 0 <= j < k ==> bound[..k][j] == bound[j];
  }

  /** Every value that can be bound is held by its own parameter. */
  ghost predicate InPlace(bound: seq<Value>, vtab: bool) {
    forall k :: 0 <= k < |bound| && Bindable(bound[k], vtab) ==>
      k < |Parameters(bound, vtab)| && Parameters(bound, vtab)[k] == Holds(bound[k])
  }

  /** A value that cannot be bound takes no index: all later values then move to earlier placeholders.
      So every value is in its place exactly if nothing bindable comes after something unbindable, and
      nothing is a 32-bit float. */
  lemma InPlaceIff(bound: seq<Value>, vtab: bool)
    ensures InPlace(bound, vtab)
            <==> (forall j, k :: 0 <= j < k < |bound| && Bindable(bound[k], vtab) ==> Bindable(bound[j], vtab))
                 && forall k :: 0 <= k < |bound| ==> !bound[k].F32?
  {
    if j, k :| 0 <= j < k < |bound| && Bindable(bound[k], vtab) && !Bindable(bound[j], vtab) {
      var last := LastBindable(bound, k, vtab);
      TooFew(bound, j, last, vtab);
    } else {
      forall k | 0 <= k < |bound| && Bindable(bound[k], vtab)
        ensures k < |Parameters(bound, vtab)| && Parameters(bound, vtab)[k] == Bind(bound[k])
      {
        AllSources(bound[..k + 1], vtab);
        SourcesPrefix(bound, k + 1, vtab);
      }
    }
  }

  /** The last bindable value behind an unbindable one finds no parameter in its place. */
  lemma TooFew(bound: seq<Value>, j: nat, last: nat, vtab: bool)
    requires j < last < |bound| && !Bindable(bound[j], vtab) && Bindable(bound[last], vtab)
    requires forall i :: last < i < |bound| ==> !Bindable(bound[i], vtab)
    ensures |Parameters(bound, vtab)| <= last
  {
    AllSources(bound[..last], vtab);
    assert !Bindable(bound[..last][j], vtab);
    ParametersStep(bound, last, vtab);
    NothingBehind(bound, last + 1, vtab);
  }

  lemma {:induction false} NothingBehind(bound: seq<Value>, n: nat, vtab: bool)
    requires n <= |bound| && forall i :: n <= i < |bound| ==> !Bindable(bound[i], vtab)
    ensures Sources(bound, vtab) == Sources(bound[..n], vtab)
    decreases |bound|
  {
    if n < |bound| {
      assert bound[..|bound| - 1][..n] == bound[..n];
      NothingBehind(bound[..|bound| - 1], n, vtab);
    } else {
      assert bound[..n] == bound;
    }
  }

  /** The one value of this list can be bound, and its parameter does not hold it. */
  lemma Float32Example(f: uint32, vtab: bool)
    ensures Bindable(F32(f), vtab) && Parameters([F32(f)], vtab) == [Overread] && !InPlace([F32(f)], vtab)
  {
    assert [F32(f)][..0] == [];
    assert Parameters([F32(f)], vtab)[0] == Overread;
  }

  lemma {:induction false} LastBindable(bound: seq<Value>, k: nat, vtab: bool) returns (last: nat)
    requires k < |bound| && Bindable(bound[k], vtab)
    ensures k <= last < |bound| && Bindable(bound[last], vtab)
    ensures forall i :: last < i < |bound| ==> !Bindable(bound[i], vtab)
    decreases |bound| - k
  {
    if i :| k < i < |bound| && Bindable(bound[i], vtab) {
      last := LastBindable(bound, i, vtab);
    } else {
      last := k;
    }
  }

  // ----- the action object -----

  class Action {
    const vtab: bool
    var bound: seq<Value>

    constructor (vtab: bool)
      ensures this.vtab == vtab && bound == []
    {
      this.vtab, bound := vtab, [];
    }

    /** The conditions of a query, joined by AND; their values are bound in the same order. */
    method WherePart(query: seq<Field>) returns (res: seq<Token>)
      modifies this`bound
      ensures res == WhereTokens(query) && bound == old(bound) + WhereBound(query)
      decreases query, 1
    {
      res := [];
      var i := 0;
      while i < |query|
        invariant i <= |query| && res + WhereTokens(query[i..]) == WhereTokens(query)
        invariant bound + WhereBound(query[i..]) == old(bound) + WhereBound(query)
      {
        assert query[i..][1..] == query[i + 1..];
        var part := FieldPart(query[i]);
        res := res + part;
        i := i + 1;
        if i != |query| {
          res := res + [AndWord];
        }
      }
    }

    method FieldPart(f: Field) returns (res: seq<Token>)
      modifies this`bound
      ensures res == FieldTokens(f) && bound == old(bound) + FieldBound(f)
      decreases f, 0
    {
      res := [];
      if f.value.Arr? || f.value.Buf? {
        if f.value.Arr? && f.key == OR_KEY {
          var items := f.value.items;
          if |items| > 1 {
            var inner := OrPart(items);
            res := [LPar] + inner + [RPar];
          } else if |items| > 0 {
            OneItem(items);
            res := ItemPart(items[0]);
          }
        }
      } else if f.value.Obj? && f.value.fields != [] {
        FirstOpIs(f.value.fields, 0);
        var k := 0;
        while k < |OPERATORS|
          invariant k <= |OPERATORS| && bound == old(bound) && res == []
          invariant FirstOp(f.value.fields, 0) == FirstOp(f.value.fields, k)
        {
          if HasField(f.value.fields, OPERATORS[k].0) {
            res := Comparison(f.key, OPERATORS[k].1);
            bound := bound + [FieldValue(f.value.fields, OPERATORS[k].0)];
            break;
          }
          k := k + 1;
        }
      } else {
        res := Comparison(f.key, Eq);
        bound := bound + [f.value];
      }
    }

    method OrPart(items: seq<Value>) returns (res: seq<Token>)
      requires items != []
      modifies this`bound
      ensures res == OrTokens(items) && bound == old(bound) + OrBound(items)
      decreases items, 0
    {
      hide ItemTokens, ItemBound;
      res := [];
      var i := 0;
      while i < |items|
        invariant i <= |items|
        invariant res + (if i == |items| then [] else OrTokens(items[i..])) == OrTokens(items)
        invariant bound + OrBound(items[i..]) == old(bound) + OrBound(items)
      {
        assert items[i..][1..] == items[i + 1..];
        var part := ItemPart(items[i]);
        res := res + part;
        if i < |items| - 1 {
          res := res + [OrWord];
        }
        i := i + 1;
      }
    }

    method ItemPart(v: Value) returns (res: seq<Token>)
      modifies this`bound
      ensures res == ItemTokens(v) && bound == old(bound) + ItemBound(v)
      decreases v, 0
    {
      res := [];
      if v.Obj? {
        res := WherePart(v.fields);
      }
    }

    /** The assignments of an update; their values are bound first. */
    method UpdatePart(update: seq<Field>) returns (res: seq<Token>)
      modifies this`bound
      ensures res == SetTokens(update) && bound == old(bound) + Operands(update)
    {
      res := [];
      var i := 0;
      while i < |update|
        invariant i <= |update| && res + SetTokens(update[i..]) == SetTokens(update)
        invariant bound == old(bound) + Operands(update)[..i]
      {
        assert update[i..][1..] == update[i + 1..];
        bound := bound + [update[i].value];
        res := res + Comparison(update[i].key, Eq);
        i := i + 1;
        if i != |update| {
          res := res + [Comma];
        }
      }
    }

    method UpdateStatement(update: seq<Field>, where: seq<Field>) returns (res: seq<Token>)
      modifies this`bound
      ensures res == UpdateTokens(update, where)
      ensures bound == old(bound) + (Operands(update) + WhereBound(where))
    {
      res := UpdatePart(update);
      var clause := WherePart(where);
      if clause != [] {
        res := res + [WhereWord] + clause;
      }
    }

    /** Binds the collected values; a value that cannot be bound takes no parameter. */
    method BindToStatement(slots: array<Parameter>) returns (i: nat)
      requires slots.Length == |bound|
      modifies slots
      ensures i == |Parameters(bound, vtab)| <= slots.Length
      ensures slots[..i] == Parameters(bound, vtab)
      ensures slots[i..] == old(slots[..])[i..]
    {
      i := 0;
      assert bound[..0] == [];
      for n := 0 to |bound|
        invariant i == |Parameters(bound[..n], vtab)| <= n
        invariant slots[..i] == Parameters(bound[..n], vtab)
        invariant forall k :: i <= k < slots.Length ==> slots[k] == old(slots[k])
      {
        ParametersStep(bound, n, vtab);
        if Bindable(bound[n], vtab) {
          slots[i] := if bound[n].F32? then Overread else Holds(bound[n]);
          i := i + 1;
        }
      }
      assert bound[..|bound|] == bound;
    }
  }
}