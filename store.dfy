/** The relational store behind the models, as an abstract Sequelize: attribute types,
    `where` trees with an SQL-like meaning, associations, and the `findAll`, `count`,
    `findOne` and `findByPk` queries over one table given as a sequence of rows. */
module Store {
  import opened Wrappers
  import opened Js
  import opened Records

  /** Sequelize `DataTypes` of the attributes the library declares. */
  datatype StoreType =
    | UUID | INTEGER | FLOAT | DECIMAL | DOUBLE | STRING | CHAR | TEXT | BOOLEAN | DATE | DATEONLY
    | ENUM(values: seq<string>)

  /** Sequelize `Op` symbols used by the filters and the loaders. */
  datatype Op = Eq | Ne | In | NotIn | Lt | Lte | Gt | Gte | Substring | StartsWith | EndsWith

  /** A condition on one column: `{ [Op.and]: [...] }` or `{ [op]: operand }`. */
  datatype Cond = CondAnd(conds: seq<Cond>) | Cmp(op: Op, operand: Value)

  /** A `where` tree: `{ [Op.and]: [...] }`, `{ column: value }` or `{ column: cond }`. */
  datatype Where = WhereAnd(parts: seq<Where>) | AttrEq(column: string, value: Value) | AttrCond(column: string, cond: Cond)

  type Row = Record<Value>

  /** The value a row holds in a column; an absent column reads as SQL NULL. */
  function Cell(row: Row, column: string): Value {
    Get(row, column).GetOr(Null)
  }

  predicate Present(v: Value) {
    !v.Null? && !v.Undefined?
  }

  predicate IsPrefix(p: string, s: string) {
    |p| <= |s| && s[..|p|] == p
  }

  predicate IsSuffix(p: string, s: string) {
    |p| <= |s| && s[|s| - |p|..] == p
  }

  predicate Contains(s: string, p: string)
    decreases |s|
  {
    IsPrefix(p, s) || (|s| > 0 && Contains(s[1..], p))
  }

  /** The truth of `column op operand` for one cell. Equality with `null` is `IS NULL`, and
      any other comparison with a NULL cell is not satisfied, as in SQL. */
  predicate OpHolds(op: Op, cell: Value, operand: Value) {
    match op
    case Eq => if Present(operand) then cell == operand else !Present(cell)
    case Ne => Present(cell) && (!Present(operand) || cell != operand)
    case In => operand.List? && Present(cell) && cell in operand.items
    case NotIn => operand.List? && Present(cell) && cell !in operand.items
    case Lt => cell.Num? && operand.Num? && cell.n < operand.n
    case Lte => cell.Num? && operand.Num? && cell.n <= operand.n
    case Gt => cell.Num? && operand.Num? && cell.n > operand.n
    case Gte => cell.Num? && operand.Num? && cell.n >= operand.n
    case Substring => cell.Str? && operand.Str? && Contains(cell.s, operand.s)
    case StartsWith => cell.Str? && operand.Str? && IsPrefix(operand.s, cell.s)
    case EndsWith => cell.Str? && operand.Str? && IsSuffix(operand.s, cell.s)
  }

  predicate CondHolds(cell: Value, c: Cond)
    decreases c
  {
    match c
    case CondAnd(cs) => forall i | 0 <= i < |cs| :: CondHolds(cell, cs[i])
    case Cmp(op, operand) => OpHolds(op, cell, operand)
  }

  predicate Satisfies(row: Row, w: Where)
    decreases w
  {
    match w
    case WhereAnd(parts) => forall i | 0 <= i < |parts| :: Satisfies(row, parts[i])
    case AttrEq(column, value) => OpHolds(Eq, Cell(row, column), value)
    case AttrCond(column, cond) => CondHolds(Cell(row, column), cond)
  }

  //////////////////////////////////////////////////////////////////////////
  // Associations

  datatype RelationKind = HasMany | HasOne | BelongsTo | BelongsToMany

  datatype OnDelete = Cascade | SetNull

  /** A Sequelize association object: its type, alias, the two models' names and primary
      key attributes, its foreign key attribute and its `onDelete`/`constraints` options. */
  datatype Relation = Relation(
    kind: RelationKind,
    alias: string,
    source: string,
    sourcePk: string,
    target: string,
    targetPk: string,
    foreignKey: string,
    onDelete: OnDelete,
    constraints: bool)

  /** An eager-loading entry: `{ association, ...options }`. */
  datatype Include = Include(association: Relation, options: Record<Value>)

  //////////////////////////////////////////////////////////////////////////
  // Queries

  datatype Direction = ASC | DESC

  type OrderItem = (string, Direction)

  datatype FindOptions = FindOptions(
    attributes: Option<seq<string>>,
    includes: Option<seq<Include>>,
    offset: Option<int>,
    limit: Option<int>,
    order: Option<seq<OrderItem>>,
    where: Where)

  datatype CountOptions = CountOptions(includes: Option<seq<Include>>, where: Where)

  /** The rows that satisfy `w`, in table order. */
  function Matching(rows: seq<Row>, w: Where): (m: seq<Row>)
    ensures |m| <= |rows|
    ensures forall r :: r in m <==> r in rows && Satisfies(r, w)
    decreases |rows|
  {
    if |rows| == 0 then []
    else
      var rest := Matching(rows[1..], w);
      assert forall r :: r in rows <==> r == rows[0] || r in rows[1..];
      if Satisfies(rows[0], w) then [rows[0]] + rest else rest
  }

  /** `OFFSET` then `LIMIT`; a non-positive offset skips nothing. */
  function Window(rows: seq<Row>, offset: Option<int>, limit: Option<int>): (w: seq<Row>)
    ensures offset.None? && limit.None? ==> w == rows
    ensures limit.Some? && limit.value >= 0 ==> |w| <= limit.value
  {
    var skip := if offset.Some? && offset.value > 0 then offset.value else 0;
    var dropped := if skip <= |rows| then rows[skip..] else [];
    if limit.Some? && 0 <= limit.value < |dropped| then dropped[..limit.value] else dropped
  }

  /** `findAll`: the window over the matching rows in table order. The store does not sort:
      `order`, `attributes` and `include` are carried in the options as data only. */
  function FindAll(table: seq<Row>, q: FindOptions): seq<Row> {
    Window(Matching(table, q.where), q.offset, q.limit)
  }

  function Count(table: seq<Row>, q: CountOptions): nat {
    |Matching(table, q.where)|
  }

  /** `findOne({ where })`: the first matching row, if any. */
  function FindOne(table: seq<Row>, w: Where): (r: Option<Row>)
    ensures r.Some? <==> exists i | 0 <= i < |table| :: Satisfies(table[i], w)
    ensures r.Some? ==> r.value in table && Satisfies(r.value, w)
  {
    var m := Matching(table, w);
    if |m| == 0 then
      assert forall i | 0 <= i < |table| :: table[i] in table;
      None
    else
      assert m[0] in m;
      Some(m[0])
  }

  /** `findByPk(id)`: `null` for a `null` or `undefined` id, otherwise the row whose
      primary key equals `id`. */
  function FindByPk(table: seq<Row>, pk: string, id: Value): (r: Option<Row>)
    ensures !Present(id) ==> r.None?
    ensures r.Some? ==> r.value in table && Cell(r.value, pk) == id
  {
    if !Present(id) then None else FindOne(table, AttrEq(pk, id))
  }

  /** `findAndCountAll`: the window of rows and the count of all matching rows. */
  function FindAndCountAll(table: seq<Row>, q: FindOptions): (seq<Row>, nat) {
    (FindAll(table, q), Count(table, CountOptions(q.includes, q.where)))
  }

  /** With no window, `findAll` returns exactly `count` rows. */
  lemma FindAllCount(table: seq<Row>, q: FindOptions)
    requires q.offset.None? && q.limit.None?
    ensures |FindAll(table, q)| == Count(table, CountOptions(q.includes, q.where))
  {
  }

  /** `count > 0` exactly when some row matches. */
  lemma CountPositive(table: seq<Row>, q: CountOptions)
    ensures Count(table, q) > 0 <==> exists i | 0 <= i < |table| :: Satisfies(table[i], q.where)
  {
    var m := Matching(table, q.where);
    if |m| > 0 {
      assert m[0] in m;
      var i :| 0 <= i < |table| && table[i] == m[0];
    } else {
      assert forall i | 0 <= i < |table| :: table[i] in table;
    }
  }

  /** An AND of nothing matches every row. */
  lemma EmptyAndMatchesAll(row: Row)
    ensures Satisfies(row, WhereAnd([]))
  {
  }

  /** An AND of one part is that part. */
  lemma AndOfOne(row: Row, a: Where)
    ensures Satisfies(row, WhereAnd([a])) <==> Satisfies(row, a)
  {
    assert [a][0] == a;
  }

  /** An AND holds exactly when each part holds. */
  lemma AndOfTwo(row: Row, a: Where, b: Where)
    ensures Satisfies(row, WhereAnd([a, b])) <==> Satisfies(row, a) && Satisfies(row, b)
  {
    assert [a, b][0] == a && [a, b][1] == b;
  }
}
