/** The operator registry: the six comparison symbols a COUNT_CHECK may name,
    and how each compares two database values. */
module Operators {
  import opened Wrappers
  import opened Values

  datatype Op = Eq | Ne | Gt | Ge | Lt | Le

  /** The configuration symbol of each operator. */
  function Symbol(op: Op): string {
    match op
    case Eq => "="
    case Ne => "!="
    case Gt => ">"
    case Ge => ">="
    case Lt => "<"
    case Le => "<="
  }

  const Symbols: set<string> := {"=", "!=", ">", ">=", "<", "<="}

  /** The registry lookup: exactly the six symbols resolve, each to the operator
      that carries it; any other string resolves to nothing. */
  function Resolve(symbol: string): (r: Option<Op>)
    ensures r.Some? <==> symbol in Symbols
    ensures r.Some? ==> Symbol(r.value) == symbol
  {
    if symbol == "=" then Some(Eq)
    else if symbol == "!=" then Some(Ne)
    else if symbol == ">" then Some(Gt)
    else if symbol == ">=" then Some(Ge)
    else if symbol == "<" then Some(Lt)
    else if symbol == "<=" then Some(Le)
    else None
  }

  /** Resolving an operator's own symbol gives the operator back. */
  lemma ResolveSymbol(op: Op)
    ensures Resolve(Symbol(op)) == Some(op)
  {
  }

  /** Whether `op` accepts a three-way comparison outcome. */
  function Holds(op: Op, c: Ordering): bool {
    match op
    case Eq => c == Equal
    case Ne => c != Equal
    case Gt => c == Greater
    case Ge => c != Less
    case Lt => c == Less
    case Le => c != Greater
  }

  /** The operator applied to two integers is the mathematical relation it names. */
  function Eval(op: Op, a: int, b: int): (r: bool)
    ensures op == Eq ==> (r <==> a == b)
    ensures op == Ne ==> (r <==> a != b)
    ensures op == Gt ==> (r <==> a > b)
    ensures op == Ge ==> (r <==> a >= b)
    ensures op == Lt ==> (r <==> a < b)
    ensures op == Le ==> (r <==> a <= b)
  {
    Holds(op, IntCmp(a, b))
  }

  predicate IsOrdering(op: Op) {
    op == Gt || op == Ge || op == Lt || op == Le
  }

  /** Python's `operator.eq`, `ne`, `gt`, `ge`, `lt`, `le` on two values.  `None`
      is the TypeError that an ordering comparison raises between values of
      different kinds, or between two `None`s; equality never raises. */
  function Compare(op: Op, a: Value, b: Value): (r: Option<bool>)
    ensures r.None? <==> IsOrdering(op) && !(a.Int? && b.Int?) && !(a.Str? && b.Str?)
    ensures op == Eq ==> r == Some(a == b)
    ensures op == Ne ==> r == Some(a != b)
    ensures a.Int? && b.Int? ==> r == Some(Eval(op, a.i, b.i))
  {
    match (a, b)
    case (Int(x), Int(y)) => Some(Eval(op, x, y))
    case (Str(x), Str(y)) =>
      StrCmpEqual(x, y);
      Some(Holds(op, StrCmp(x, y)))
    case _ =>
      if op == Eq then Some(a == b)
      else if op == Ne then Some(a != b)
      else None
  }

  /** Comparing in the other direction with the mirrored operator gives the
      same answer, for every pair of values. */
  lemma CompareMirror(op: Op, a: Value, b: Value)
    ensures Compare(op, a, b) == Compare(Mirror(op), b, a)
  {
    if a.Str? && b.Str? {
      StrCmpFlip(a.s, b.s);
    }
  }

  function Mirror(op: Op): Op {
    match op
    case Eq => Eq
    case Ne => Ne
    case Gt => Lt
    case Ge => Le
    case Lt => Gt
    case Le => Ge
  }

  /** Each operator is the negation of its complement whenever the comparison
      is defined: `!=` of `=`, `<=` of `>`, `<` of `>=`. */
  lemma CompareNegation(op: Op, a: Value, b: Value)
    requires Compare(op, a, b).Some?
    ensures Compare(Negation(op), a, b) == Some(!Compare(op, a, b).value)
  {
  }

  function Negation(op: Op): Op {
    match op
    case Eq => Ne
    case Ne => Eq
    case Gt => Le
    case Ge => Lt
    case Lt => Ge
    case Le => Gt
  }
}
