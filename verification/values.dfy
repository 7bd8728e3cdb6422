/** The database values the checks compare: SQL NULL (Python `None`), integers
    and text.  Python 3 orders two strings lexicographically by code point; that
    order is defined here once and proved to be a total order. */
module Values {

  datatype Value = Null | Int(i: int) | Str(s: string)

  /** One fetched row, as the tuple of its column values. */
  type Row = seq<Value>

  datatype Ordering = Less | Equal | Greater {
    /** The ordering seen from the other side. */
    function Flip(): Ordering {
      match this
      case Less => Greater
      case Equal => Equal
      case Greater => Less
    }
  }

  function IntCmp(a: int, b: int): Ordering {
    if a < b then Less else if a == b then Equal else Greater
  }

  /** Python's `str` comparison: the first differing code point decides, and a
      proper prefix comes first. */
  function StrCmp(a: string, b: string): (c: Ordering)
    ensures a == b ==> c == Equal
    ensures |a| < |b| && a == b[..|a|] ==> c == Less
    decreases |a|
  {
    if a == [] && b == [] then Equal
    else if a == [] then Less
    else if b == [] then Greater
    else if a[0] < b[0] then Less
    else if a[0] > b[0] then Greater
    else StrCmp(a[1..], b[1..])
  }

  /** Two strings compare equal exactly when they are the same string. */
  lemma {:induction false} StrCmpEqual(a: string, b: string)
    ensures StrCmp(a, b) == Equal <==> a == b
    decreases |a|
  {
    if a != [] && b != [] && a[0] == b[0] {
      StrCmpEqual(a[1..], b[1..]);
      assert a == [a[0]] + a[1..] && b == [b[0]] + b[1..];
    }
  }

  /** Swapping the operands flips the outcome (antisymmetry and totality). */
  lemma {:induction false} StrCmpFlip(a: string, b: string)
    ensures StrCmp(b, a) == StrCmp(a, b).Flip()
    decreases |a|
  {
    if a != [] && b != [] && a[0] == b[0] {
      StrCmpFlip(a[1..], b[1..]);
    }
  }

  /** `Less` on strings is transitive. */
  lemma {:induction false} StrCmpTransitive(a: string, b: string, c: string)
    requires StrCmp(a, b) == Less && StrCmp(b, c) == Less
    ensures StrCmp(a, c) == Less
    decreases |a|
  {
    if a != [] && b != [] && c != [] && a[0] == b[0] && b[0] == c[0] {
      StrCmpTransitive(a[1..], b[1..], c[1..]);
    }
  }
}
