/** Small shared vocabulary: optional values, the outcome of a backend query,
    JavaScript truthiness of optional strings, and a first-index search. */
module Common {

  datatype Option<+T> = None | Some(value: T)

  /** What a backend call hands back to the data layer: rows (possibly none),
      a `null` data field, an error object, or a thrown exception. */
  datatype Fetch<+T> = Data(rows: seq<T>) | NoRows | QueryError | Thrown

  /** The rows of a query, with a `null` data field read as `[]` (`data || []`). */
  function RowsOr<T>(f: Fetch<T>): (r: seq<T>)
    ensures f.Data? ==> r == f.rows
    ensures !f.Data? ==> r == []
  {
    if f.Data? then f.rows else []
  }

  /** JavaScript truthiness of an optional string: present and non-empty. */
  predicate Truthy(s: Option<string>) {
    s.Some? && s.value != ""
  }

  /** JavaScript truthiness of an optional number: present and non-zero
      (NaN is not modelled). */
  predicate TruthyNumber(n: Option<int>) {
    n.Some? && n.value != 0
  }

  /** What a mutation endpoint hands back: the record, or
      `{ status: "FETCH_ERROR", ... }` after any failure. */
  datatype ApiResult<+T> = Ok(value: T) | FetchError

  /** `s || undefined` and `s || null`: a falsy string becomes absent. */
  function OrAbsent(s: Option<string>): (r: Option<string>)
    ensures r.Some? <==> Truthy(s)
    ensures r.Some? ==> r == s
  {
    if Truthy(s) then s else None
  }

  /** `s || fallback` for an optional string. */
  function OrElse(s: Option<string>, fallback: string): (r: string)
    ensures Truthy(s) ==> r == s.value
    ensures !Truthy(s) ==> r == fallback
  {
    if Truthy(s) then s.value else fallback
  }

  /** `Array.prototype.indexOf` / `String.prototype.indexOf` for one element:
      the first position holding x, or -1. */
  function IndexOf<T(==)>(s: seq<T>, x: T): (r: int)
    ensures -1 <= r < |s|
    ensures r == -1 <==> x !in s
    ensures 0 <= r ==> s[r] == x && x !in s[..r]
    ensures forall j :: 0 <= j < |s| && s[j] == x ==> 0 <= r <= j
    decreases |s|
  {
    if s == [] then -1
    else if s[0] == x then 0
    else
      var k := IndexOf(s[1..], x);
      if k < 0 then -1
      else
        assert s[..k + 1] == [s[0]] + s[1..][..k];
        k + 1
  }

  /** JavaScript's `<` on strings: code-point lexicographic order, a proper
      prefix coming first. */
  predicate LexLess(a: string, b: string)
    decreases |a|
  {
    if a == [] then b != []
    else b != [] && (a[0] < b[0] || (a[0] == b[0] && LexLess(a[1..], b[1..])))
  }

  /** LexLess is a strict total order. */
  lemma {:induction false} LexLessIrreflexive(a: string)
    ensures !LexLess(a, a)
    decreases |a|
  {
    if a != [] {
      LexLessIrreflexive(a[1..]);
    }
  }

  lemma {:induction false} LexLessTrichotomy(a: string, b: string)
    ensures LexLess(a, b) || a == b || LexLess(b, a)
    decreases |a|
  {
    if a != [] && b != [] && a[0] == b[0] {
      LexLessTrichotomy(a[1..], b[1..]);
      if a[1..] == b[1..] {
        assert a == [a[0]] + a[1..] && b == [b[0]] + b[1..];
      }
    }
  }

  lemma {:induction false} LexLessTransitive(a: string, b: string, c: string)
    requires LexLess(a, b) && LexLess(b, c)
    ensures LexLess(a, c)
    decreases |a|
  {
    if a != [] && a[0] == b[0] && b[0] == c[0] {
      LexLessTransitive(a[1..], b[1..], c[1..]);
    }
  }
}
