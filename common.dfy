/** Shared vocabulary: optional values, the API error the server raises,
    JavaScript truthiness of optional strings, and filtering of sequences. */
module Common {

  datatype Option<+T> = None | Some(value: T)

  /** An HTTP-level error: the status code and the JSON `message`. */
  datatype ApiError = ApiError(status: int, message: string)

  /** Either a value or an API error (the handler's early `return` paths). */
  datatype Result<+T> = Ok(value: T) | Err(error: ApiError)

  /** The outcome of an Express middleware: `next()` or `next(error)`. */
  datatype Outcome = Pass | Fail(error: ApiError)

  /** Opaque renderers for what the server formats with the JavaScript runtime:
      `toLocaleDateString`, `toLocaleString`, `toISOString` of a millisecond
      timestamp, and `(num / den * 100).toFixed(0)`. */
  datatype Formats = Formats(
    localeDate: int -> string,
    localeDateTime: int -> string,
    iso: int -> string,
    percent: (int, int) -> string)

  /** A string-valued field is truthy in JavaScript iff it is present and non-empty. */
  predicate Truthy(s: Option<string>) {
    s.Some? && s.value != ""
  }

  /** `s || fallback` for an optional string. */
  function OrElse(s: Option<string>, fallback: string): (r: string)
    ensures Truthy(s) ==> r == s.value
    ensures !Truthy(s) ==> r == fallback
    ensures fallback != "" ==> r != ""
  {
    if s.Some? && s.value != "" then s.value else fallback
  }

  /** `Array.prototype.filter`: keeps the elements satisfying `p`, in order. */
  function Filter<T(!new)>(s: seq<T>, p: T -> bool): (r: seq<T>)
    ensures |r| <= |s|
    ensures forall x :: x in r <==> x in s && p(x)
    ensures (forall x :: x in s ==> p(x)) ==> r == s
  {
    if s == [] then []
    else Filter(s[..|s| - 1], p) + (if p(s[|s| - 1]) then [s[|s| - 1]] else [])
  }

  /** Filtering distributes over concatenation, so it keeps the input's order. */
  lemma {:induction false} FilterAppend<T(!new)>(a: seq<T>, b: seq<T>, p: T -> bool)
    ensures Filter(a + b, p) == Filter(a, p) + Filter(b, p)
    decreases |b|
  {
    if b == [] {
      assert a + b == a;
    } else {
      var b', x := b[..|b| - 1], b[|b| - 1];
      var last := if p(x) then [x] else [];
      assert (a + b)[..|a + b| - 1] == a + b';
      assert (a + b)[|a + b| - 1] == x;
      assert Filter(a + b, p) == Filter(a + b', p) + last;
      FilterAppend(a, b', p);
      assert Filter(a, p) + Filter(b', p) + last == Filter(a, p) + (Filter(b', p) + last);
    }
  }

  /** `filter(p).length`. */
  function Count<T(!new)>(s: seq<T>, p: T -> bool): (n: nat)
    ensures n <= |s|
    ensures n > 0 <==> exists x :: x in s && p(x)
  {
    var r := Filter(s, p);
    assert r != [] ==> r[0] in r;
    |r|
  }
}
