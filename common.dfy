// Values shared by every part of the smolrx model: optional values, the
// outcome of an operation that may throw, Java objects as they travel
// between clients and the servlet, and role keys.

module Common {

  datatype Option<T> = None | Some(value: T)

  /** The failures the core raises.  Each variant stands for one throw site:
    * an RXException with a fixed message, an argument check, or a Java
    * runtime exception that escapes the operation. */
  datatype Error =
    | UnknownKey                          // role key absent, no wildcard
    | NoPendingJob(id: int)               // fetch of an id not in the catalog
    | IllSuited                           // role's job type differs from the job's
    | PrerequisitePending(id: int)        // a prerequisite still awaits results
    | BulkInputLimit(limit: int)          // bulk input request too large
    | BulkPushLimit(limit: int)           // bulk push carries too many jobs
    | NoScheduledJob(id: int)             // result for an id without metadata
    | RedundantResult                     // result for a retired job
    | NoPendingCollectJob(id: int)        // inspection of an unknown parent
    | CannotInspect(id: int)              // inspected job is not a prerequisite
    | IllegalArgument(msg: string)        // IllegalArgumentException
    | NullPointer                         // NullPointerException
    | ClassCast                           // ClassCastException
    | IndexOutOfBounds                    // IndexOutOfBoundsException
    | NegativeArraySize                   // NegativeArraySizeException
    | BadTag                              // AEADBadTagException (decryption failed)
    | BadPadding                          // BadPaddingException (key unwrap failed)
    | InvalidKey                          // the peer's public key bytes are not a key
    | Malformed                           // inflation or deserialisation failed
    | IOFailure(msg: string)              // IOException
    | Wrapped(msg: string)                // RXException(msg, cause) around a failure
    | Terminated(cause: string)           // RuntimeException on a Termination reply
    | TooWide(span: int, limit: int)      // client refuses an id span over the push limit

  datatype Result<T> = Ok(value: T) | Err(error: Error)

  const INT_MIN: int := -0x8000_0000
  const INT_MAX: int := 0x7fff_ffff
  const LONG_MIN: int := -0x8000_0000_0000_0000
  const LONG_MAX: int := 0x7fff_ffff_ffff_ffff

  /** Java's `int`. */
  type Int32 = x: int | INT_MIN <= x <= INT_MAX

  /** Java's `long`. */
  type Int64 = x: int | LONG_MIN <= x <= LONG_MAX

  /** Java `long` arithmetic: the two's-complement wrap of an exact result. */
  function WrapLong(x: int): (r: Int64)
    ensures LONG_MIN <= x <= LONG_MAX ==> r == x
    ensures (r - x) % 0x1_0000_0000_0000_0000 == 0
  {
    (x - LONG_MIN) % 0x1_0000_0000_0000_0000 + LONG_MIN
  }

  /** Java `int` arithmetic: the two's-complement wrap of an exact result. */
  function WrapInt(x: int): (r: Int32)
    ensures INT_MIN <= x <= INT_MAX ==> r == x
    ensures (r - x) % 0x1_0000_0000 == 0
  {
    (x - INT_MIN) % 0x1_0000_0000 + INT_MIN
  }

  /** A Java object as the core sees it: job inputs, executor results,
    * reducer arguments.  `Opaque` stands for any other serialisable value. */
  datatype Obj =
    | Null
    | IntObj(i: Int32)
    | BoolObj(b: bool)
    | ArrayObj(elems: seq<Obj>)
    | StrObj(s: string)
    | Opaque(tag: int)

  /** A role key as sent by a client; `None` is Java's null. */
  type Key = Option<string>

  /** `map.get(k)` on a map of objects: null when the key is absent. */
  function Lookup(m: map<int, Obj>, k: int): (r: Obj)
    ensures k in m ==> r == m[k]
    ensures k !in m ==> r == Null
  {
    if k in m then m[k] else Null
  }

  /** The first `n` elements of `xs`, or all of them when there are fewer. */
  function Take<T>(xs: seq<T>, n: int): (r: seq<T>)
    ensures |r| <= |xs| && (n >= 0 ==> |r| <= n)
    ensures r == xs[..|r|]
    ensures n >= |xs| ==> r == xs
    ensures 0 <= n <= |xs| ==> |r| == n
  {
    if n <= 0 then [] else if n < |xs| then xs[..n] else xs
  }

  /** The elements of a sequence are pairwise distinct. */
  predicate Distinct<T(==)>(xs: seq<T>) {
    forall i, j :: 0 <= i < j < |xs| ==> xs[i] != xs[j]
  }

  /** A non-empty set has an element.  (Stated as a lemma so that choosing
    * an element with `:|` has an explicit existential to rely on.) */
  lemma HasElement(s: set<int>)
    requires s != {}
    ensures exists x :: x in s
  {
    if forall x :: x !in s {
      assert false;
    }
  }

  /** Splitting the last element off a sequence without repetitions. */
  lemma DistinctLast(order: seq<int>)
    requires Distinct(order) && order != []
    ensures Distinct(order[..|order| - 1])
    ensures order[|order| - 1] !in order[..|order| - 1]
    ensures forall y :: y in order <==> y in order[..|order| - 1] || y == order[|order| - 1]
  {
    var front := order[..|order| - 1];
    forall y | y in order ensures y in front || y == order[|order| - 1] {
      var k :| 0 <= k < |order| && order[k] == y;
      if k < |front| { assert front[k] == y; }
    }
  }

  /** Multiplying by a non-negative factor keeps the order. */
  lemma MulMonotone(a: int, b: int, c: int)
    requires a >= 0 && b <= c
    ensures a * b <= a * c
  {
    assert a * c - a * b == a * (c - b);
  }

  /** Quotient and remainder are determined by any decomposition
    * `y == m * q + r` with `0 <= r < m`. */
  lemma ModUnique(y: int, m: int, q: int, r: int)
    requires m > 0 && 0 <= r < m && y == m * q + r
    ensures y / m == q && y % m == r
  {
    var q' := y / m;
    assert y == m * q' + y % m;
    assert m * (q - q') == y % m - r;
    if q > q' {
      MulMonotone(m, 1, q - q');
    } else if q < q' {
      MulMonotone(m, 1, q' - q);
    }
  }

  /** The front of a split sequence is its prefix of that length. */
  lemma PrefixOfSplit<T>(whole: seq<T>, front: seq<T>, back: seq<T>)
    requires whole == front + back
    ensures |front| <= |whole| && front == whole[..|front|]
  {
  }
}
