/** Python value conventions shared by every module of the model:
    None-or-value, a raised exception as a result value, and the
    numeric conversions (`int()` on a float, `max`/`min`) the source uses. */
module PyBase {

  datatype Option<+T> = None | Some(value: T)

  /** The exception classes the modelled code can raise. */
  datatype PyError =
    | KeyError     // a missing dictionary key
    | IndexError   // a list index past the end
    | TypeError    // arithmetic on None, or calling a shadowed attribute
    | StructError  // struct.pack / struct.unpack refusing a value or a length
    | ValueError   // int() refusing a string, or time.sleep a negative length
    | ZeroDivisionError

  /** A call that either returns a value or raises. */
  datatype Result<+T> = Ok(value: T) | Raised(error: PyError)

  function Max(a: int, b: int): (m: int)
    ensures m >= a && m >= b && (m == a || m == b)
  {
    if a >= b then a else b
  }

  function Min(a: int, b: int): (m: int)
    ensures m <= a && m <= b && (m == a || m == b)
  {
    if a <= b then a else b
  }

  /** Python's `int(x)` on a float: truncation toward zero. */
  function Trunc(x: real): (r: int)
    ensures 0.0 <= x ==> r as real <= x < r as real + 1.0
    ensures x < 0.0 ==> r as real - 1.0 < x <= r as real
  {
    if x >= 0.0 then x.Floor else -((-x).Floor)
  }

  /** Overwriting one entry of a map adds at most the new value to its values. */
  lemma MapUpdateValues<K, V>(m: map<K, V>, k: K, v: V)
    ensures m[k := v].Values <= m.Values + {v}
  {
    forall o | o in m[k := v].Values ensures o in m.Values + {v} {
      var j :| j in m[k := v] && m[k := v][j] == o;
      if j != k {
        assert m[j] in m.Values;
      }
    }
  }

  lemma TruncOfInt(n: int)
    ensures Trunc(n as real) == n
  {
  }

  /** k copies of x, Python's `[x] * k`. */
  function Repeat<T>(x: T, k: nat): (xs: seq<T>)
    ensures |xs| == k && forall i | 0 <= i < k :: xs[i] == x
  {
    seq(k, _ => x)
  }

  lemma RepeatSnoc<T>(x: T, k: nat)
    ensures Repeat(x, k) + [x] == Repeat(x, k + 1)
  {
  }

  lemma ConcatAssoc<T>(a: seq<T>, b: seq<T>, c: seq<T>)
    ensures a + (b + c) == (a + b) + c
  {
  }
}
