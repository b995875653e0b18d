/**
 * Shared vocabulary of the backtester model: calendar days, ticker
 * symbols, optional and fallible values, and the lexicographic order on
 * ticker names that breaks ties between bars of the same day.
 */
module Common {

  /** A trading day, counted in whole days (the source's daily `DatetimeIndex`). */
  type Date = int

  /** A ticker symbol such as "AAPL". */
  type Ticker = string

  /** A value that may be missing; for table cells `None` stands for NaN. */
  datatype Option<T> = None | Some(value: T)

  /** The outcome of an operation the source can abort with an exception. */
  datatype Result<T, E> = Ok(value: T) | Err(error: E)

  /**
   * Python's `<=` on strings: code point by code point, a proper prefix
   * sorting first.
   */
  predicate LexLe(a: string, b: string)
    decreases |a|
  {
    |a| == 0 || (|b| > 0 && (a[0] < b[0] || (a[0] == b[0] && LexLe(a[1..], b[1..]))))
  }

  lemma LexLeTotal(a: string, b: string)
    ensures LexLe(a, b) || LexLe(b, a)
    decreases |a|
  {
    if |a| > 0 && |b| > 0 && a[0] == b[0] {
      LexLeTotal(a[1..], b[1..]);
    }
  }

  lemma LexLeAntisymmetric(a: string, b: string)
    requires LexLe(a, b) && LexLe(b, a)
    ensures a == b
    decreases |a|
  {
    if |a| > 0 {
      LexLeAntisymmetric(a[1..], b[1..]);
      assert a == [a[0]] + a[1..];
      assert b == [b[0]] + b[1..];
    }
  }

  lemma LexLeTransitive(a: string, b: string, c: string)
    requires LexLe(a, b) && LexLe(b, c)
    ensures LexLe(a, c)
    decreases |a|
  {
    if |a| > 0 && a[0] == b[0] && b[0] == c[0] {
      LexLeTransitive(a[1..], b[1..], c[1..]);
    }
  }
}
