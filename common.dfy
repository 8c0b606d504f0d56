/** Small shared vocabulary: optional values, results with an error, and the
    parts of PHP's truthiness rules the listeners depend on. */
module Common {

  datatype Option<+T> = None | Some(value: T)

  /** A computation that either yields a value or fails with an error; it stands
      for a PHP method that returns normally or throws. */
  datatype Result<+R, +E> = Ok(value: R) | Err(error: E)

  /** PHP truthiness of a string: the empty string and "0" are falsy, every
      other string is truthy. Used for `empty($x)`, `$x ?: $y` and `if ($x)`. */
  predicate Truthy(s: string)
    ensures Truthy(s) ==> |s| >= 1
    ensures |s| >= 2 ==> Truthy(s)
  {
    s != "" && s != "0"
  }
}
