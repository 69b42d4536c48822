/**
 * `JSON.stringify` and `JSON.parse` for one shape of value, as a pair of
 * functions. The model does not look inside the text; what it relies on is
 * stated as a law, `Lawful`, that callers assume of the pair they are given.
 */
module Json {
  import opened Wrappers

  /** A serialiser into `W` and the parser that reads it back; `None` is the SyntaxError `JSON.parse` throws. */
  datatype Codec<!T(!new), !W> = Codec(encode: T -> W, decode: W -> Option<T>)
  {
    /** Parsing what was serialised gives back `x`. */
    ghost predicate RoundTrips(x: T) {
      decode(encode(x)) == Some(x)
    }

    /** Parsing what was serialised gives back the value, for every value. */
    ghost predicate Lawful() {
      forall x :: RoundTrips(x)
    }
  }
}
