/** `FilterQuery`: turn a request's query parameters into a database
    filter. The parameters are decoded into a filter record (unknown names
    ignored) and the record is encoded back into parameters; the filter
    keeps, for each name the record gave back, the first value the request
    sent. Decoding and encoding belong to a reflection library and are
    parameters here: any function, any of whose calls may fail. */
module Filter {
  import opened Wrappers

  /** URL query values: each name with all its values, in order. */
  type Values = map<string, seq<string>>

  /** The filter: each kept name with one value. */
  type Query = map<string, string>

  /** What `FilterQuery` does: return a filter, return an error, or panic
      on an empty value list (`v[0]`). */
  datatype FilterOutcome = Filtered(query: Query) | Failed(error: string) | Panicked

  /** The names `src` and `dst` share whose value list in `src` is empty. */
  predicate HasEmptyShared(src: Values, dst: Values)
  {
    exists k :: k in src && k in dst && src[k] == []
  }

  /** The merge loop's result, stated as a whole: each name of `src` that
      `dst` has, with its first value in `src`. */
  function Merge(src: Values, dst: Values): (q: Query)
    requires !HasEmptyShared(src, dst)
    ensures forall k :: k in q <==> k in src && k in dst
    ensures forall k :: k in q ==> q[k] == src[k][0]
  {
    map k | k in src && k in dst :: src[k][0]
  }

  /** `FilterQuery[F]`: a decode error is returned and nothing is encoded;
      an encode error is returned; otherwise the merge, which panics if a
      shared name came with no value at all. */
  function FilterQuery<F>(src: Values, decode: Values -> Result<F, string>, encode: F -> Result<Values, string>): (r: FilterOutcome)
    ensures decode(src).Failure? ==> r == Failed(decode(src).error)
    ensures decode(src).Success? && encode(decode(src).value).Failure? ==> r == Failed(encode(decode(src).value).error)
    ensures r.Filtered? <==>
      decode(src).Success? && encode(decode(src).value).Success? && !HasEmptyShared(src, encode(decode(src).value).value)
    ensures r.Filtered? ==> var dst := encode(decode(src).value).value;
      && (forall k :: k in r.query <==> k in src && k in dst)
      && (forall k :: k in r.query ==> r.query[k] == src[k][0])
    ensures r.Panicked? <==>
      decode(src).Success? && encode(decode(src).value).Success? && HasEmptyShared(src, encode(decode(src).value).value)
  {
    match decode(src)
    case Failure(e) => Failed(e)
    case Success(filter) =>
      match encode(filter)
      case Failure(e) => Failed(e)
      case Success(dst) =>
        if HasEmptyShared(src, dst) then Panicked else Filtered(Merge(src, dst))
  }

  /** The merge as the handler runs it: one name of `src` at a time, keeping
      it when `dst` has it, and stopping with a panic at the first kept
      name with no values. Go visits the names in an unspecified order; the
      result is the same whichever order is taken. */
  method MergeLoop(src: Values, dst: Values) returns (q: Query, panicked: bool)
    ensures panicked <==> HasEmptyShared(src, dst)
    ensures !panicked ==> q == Merge(src, dst)
  {
    q := map[];
    panicked := false;
    var todo := src.Keys;
    while todo != {}
      invariant todo <= src.Keys
      invariant !panicked
      invariant forall k :: k in q <==> k in src && k in dst && k !in todo
      invariant forall k :: k in q ==> src[k] != [] && q[k] == src[k][0]
      invariant forall k :: k in src && k in dst && k !in todo ==> src[k] != []
      decreases todo
    {
      var k :| k in todo;
      todo := todo - {k};
      if k in dst {
        if src[k] == [] {
          panicked := true;
          return;
        }
        q := q[k := src[k][0]];
      }
    }
  }

  // ---------------------------------------------------------------------
  // Lemmas
  // ---------------------------------------------------------------------

  /** A failed decode decides the outcome: the encoder is never consulted. */
  lemma DecodeFailureSkipsEncode<F>(src: Values, decode: Values -> Result<F, string>, e1: F -> Result<Values, string>, e2: F -> Result<Values, string>)
    requires decode(src).Failure?
    ensures FilterQuery(src, decode, e1) == FilterQuery(src, decode, e2) == Failed(decode(src).error)
  {
  }

  /** Names the filter record does not know are dropped silently: a
      parameter whose name the encoder does not give back never reaches the
      filter and never causes an error. */
  lemma UnknownNamesDropped<F>(src: Values, decode: Values -> Result<F, string>, encode: F -> Result<Values, string>, name: string)
    requires decode(src).Success? && encode(decode(src).value).Success?
    requires name !in encode(decode(src).value).value
    ensures FilterQuery(src, decode, encode).Filtered? ==> name !in FilterQuery(src, decode, encode).query
    ensures FilterQuery(src, decode, encode).Failed? ==> false
  {
  }

  /** The filter keeps exactly the first value of every kept name, so two
      requests that agree on the first values of the kept names get the same
      filter. */
  lemma OnlyFirstValuesMatter(src: Values, src': Values, dst: Values)
    requires !HasEmptyShared(src, dst) && !HasEmptyShared(src', dst)
    requires forall k :: k in src <==> k in src'
    requires forall k :: k in src && k in dst ==> src[k][0] == src'[k][0]
    ensures Merge(src, dst) == Merge(src', dst)
  {
  }

  /** Request values that URL decoding produced always have at least one
      element, so the merge never panics on them. */
  lemma DecodedNeverPanics<F>(src: Values, decode: Values -> Result<F, string>, encode: F -> Result<Values, string>)
    requires forall k :: k in src ==> src[k] != []
    ensures !FilterQuery(src, decode, encode).Panicked?
  {
  }
}
