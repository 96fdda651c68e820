/** The argument checks at the top of `doNd` in doNd.py (lines 395-409). Each failed check
    ends the program through `sys.exit` with a message; `len` and `shape[1]` can raise before
    any check does. The `is not` comparisons of lengths are modelled as `!=`. */
module DoNd {
  import opened Wrappers
  import opened Text

  /** The `spaces` argument: a Python sequence of the given length, or a numpy array of the
      given shape. `typeName` stands for `str(type(spaces))`. */
  datatype SpacesArg = Sequence(typeName: string, length: nat) | NdArray(shape: seq<nat>)

  datatype ValidationError =
    | CountMismatch(nParams: nat, nSpaces: nat)      // sys.exit, line 397
    | NotAnArray(typeName: string)                  // sys.exit, line 401
    | DimensionMismatch(nParams: nat, dim: nat)     // sys.exit, line 404
    | SettleMismatch(nParams: nat, nSettle: nat)    // sys.exit, line 408
    | Unsized                                       // `len` of a zero-dimensional array: TypeError
    | NoSecondAxis                                  // `shape[1]` of an array with fewer axes: IndexError

  /** `len(spaces)`, which a zero-dimensional array does not have. */
  function Len(spaces: SpacesArg): Option<nat> {
    match spaces
    case Sequence(_, n) => Some(n)
    case NdArray(shape) => if |shape| == 0 then None else Some(shape[0])
  }

  /** What `doNd` accepts: as many spaces as set parameters, or with manual setpoints an array
      of one column per set parameter; and one settle time per set parameter. */
  predicate Accepted(nParams: nat, spaces: SpacesArg, nSettle: nat, manual: bool) {
    (!manual ==> Len(spaces) == Some(nParams)) &&
    (manual ==> spaces.NdArray? && |spaces.shape| >= 2 && spaces.shape[1] == nParams) &&
    nSettle == nParams
  }

  /** The checks in order: the spaces first, then the settle times. */
  function Validate(nParams: nat, spaces: SpacesArg, nSettle: nat, manual: bool): (r: Option<ValidationError>)
    ensures r.None? <==> Accepted(nParams, spaces, nSettle, manual)
    ensures r.Some? && r.value.SettleMismatch? ==> r.value == SettleMismatch(nParams, nSettle)
  {
    var spacesError :=
      if !manual then
        match Len(spaces)
        case None => Some(Unsized)
        case Some(n) => if nParams != n then Some(CountMismatch(nParams, n)) else None
      else if !spaces.NdArray? then Some(NotAnArray(spaces.typeName))
      else if |spaces.shape| < 2 then Some(NoSecondAxis)
      else if nParams != spaces.shape[1] then Some(DimensionMismatch(nParams, spaces.shape[1]))
      else None;
    if spacesError.Some? then spacesError
    else if nParams != nSettle then Some(SettleMismatch(nParams, nSettle))
    else None
  }

  /** A wrong number of settle times is reported only when the spaces pass, and then always. */
  lemma SettleReportedLast(nParams: nat, spaces: SpacesArg, nSettle: nat, manual: bool)
    ensures (Validate(nParams, spaces, nSettle, manual) == Some(SettleMismatch(nParams, nSettle))) <==>
      Accepted(nParams, spaces, nParams, manual) && nSettle != nParams
  {
  }

  /** In the default mode a wrong number of spaces is reported whatever the settle times are,
      and in manual mode so is a non-array. */
  lemma SpacesReportedFirst(nParams: nat, spaces: SpacesArg, nSettle: nat, manual: bool)
    ensures !manual && Len(spaces).Some? && Len(spaces).value != nParams ==>
      Validate(nParams, spaces, nSettle, manual) == Some(CountMismatch(nParams, Len(spaces).value))
    ensures manual && spaces.Sequence? ==> Validate(nParams, spaces, nSettle, manual) == Some(NotAnArray(spaces.typeName))
  {
  }

  function Exit(body: string): string {
    "Error: " + body
  }

  /** The text `sys.exit` prints; the two exceptions are not exits and print no such text. */
  function Message(e: ValidationError): (m: Option<string>)
    ensures m.Some? <==> !e.Unsized? && !e.NoSecondAxis?
    ensures m.Some? ==> |m.value| >= 7 && m.value[..7] == "Error: "
  {
    match e
    case CountMismatch(p, s) =>
      Some(Exit("number of param_set is " + NatToString(p) + ", while number of spaces is " + NatToString(s) + "."))
    case NotAnArray(t) =>
      Some(Exit("spaces is of type " + t + " not a numpy error as required when manualsetpoints=True."))
    case DimensionMismatch(p, d) =>
      Some(Exit("number of param_set is " + NatToString(p) + ", while dimension of spaces array is " + NatToString(d) + "."))
    case SettleMismatch(p, s) =>
      Some(Exit("number of param_set is " + NatToString(p) + ", while number of settle_times is " + NatToString(s) + "."))
    case Unsized => None
    case NoSecondAxis => None
  }
}
