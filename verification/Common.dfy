/** Value types shared by every component of the service model. */
module Common {

  datatype Option<+T> = None | Some(value: T)

  /** The error codes of `ErrorCode` that the modelled code raises or inspects. */
  datatype ErrorCode =
    | InvalidArgument | NotFound | AlreadyExists | ModelInUse | QueueFull | Cancelled
    | ContextOverflow | ResourceLimit | RuntimeUnavailable | RuntimeFailure
    | ConsumerFailure | ShuttingDown | ProtocolError | IntegrityFailure | StorageFailure
    | Foreign // any exception that is not the service's own Error

  /** A value, or the exception the source throws instead. */
  datatype Result<+T> = Ok(value: T) | Err(code: ErrorCode)

  /** The longest time a model may be kept alive on request: seven days, in milliseconds. */
  const MAX_KEEP_ALIVE: int := 7 * 86400000

  function Min(a: int, b: int): int { if a < b then a else b }

  /** How far two sequences agree, up to a limit. */
  function CommonPrefix<T(==)>(a: seq<T>, b: seq<T>, limit: nat): (n: nat)
    requires limit <= |a| && limit <= |b|
    ensures n <= limit && a[..n] == b[..n] && (n < limit ==> a[n] != b[n])
  {
    if limit == 0 || a[0] != b[0] then 0
    else
      var n := 1 + CommonPrefix(a[1..], b[1..], limit - 1);
      assert a[..n] == [a[0]] + a[1..][..n - 1] && b[..n] == [b[0]] + b[1..][..n - 1];
      n
  }

  lemma CommonPrefixIsUnique<T>(a: seq<T>, b: seq<T>, limit: nat, n: nat)
    requires n <= limit <= |a| && limit <= |b| && a[..n] == b[..n] && (n < limit ==> a[n] != b[n])
    ensures n == CommonPrefix(a, b, limit)
  {
    var m := CommonPrefix(a, b, limit);
    AgreeBelow(a, b, m);
    AgreeBelow(a, b, n);
  }

  lemma AgreeBelow<T>(a: seq<T>, b: seq<T>, n: nat)
    requires n <= |a| && n <= |b| && a[..n] == b[..n]
    ensures forall i :: 0 <= i < n ==> a[i] == b[i]
  {
    forall i | 0 <= i < n ensures a[i] == b[i] {
      assert a[..n][i] == b[..n][i];
    }
  }

  /** A smaller limit only cuts the common prefix short. */
  lemma {:induction false} CommonPrefixWithin<T>(a: seq<T>, b: seq<T>, limit: nat, less: nat)
    requires less <= limit <= |a| && limit <= |b|
    ensures CommonPrefix(a, b, less) == Min(CommonPrefix(a, b, limit), less)
  {
    if less > 0 && a[0] == b[0] {
      CommonPrefixWithin(a[1..], b[1..], limit - 1, less - 1);
    }
  }
}
