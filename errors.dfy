/** The error values of the service: the five sentinels of the player package,
    the foreign sentinels the code tests for, and the two ways Go builds an error
    out of others (wrapping with `%w` and `errors.Join`). */
module Errors {

  import opened Base

  /** The five sentinel errors of the player package. */
  datatype Kind = NotFound | Conflict | IDMismatch | VersionMismatch | EmptyRequest

  const AllKinds: seq<Kind> := [NotFound, Conflict, IDMismatch, VersionMismatch, EmptyRequest]

  /** The text each sentinel was created with. */
  function Message(k: Kind): string
  {
    match k
    case NotFound => "player not found"
    case Conflict => "player with such email already exists"
    case IDMismatch => "id mismatch"
    case VersionMismatch => "version mismatch"
    case EmptyRequest => "request is empty"
  }

  datatype Error =
    | Sentinel(kind: Kind)                   // one of the player package's sentinels
    | NoDocuments                            // the driver's "no documents in result"
    | DuplicateKey                           // a driver write error with a duplicate-key code
    | Canceled                               // the context package's cancellation error
    | ServerClosed                           // the HTTP server's "closed" error
    | Other(msg: string)                     // any other failure
    | Wrapped(context: string, cause: Error) // "<context>: <cause>", unwrapping to cause
    | Joined(errs: seq<Error>)               // several errors joined into one

  datatype Result<+T> = Ok(value: T) | Err(error: Error)

  /** `errors.Is(e, target)` for a target that is a comparable leaf value:
      `e` is the target, or unwraps (through wrapping or joining) to it. */
  predicate Is(e: Error, target: Error)
    decreases e
  {
    e == target ||
    match e
    case Wrapped(_, cause) => Is(cause, target)
    case Joined(errs) => exists i :: 0 <= i < |errs| && Is(errs[i], target)
    case _ => false
  }

  /** `errors.Is(e, ErrX)` for one of the five sentinels. */
  predicate IsKind(e: Error, k: Kind)
  {
    Is(e, Sentinel(k))
  }

  /** An error that holds none of the player package's sentinels: what a driver,
      a network or a context can produce. */
  predicate Foreign(e: Error)
    decreases e
  {
    match e
    case Sentinel(_) => false
    case Wrapped(_, cause) => Foreign(cause)
    case Joined(errs) => forall i :: 0 <= i < |errs| ==> Foreign(errs[i])
    case _ => true
  }

  /** A failure the environment (driver, network, context) injects into one call. */
  type Fault = e: Error | Foreign(e) witness Other("")

  /** A target `errors.Is` compares against: neither wrapped nor joined. */
  predicate Leaf(t: Error)
  {
    !t.Wrapped? && !t.Joined?
  }

  /** `errors.Join(errs...)` over errors that are all non-nil: nil for none, a
      joined error otherwise. */
  function Join(errs: seq<Error>): (r: Option<Error>)
    ensures r.None? <==> errs == []
    ensures forall t :: r.Some? && Leaf(t) ==> (Is(r.value, t) <==> exists i :: 0 <= i < |errs| && Is(errs[i], t))
  {
    if errs == [] then None else Some(Joined(errs))
  }

  /** The five kinds are pairwise distinct, are all the kinds there are, and carry
      pairwise distinct messages. */
  lemma KindsDistinct()
    ensures |AllKinds| == 5
    ensures forall i, j :: 0 <= i < j < |AllKinds| ==> AllKinds[i] != AllKinds[j]
    ensures forall i, j :: 0 <= i < j < |AllKinds| ==> Message(AllKinds[i]) != Message(AllKinds[j])
    ensures forall k: Kind :: k in AllKinds
  {
    forall k: Kind
      ensures k in AllKinds
    {
      match k
      case NotFound => assert AllKinds[0] == k;
      case Conflict => assert AllKinds[1] == k;
      case IDMismatch => assert AllKinds[2] == k;
      case VersionMismatch => assert AllKinds[3] == k;
      case EmptyRequest => assert AllKinds[4] == k;
    }
  }

  /** Wrapping with context keeps every kind the cause has, and adds none. */
  lemma WrapKeepsKind(context: string, e: Error, k: Kind)
    ensures IsKind(Wrapped(context, e), k) <==> IsKind(e, k)
  {
  }

  /** A foreign error is never classified as one of the five kinds, however it
      is wrapped or joined. */
  lemma {:induction false} ForeignHasNoKind(e: Error, k: Kind)
    requires Foreign(e)
    ensures !IsKind(e, k)
    decreases e
  {
    match e
    case Wrapped(_, cause) =>
      ForeignHasNoKind(cause, k);
    case Joined(errs) =>
      forall i | 0 <= i < |errs|
        ensures !Is(errs[i], Sentinel(k))
      {
        ForeignHasNoKind(errs[i], k);
      }
    case _ =>
  }
}
