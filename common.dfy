/** Vocabulary shared by the three controllers: identifiers, bytes, nullable
    values, the action results an endpoint can return, and the LINQ
    first-match query the controllers use to look things up. */
module Common {

  /** 2^128: a Guid is modelled as the 128-bit number its canonical text shows. */
  const GuidBound: nat := 0x1_0000_0000_0000_0000_0000_0000_0000_0000

  type Guid = g: nat | g < GuidBound

  newtype byte = b: int | 0 <= b < 256

  type Bytes = seq<byte>

  /** A C# reference or `Nullable<T>` value: null or present. */
  datatype Nullable<+T> = Null | Some(value: T)

  /** `string.IsNullOrEmpty`. */
  predicate IsNullOrEmpty(s: Nullable<string>) {
    s.Null? || s.value == ""
  }

  /** The `??` operator. */
  function Coalesce<T>(x: Nullable<T>, fallback: T): (r: T)
    ensures x.Some? ==> r == x.value
    ensures x.Null? ==> r == fallback
  {
    match x
    case Some(v) => v
    case Null => fallback
  }

  /** What an ASP.NET action returns, by status code. `message` holds the
      body of `BadRequest("...")` / `NotFound(new { message = ... })`, and is
      Null for the bare `BadRequest()` / `NotFound()`. */
  datatype ActionResult<+T> =
    | Ok(value: T)                          // 200
    | CreatedAt(value: T)                   // 201, CreatedAtAction
    | NoContent                             // 204
    | BadRequest(message: Nullable<string>) // 400
    | NotFound(message: Nullable<string>)   // 404
    | Conflict                              // 409
    | InternalServerError                   // 500: an exception escaped the action

  /** `i` is the position of the first element of `s` that satisfies `p`. */
  ghost predicate IsFirst<T>(s: seq<T>, p: T -> bool, i: int) {
    0 <= i < |s| && p(s[i]) && forall k :: 0 <= k < i ==> !p(s[k])
  }

  lemma FirstIsUnique<T>(s: seq<T>, p: T -> bool, i: int, j: int)
    requires IsFirst(s, p, i) && IsFirst(s, p, j)
    ensures i == j
  {
  }

  /** The position of the first element satisfying `p`, or Null if none does. */
  function FirstIndex<T>(s: seq<T>, p: T -> bool): (r: Nullable<nat>)
    ensures r.Some? ==> IsFirst(s, p, r.value)
    ensures r.Null? <==> forall k :: 0 <= k < |s| ==> !p(s[k])
  {
    if |s| == 0 then Null
    else if p(s[0]) then Some(0)
    else
      match FirstIndex(s[1..], p)
      case Null => Null
      case Some(i) => Some(i + 1)
  }

  /** LINQ `FirstOrDefault(p)` on a sequence of reference-typed elements. */
  function FirstOrDefault<T>(s: seq<T>, p: T -> bool): (r: Nullable<T>)
    ensures r.Null? <==> forall k :: 0 <= k < |s| ==> !p(s[k])
    ensures r.Some? ==> exists i :: IsFirst(s, p, i) && r.value == s[i]
    ensures forall i :: IsFirst(s, p, i) ==> r == Some(s[i])
  {
    match FirstIndex(s, p)
    case Null => Null
    case Some(i) =>
      assert forall j :: IsFirst(s, p, j) ==> j == i by {
        forall j | IsFirst(s, p, j) ensures j == i { FirstIsUnique(s, p, i, j); }
      }
      Some(s[i])
  }

  /** `FirstOrDefault` looks at the head first and otherwise searches the tail. */
  lemma FirstOrDefaultCons<T>(s: seq<T>, p: T -> bool)
    requires |s| > 0
    ensures FirstOrDefault(s, p) == if p(s[0]) then Some(s[0]) else FirstOrDefault(s[1..], p)
  {
  }
}
