/**
 * Shared vocabulary of the school back end: identifiers, the error
 * branches the handlers return, and Option/Result wrappers.
 */
module Common {

  /** Object ids and string keys are both plain strings in the model. */
  type Id = string

  datatype Option<T> = None | Some(value: T)

  /**
   * The error branches of the handlers. Each constructor stands for one
   * `return` of an error in the source; the message text is not modelled,
   * only which branch was taken.
   */
  datatype Error =
    | RequireParameter(name: string)        // "require parameter <name>"
    | ValueInvalid(name: string)            // "<name> value is invalid"
    | NotFound(what: string)                // a repository lookup found nothing
    | AlreadyExists(what: string)           // "... does already exists"
    | NotRegistered(what: string)           // "... does not already exists"
    | StatusInvalid(wanted: string)        // the course is not in the status the handler needs
    | EventInvalid
    | TypeInvalid
    | SchoolDataInvalid
    | TermNotFinished                       // "school year and term does not finish"
    | CategoryAdded                         // "category has been addded"
    | InstructorNotInSubject
    | ClassFinished                         // "class did finish"
    | ClassSlotUsed                         // "date time is used in this class"
    | TeacherSlotUsed                       // "date time is used in this teacher time lot"
    | LocationSlotUsed                      // "date time is used in this location"
    | TimeInvalid(time: string)             // "time <t> is in valid"
    | DayInvalid(day: string)               // "day <d> is in valid"
    | FieldNil(name: string)                // "<name> is nil"
    | CoursesNotFinished                    // "have course does not finish"
    | DayNotInCourse
    | StudentNotInCourse
    | DateNotInProgress
    | CategoryNotMatch
    | ClassHasAdvisor
    | TeacherHasClass
    | ProfileIdAlreadyExists

  datatype Result<T> = Ok(value: T) | Err(error: Error)
  {
    predicate IsFailure() { Err? }

    function PropagateFailure<U>(): Result<U>
      requires Err?
    {
      Err(error)
    }

    function Extract(): T
      requires Ok?
    {
      value
    }
  }

  /** Position of the first occurrence of `x` in `s` (a linear scan). */
  function IndexOf<T(==)>(s: seq<T>, x: T): (r: Option<nat>)
    ensures r.Some? ==> r.value < |s| && s[r.value] == x
    ensures r.Some? ==> forall k :: 0 <= k < r.value ==> s[k] != x
    ensures r.None? <==> x !in s
    decreases |s|
  {
    if |s| == 0 then None
    else if s[0] == x then Some(0)
    else match IndexOf(s[1..], x)
      case None => None
      case Some(k) => Some(k + 1)
  }

  /** A position holding `x` with no earlier occurrence is the one `IndexOf` finds. */
  lemma IndexOfFirst<T>(s: seq<T>, x: T, j: nat)
    requires j < |s| && s[j] == x
    requires forall k :: 0 <= k < j ==> s[k] != x
    ensures IndexOf(s, x) == Some(j)
  {
  }

  /** The loop form of `IndexOf`, for the handlers that scan a list. */
  method Find<T(==)>(s: seq<T>, x: T) returns (r: Option<nat>)
    ensures r == IndexOf(s, x)
  {
    var k := 0;
    while k < |s|
      invariant 0 <= k <= |s|
      invariant forall j :: 0 <= j < k ==> s[j] != x
    {
      if s[k] == x {
        return Some(k);
      }
      k := k + 1;
    }
    return None;
  }
}
