/** Absent values and the Python exceptions the model turns into error results. */
module Wrappers {

  datatype Option<+T> = None | Some(value: T)

  /** The exceptions the modelled code can raise on its own. */
  datatype Error =
    /** `random.choice` called on an empty sequence (`IndexError`). */
    | ChoiceFromEmpty
    /** `a, b = x` when `x` does not have exactly two items (`ValueError`). */
    | UnpackMismatch(expected: nat, got: nat)

  datatype Result<+T> = Ok(value: T) | Err(error: Error)
}

/** The filesystem as the lookups see it. */
module Files {

  /** The paths `os.path.exists` accepts at call time, files and directories alike. */
  type Disk = set<string>

  /** The existence-guarded outcome `r` for `candidate`: it is an existing path or the
      placeholder, it is the candidate or the placeholder, and an existing candidate
      is always returned. */
  predicate Guarded(disk: Disk, candidate: string, placeholder: string, r: string) {
    && (r in disk || r == placeholder)
    && (r == candidate || r == placeholder)
    && (candidate in disk ==> r == candidate)
  }
}

/** First-match search over a sequence, the shape of a `for` loop with an early `return`. */
module Search {
  import opened Wrappers

  /** The index of the first element satisfying `p`, if any. */
  function FirstWhere<T>(s: seq<T>, p: T -> bool): (r: Option<nat>)
    ensures r.Some? ==> r.value < |s| && p(s[r.value])
    ensures r.Some? ==> forall j :: 0 <= j < r.value ==> !p(s[j])
    ensures r.None? <==> forall j :: 0 <= j < |s| ==> !p(s[j])
    decreases |s|
  {
    if s == [] then None
    else if p(s[0]) then Some(0)
    else match FirstWhere(s[1..], p)
      case None => None
      case Some(k) => Some(k + 1)
  }
}
