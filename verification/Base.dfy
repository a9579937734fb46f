/** Small vocabulary shared by every module. */
module Base {
  datatype Option<+T> = None | Some(value: T)

  /** How a request ends: committed with a reply, or refused, in which case nothing it wrote survives. */
  datatype Outcome<+T> = Done(value: T) | Refused(reason: string)

  function Min(a: int, b: int): int {
    if a <= b then a else b
  }

  function Max(a: int, b: int): int {
    if a >= b then a else b
  }

  /** Python's int() on a number: truncation toward zero. */
  function Truncate(x: real): int {
    if x >= 0.0 then x.Floor else -((-x).Floor)
  }

  /** What a NUMERIC column with two decimals makes of a number that is not negative, in hundredths. */
  function Hundredths(x: real): int {
    (x * 100.0 + 0.5).Floor
  }

  lemma HundredthsExact(h: int)
    ensures Hundredths(h as real / 100.0) == h
  {
    assert h as real / 100.0 * 100.0 == h as real;
  }

  type SubjectId = int
  type UserId = int
  type DeviceId = int

  lemma SomeMember<T>(s: set<T>)
    ensures s != {} ==> exists x :: x in s
  {
    if !exists x :: x in s {
      assert s == {};
    }
  }

  ghost predicate Distinct<T>(s: seq<T>) {
    forall i, j :: 0 <= i < j < |s| ==> s[i] != s[j]
  }
}
