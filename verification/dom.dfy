/**
 * The class toggling both wizards perform on a node list: each element's
 * `active` mark is one boolean of an array, in document order.
 */
module Dom {

  /** Removes `active` from every element, then adds it to the one whose id is `section<n>` (index n-1), if present. */
  method ActivateOnly(marks: array<bool>, n: int)
    modifies marks
    ensures forall k :: 0 <= k < marks.Length ==> marks[k] == (k + 1 == n)
  {
    for k := 0 to marks.Length
      invariant forall j :: 0 <= j < k ==> !marks[j]
    {
      marks[k] := false;
    }
    if 1 <= n <= marks.Length {
      marks[n - 1] := true;
    }
  }

  /** Marks element `index` active exactly when `index + 1 <= limit`. */
  method ActivateThrough(marks: array<bool>, limit: int)
    modifies marks
    ensures forall k :: 0 <= k < marks.Length ==> marks[k] == (k + 1 <= limit)
  {
    for k := 0 to marks.Length
      invariant forall j :: 0 <= j < k ==> marks[j] == (j + 1 <= limit)
    {
      marks[k] := k + 1 <= limit;
    }
  }
}
