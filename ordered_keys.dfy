/**
 * The order in which `Object.keys` and `Object.values` enumerate the
 * array-index keys of an object: ascending numeric order, whatever the order
 * of insertion (the OrdinaryOwnPropertyKeys operation of ECMAScript, section
 * 10.1.11.1 of the 2021 edition).
 */
module OrderedKeys {

  predicate StrictlyAscending(s: seq<int>)
  {
    forall i, j :: 0 <= i < j < |s| ==> s[i] < s[j]
  }

  /** Adds `k` to an ascending key list, unless it is already there. */
  function InsertKey(k: int, s: seq<int>): (r: seq<int>)
    requires StrictlyAscending(s)
    ensures StrictlyAscending(r)
    ensures forall x :: x in r <==> x == k || x in s
  {
    if s == [] || k < s[0] then [k] + s
    else if k == s[0] then s
    else
      assert forall x :: x in s[1..] ==> s[0] < x;
      var rest := InsertKey(k, s[1..]);
      assert forall j :: 0 <= j < |rest| ==> s[0] < rest[j] by {
        forall j | 0 <= j < |rest| ensures s[0] < rest[j] {
          assert rest[j] in rest;
        }
      }
      [s[0]] + rest
  }

  /** The keys of an object whose keys were added in the order `inserted`, as it enumerates them. */
  function AscendingKeys(inserted: seq<int>): (r: seq<int>)
    ensures StrictlyAscending(r)
    ensures forall x :: x in r <==> x in inserted
  {
    if inserted == [] then [] else InsertKey(inserted[0], AscendingKeys(inserted[1..]))
  }
}
