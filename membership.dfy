/** The two linear-search helpers at the top of main.go. Both walk a
    collection and stop at the first hit; neither changes anything. */
module Membership {

  /** `StringInSlice`: is `s` one of the elements of `list`? */
  method StringInSlice(s: string, list: seq<string>) returns (found: bool)
    ensures found <==> exists i :: 0 <= i < |list| && list[i] == s
    ensures |list| == 0 ==> !found
  {
    for i := 0 to |list|
      invariant forall j :: 0 <= j < i ==> list[j] != s
    {
      if list[i] == s {
        return true;
      }
    }
    return false;
  }

  /** `AnyKeyInMap`: does some key of `keyMap` occur in `keys`? The keys are
      visited in no particular order, as Go's map iteration visits them. */
  method AnyKeyInMap<V>(keys: seq<string>, keyMap: map<string, V>) returns (found: bool)
    ensures found <==> exists k :: k in keyMap && k in keys
    ensures |keyMap| == 0 ==> !found
  {
    var unvisited := keyMap.Keys;
    while unvisited != {}
      invariant unvisited <= keyMap.Keys
      invariant forall k :: k in keyMap && k !in unvisited ==> k !in keys
      decreases unvisited
    {
      var k :| k in unvisited;
      var hit := StringInSlice(k, keys);
      if hit {
        return true;
      }
      unvisited := unvisited - {k};
    }
    return false;
  }
}
