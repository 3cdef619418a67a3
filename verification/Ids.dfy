// Fresh ids for threads, calls and flights.
module Ids {

  // An id above all those in use.
  ghost function Above(ids: set<nat>): (n: nat)
    ensures forall id <- ids :: id < n
  {
    if ids == {} then 0
    else
      var id :| id in ids;
      var n := Above(ids - {id});
      assert forall x <- ids :: x == id || x in ids - {id};
      if id < n then n else id + 1
  }
}
