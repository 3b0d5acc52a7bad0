/** What the termination proofs of server and client share: sums of weights, and descriptors nobody uses. */
module Measures {

  function Total<T>(s: seq<T>, weight: T -> nat): nat {
    if s == [] then 0 else Total(s[..|s| - 1], weight) + weight(s[|s| - 1])
  }

  lemma {:induction false} TotalAfterChange<T>(s: seq<T>, weight: T -> nat, i: nat, x: T)
    requires i < |s|
    ensures Total(s[i := x], weight) == Total(s, weight) - weight(s[i]) + weight(x)
  {
    var last := |s| - 1;
    if i == last {
      assert s[i := x][..last] == s[..last];
    } else {
      assert s[i := x][..last] == s[..last][i := x];
      TotalAfterChange(s[..last], weight, i, x);
    }
  }

  /** A waiter that has been notified has one step more to take. */
  function Notice(notified: bool): nat {
    if notified then 1 else 0
  }

  /** The kernel has a number for one more descriptor. */
  lemma FreshDescriptor(used: set<nat>) returns (fd: nat)
    ensures forall n :: n in used ==> n < fd
  {
    if used == {} {
      fd := 0;
    } else {
      var n :| n in used;
      var rest := FreshDescriptor(used - {n});
      fd := if rest <= n then n + 1 else rest;
      assert forall m :: m in used ==> m == n || m in used - {n};
    }
  }
}
