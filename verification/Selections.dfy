/** What a SELECT with a LIMIT can return: any positions that satisfy the condition, all of them below the limit. */
module Selections {

  // The positions below `n` that satisfy the condition, `i` excepted.
  function Others(n: nat, keep: nat -> bool, i: nat): (others: seq<nat>)
    ensures forall j: nat :: j in others <==> j < n && keep(j) && j != i
    ensures forall a, b :: 0 <= a < b < |others| ==> others[a] != others[b]
  {
    if n == 0 then [] else Others(n - 1, keep, i) + if keep(n - 1) && n - 1 != i then [n - 1] else []
  }

  // An answer that has position `i`, and has it first.
  function Leading(n: nat, limit: nat, keep: nat -> bool, i: nat): (picks: seq<nat>)
    requires i < n && keep(i) && limit >= 1
    ensures 1 <= |picks| <= limit && picks[0] == i
    ensures forall a :: 0 <= a < |picks| ==> picks[a] < n && keep(picks[a])
    ensures forall a, b :: 0 <= a < b < |picks| ==> picks[a] != picks[b]
    ensures |picks| < limit ==> forall j: nat :: j < n && keep(j) ==> j in picks
  {
    var all := [i] + Others(n, keep, i);
    assert forall a :: 0 <= a < |all| ==> all[a] == i || all[a] in Others(n, keep, i);
    if |all| <= limit then all else all[..limit]
  }
}
