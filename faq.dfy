/**
 * The FAQ accordion (v2/js/main.js, `initFAQAccordion`): clicking the
 * question of item `i` makes every other item inactive and flips item `i`.
 * The items' `active` classes are an array of flags in document order.
 */
module FaqAccordion {

  /** The flags after a click on item `i`. */
  function AfterClick(active: seq<bool>, i: nat): (r: seq<bool>)
    requires i < |active|
    ensures |r| == |active|
  {
    seq(|active|, j requires 0 <= j < |active| => if j == i then !active[i] else false)
  }

  /** At most one item is active. */
  predicate AtMostOneActive(active: seq<bool>) {
    forall j, k :: 0 <= j < |active| && 0 <= k < |active| && active[j] && active[k] ==> j == k
  }

  /** The click handler: close the other open items, then toggle the clicked one. */
  method Click(active: array<bool>, i: nat)
    requires i < active.Length
    modifies active
    ensures active[..] == AfterClick(old(active[..]), i)
    ensures AtMostOneActive(active[..])
  {
    for j := 0 to active.Length
      invariant forall k :: 0 <= k < j && k != i ==> !active[k]
      invariant forall k :: (j <= k < active.Length || k == i) && 0 <= k < active.Length ==> active[k] == old(active[k])
    {
      if j != i && active[j] {
        active[j] := false;
      }
    }
    active[i] := !active[i];
    ClickOpensAtMostOne(old(active[..]), i);
  }

  /**
   * After any click at most one item is open: the clicked one opens when it
   * was closed, and everything closes when it was open.
   */
  lemma ClickOpensAtMostOne(active: seq<bool>, i: nat)
    requires i < |active|
    ensures AtMostOneActive(AfterClick(active, i))
    ensures forall j :: 0 <= j < |active| ==> (AfterClick(active, i)[j] <==> j == i && !active[i])
  {
  }
}
