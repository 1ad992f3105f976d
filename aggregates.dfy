/** Formulas shared by several components: the rounded percentage shown by the
    progress views and the unread-notification count shown on the bell badge. */
module Aggregates {
  import opened Types

  /** `Math.round(100 * part / whole)`, computed exactly: the integer nearest to
      100 * part / whole, with halves rounded up (as `Math.round` does). */
  function RoundPercent(part: int, whole: int): (r: int)
    requires whole > 0
    ensures 2 * whole * r <= 200 * part + whole < 2 * whole * (r + 1)
  {
    var n, d := 200 * part + whole, 2 * whole;
    var q := n / d;
    assert n == d * q + n % d && 0 <= n % d < d;
    q
  }

  /** Dividing out a positive factor keeps a strict inequality. */
  lemma CancelFactor(k: int, x: int, y: int)
    requires k > 0 && k * x < k * y
    ensures x < y
  {
    assert k * (y - x) == k * y - k * x;
  }

  /** A part that lies between nothing and the whole gives a percentage in 0..100. */
  lemma PercentInRange(part: int, whole: int)
    requires 0 <= part <= whole && whole > 0
    ensures 0 <= RoundPercent(part, whole) <= 100
  {
    var r := RoundPercent(part, whole);
    assert 2 * whole * r < 2 * whole * 101;
    CancelFactor(2 * whole, r, 101);
    assert 2 * whole * 0 < 2 * whole * (r + 1);
    CancelFactor(2 * whole, 0, r + 1);
  }

  /** All of the whole gives exactly 100 and none of it gives exactly 0. */
  lemma PercentEndpoints(whole: int)
    requires whole > 0
    ensures RoundPercent(whole, whole) == 100
    ensures RoundPercent(0, whole) == 0
  {
    var full := RoundPercent(whole, whole);
    assert 2 * whole * full < 2 * whole * 101;
    CancelFactor(2 * whole, full, 101);
    assert 2 * whole * 100 < 2 * whole * (full + 1);
    CancelFactor(2 * whole, 100, full + 1);
    var none := RoundPercent(0, whole);
    assert 2 * whole * none < 2 * whole * 1;
    CancelFactor(2 * whole, none, 1);
    assert 2 * whole * 0 < 2 * whole * (none + 1);
    CancelFactor(2 * whole, 0, none + 1);
  }

  /** More completed work never shows a smaller percentage of the same whole. */
  lemma PercentMonotonic(a: int, b: int, whole: int)
    requires a <= b && whole > 0
    ensures RoundPercent(a, whole) <= RoundPercent(b, whole)
  {
    var ra, rb := RoundPercent(a, whole), RoundPercent(b, whole);
    assert 2 * whole * ra < 2 * whole * (rb + 1);
    CancelFactor(2 * whole, ra, rb + 1);
  }

  /** The number of notifications whose `read` flag is false
      (`notifications.filter(n => !n.read).length`). */
  function UnreadCount(ns: seq<Notification>): (r: nat)
    ensures r <= |ns|
    ensures r == 0 <==> forall i :: 0 <= i < |ns| ==> ns[i].read
    ensures r == |ns| <==> forall i :: 0 <= i < |ns| ==> !ns[i].read
  {
    if ns == [] then 0
    else
      var rest := UnreadCount(ns[1..]);
      assert forall i :: 1 <= i < |ns| ==> ns[i] == ns[1..][i - 1];
      (if ns[0].read then 0 else 1) + rest
  }

  /** The bell shows its red badge exactly when something is unread. */
  function BadgeShown(ns: seq<Notification>): (shown: bool)
    ensures shown <==> exists i :: 0 <= i < |ns| && !ns[i].read
  {
    UnreadCount(ns) > 0
  }

  /** Counting distributes over concatenation, so a new notification adds its own
      unread flag to the count and leaves the rest alone. */
  lemma {:induction false} UnreadCountAppend(a: seq<Notification>, b: seq<Notification>)
    ensures UnreadCount(a + b) == UnreadCount(a) + UnreadCount(b)
  {
    if a == [] {
      assert a + b == b;
    } else {
      assert (a + b)[1..] == a[1..] + b;
      UnreadCountAppend(a[1..], b);
    }
  }
}
