/**
 * Outstanding quantities: the sum of the quantities of takes that have no
 * `dateReturned`, restricted to all takes, to takes at one location, or to
 * takes by one user. The server's availability list, its return settlement
 * and the client's item, location and "my items" views all compute one of
 * these sums.
 */
module Ledger {
  import opened Wrappers
  import opened DbModels

  /** Which outstanding takes a sum counts. */
  datatype Scope = Anywhere | At(location: Id) | By(user: Id)

  predicate IsOutstanding(t: Take)
  {
    t.dateReturned.None?
  }

  predicate InScope(t: Take, scope: Scope)
  {
    match scope
    case Anywhere => true
    case At(l) => t.location == l
    case By(u) => t.user == u
  }

  /** What one take contributes to the sum for `scope`. */
  function Weight(t: Take, scope: Scope): int
  {
    if IsOutstanding(t) && InScope(t, scope) then t.quantity else 0
  }

  /** The outstanding quantity of `taken` in `scope` (defined on the last take, as loops accumulate it). */
  function Outstanding(taken: seq<Take>, scope: Scope): int
  {
    if taken == [] then 0 else Outstanding(taken[..|taken| - 1], scope) + Weight(taken[|taken| - 1], scope)
  }

  /** One more take, seen by a left-to-right loop. */
  lemma OutstandingSnoc(taken: seq<Take>, i: nat, scope: Scope)
    requires i < |taken|
    ensures Outstanding(taken[..i + 1], scope) == Outstanding(taken[..i], scope) + Weight(taken[i], scope)
  {
    assert taken[..i + 1][..i] == taken[..i];
  }

  lemma {:induction false} OutstandingAppend(a: seq<Take>, b: seq<Take>, scope: Scope)
    ensures Outstanding(a + b, scope) == Outstanding(a, scope) + Outstanding(b, scope)
  {
    if b == [] {
      assert a + b == a;
    } else {
      var b' := b[..|b| - 1];
      assert (a + b)[..|a + b| - 1] == a + b';
      OutstandingAppend(a, b', scope);
    }
  }

  /** Replacing one take changes the sum by exactly the difference of the two takes' weights. */
  lemma OutstandingUpdate(taken: seq<Take>, k: nat, t: Take, scope: Scope)
    requires k < |taken|
    ensures Outstanding(taken[k := t], scope) == Outstanding(taken, scope) - Weight(taken[k], scope) + Weight(t, scope)
  {
    var pre, post := taken[..k], taken[k + 1..];
    assert taken == pre + [taken[k]] + post;
    assert taken[k := t] == pre + [t] + post;
    OutstandingAppend(pre + [taken[k]], post, scope);
    OutstandingAppend(pre + [t], post, scope);
    OutstandingAppend(pre, [taken[k]], scope);
    OutstandingAppend(pre, [t], scope);
    assert [taken[k]][..0] == [];
    assert [t][..0] == [];
  }

  /** A take that has been returned adds nothing to any outstanding sum. */
  lemma ReturnedTakeNotCounted(taken: seq<Take>, t: Take, scope: Scope)
    requires t.dateReturned.Some?
    ensures Outstanding(taken + [t], scope) == Outstanding(taken, scope)
  {
    assert (taken + [t])[..|taken|] == taken;
  }

  /** Every outstanding take in scope holds at least one piece. */
  predicate PositiveOutstanding(taken: seq<Take>, scope: Scope)
  {
    forall i :: 0 <= i < |taken| && IsOutstanding(taken[i]) && InScope(taken[i], scope) ==> taken[i].quantity >= 1
  }

  predicate NoneOutstanding(taken: seq<Take>, scope: Scope)
  {
    forall i :: 0 <= i < |taken| ==> !(IsOutstanding(taken[i]) && InScope(taken[i], scope))
  }

  /** With positive quantities, the sum is zero exactly when no take in scope is outstanding, and never negative. */
  lemma {:induction false} OutstandingZeroIff(taken: seq<Take>, scope: Scope)
    requires PositiveOutstanding(taken, scope)
    ensures Outstanding(taken, scope) >= 0
    ensures Outstanding(taken, scope) == 0 <==> NoneOutstanding(taken, scope)
  {
    if taken != [] {
      var n := |taken| - 1;
      var init := taken[..n];
      assert forall i :: 0 <= i < n ==> init[i] == taken[i];
      OutstandingZeroIff(init, scope);
    }
  }
}
