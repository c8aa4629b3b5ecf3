/** The calculation history: a most-recent-first list that keeps at most ten entries. */
module Ledger {

  /** How many entries the history keeps. */
  const Capacity: nat := 10

  /** `[entry, ...ledger].slice(0, 10)`. */
  function Push<T>(entry: T, ledger: seq<T>): (r: seq<T>)
    ensures |r| == if |ledger| < Capacity then |ledger| + 1 else Capacity
    ensures r[0] == entry
    ensures r[1..] == ledger[..|r| - 1]
  {
    var all := [entry] + ledger;
    all[..if |all| < Capacity then |all| else Capacity]
  }

  /** The entries of `s` in reverse order. */
  function Reversed<T>(s: seq<T>): (r: seq<T>)
    ensures |r| == |s|
  {
    if s == [] then [] else Reversed(s[1..]) + [s[0]]
  }

  /** The ledger after pushing `entries` one by one, oldest first. */
  function PushAll<T>(entries: seq<T>, ledger: seq<T>): seq<T>
  {
    if entries == [] then ledger else PushAll(entries[1..], Push(entries[0], ledger))
  }

  function Min(a: nat, b: nat): nat
  {
    if a < b then a else b
  }

  /**
   * Pushing a run of entries keeps exactly the ten most recent entries, newest first: the
   * oldest ones are evicted first, and the order is never disturbed.
   */
  lemma {:induction false} PushAllKeepsMostRecent<T>(entries: seq<T>, ledger: seq<T>)
    requires |ledger| <= Capacity
    ensures PushAll(entries, ledger)
         == (Reversed(entries) + ledger)[..Min(|entries| + |ledger|, Capacity)]
  {
    if entries == [] {
      assert Reversed(entries) + ledger == ledger;
    } else {
      var e, rest := entries[0], entries[1..];
      var pushed := Push(e, ledger);
      PushAllKeepsMostRecent(rest, pushed);
      var n := Min(|rest| + |pushed|, Capacity);
      assert n == Min(|entries| + |ledger|, Capacity);
      assert Reversed(entries) + ledger == Reversed(rest) + ([e] + ledger);
      assert pushed == ([e] + ledger)[..|pushed|];
      assert (Reversed(rest) + pushed)[..n] == (Reversed(rest) + ([e] + ledger))[..n];
    }
  }

  /** From an empty history, after any number of calculations the history holds the ten newest. */
  lemma HistoryHoldsTenNewest<T>(entries: seq<T>)
    ensures |PushAll(entries, [])| == Min(|entries|, Capacity)
    ensures forall i :: 0 <= i < |PushAll(entries, [])| ==>
              PushAll(entries, [])[i] == entries[|entries| - 1 - i]
  {
    PushAllKeepsMostRecent(entries, []);
    assert Reversed(entries) + [] == Reversed(entries);
    forall i | 0 <= i < |entries| ensures Reversed(entries)[i] == entries[|entries| - 1 - i] {
      ReversedAt(entries, i);
    }
  }

  lemma {:induction false} ReversedAt<T>(s: seq<T>, i: nat)
    requires i < |s|
    ensures Reversed(s)[i] == s[|s| - 1 - i]
  {
    if i < |s| - 1 {
      ReversedAt(s[1..], i);
    }
  }
}
