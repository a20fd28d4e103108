/**
 * Seeding the block reasons: each of the five reasons of the block-reason
 * enumeration is stored unless a record with it already exists.
 */
module Seeder {
  /** The reasons the seeder inserts, which are the values the block-reason
    * schema allows, in the same order. */
  const Reasons: seq<string> := [
    "Suspicious or Fraudulent Activity",
    "Excessive Bot or Scraping Behavior",
    "Unusual Traffic or Rate Limiting",
    "Violation of Terms of Service",
    "Security Threats or Hacking Attempts"
  ]

  predicate NoDuplicates(s: seq<string>) {
    forall i, j :: 0 <= i < j < |s| ==> s[i] != s[j]
  }

  /** The stored reasons after inserting each of `pending`, in order, when
    * it is not stored yet. */
  function InsertMissing(stored: seq<string>, pending: seq<string>): seq<string>
    decreases |pending|
  {
    if |pending| == 0 then stored
    else InsertMissing(if pending[0] in stored then stored else stored + [pending[0]], pending[1..])
  }

  /** Inserting one more reason after a prefix of the list. */
  lemma {:induction false} InsertMissingSnoc(stored: seq<string>, pending: seq<string>, x: string)
    ensures var s := InsertMissing(stored, pending);
      InsertMissing(stored, pending + [x]) == if x in s then s else s + [x]
    decreases |pending|
  {
    if |pending| == 0 {
      assert pending + [x] == [x];
    } else {
      var next := if pending[0] in stored then stored else stored + [pending[0]];
      assert (pending + [x])[1..] == pending[1..] + [x];
      InsertMissingSnoc(next, pending[1..], x);
    }
  }

  /** What was stored stays, in place; every pending reason is then
    * present; nothing else is added. */
  lemma {:induction false} InsertMissingSpec(stored: seq<string>, pending: seq<string>)
    ensures var s := InsertMissing(stored, pending);
      |stored| <= |s| && s[..|stored|] == stored
      && (forall x :: x in pending ==> x in s)
      && (forall x :: x in s ==> x in stored || x in pending)
    decreases |pending|
  {
    if |pending| > 0 {
      var next := if pending[0] in stored then stored else stored + [pending[0]];
      InsertMissingSpec(next, pending[1..]);
      var s := InsertMissing(next, pending[1..]);
      assert s[..|stored|] == next[..|stored|];
      forall x | x in pending
        ensures x in s
      {
        if x != pending[0] {
          assert x in pending[1..];
        }
      }
    }
  }

  /** No reason is stored twice if none was before. */
  lemma {:induction false} InsertMissingNoDuplicates(stored: seq<string>, pending: seq<string>)
    requires NoDuplicates(stored)
    ensures NoDuplicates(InsertMissing(stored, pending))
    decreases |pending|
  {
    if |pending| > 0 {
      var next := if pending[0] in stored then stored else stored + [pending[0]];
      assert NoDuplicates(next);
      InsertMissingNoDuplicates(next, pending[1..]);
    }
  }

  /** When every pending reason is stored, nothing is inserted. */
  lemma {:induction false} InsertMissingPresent(stored: seq<string>, pending: seq<string>)
    requires forall x :: x in pending ==> x in stored
    ensures InsertMissing(stored, pending) == stored
    decreases |pending|
  {
    if |pending| > 0 {
      assert pending[0] in stored;
      InsertMissingPresent(stored, pending[1..]);
    }
  }

  /** Seeding twice is seeding once. */
  lemma SeedIdempotent(stored: seq<string>)
    ensures InsertMissing(InsertMissing(stored, Reasons), Reasons) == InsertMissing(stored, Reasons)
  {
    InsertMissingSpec(stored, Reasons);
    InsertMissingPresent(InsertMissing(stored, Reasons), Reasons);
  }

  /** The block-reason records. */
  class ReasonStore {
    var reasons: seq<string>

    constructor ()
      ensures reasons == []
    {
      reasons := [];
    }

    /** `seedBlockReasons`: afterwards all five reasons are stored, the
      * records that were there are kept as they were, and no reason is
      * stored twice unless it already was. */
    method Seed()
      modifies this
      ensures reasons == InsertMissing(old(reasons), Reasons)
      ensures forall x :: x in Reasons ==> x in reasons
      ensures |old(reasons)| <= |reasons| && reasons[..|old(reasons)|] == old(reasons)
      ensures NoDuplicates(old(reasons)) ==> NoDuplicates(reasons)
    {
      ghost var initial := reasons;
      var i := 0;
      while i < |Reasons|
        invariant 0 <= i <= |Reasons|
        invariant reasons == InsertMissing(initial, Reasons[..i])
      {
        InsertMissingSnoc(initial, Reasons[..i], Reasons[i]);
        assert Reasons[..i + 1] == Reasons[..i] + [Reasons[i]];
        if Reasons[i] !in reasons {
          reasons := reasons + [Reasons[i]];
        }
        i := i + 1;
      }
      assert Reasons[..i] == Reasons;
      InsertMissingSpec(initial, Reasons);
      if NoDuplicates(initial) {
        InsertMissingNoDuplicates(initial, Reasons);
      }
    }
  }
}
