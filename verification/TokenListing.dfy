// Duplicate tokens: what CleanupDuplicateTokens reads off the raw token list of the server.
module TokenListing {
  import opened Wrappers

  datatype RawPolicy = NotAMap | Unnamed | Named(name: string)

  // An entry of the listing; None where the field is missing or of another type.
  datatype RawToken = RawToken(accessorId: Option<string>, policies: Option<seq<RawPolicy>>)

  predicate Matches(t: RawToken, policyName: string) {
    t.accessorId.Some? && t.policies.Some? && Named(policyName) in t.policies.value
  }

  // The accessors of the well-formed tokens that carry the policy, in list order.
  function Matching(ts: seq<RawToken>, policyName: string): seq<string> {
    if ts == [] then []
    else Matching(ts[..|ts| - 1], policyName) +
         if Matches(ts[|ts| - 1], policyName) then [ts[|ts| - 1].accessorId.value] else []
  }

  method CollectMatching(ts: seq<RawToken>, policyName: string) returns (matchingTokens: seq<string>)
    ensures matchingTokens == Matching(ts, policyName)
  {
    matchingTokens := [];
    for i := 0 to |ts|
      invariant matchingTokens == Matching(ts[..i], policyName)
    {
      assert ts[..i + 1][..i] == ts[..i];
      if ts[i].accessorId.None? || ts[i].policies.None? {
        continue;
      }
      var policies := ts[i].policies.value;
      var found := false;
      for j := 0 to |policies|
        invariant !found
        invariant Named(policyName) !in policies[..j]
        invariant matchingTokens == Matching(ts[..i], policyName)
      {
        if policies[j] == Named(policyName) {
          found := true;
          matchingTokens := matchingTokens + [ts[i].accessorId.value];
          break;
        }
      }
    }
    assert ts[..|ts|] == ts;
  }

  // The token that is answered, "" for none.
  function Kept(ts: seq<RawToken>, policyName: string): string {
    if Matching(ts, policyName) == [] then "" else Matching(ts, policyName)[0]
  }

  ghost predicate NoEmptyAccessor(ts: seq<RawToken>) {
    forall i :: 0 <= i < |ts| ==> ts[i].accessorId != Some("")
  }

  // Which tokens to delete, and which one to keep ("" for none).
  method PlanCleanup(ts: seq<RawToken>, policyName: string) returns (keep: string, deletes: seq<string>)
    ensures keep == Kept(ts, policyName)
    ensures Matching(ts, policyName) == [] ==> keep == "" && deletes == []
    ensures Matching(ts, policyName) != [] ==> Matching(ts, policyName) == [keep] + deletes
  {
    var matchingTokens := CollectMatching(ts, policyName);
    keep, deletes := "", [];
    if |matchingTokens| >= 1 {
      keep := matchingTokens[0];
      if |matchingTokens| > 1 {
        deletes := matchingTokens[1..];
      }
    }
  }

  // The entry has an accessor and a list of policies with this name among them, whatever else is in it.
  ghost predicate Lists(t: RawToken, policyName: string) {
    t.accessorId.Some? && t.policies.Some? &&
    exists k :: 0 <= k < |t.policies.value| && t.policies.value[k].Named? && t.policies.value[k].name == policyName
  }

  lemma MatchesIff(t: RawToken, policyName: string)
    ensures Matches(t, policyName) <==> Lists(t, policyName)
  {
    if Matches(t, policyName) {
      var k :| 0 <= k < |t.policies.value| && t.policies.value[k] == Named(policyName);
      assert t.policies.value[k].Named?;
    }
  }

  // at lists the entries whose accessors are ids: exactly those that list the policy, each once, in order.
  ghost predicate MatchesAt(ts: seq<RawToken>, policyName: string, ids: seq<string>, at: seq<nat>) {
    |at| == |ids| &&
    (forall k :: 0 <= k < |at| ==> at[k] < |ts| && ts[at[k]].accessorId == Some(ids[k])) &&
    (forall j, k :: 0 <= j < k < |at| ==> at[j] < at[k]) &&
    (forall i :: 0 <= i < |ts| ==> (Lists(ts[i], policyName) <==> i in at))
  }

  lemma MatchesAtSnoc(ts: seq<RawToken>, t: RawToken, policyName: string, ids: seq<string>, at: seq<nat>)
    requires MatchesAt(ts, policyName, ids, at)
    ensures if Matches(t, policyName) then MatchesAt(ts + [t], policyName, ids + [t.accessorId.value], at + [|ts|])
            else MatchesAt(ts + [t], policyName, ids, at)
  {
    assert forall i :: i in at ==> i < |ts|;
    MatchesIff(t, policyName);
  }

  // The matches are exactly the entries that carry the policy, each once and in list order: so the
  // kept token is the first of them and every later one is deleted, and no other token is.
  lemma {:induction false} MatchingIsExact(ts: seq<RawToken>, policyName: string) returns (at: seq<nat>)
    ensures MatchesAt(ts, policyName, Matching(ts, policyName), at)
  {
    at := [];
    if ts != [] {
      var before, t := ts[..|ts| - 1], ts[|ts| - 1];
      at := MatchingIsExact(before, policyName);
      MatchesAtSnoc(before, t, policyName, Matching(before, policyName), at);
      assert ts == before + [t];
      if Matches(t, policyName) {
        at := at + [|before|];
      } else {
        assert Matching(ts, policyName) == Matching(before, policyName);
      }
    }
  }

  lemma {:induction false} MatchingHasAccessors(ts: seq<RawToken>, policyName: string)
    requires NoEmptyAccessor(ts)
    ensures "" !in Matching(ts, policyName)
    ensures Matching(ts, policyName) == [] <==> forall i :: 0 <= i < |ts| ==> !Lists(ts[i], policyName)
  {
    if ts != [] {
      MatchesIff(ts[|ts| - 1], policyName);
      MatchingHasAccessors(ts[..|ts| - 1], policyName);
      assert forall i :: 0 <= i < |ts| - 1 ==> ts[..|ts| - 1][i] == ts[i];
    }
  }

  // Whatever is malformed in the listing: with accessors that are not empty, "" is answered exactly
  // when no entry carries the policy.
  lemma {:induction false} NothingKeptIff(ts: seq<RawToken>, policyName: string)
    requires NoEmptyAccessor(ts)
    ensures Kept(ts, policyName) == "" <==> forall i :: 0 <= i < |ts| ==> !Lists(ts[i], policyName)
    ensures Kept(ts, policyName) == "" <==> Matching(ts, policyName) == []
  {
    MatchingHasAccessors(ts, policyName);
    if Matching(ts, policyName) != [] {
      assert Matching(ts, policyName)[0] in Matching(ts, policyName);
    }
  }
}
