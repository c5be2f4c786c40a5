// What a reconciliation achieves, what it keeps, and what repeated ones converge to.
module ConsulRuns {
  import opened Wrappers
  import opened TokenListing
  import opened Consul

  // ---- Token lists ----

  predicate Carries(t: Token, policyName: string) {
    policyName in t.policies
  }

  function Carriers(ts: seq<Token>, policyName: string): seq<Token> {
    if ts == [] then []
    else if Carries(ts[0], policyName) then [ts[0]] + Carriers(ts[1..], policyName)
    else Carriers(ts[1..], policyName)
  }

  lemma {:induction false} NamedAllContains(names: seq<string>, n: string)
    ensures Named(n) in NamedAll(names) <==> n in names
  {
    if names != [] { NamedAllContains(names[1..], n); }
  }

  lemma {:induction false} CarriersSnoc(ts: seq<Token>, t: Token, p: string)
    ensures Carriers(ts + [t], p) == Carriers(ts, p) + if Carries(t, p) then [t] else []
  {
    if ts == [] {
      assert ts + [t] == [t];
    } else {
      CarriersSnoc(ts[1..], t, p);
      assert (ts + [t])[1..] == ts[1..] + [t];
    }
  }

  lemma {:induction false} AccessorsSnoc(ts: seq<Token>, t: Token)
    ensures AccessorIds(ts + [t]) == AccessorIds(ts) + [t.accessorId]
  {
    if ts == [] {
      assert ts + [t] == [t];
    } else {
      AccessorsSnoc(ts[1..], t);
      assert (ts + [t])[1..] == ts[1..] + [t];
    }
  }

  // The accessors the clean-up collects are those of the tokens that carry the policy.
  lemma {:induction false} CarrierIdsAreCarriers(ts: seq<Token>, p: string)
    ensures CarrierIds(ts, p) == AccessorIds(Carriers(ts, p))
  {
    if ts != [] {
      var before, t := ts[..|ts| - 1], ts[|ts| - 1];
      CarrierIdsAreCarriers(before, p);
      assert ts == before + [t];
      CarriersSnoc(before, t, p);
      NamedAllContains(t.policies, p);
      if Carries(t, p) {
        AccessorsSnoc(Carriers(before, p), t);
      } else {
        assert Carriers(ts, p) == Carriers(before, p);
      }
      var l := Listing(ts);
      assert l[..|l| - 1] == Listing(before);
      assert Matching(l, p) == Matching(Listing(before), p) + if Carries(t, p) then [t.accessorId] else [];
    }
  }

  lemma {:induction false} CarriersAreTokens(ts: seq<Token>, p: string)
    ensures forall t :: t in Carriers(ts, p) <==> t in ts && Carries(t, p)
  {
    if ts != [] {
      CarriersAreTokens(ts[1..], p);
      assert ts == [ts[0]] + ts[1..];
    }
  }

  lemma GoodTail(ts: seq<Token>)
    requires GoodTokens(ts) && ts != []
    ensures GoodTokens(ts[1..])
    ensures forall t :: t in ts[1..] ==> t.accessorId != ts[0].accessorId && t.secretId != ts[0].secretId
  {
  }

  lemma {:induction false} WithoutTokens(ts: seq<Token>, a: string)
    requires GoodTokens(ts)
    ensures GoodTokens(Without(ts, a)) && |Without(ts, a)| <= |ts|
    ensures forall t :: t in Without(ts, a) <==> t in ts && t.accessorId != a
  {
    if ts != [] {
      GoodTail(ts);
      WithoutTokens(ts[1..], a);
      assert ts == [ts[0]] + ts[1..];
    }
  }

  lemma {:induction false} CarriersWithout(ts: seq<Token>, a: string, p: string)
    ensures |Carriers(Without(ts, a), p)| <= |Carriers(ts, p)|
  {
    if ts != [] {
      CarriersWithout(ts[1..], a, p);
      var rest := Without(ts[1..], a);
      assert ([ts[0]] + rest)[1..] == rest;
    }
  }

  // Rewriting the policies of one token leaves all identifiers in place.
  lemma {:induction false} WithPoliciesAt(ts: seq<Token>, a: string, names: seq<string>)
    ensures var us := WithPolicies(ts, a, names);
      |us| == |ts| &&
      forall i :: 0 <= i < |ts| ==> us[i] == if ts[i].accessorId == a then ts[i].(policies := names) else ts[i]
  {
    if ts != [] { WithPoliciesAt(ts[1..], a, names); }
  }

  lemma {:induction false} WithPoliciesTokens(ts: seq<Token>, a: string, names: seq<string>)
    requires GoodTokens(ts)
    ensures var us := WithPolicies(ts, a, names);
      |us| == |ts| && GoodTokens(us) &&
      forall i :: 0 <= i < |ts| ==> us[i] == if ts[i].accessorId == a then ts[i].(policies := names) else ts[i]
  {
    WithPoliciesAt(ts, a, names);
  }

  // Giving the policy to a token that carries it already adds no carrier.
  lemma {:induction false} CarriersWithPolicies(ts: seq<Token>, a: string, names: seq<string>, p: string)
    requires GoodTokens(ts) && forall t :: t in ts && t.accessorId == a ==> Carries(t, p)
    ensures |Carriers(WithPolicies(ts, a, names), p)| <= |Carriers(ts, p)|
  {
    if ts != [] {
      GoodTail(ts);
      CarriersWithPolicies(ts[1..], a, names, p);
      var u := if ts[0].accessorId == a then ts[0].(policies := names) else ts[0];
      var rest := WithPolicies(ts[1..], a, names);
      assert ([u] + rest)[1..] == rest;
      assert ts[0] in ts;
    }
  }

  // Finding a token by an identifier is finding the token that has it.
  lemma {:induction false} FindByAccessor(ts: seq<Token>, t: Token)
    requires GoodTokens(ts) && t in ts
    ensures WithAccessor(ts, t.accessorId) == Some(t)
  {
    GoodTail(ts);
    if ts[0] != t { FindByAccessor(ts[1..], t); }
  }

  lemma {:induction false} FindBySecret(ts: seq<Token>, t: Token)
    requires GoodTokens(ts) && t in ts
    ensures WithSecret(ts, t.secretId) == Some(t)
  {
    GoodTail(ts);
    if ts[0] != t { FindBySecret(ts[1..], t); }
  }

  lemma {:induction false} FoundIsThere(ts: seq<Token>, s: string)
    requires WithSecret(ts, s).Some?
    ensures WithSecret(ts, s).value in ts && WithSecret(ts, s).value.secretId == s
  {
    if ts[0].secretId != s { FoundIsThere(ts[1..], s); }
  }

  // ---- The clean-up ----

  // Whatever deletions fail, only listed tokens go.
  lemma {:induction false} DeleteAllTokens(ts: seq<Token>, env: Env, k: nat, ids: seq<string>, p: string)
    requires GoodTokens(ts)
    ensures var us := DeleteAll(ts, env, k, ids);
      GoodTokens(us) && |us| <= |ts| && |Carriers(us, p)| <= |Carriers(ts, p)| &&
      (forall t :: t in us ==> t in ts) && (forall t :: t in ts && t.accessorId !in ids ==> t in us)
    decreases ids
  {
    if ids != [] {
      var us := if Effective(env.fault(k)) then Without(ts, ids[0]) else ts;
      WithoutTokens(ts, ids[0]);
      CarriersWithout(ts, ids[0], p);
      DeleteAllTokens(us, env, k + 1, ids[1..], p);
    }
  }

  // The first carrier survives the clean-up.
  lemma {:induction false} CleanupKeepsFirst(w: World, env: Env, k: nat, p: string)
    requires GoodWorld(w)
    ensures var (v, kept) := Cleanup(w, env, k, p);
      GoodWorld(v) && v == w.(tokens := v.tokens) && |v.tokens| <= |w.tokens| &&
      |Carriers(v.tokens, p)| <= |Carriers(w.tokens, p)| &&
      (forall t :: t in v.tokens ==> t in w.tokens) &&
      (kept.Failed? ==> v == w) &&
      (kept.Ok? ==> (kept.value == "" <==> Carriers(w.tokens, p) == [])) &&
      (Carriers(w.tokens, p) != [] ==>
        Carriers(w.tokens, p)[0] in v.tokens && (kept.Ok? ==> kept.value == Carriers(w.tokens, p)[0].accessorId))
  {
    CarrierIdsAreCarriers(w.tokens, p);
    CarriersAreTokens(w.tokens, p);
    var c, ids := Carriers(w.tokens, p), CarrierIds(w.tokens, p);
    if c != [] {
      assert c[0] in c;
      CarriersDistinct(w.tokens, p);
      DeleteAllTokens(w.tokens, env, k + 1, ids[1..], p);
    }
  }

  lemma {:induction false} CarriersDistinct(ts: seq<Token>, p: string)
    requires GoodTokens(ts)
    ensures var ids := AccessorIds(Carriers(ts, p));
      |ids| == |Carriers(ts, p)| && (forall a :: a in ids ==> a != "" && exists t :: t in ts && t.accessorId == a) &&
      (ids != [] ==> ids[0] == Carriers(ts, p)[0].accessorId && ids[0] !in ids[1..])
  {
    if ts != [] {
      GoodTail(ts);
      CarriersDistinct(ts[1..], p);
      assert ts == [ts[0]] + ts[1..];
      assert ts[0] in ts;
    }
  }

  // ---- Policies ----

  predicate InPlace(w: World, p: Policy) {
    p.name in w.policies && w.policies[p.name].rules == p.rules && w.policies[p.name].description == p.description
  }

  ghost predicate DistinctNames(ps: seq<Policy>) {
    forall i, j :: 0 <= i < j < |ps| ==> ps[i].name != ps[j].name
  }

  // Only the policies of the list are touched, and only by giving them what the list says.
  ghost predicate OnlyRewrites(w: World, v: World, ps: seq<Policy>) {
    v == w.(policies := v.policies) && w.policies.Keys <= v.policies.Keys &&
    (forall n :: n in v.policies ==> v.policies[n].id != "") &&
    forall n :: n in v.policies && (n !in w.policies || v.policies[n] != w.policies[n]) ==>
      exists p :: p in ps && p.name == n
  }

  lemma WriteOne(w: World, env: Env, k: nat, p: Policy)
    requires GoodWorld(w) && FreshIds(env) && LoadPolicyID(w, env.fault(k), p.name).Ok?
    ensures var (v, ok) := PutPolicy(w, env, k + 1, LoadPolicyID(w, env.fault(k), p.name).value, p);
      OnlyRewrites(w, v, [p]) && (ok ==> InPlace(v, p))
  {
    assert p in [p];
  }

  lemma {:induction false} PoliciesEnsured(w: World, env: Env, k: nat, ps: seq<Policy>)
    requires GoodWorld(w) && FreshIds(env)
    ensures var (v, ok) := EnsurePolicies(w, env, k, ps);
      OnlyRewrites(w, v, ps) && (ok && DistinctNames(ps) ==> forall p :: p in ps ==> InPlace(v, p))
    decreases ps
  {
    if ps != [] && LoadPolicyID(w, env.fault(k), ps[0].name).Ok? {
      WriteOne(w, env, k, ps[0]);
      var (v, ok) := PutPolicy(w, env, k + 1, LoadPolicyID(w, env.fault(k), ps[0].name).value, ps[0]);
      if ok {
        PoliciesEnsured(v, env, k + 2, ps[1..]);
        RewritesCompose(w, v, EnsurePolicies(v, env, k + 2, ps[1..]).0, ps);
      } else {
        assert ps[0] in ps;
      }
    }
  }

  lemma RewritesCompose(w: World, v: World, u: World, ps: seq<Policy>)
    requires ps != [] && OnlyRewrites(w, v, [ps[0]]) && OnlyRewrites(v, u, ps[1..])
    ensures OnlyRewrites(w, u, ps)
    ensures InPlace(v, ps[0]) && DistinctNames(ps) ==> InPlace(u, ps[0])
  {
    forall n | n in u.policies && (n !in w.policies || u.policies[n] != w.policies[n])
      ensures exists p :: p in ps && p.name == n
    {
      if n !in v.policies || u.policies[n] != v.policies[n] {
        var p :| p in ps[1..] && p.name == n;
        assert p in ps;
      } else {
        assert ps[0] in ps && ps[0].name == n;
      }
    }
  }

  lemma {:induction false} NamesContain(ps: seq<Policy>, n: string)
    ensures n in Names(ps) <==> exists p :: p in ps && p.name == n
  {
    if ps != [] {
      NamesContain(ps[1..], n);
      assert ps == [ps[0]] + ps[1..];
      if n in Names(ps) && n != ps[0].name {
        var p :| p in ps[1..] && p.name == n;
        assert p in ps;
      } else if n == ps[0].name {
        assert ps[0] in ps;
      }
    }
  }

  // After the policies are ensured each of them exists.
  lemma {:induction false} AllNamed(w: World, env: Env, k: nat, ps: seq<Policy>)
    requires GoodWorld(w) && FreshIds(env) && EnsurePolicies(w, env, k, ps).1
    ensures forall n :: n in Names(ps) ==> n in EnsurePolicies(w, env, k, ps).0.policies
    decreases ps
  {
    if ps != [] {
      WriteOne(w, env, k, ps[0]);
      var v := PutPolicy(w, env, k + 1, LoadPolicyID(w, env.fault(k), ps[0].name).value, ps[0]).0;
      AllNamed(v, env, k + 2, ps[1..]);
      PoliciesEnsured(v, env, k + 2, ps[1..]);
    }
  }

  lemma {:induction false} NamesHaveAll(ps: seq<Policy>)
    ensures HasAll(Names(ps), ps)
  {
    forall i | 0 <= i < |ps| ensures ps[i].name in Names(ps) {
      assert ps[i] in ps;
      NamesContain(ps, ps[i].name);
    }
  }

  // ---- The token in the secret ----

  // The secret holds a live token that carries all required policies.
  predicate Ready(w: World, required: seq<Policy>) {
    w.secret.Holds? && w.secret.token != "" && WithSecret(w.tokens, w.secret.token).Some? &&
    HasAll(WithSecret(w.tokens, w.secret.token).value.policies, required)
  }

  // What the PUT of a token leaves behind: the identifiers of all tokens, and on success a token
  // with exactly these policies under the secret id it answers.
  lemma TokenPut(w: World, env: Env, f: Fault, names: seq<string>, existing: string)
    requires GoodWorld(w) && FreshIds(env)
    requires existing == "" || exists t :: t in w.tokens && t.accessorId == existing
    ensures var (v, r) := PutToken(w, env, f, names, existing);
      GoodWorld(v) && v == w.(tokens := v.tokens) && KeepsIds(w.tokens, v.tokens) &&
      (existing != "" ==> |v.tokens| == |w.tokens|) &&
      (r.Ok? ==> r.value != "" && exists t :: t in v.tokens && t.secretId == r.value && t.policies == names)
  {
    if Effective(f) && forall n :: n in names ==> n in w.policies {
      if existing == "" {
        NewTokenIsGood(w.tokens, env, names);
        var t := Token(env.newId(AccessorIds(w.tokens)), env.newId(SecretIds(w.tokens)), names);
        assert (w.tokens + [t])[|w.tokens|] == t;
      } else {
        var t :| t in w.tokens && t.accessorId == existing;
        RewrittenToken(w.tokens, t, names);
      }
    }
  }

  ghost predicate KeepsIds(ts: seq<Token>, us: seq<Token>) {
    |ts| <= |us| &&
    forall i :: 0 <= i < |ts| ==> us[i].accessorId == ts[i].accessorId && us[i].secretId == ts[i].secretId
  }

  lemma {:induction false} IdsContain(ts: seq<Token>)
    ensures forall t :: t in ts ==> t.accessorId in AccessorIds(ts) && t.secretId in SecretIds(ts)
  {
    if ts != [] {
      IdsContain(ts[1..]);
      assert ts == [ts[0]] + ts[1..];
    }
  }

  lemma {:induction false} NewTokenIsGood(ts: seq<Token>, env: Env, names: seq<string>)
    requires GoodTokens(ts) && FreshIds(env)
    ensures GoodTokens(ts + [Token(env.newId(AccessorIds(ts)), env.newId(SecretIds(ts)), names)])
  {
    IdsContain(ts);
    assert forall i :: 0 <= i < |ts| ==> ts[i] in ts;
  }

  lemma {:induction false} RewrittenToken(ts: seq<Token>, t: Token, names: seq<string>)
    requires GoodTokens(ts) && t in ts
    ensures var us := WithPolicies(ts, t.accessorId, names);
      GoodTokens(us) && |us| == |ts| && KeepsIds(ts, us) &&
      WithAccessor(ts, t.accessorId) == Some(t) && t.(policies := names) in us
  {
    WithPoliciesTokens(ts, t.accessorId, names);
    FindByAccessor(ts, t);
    var i :| 0 <= i < |ts| && ts[i] == t;
    assert WithPolicies(ts, t.accessorId, names)[i] == t.(policies := names);
  }

  // Rewriting a carrier to carry the policy again leaves a carrier and adds none.
  lemma {:induction false} RewrittenCarrier(ts: seq<Token>, t: Token, names: seq<string>, p: string)
    requires GoodTokens(ts) && t in ts && Carries(t, p) && p in names
    ensures 0 < |Carriers(WithPolicies(ts, t.accessorId, names), p)| <= |Carriers(ts, p)|
  {
    RewrittenToken(ts, t, names);
    forall u | u in ts && u.accessorId == t.accessorId ensures Carries(u, p) { FindByAccessor(ts, u); }
    CarriersWithPolicies(ts, t.accessorId, names, p);
    CarrierExists(WithPolicies(ts, t.accessorId, names), p);
  }

  // ---- What one run achieves and keeps ----

  function Accessors(ts: seq<Token>): set<string> {
    set t | t in ts :: t.accessorId
  }

  // No token is new, no more tokens carry the policy than before, and some token still does.
  ghost predicate NoNewTokens(w: World, v: World, p: string) {
    GoodWorld(v) && |v.tokens| <= |w.tokens| && Accessors(v.tokens) <= Accessors(w.tokens) &&
    0 < |Carriers(v.tokens, p)| <= |Carriers(w.tokens, p)|
  }

  lemma {:induction false} CarrierExists(ts: seq<Token>, p: string)
    ensures Carriers(ts, p) != [] <==> exists t :: t in ts && Carries(t, p)
  {
    CarriersAreTokens(ts, p);
    if Carriers(ts, p) != [] { assert Carriers(ts, p)[0] in Carriers(ts, p); }
  }

  lemma {:induction false} CleanupIsSafe(w: World, env: Env, k: nat, p: string)
    requires GoodWorld(w) && Carriers(w.tokens, p) != []
    ensures var (v, kept) := Cleanup(w, env, k, p);
      NoNewTokens(w, v, p) && v == w.(tokens := v.tokens) &&
      (kept.Ok? ==> kept.value != "" && exists t :: t in v.tokens && t.accessorId == kept.value && Carries(t, p))
  {
    CleanupKeepsFirst(w, env, k, p);
    CarriersAreTokens(w.tokens, p);
    var c := Carriers(w.tokens, p)[0];
    assert c in Carriers(w.tokens, p);
    CarrierExists(Cleanup(w, env, k, p).0.tokens, p);
  }

  lemma SameAccessors(ts: seq<Token>, us: seq<Token>)
    requires |ts| == |us| && KeepsIds(ts, us)
    ensures Accessors(us) <= Accessors(ts)
  {
    forall a | a in Accessors(us) ensures a in Accessors(ts) {
      var i :| 0 <= i < |us| && us[i].accessorId == a;
      assert ts[i] in ts;
    }
  }

  lemma PutIsSafe(w: World, env: Env, f: Fault, names: seq<string>, existing: string, p: string)
    requires GoodWorld(w) && FreshIds(env) && p in names && existing != ""
    requires exists t :: t in w.tokens && t.accessorId == existing && Carries(t, p)
    ensures NoNewTokens(w, PutToken(w, env, f, names, existing).0, p)
  {
    TokenPut(w, env, f, names, existing);
    var v := PutToken(w, env, f, names, existing).0;
    SameAccessors(w.tokens, v.tokens);
    var t :| t in w.tokens && t.accessorId == existing && Carries(t, p);
    CarrierExists(w.tokens, p);
    RewrittenCarrier(w.tokens, t, names, p);
  }

  lemma NoNewTokensTransitive(w: World, v: World, u: World, p: string)
    requires NoNewTokens(w, v, p) && NoNewTokens(v, u, p)
    ensures NoNewTokens(w, u, p)
  {
  }

  lemma {:induction false} RecreateKeepsCarrier(w: World, env: Env, k: nat, required: seq<Policy>, p: string)
    requires GoodWorld(w) && FreshIds(env) && p in Names(required) && Carriers(w.tokens, p) != []
    ensures NoNewTokens(w, Recreate(w, env, k, required, p).0, p)
  {
    CleanupIsSafe(w, env, k, p);
    var (v, kept) := Cleanup(w, env, k, p);
    if kept.Ok? {
      var f := env.fault(k + 1 + |CarrierIds(w.tokens, p)|);
      PutIsSafe(v, env, f, Names(required), kept.value, p);
      NoNewTokensTransitive(w, v, PutToken(v, env, f, Names(required), kept.value).0, p);
    }
  }

  // A run either stops with the tokens as they were, or goes on to clean up and create.
  lemma {:induction false} RunShape(w: World, env: Env, required: seq<Policy>, p: string)
    requires GoodWorld(w) && FreshIds(env)
    ensures var v, u := EnsurePolicies(w, env, 1, required).0, Reconcile(w, env, required, p).0;
      v == w.(policies := v.policies) && GoodWorld(v) &&
      (u == Recreate(v, env, 2 + 2 * |required|, required, p).0 || (u == w.(policies := u.policies) && GoodWorld(u)))
  {
    PoliciesEnsured(w, env, 1, required);
  }

  // While a token carries the policy, no run creates a token or adds a carrier, whatever fails, and
  // at least one carrier is left.
  lemma {:induction false} RunKeepsCarrier(w: World, env: Env, required: seq<Policy>, p: string)
    requires GoodWorld(w) && FreshIds(env) && p in Names(required) && Carriers(w.tokens, p) != []
    ensures NoNewTokens(w, Reconcile(w, env, required, p).0, p)
  {
    RunShape(w, env, required, p);
    RecreateKeepsCarrier(EnsurePolicies(w, env, 1, required).0, env, 2 + 2 * |required|, required, p);
  }

  lemma RecreateSucceeds(w: World, env: Env, k: nat, required: seq<Policy>, p: string)
    requires GoodWorld(w) && FreshIds(env) && Recreate(w, env, k, required, p).1
    ensures var v := Recreate(w, env, k, required, p).0;
      GoodWorld(v) && v.policies == w.policies && Ready(v, required)
  {
    CleanupKeepsFirst(w, env, k, p);
    CarriersAreTokens(w.tokens, p);
    if Carriers(w.tokens, p) != [] { assert Carriers(w.tokens, p)[0] in Carriers(w.tokens, p); }
    var (v, kept) := Cleanup(w, env, k, p);
    var f := env.fault(k + 1 + |CarrierIds(w.tokens, p)|);
    TokenPut(v, env, f, Names(required), kept.value);
    var (u, r) := PutToken(v, env, f, Names(required), kept.value);
    var t :| t in u.tokens && t.secretId == r.value && t.policies == Names(required);
    FindBySecret(u.tokens, t);
    NamesHaveAll(required);
  }

  // A run that returns no error leaves every required policy as required and a token with all of
  // them in the secret, whether it found the token in order or created or updated one.
  lemma ReconciledMeansReady(w: World, env: Env, required: seq<Policy>, p: string)
    requires GoodWorld(w) && FreshIds(env) && DistinctNames(required) && Reconcile(w, env, required, p).1
    ensures var v := Reconcile(w, env, required, p).0;
      GoodWorld(v) && (forall q :: q in required ==> InPlace(v, q)) && Ready(v, required)
  {
    PoliciesEnsured(w, env, 1, required);
    SuccessIsReady(w, env, required, p);
  }

  lemma {:induction false} SuccessIsReady(w: World, env: Env, required: seq<Policy>, p: string)
    requires GoodWorld(w) && FreshIds(env) && Reconcile(w, env, required, p).1
    ensures var v := Reconcile(w, env, required, p).0;
      GoodWorld(v) && v.policies == EnsurePolicies(w, env, 1, required).0.policies &&
      EnsurePolicies(w, env, 1, required).1 && Ready(v, required)
  {
    RunShape(w, env, required, p);
    var v := EnsurePolicies(w, env, 1, required).0;
    var k := 1 + 2 * |required|;
    var token := ReadSecret(w, env.fault(0)).value;
    if CheckToken(v, env.fault(k), token, required).value == "" {
      RecreateSucceeds(v, env, k + 1, required, p);
    }
  }

  // When the marker policy is among the required ones, the token of the secret is a carrier.
  lemma {:induction false} ReadyCarries(w: World, required: seq<Policy>, p: string)
    requires Ready(w, required) && p in Names(required)
    ensures Carriers(w.tokens, p) != []
  {
    FoundIsThere(w.tokens, w.secret.token);
    var t := WithSecret(w.tokens, w.secret.token).value;
    NamesContain(required, p);
    var q :| q in required && q.name == p;
    var i :| 0 <= i < |required| && required[i] == q;
    assert required[i].name in t.policies;
    CarrierExists(w.tokens, p);
  }

  // With the token of the secret in order, a run changes no token and not the secret, whatever
  // fails; and if it gets an answer to each request, it returns no error.
  lemma SettledRunChangesNothing(w: World, env: Env, required: seq<Policy>, p: string)
    requires GoodWorld(w) && FreshIds(env) && Ready(w, required)
    ensures var v := Reconcile(w, env, required, p).0;
      v.tokens == w.tokens && v.secret == w.secret && GoodWorld(v)
  {
    PoliciesEnsured(w, env, 1, required);
  }

  // ---- Repeated runs ----

  // What happens after a successful run: more runs, with any faults, and losses of the secret.
  datatype Later = Run(env: Env) | SecretErased

  function After(w: World, required: seq<Policy>, p: string, later: seq<Later>): World {
    if later == [] then w
    else
      var v := After(w, required, p, later[..|later| - 1]);
      match later[|later| - 1]
      case Run(env) => Reconcile(v, env, required, p).0
      case SecretErased => v.(secret := Absent)
  }

  ghost predicate AllFresh(later: seq<Later>) {
    forall i :: 0 <= i < |later| && later[i].Run? ==> FreshIds(later[i].env)
  }

  lemma {:induction false} CarriersPersist(w: World, required: seq<Policy>, p: string, later: seq<Later>)
    requires GoodWorld(w) && p in Names(required) && Carriers(w.tokens, p) != [] && AllFresh(later)
    ensures NoNewTokens(w, After(w, required, p, later), p)
  {
    if later != [] {
      var before := later[..|later| - 1];
      CarriersPersist(w, required, p, before);
      if later[|later| - 1].Run? {
        var v := After(w, required, p, before);
        RunKeepsCarrier(v, later[|later| - 1].env, required, p);
        NoNewTokensTransitive(w, v, After(w, required, p, later), p);
      }
    }
  }

  // Convergence: after a successful run, no sequence of further runs and losses of the secret ever
  // creates another token or raises the number of tokens that carry the marker policy.
  lemma {:induction false} Convergence(w: World, env: Env, required: seq<Policy>, p: string, later: seq<Later>)
    requires GoodWorld(w) && FreshIds(env) && p in Names(required) && AllFresh(later)
    requires Reconcile(w, env, required, p).1
    ensures var v := Reconcile(w, env, required, p).0; NoNewTokens(v, After(v, required, p, later), p)
  {
    SuccessIsReady(w, env, required, p);
    ReadyCarries(Reconcile(w, env, required, p).0, required, p);
    CarriersPersist(Reconcile(w, env, required, p).0, required, p, later);
  }

  // ---- What repeated runs do not repair ----

  // The secret holds a token that Consul does not know.
  predicate Stale(w: World) {
    w.secret.Holds? && w.secret.token != "" && WithSecret(w.tokens, w.secret.token).None?
  }

  // From there every run fails before it reaches the tokens or the secret, whatever is answered.
  lemma StaleStaysStale(w: World, env: Env, required: seq<Policy>, p: string)
    requires GoodWorld(w) && FreshIds(env) && Stale(w)
    ensures var (v, ok) := Reconcile(w, env, required, p);
      !ok && Stale(v) && v.tokens == w.tokens && v.secret == w.secret && GoodWorld(v)
  {
    PoliciesEnsured(w, env, 1, required);
  }

  ghost predicate Answering(env: Env) {
    forall k: nat :: env.fault(k).NoFault?
  }

  lemma {:induction false} PoliciesWritten(w: World, env: Env, k: nat, ps: seq<Policy>)
    requires GoodWorld(w) && FreshIds(env)
    requires forall j :: k <= j < k + 2 * |ps| ==> env.fault(j).NoFault?
    ensures var (v, ok) := EnsurePolicies(w, env, k, ps);
      ok && GoodWorld(v) && v == w.(policies := v.policies) && w.policies.Keys <= v.policies.Keys &&
      forall n :: n in Names(ps) ==> n in v.policies
    decreases ps
  {
    if ps != [] {
      WriteOne(w, env, k, ps[0]);
      var (v, ok) := PutPolicy(w, env, k + 1, LoadPolicyID(w, env.fault(k), ps[0].name).value, ps[0]);
      PoliciesWritten(v, env, k + 2, ps[1..]);
    }
  }

  // The i-th policy is written, and its load is served or is answered 403 for a policy that does not
  // exist by then.
  ghost predicate Served(w: World, env: Env, ps: seq<Policy>, i: nat)
    requires i < |ps|
  {
    env.fault(2 + 2 * i).NoFault? &&
    (env.fault(1 + 2 * i).NoFault? ||
     (env.fault(1 + 2 * i).Forbidden? && ps[i].name !in w.policies &&
      forall j :: 0 <= j < i ==> ps[j].name != ps[i].name))
  }

  // v is the world after the first n policies.
  ghost predicate WrittenUpTo(w: World, v: World, ps: seq<Policy>, n: nat)
    requires n <= |ps|
  {
    forall p :: p in v.policies <==> p in w.policies || exists j :: 0 <= j < n && ps[j].name == p
  }

  // Loading and writing one policy: the world and whether both succeeded.
  function EnsureOne(w: World, env: Env, k: nat, p: Policy): (World, bool) {
    var id := LoadPolicyID(w, env.fault(k), p.name);
    if id.Ok? then PutPolicy(w, env, k + 1, id.value, p) else (w, false)
  }

  lemma EnsureOneIff(w: World, env: Env, k: nat, p: Policy)
    requires GoodWorld(w) && FreshIds(env)
    ensures var (v, ok) := EnsureOne(w, env, k, p);
      (ok <==> env.fault(k + 1).NoFault? &&
               (env.fault(k).NoFault? || (env.fault(k).Forbidden? && p.name !in w.policies))) &&
      (ok ==> GoodWorld(v) && v.policies.Keys == w.policies.Keys + {p.name})
  {
  }

  lemma {:induction false} PoliciesEnsuredIff(w: World, v: World, env: Env, ps: seq<Policy>, n: nat)
    requires GoodWorld(v) && FreshIds(env) && n <= |ps| && WrittenUpTo(w, v, ps, n)
    ensures EnsurePolicies(v, env, 1 + 2 * n, ps[n..]).1 <==> forall i :: n <= i < |ps| ==> Served(w, env, ps, i)
    decreases |ps| - n
  {
    if n < |ps| {
      var (u, ok) := EnsureOne(v, env, 1 + 2 * n, ps[n]);
      EnsureOneIff(v, env, 1 + 2 * n, ps[n]);
      assert ok <==> Served(w, env, ps, n);
      assert ps[n..][1..] == ps[n + 1..];
      assert EnsurePolicies(v, env, 1 + 2 * n, ps[n..]).1 <==>
        ok && EnsurePolicies(u, env, 1 + 2 * (n + 1), ps[n + 1..]).1;
      if ok {
        OneMoreWritten(w, v, u, ps, n);
        PoliciesEnsuredIff(w, u, env, ps, n + 1);
      }
    }
  }

  lemma OneMoreWritten(w: World, v: World, u: World, ps: seq<Policy>, n: nat)
    requires n < |ps| && WrittenUpTo(w, v, ps, n) && u.policies.Keys == v.policies.Keys + {ps[n].name}
    ensures WrittenUpTo(w, u, ps, n + 1)
  {
    forall p ensures p in u.policies <==> p in w.policies || exists j :: 0 <= j < n + 1 && ps[j].name == p {
      assert p in u.policies <==> p in u.policies.Keys;
      assert p in v.policies <==> p in v.policies.Keys;
    }
  }

  lemma {:induction false} RecreatesIff(w: World, env: Env, k: nat, required: seq<Policy>, p: string)
    requires GoodWorld(w) && FreshIds(env) && forall n :: n in Names(required) ==> n in w.policies
    ensures Recreate(w, env, k, required, p).1 <==>
      var put := k + 1 + |CarrierIds(w.tokens, p)|;
      env.fault(k).NoFault? && env.fault(put).NoFault? && env.fault(put + 1).NoFault?
  {
    CleanupKeepsFirst(w, env, k, p);
    var (v, kept) := Cleanup(w, env, k, p);
    if Carriers(w.tokens, p) != [] {
      FindByAccessor(v.tokens, Carriers(w.tokens, p)[0]);
    }
  }

  // A run succeeds exactly when the secret can be read, every policy is loaded and written, the token
  // of the secret, if there is one, is shown, and, unless that token will do, the tokens are listed,
  // the new or the kept token is put and the secret is saved.  The deletions need not be answered.
  lemma SucceedsIff(w: World, env: Env, required: seq<Policy>, p: string)
    requires GoodWorld(w) && FreshIds(env)
    ensures Reconcile(w, env, required, p).1 <==>
      var check := 1 + 2 * |required|;
      var put := check + 2 + |CarrierIds(w.tokens, p)|;
      env.fault(0).NoFault? && !w.secret.WithoutToken? &&
      (forall i :: 0 <= i < |required| ==> Served(w, env, required, i)) &&
      (w.secret.Holds? && w.secret.token != "" ==> env.fault(check).NoFault?) && !Stale(w) &&
      (Ready(w, required) ||
       (env.fault(check + 1).NoFault? && env.fault(put).NoFault? && env.fault(put + 1).NoFault?))
  {
    PoliciesEnsuredIff(w, w, env, required, 0);
    assert required[0..] == required;
    if EnsurePolicies(w, env, 1, required).1 {
      var v := EnsuredWorld(w, env, required);
      CheckedIff(w, v, env, required, p);
      RecreatesIff(v, env, 2 + 2 * |required|, required, p);
    } else {
      assert !Reconcile(w, env, required, p).1;
    }
  }

  // The world after all policies are ensured, and what a run does with it.
  lemma EnsuredWorld(w: World, env: Env, required: seq<Policy>) returns (v: World)
    requires GoodWorld(w) && FreshIds(env) && EnsurePolicies(w, env, 1, required).1
    ensures (v, true) == EnsurePolicies(w, env, 1, required) && v == w.(policies := v.policies)
    ensures GoodWorld(v) && forall n :: n in Names(required) ==> n in v.policies
  {
    v := EnsurePolicies(w, env, 1, required).0;
    PoliciesEnsured(w, env, 1, required);
    AllNamed(w, env, 1, required);
  }

  lemma {:induction false} CheckedIff(w: World, v: World, env: Env, required: seq<Policy>, p: string)
    requires (v, true) == EnsurePolicies(w, env, 1, required) && v == w.(policies := v.policies)
    ensures Reconcile(w, env, required, p).1 <==>
      env.fault(0).NoFault? && !w.secret.WithoutToken? &&
      (w.secret.Holds? && w.secret.token != "" ==> env.fault(1 + 2 * |required|).NoFault?) && !Stale(w) &&
      (Ready(w, required) || Recreate(v, env, 2 + 2 * |required|, required, p).1)
  {
  }

  // A run that gets an answer to every request succeeds exactly when the secret can be read and
  // does not hold a token that Consul does not know.
  lemma AnsweredRunSucceedsIff(w: World, env: Env, required: seq<Policy>, p: string)
    requires GoodWorld(w) && FreshIds(env) && Answering(env)
    ensures Reconcile(w, env, required, p).1 <==> !w.secret.WithoutToken? && !Stale(w)
  {
    SucceedsIff(w, env, required, p);
  }

  // ---- When a run can strand the secret ----

  // The secret holds the secret id of this token.
  predicate HeldToken(w: World, t: Token) {
    t in w.tokens && w.secret == Holds(t.secretId)
  }

  // The token carries the policy, but is not the first that does.
  predicate IsDuplicate(ts: seq<Token>, t: Token, policyName: string) {
    var carriers := Carriers(ts, policyName);
    carriers != [] && t in carriers[1..]
  }

  lemma {:induction false} StillKnown(ts: seq<Token>, us: seq<Token>)
    requires KeepsIds(ts, us) && GoodTokens(us)
    ensures forall t :: t in ts ==> WithSecret(us, t.secretId).Some?
  {
    forall t | t in ts ensures WithSecret(us, t.secretId).Some? {
      var i :| 0 <= i < |ts| && ts[i] == t;
      FindBySecret(us, us[i]);
    }
  }

  // Creating or rewriting a token leaves the token of the secret known, whatever fails.
  lemma CreateKeepsKnown(w: World, env: Env, k: nat, names: seq<string>, existing: string, t: Token)
    requires GoodWorld(w) && FreshIds(env) && HeldToken(w, t)
    requires existing == "" || exists u :: u in w.tokens && u.accessorId == existing
    ensures !Stale(CreateToken(w, env, k, names, existing).0)
  {
    TokenPut(w, env, env.fault(k), names, existing);
    var (v, r) := PutToken(w, env, env.fault(k), names, existing);
    StillKnown(w.tokens, v.tokens);
    if r.Ok? {
      var n :| n in v.tokens && n.secretId == r.value && n.policies == names;
      FindBySecret(v.tokens, n);
    }
  }

  lemma CleanupAnswersToken(w: World, env: Env, k: nat, p: string)
    requires GoodWorld(w)
    ensures var (v, kept) := Cleanup(w, env, k, p);
      GoodWorld(v) && v.secret == w.secret &&
      (kept.Ok? ==> kept.value == "" || exists u :: u in v.tokens && u.accessorId == kept.value)
  {
    CleanupKeepsFirst(w, env, k, p);
  }

  // A token that survives the clean-up is still known after the run.
  lemma SurvivorStaysKnown(w: World, env: Env, k: nat, required: seq<Policy>, p: string, t: Token)
    requires GoodWorld(w) && FreshIds(env) && HeldToken(w, t) && t in Cleanup(w, env, k, p).0.tokens
    ensures !Stale(Recreate(w, env, k, required, p).0)
  {
    CleanupAnswersToken(w, env, k, p);
    var (v, kept) := Cleanup(w, env, k, p);
    if kept.Ok? {
      CreateKeepsKnown(v, env, k + 1 + |CarrierIds(w.tokens, p)|, Names(required), kept.value, t);
    } else {
      FindBySecret(v.tokens, t);
    }
  }

  // The clean-up deletes duplicates only: carriers other than the first.
  lemma DeletedIsDuplicate(w: World, env: Env, k: nat, p: string, t: Token)
    requires GoodWorld(w) && t in w.tokens && t !in Cleanup(w, env, k, p).0.tokens
    ensures IsDuplicate(w.tokens, t, p)
  {
    var c, ids := Carriers(w.tokens, p), CarrierIds(w.tokens, p);
    CarrierIdsAreCarriers(w.tokens, p);
    assert ids != [];
    DeleteAllTokens(w.tokens, env, k + 1, ids[1..], p);
    AccessorAt(c);
    var i :| 1 <= i < |ids| && ids[i] == t.accessorId;
    CarriersAreTokens(w.tokens, p);
    assert c[i] in c;
    FindByAccessor(w.tokens, c[i]);
    FindByAccessor(w.tokens, t);
    assert c[1..][i - 1] == t;
  }

  lemma {:induction false} AccessorAt(ts: seq<Token>)
    ensures |AccessorIds(ts)| == |ts| && forall i :: 0 <= i < |ts| ==> AccessorIds(ts)[i] == ts[i].accessorId
  {
    if ts != [] { AccessorAt(ts[1..]); }
  }

  // Recreating the token keeps any other token known.
  lemma OthersStayKnown(w: World, env: Env, k: nat, required: seq<Policy>, p: string, t: Token)
    requires GoodWorld(w) && FreshIds(env) && HeldToken(w, t) && !IsDuplicate(w.tokens, t, p)
    ensures !Stale(Recreate(w, env, k, required, p).0)
  {
    if t !in Cleanup(w, env, k, p).0.tokens { DeletedIsDuplicate(w, env, k, p, t); }
    SurvivorStaysKnown(w, env, k, required, p, t);
  }

  // The world after the policies and the world after the run.
  lemma RunParts(w: World, env: Env, required: seq<Policy>, p: string) returns (v: World, u: World)
    requires GoodWorld(w) && FreshIds(env)
    ensures u == Reconcile(w, env, required, p).0
    ensures v.tokens == w.tokens && v.secret == w.secret && GoodWorld(v)
    ensures (u.tokens == w.tokens && u.secret == w.secret) || u == Recreate(v, env, 2 + 2 * |required|, required, p).0
  {
    RunShape(w, env, required, p);
    v, u := EnsurePolicies(w, env, 1, required).0, Reconcile(w, env, required, p).0;
  }

  lemma CompleteTokenIsSafe(w: World, env: Env, required: seq<Policy>, p: string, t: Token)
    requires GoodWorld(w) && FreshIds(env) && HeldToken(w, t) && HasAll(t.policies, required)
    ensures !Stale(Reconcile(w, env, required, p).0)
  {
    FindBySecret(w.tokens, t);
    SettledRunChangesNothing(w, env, required, p);
  }

  lemma OtherTokenIsSafe(w: World, env: Env, required: seq<Policy>, p: string, t: Token)
    requires GoodWorld(w) && FreshIds(env) && HeldToken(w, t) && !IsDuplicate(w.tokens, t, p)
    ensures !Stale(Reconcile(w, env, required, p).0)
  {
    FindBySecret(w.tokens, t);
    var v, u := RunParts(w, env, required, p);
    OthersStayKnown(v, env, 2 + 2 * |required|, required, p, t);
  }

  // So a run strands a live token only by deleting it as a duplicate that lacks a policy.
  lemma OthersAreSafe(w: World, env: Env, required: seq<Policy>, p: string, t: Token)
    requires GoodWorld(w) && FreshIds(env) && HeldToken(w, t)
    requires HasAll(t.policies, required) || !IsDuplicate(w.tokens, t, p)
    ensures !Stale(Reconcile(w, env, required, p).0)
  {
    if HasAll(t.policies, required) {
      CompleteTokenIsSafe(w, env, required, p, t);
    } else {
      OtherTokenIsSafe(w, env, required, p, t);
    }
  }

  // One of the deletions, from the k-th request on, took effect on this token.
  ghost predicate Deletes(env: Env, k: nat, ids: seq<string>, t: Token) {
    exists i :: 0 <= i < |ids| && ids[i] == t.accessorId && Effective(env.fault(k + i))
  }

  lemma DeletesFirst(env: Env, k: nat, ids: seq<string>, t: Token)
    requires ids != []
    ensures Deletes(env, k, ids, t) <==>
      (ids[0] == t.accessorId && Effective(env.fault(k))) || Deletes(env, k + 1, ids[1..], t)
  {
    if Deletes(env, k + 1, ids[1..], t) {
      var i :| 0 <= i < |ids[1..]| && ids[1..][i] == t.accessorId && Effective(env.fault(k + 1 + i));
      assert ids[i + 1] == t.accessorId && Effective(env.fault(k + (i + 1)));
    }
    if Deletes(env, k, ids, t) && !(ids[0] == t.accessorId && Effective(env.fault(k))) {
      var i :| 0 <= i < |ids| && ids[i] == t.accessorId && Effective(env.fault(k + i));
      assert ids[1..][i - 1] == t.accessorId && Effective(env.fault(k + 1 + (i - 1)));
    }
  }

  // A deletion that fails does not stop the later ones: exactly the tokens go whose deletion took effect.
  lemma {:induction false} DeletedIff(ts: seq<Token>, env: Env, k: nat, ids: seq<string>)
    requires GoodTokens(ts)
    ensures forall t :: t in DeleteAll(ts, env, k, ids) <==> t in ts && !Deletes(env, k, ids, t)
    decreases ids
  {
    if ids != [] {
      var us := if Effective(env.fault(k)) then Without(ts, ids[0]) else ts;
      WithoutTokens(ts, ids[0]);
      DeletedIff(us, env, k + 1, ids[1..]);
      forall t ensures t in DeleteAll(ts, env, k, ids) <==> t in ts && !Deletes(env, k, ids, t) {
        DeletesFirst(env, k, ids, t);
      }
    }
  }

  // What the clean-up leaves, if the tokens are listed: all but the carriers after the first whose
  // deletion took effect.
  lemma {:induction false} CleanupLeaves(w: World, env: Env, k: nat, p: string, t: Token)
    requires GoodWorld(w) && env.fault(k).NoFault?
    ensures t in Cleanup(w, env, k, p).0.tokens <==>
      t in w.tokens &&
      !exists i :: 1 <= i < |Carriers(w.tokens, p)| && Carriers(w.tokens, p)[i] == t && Effective(env.fault(k + i))
  {
    var c, ids := Carriers(w.tokens, p), CarrierIds(w.tokens, p);
    CarrierIdsAreCarriers(w.tokens, p);
    AccessorAt(c);
    if ids != [] {
      DeletedIff(w.tokens, env, k + 1, ids[1..]);
      DeletesCarrier(w, env, k, p, t);
    }
  }

  // Deleting a token by its accessor is deleting the carrier it is.
  lemma {:induction false} DeletesCarrier(w: World, env: Env, k: nat, p: string, t: Token)
    requires GoodWorld(w) && Carriers(w.tokens, p) != [] && |CarrierIds(w.tokens, p)| == |Carriers(w.tokens, p)|
    requires forall i :: 0 <= i < |Carriers(w.tokens, p)| ==>
      CarrierIds(w.tokens, p)[i] == Carriers(w.tokens, p)[i].accessorId
    ensures t in w.tokens ==>
      (Deletes(env, k + 1, CarrierIds(w.tokens, p)[1..], t) <==>
       exists i :: 1 <= i < |Carriers(w.tokens, p)| && Carriers(w.tokens, p)[i] == t && Effective(env.fault(k + i)))
  {
    var c, ids := Carriers(w.tokens, p), CarrierIds(w.tokens, p);
    if t in w.tokens {
      if Deletes(env, k + 1, ids[1..], t) {
        var i :| 0 <= i < |ids[1..]| && ids[1..][i] == t.accessorId && Effective(env.fault(k + 1 + i));
        CarriersAreTokens(w.tokens, p);
        assert c[i + 1] in c;
        FindByAccessor(w.tokens, c[i + 1]);
        FindByAccessor(w.tokens, t);
        assert c[i + 1] == t && Effective(env.fault(k + (i + 1)));
      }
      if exists i :: 1 <= i < |c| && c[i] == t && Effective(env.fault(k + i)) {
        var i :| 1 <= i < |c| && c[i] == t && Effective(env.fault(k + i));
        assert ids[1..][i - 1] == t.accessorId && Effective(env.fault(k + 1 + (i - 1)));
      }
    }
  }

  // The faults of an outage that begins with the n-th request.
  function DownFrom(n: nat): nat -> Fault {
    (k: nat) => if k < n then NoFault else Down
  }

  // The number of requests a run makes before it puts the token.
  function RequestsBeforePut(w: World, required: seq<Policy>, p: string): nat {
    3 + 2 * |required| + |CarrierIds(w.tokens, p)|
  }

  lemma OutageDuringRecreate(w: World, env: Env, k: nat, required: seq<Policy>, p: string, t: Token)
    requires GoodWorld(w) && HeldToken(w, t) && IsDuplicate(w.tokens, t, p)
    requires env.fault == DownFrom(k + 1 + |CarrierIds(w.tokens, p)|)
    ensures Stale(Recreate(w, env, k, required, p).0)
  {
    var c, ids := Carriers(w.tokens, p), CarrierIds(w.tokens, p);
    var i :| 0 <= i < |c[1..]| && c[1..][i] == t;
    CarrierIdsAreCarriers(w.tokens, p);
    AccessorAt(c);
    assert c[i + 1] == t && Effective(env.fault(k + (i + 1)));
    CleanupLeaves(w, env, k, p, t);
    CleanupKeepsFirst(w, env, k, p);
    var v := Cleanup(w, env, k, p).0;
    if WithSecret(v.tokens, t.secretId).Some? {
      FoundIsThere(v.tokens, t.secretId);
      var u := WithSecret(v.tokens, t.secretId).value;
      FindBySecret(w.tokens, u);
      FindBySecret(w.tokens, t);
      assert false;
    }
  }

  // A run that is served up to the check of a token that lacks a policy goes on to recreate it.
  lemma ServedUpToCheck(w: World, env: Env, required: seq<Policy>, p: string, t: Token) returns (v: World)
    requires GoodWorld(w) && FreshIds(env) && HeldToken(w, t) && !HasAll(t.policies, required)
    requires forall j :: 0 <= j < 2 + 2 * |required| ==> env.fault(j).NoFault?
    ensures v.tokens == w.tokens && v.secret == w.secret && GoodWorld(v)
    ensures Reconcile(w, env, required, p) == Recreate(v, env, 2 + 2 * |required|, required, p)
  {
    PoliciesWritten(w, env, 1, required);
    FindBySecret(w.tokens, t);
    assert ReadSecret(w, env.fault(0)) == Ok(t.secretId) && t.secretId != "";
    v := EnsurePolicies(w, env, 1, required).0;
    var k := 1 + 2 * |required|;
    assert env.fault(k).NoFault?;
    assert CheckToken(v, env.fault(k), t.secretId, required) == Ok("");
  }

  // An outage that begins right before the PUT of the token strands a secret whose token is a duplicate.
  lemma OutageStrands(w: World, env: Env, required: seq<Policy>, p: string, t: Token)
    requires GoodWorld(w) && FreshIds(env) && HeldToken(w, t) && !HasAll(t.policies, required)
    requires IsDuplicate(w.tokens, t, p)
    requires env.fault == DownFrom(RequestsBeforePut(w, required, p))
    ensures Stale(Reconcile(w, env, required, p).0)
  {
    var k := 2 + 2 * |required|;
    assert forall j :: 0 <= j < k ==> env.fault(j).NoFault?;
    var v := ServedUpToCheck(w, env, required, p, t);
    assert RequestsBeforePut(w, required, p) == k + 1 + |CarrierIds(v.tokens, p)|;
    OutageDuringRecreate(v, env, k, required, p, t);
  }

  // From a secret that holds a live token, some faults make a run leave a secret that Consul no
  // longer knows exactly when that token lacks a required policy and carries the marker policy,
  // but is not the first token that does.
  lemma StrandsIff(w: World, env: Env, required: seq<Policy>, p: string, t: Token)
    requires GoodWorld(w) && FreshIds(env) && HeldToken(w, t)
    ensures (exists fault :: Stale(Reconcile(w, env.(fault := fault), required, p).0)) <==>
      !HasAll(t.policies, required) && IsDuplicate(w.tokens, t, p)
  {
    if !HasAll(t.policies, required) && IsDuplicate(w.tokens, t, p) {
      var fault := DownFrom(RequestsBeforePut(w, required, p));
      OutageStrands(w, env.(fault := fault), required, p, t);
    } else {
      forall fault ensures !Stale(Reconcile(w, env.(fault := fault), required, p).0) {
        OthersAreSafe(w, env.(fault := fault), required, p, t);
      }
    }
  }

  // For example: two tokens carry the first of two required policies, and the secret holds the
  // second token.
  lemma InterruptedRunStrandsSecret(p: Policy, q: Policy, first: Token, ours: Token, env: Env)
    returns (fault: nat -> Fault)
    requires p.name != q.name && first.policies == ours.policies == [p.name]
    requires GoodTokens([first, ours]) && FreshIds(env)
    ensures
      var w := World(map[], [first, ours], Holds(ours.secretId));
      GoodWorld(w) && !Stale(w) && Stale(Reconcile(w, env.(fault := fault), [p, q], p.name).0)
  {
    var w := World(map[], [first, ours], Holds(ours.secretId));
    assert ours == [first, ours][1];
    FindBySecret(w.tokens, ours);
    assert [p, q][1].name !in ours.policies;
    assert [first, ours][1..] == [ours] && [ours][1..] == [];
    assert Carriers([ours], p.name) == [ours];
    assert Carriers([first, ours], p.name)[1..] == [ours];
    fault := DownFrom(RequestsBeforePut(w, [p, q], p.name));
    OutageStrands(w, env.(fault := fault), [p, q], p.name, ours);
  }
}
