// Consul policy and token reconciliation: CheckAndCreateConsulPoliciesAndToken and what it calls,
// with Consul and the Kubernetes secret as abstract stores.
module Consul {
  import opened Wrappers
  import opened TokenListing

  datatype Policy = Policy(name: string, description: string, rules: string)

  // ---- The servers ----

  datatype StoredPolicy = StoredPolicy(id: string, description: string, rules: string)
  datatype Token = Token(accessorId: string, secretId: string, policies: seq<string>)

  // The Kubernetes secret: missing, without a "token" entry, or with one.
  datatype Secret = Absent | WithoutToken | Holds(token: string)

  // No other writer acts on these stores during a run.
  datatype World = World(policies: map<string, StoredPolicy>, tokens: seq<Token>, secret: Secret)

  // What may become of the k-th request: it is served, or has no effect, or has its effect but the
  // answer is lost, or is answered 403.
  datatype Fault = NoFault | Down | Lost | Forbidden

  // The world's part in a run, with the identifiers the server makes up for new objects.
  datatype Env = Env(fault: nat -> Fault, policyId: nat -> string, newId: seq<string> -> string)

  ghost predicate FreshIds(env: Env) {
    (forall ids: seq<string> :: env.newId(ids) != "" && env.newId(ids) !in ids) &&
    forall k: nat :: env.policyId(k) != ""
  }

  function Effective(f: Fault): bool {
    f.NoFault? || f.Lost?
  }

  function AccessorIds(ts: seq<Token>): seq<string> {
    if ts == [] then [] else [ts[0].accessorId] + AccessorIds(ts[1..])
  }

  function SecretIds(ts: seq<Token>): seq<string> {
    if ts == [] then [] else [ts[0].secretId] + SecretIds(ts[1..])
  }

  // Identifiers are never empty and never used twice.
  ghost predicate GoodTokens(ts: seq<Token>) {
    (forall i :: 0 <= i < |ts| ==> ts[i].accessorId != "" && ts[i].secretId != "") &&
    forall i, j :: 0 <= i < j < |ts| ==> ts[i].accessorId != ts[j].accessorId && ts[i].secretId != ts[j].secretId
  }

  ghost predicate GoodWorld(w: World) {
    GoodTokens(w.tokens) && forall n :: n in w.policies ==> w.policies[n].id != ""
  }

  function WithSecret(ts: seq<Token>, secretId: string): Option<Token> {
    if ts == [] then None else if ts[0].secretId == secretId then Some(ts[0]) else WithSecret(ts[1..], secretId)
  }

  function WithAccessor(ts: seq<Token>, accessorId: string): Option<Token> {
    if ts == [] then None else if ts[0].accessorId == accessorId then Some(ts[0]) else WithAccessor(ts[1..], accessorId)
  }

  function Without(ts: seq<Token>, accessorId: string): seq<Token> {
    if ts == [] then []
    else if ts[0].accessorId == accessorId then Without(ts[1..], accessorId)
    else [ts[0]] + Without(ts[1..], accessorId)
  }

  function WithPolicies(ts: seq<Token>, accessorId: string, names: seq<string>): seq<Token> {
    if ts == [] then []
    else
      var t := if ts[0].accessorId == accessorId then ts[0].(policies := names) else ts[0];
      [t] + WithPolicies(ts[1..], accessorId, names)
  }

  // The list endpoint shows every token with its accessor and its policies.
  function Listing(ts: seq<Token>): seq<RawToken> {
    if ts == [] then []
    else Listing(ts[..|ts| - 1]) + [RawToken(Some(ts[|ts| - 1].accessorId), Some(NamedAll(ts[|ts| - 1].policies)))]
  }

  function NamedAll(names: seq<string>): seq<RawPolicy> {
    if names == [] then [] else [Named(names[0])] + NamedAll(names[1..])
  }

  function CarrierIds(ts: seq<Token>, policyName: string): seq<string> {
    Matching(Listing(ts), policyName)
  }

  // ---- Requests ----

  datatype Answer<T> = Ok(value: T) | Failed

  function ReadSecret(w: World, f: Fault): Answer<string> {
    if !f.NoFault? || w.secret.WithoutToken? then Failed
    else if w.secret.Absent? then Ok("") else Ok(w.secret.token)
  }

  // 403 counts as "no such policy".
  function LoadPolicyID(w: World, f: Fault, name: string): Answer<string> {
    match f
    case Forbidden => Ok("")
    case NoFault => Ok(if name in w.policies then w.policies[name].id else "")
    case _ => Failed
  }

  // Creating what exists is refused; updating an id that does not exist is answered 404, which
  // counts as a success.
  function PutPolicy(w: World, env: Env, k: nat, id: string, p: Policy): (World, bool) {
    var refused := id == "" && p.name in w.policies;
    var missing := id != "" && (p.name !in w.policies || w.policies[p.name].id != id);
    if !Effective(env.fault(k)) || refused then (w, false)
    else if missing then (w, env.fault(k).NoFault?)
    else
      var newId := if id == "" then env.policyId(k) else id;
      (w.(policies := w.policies[p.name := StoredPolicy(newId, p.description, p.rules)]), env.fault(k).NoFault?)
  }

  // GET token/self fails for a token Consul does not know.
  function TokenPolicies(w: World, f: Fault, secretId: string): Answer<seq<string>> {
    var t := WithSecret(w.tokens, secretId);
    if !f.NoFault? || t.None? then Failed else Ok(t.value.policies)
  }

  function Names(ps: seq<Policy>): seq<string> {
    if ps == [] then [] else [ps[0].name] + Names(ps[1..])
  }

  // The PUT of a token, and the secret id in its answer.  A token may only name policies that
  // exist; an unknown accessor is answered 404, which leaves no secret id to read.
  function PutToken(w: World, env: Env, f: Fault, names: seq<string>, existing: string): (World, Answer<string>) {
    if !Effective(f) || exists n :: n in names && n !in w.policies then (w, Failed)
    else if existing == "" then
      var t := Token(env.newId(AccessorIds(w.tokens)), env.newId(SecretIds(w.tokens)), names);
      (w.(tokens := w.tokens + [t]), if f.NoFault? then Ok(t.secretId) else Failed)
    else
      var t := WithAccessor(w.tokens, existing);
      if t.None? then (w, Failed)
      else (w.(tokens := WithPolicies(w.tokens, existing, names)), if f.NoFault? then Ok(t.value.secretId) else Failed)
  }

  function SaveSecret(w: World, f: Fault, token: string): (World, bool) {
    (if Effective(f) then w.(secret := Holds(token)) else w, f.NoFault?)
  }

  // ---- A run, as a function of the world ----

  // Two requests per policy, from the k-th on.
  function EnsurePolicies(w: World, env: Env, k: nat, ps: seq<Policy>): (World, bool)
    decreases ps
  {
    if ps == [] then (w, true)
    else
      match LoadPolicyID(w, env.fault(k), ps[0].name)
      case Failed => (w, false)
      case Ok(id) =>
        var (v, ok) := PutPolicy(w, env, k + 1, id, ps[0]);
        if ok then EnsurePolicies(v, env, k + 2, ps[1..]) else (v, false)
  }

  predicate HasAll(names: seq<string>, required: seq<Policy>) {
    forall i :: 0 <= i < |required| ==> required[i].name in names
  }

  function CheckToken(w: World, f: Fault, token: string, required: seq<Policy>): Answer<string> {
    if token == "" then Ok("")
    else
      match TokenPolicies(w, f, token)
      case Failed => Failed
      case Ok(names) => Ok(if HasAll(names, required) then token else "")
  }

  // Failed deletions are ignored.
  function DeleteAll(ts: seq<Token>, env: Env, k: nat, ids: seq<string>): seq<Token>
    decreases ids
  {
    if ids == [] then ts
    else DeleteAll(if Effective(env.fault(k)) then Without(ts, ids[0]) else ts, env, k + 1, ids[1..])
  }

  function Cleanup(w: World, env: Env, k: nat, policyName: string): (World, Answer<string>) {
    var ids := CarrierIds(w.tokens, policyName);
    if !env.fault(k).NoFault? then (w, Failed)
    else if ids == [] then (w, Ok(""))
    else (w.(tokens := DeleteAll(w.tokens, env, k + 1, ids[1..])), Ok(ids[0]))
  }

  function CreateToken(w: World, env: Env, k: nat, names: seq<string>, existing: string): (World, bool) {
    var (v, secretId) := PutToken(w, env, env.fault(k), names, existing);
    match secretId
    case Failed => (v, false)
    case Ok(id) => SaveSecret(v, env.fault(k + 1), id)
  }

  function Recreate(w: World, env: Env, k: nat, required: seq<Policy>, duplicated: string): (World, bool) {
    var (v, existing) := Cleanup(w, env, k, duplicated);
    match existing
    case Failed => (v, false)
    case Ok(id) => CreateToken(v, env, k + 1 + |CarrierIds(w.tokens, duplicated)|, Names(required), id)
  }

  function Reconcile(w: World, env: Env, required: seq<Policy>, duplicated: string): (World, bool) {
    match ReadSecret(w, env.fault(0))
    case Failed => (w, false)
    case Ok(token) =>
      var (v, ok) := EnsurePolicies(w, env, 1, required);
      var k := 1 + 2 * |required|;
      if !ok then (v, false)
      else
        match CheckToken(v, env.fault(k), token, required)
        case Failed => (v, false)
        case Ok(valid) => if valid != "" then (v, true) else Recreate(v, env, k + 1, required, duplicated)
  }

  // ---- The loops of the source ----

  method EnsurePoliciesInPlace(start: World, env: Env, first: nat, required: seq<Policy>) returns (w: World, ok: bool)
    ensures (w, ok) == EnsurePolicies(start, env, first, required)
  {
    w, ok := start, true;
    var k: nat := first;
    for i := 0 to |required|
      invariant ok && EnsurePolicies(w, env, k, required[i..]) == EnsurePolicies(start, env, first, required)
    {
      var policy := required[i];
      assert required[i..][1..] == required[i + 1..];
      var policyID := LoadPolicyID(w, env.fault(k), policy.name);
      if policyID.Failed? {
        return w, false;
      }
      var (v, written) := PutPolicy(w, env, k + 1, policyID.value, policy);
      w := v;
      if !written {
        return w, false;
      }
      k := k + 2;
    }
  }

  method CheckRequiredPoliciesOnToken(w: World, f: Fault, tokenFromSecret: string, required: seq<Policy>)
    returns (r: Answer<string>)
    ensures r == CheckToken(w, f, tokenFromSecret, required)
  {
    if tokenFromSecret == "" {
      return Ok("");
    }
    var tokenInfo := TokenPolicies(w, f, tokenFromSecret);
    if tokenInfo.Failed? {
      return Failed;
    }
    for i := 0 to |required|
      invariant HasAll(tokenInfo.value, required[..i])
    {
      var found := false;
      for j := 0 to |tokenInfo.value|
        invariant !found && required[i].name !in tokenInfo.value[..j]
      {
        if tokenInfo.value[j] == required[i].name {
          found := true;
          break;
        }
      }
      if !found {
        return Ok("");
      }
    }
    assert required[..|required|] == required;
    r := Ok(tokenFromSecret);
  }

  method CleanupDuplicateTokens(start: World, env: Env, first: nat, policyName: string)
    returns (w: World, r: Answer<string>)
    ensures (w, r) == Cleanup(start, env, first, policyName)
  {
    w := start;
    if !env.fault(first).NoFault? {
      return w, Failed;
    }
    var keep, deletes := PlanCleanup(Listing(start.tokens), policyName);
    var k: nat := first + 1;
    for i := 0 to |deletes|
      invariant w == start.(tokens := w.tokens)
      invariant DeleteAll(w.tokens, env, k, deletes[i..]) == DeleteAll(start.tokens, env, first + 1, deletes)
    {
      assert deletes[i..][1..] == deletes[i + 1..];
      if Effective(env.fault(k)) {
        w := w.(tokens := Without(w.tokens, deletes[i]));
      }
      k := k + 1;
    }
    r := Ok(keep);
  }

  method RecreateToken(start: World, env: Env, first: nat, required: seq<Policy>, duplicated: string)
    returns (w: World, ok: bool)
    ensures (w, ok) == Recreate(start, env, first, required, duplicated)
  {
    var existing;
    w, existing := CleanupDuplicateTokens(start, env, first, duplicated);
    if existing.Failed? {
      return w, false;
    }
    var k := first + 1 + |CarrierIds(start.tokens, duplicated)|;
    var created := CreateToken(w, env, k, Names(required), existing.value);
    w, ok := created.0, created.1;
  }

  method CheckAndCreateConsulPoliciesAndToken(start: World, env: Env, required: seq<Policy>, duplicated: string)
    returns (w: World, ok: bool)
    ensures (w, ok) == Reconcile(start, env, required, duplicated)
  {
    w := start;
    var tokenFromSecret := ReadSecret(w, env.fault(0));
    if tokenFromSecret.Failed? {
      return w, false;
    }
    w, ok := EnsurePoliciesInPlace(w, env, 1, required);
    if !ok {
      return;
    }
    var k := 1 + 2 * |required|;
    if tokenFromSecret.value != "" {
      var valid := CheckRequiredPoliciesOnToken(w, env.fault(k), tokenFromSecret.value, required);
      if valid.Failed? {
        return w, false;
      }
      if valid.value != "" {
        return w, true;
      }
    }
    w, ok := RecreateToken(w, env, k + 1, required, duplicated);
  }
}
