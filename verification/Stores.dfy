/** src/tokenStore.ts, src/requestStore.ts and the store of src/policy.ts: maps
    by id over append-only files, tokens and policies behind the breaker. */
module StoreObjects {
  import opened Core
  import opened JsonlStore
  import opened CircuitBreakers
  import opened Domain
  import opened Steps

  function TokenKey(t: Token): string { t.id }

  function RequestKey(r: Request): string { r.id }

  function PolicyKey(p: Policy): string { p.id }

  /** What a store with no file, or with this file, starts from. */
  function Rehydrated<V>(persistTo: Option<File<V>>, key: V -> string): JsMap<V> {
    if persistTo.None? then EmptyMap() else Replay(Parsed(LinesOf(persistTo.value)), key)
  }

  /** The constructors' loop: one Map.set per line that still reads. */
  method Rehydrate<V>(persistTo: Option<File<V>>, key: V -> string) returns (m: JsMap<V>)
    ensures m == Rehydrated(persistTo, key)
  {
    m := EmptyMap();
    if persistTo.None? {
      return;
    }
    var values := RehydrateJsonLines(persistTo.value);
    for i := 0 to |values|
      invariant m == Replay(values[..i], key)
    {
      assert values[..i + 1] == values[..i] + [values[i]];
      ReplayAppend(values[..i], values[i], key);
      m := m.Set(key(values[i]), values[i]);
    }
    assert values[..|values|] == values;
  }

  /** The file after one more save. */
  function FileWith<V>(persistTo: Option<File<V>>, v: V): Option<File<V>> {
    if persistTo.None? then None else Some(Appended(persistTo.value, v))
  }

  lemma SavedRehydrates<V>(persistTo: Option<File<V>>, v: V, key: V -> string)
    requires persistTo.Some?
    ensures Rehydrated(FileWith(persistTo, v), key) == Rehydrated(persistTo, key).Set(key(v), v)
  {
    ParsedAppend(persistTo.value, v);
    ReplayAppend(Parsed(LinesOf(persistTo.value)), v, key);
  }

  /** What one guarded call does to the breaker and to the log behind it. */
  twostate predicate Guarded(breaker: CircuitBreaker, clock: int, ok: bool)
    reads breaker, breaker.auditLog
  {
    var (b, outcome, change) := Executed(old(breaker.View()), false, clock);
    && breaker.View() == b && ok == (outcome == Succeeded)
    && breaker.auditLog.Log() == old(breaker.auditLog.Log()) + TransitionRecords(change, clock)
    && breaker.auditLog.disk.Some? == old(breaker.auditLog.disk.Some?)
  }

  class TokenStore {
    var tokens: JsMap<Token>
    var persistTo: Option<File<Token>>
    const breaker: CircuitBreaker

    /** The map is a map, and a restart would bring it back. */
    ghost predicate Valid()
      reads this
    {
      tokens.Valid() && (persistTo.Some? ==> Rehydrated(persistTo, TokenKey) == tokens)
    }

    constructor (breaker: CircuitBreaker, persistTo: Option<File<Token>>)
      ensures this.breaker == breaker && this.persistTo == persistTo
      ensures Valid() && tokens == Rehydrated(persistTo, TokenKey)
    {
      this.breaker := breaker;
      this.persistTo := persistTo;
      tokens := EmptyMap();
      new;
      tokens := Rehydrate(persistTo, TokenKey);
    }

    method Save(token: Token, clock: int) returns (ok: bool)
      requires Valid() && breaker.auditLog.Valid()
      modifies this, breaker, breaker.auditLog
      ensures Valid() && breaker.auditLog.Valid()
      ensures Guarded(breaker, clock, ok)
      ensures tokens == if ok then old(tokens).Set(token.id, token) else old(tokens)
      ensures persistTo == if ok then FileWith(old(persistTo), token) else old(persistTo)
    {
      var outcome := breaker.Execute(false, clock);
      ok := outcome == Succeeded;
      if ok {
        SetKeepsValid(tokens, token.id, token);
        if persistTo.Some? {
          SavedRehydrates(persistTo, token, TokenKey);
          persistTo := Some(Appended(persistTo.value, token));
        }
        tokens := tokens.Set(token.id, token);
      }
    }

    method Get(id: string, clock: int) returns (ok: bool, found: Option<Token>)
      requires Valid() && breaker.auditLog.Valid()
      modifies breaker, breaker.auditLog
      ensures breaker.auditLog.Valid()
      ensures Guarded(breaker, clock, ok)
      ensures found == if ok then tokens.Get(id) else None
    {
      var outcome := breaker.Execute(false, clock);
      ok := outcome == Succeeded;
      found := if ok then tokens.Get(id) else None;
    }

    method ChildrenOf(parentId: string) returns (kids: seq<Token>)
      requires Valid()
      ensures kids == Children(tokens, parentId)
    {
      var all := tokens.Values();
      kids := [];
      for i := 0 to |all|
        invariant kids == ChildrenAmong(all[..i], parentId)
      {
        assert all[..i + 1][..i] == all[..i];
        if all[i].parentTokenId == Some(parentId) {
          kids := kids + [all[i]];
        }
      }
      assert all[..|all|] == all;
    }
  }

  class PolicyStore {
    var policies: JsMap<Policy>
    var persistTo: Option<File<Policy>>
    const breaker: CircuitBreaker

    ghost predicate Valid()
      reads this
    {
      policies.Valid() && (persistTo.Some? ==> Rehydrated(persistTo, PolicyKey) == policies)
    }

    constructor (breaker: CircuitBreaker, persistTo: Option<File<Policy>>)
      ensures this.breaker == breaker && this.persistTo == persistTo
      ensures Valid() && policies == Rehydrated(persistTo, PolicyKey)
    {
      this.breaker := breaker;
      this.persistTo := persistTo;
      policies := EmptyMap();
      new;
      policies := Rehydrate(persistTo, PolicyKey);
    }

    method Save(policy: Policy, clock: int) returns (ok: bool)
      requires Valid() && breaker.auditLog.Valid()
      modifies this, breaker, breaker.auditLog
      ensures Valid() && breaker.auditLog.Valid()
      ensures Guarded(breaker, clock, ok)
      ensures policies == if ok then old(policies).Set(policy.id, policy) else old(policies)
      ensures persistTo == if ok then FileWith(old(persistTo), policy) else old(persistTo)
    {
      var outcome := breaker.Execute(false, clock);
      ok := outcome == Succeeded;
      if ok {
        SetKeepsValid(policies, policy.id, policy);
        if persistTo.Some? {
          SavedRehydrates(persistTo, policy, PolicyKey);
          persistTo := Some(Appended(persistTo.value, policy));
        }
        policies := policies.Set(policy.id, policy);
      }
    }

    method Get(id: string, clock: int) returns (ok: bool, found: Option<Policy>)
      requires Valid() && breaker.auditLog.Valid()
      modifies breaker, breaker.auditLog
      ensures breaker.auditLog.Valid()
      ensures Guarded(breaker, clock, ok)
      ensures found == if ok then policies.Get(id) else None
    {
      var outcome := breaker.Execute(false, clock);
      ok := outcome == Succeeded;
      found := if ok then policies.Get(id) else None;
    }
  }

  /** filter(): the pending ones, in order. */
  function PendingAmong(rs: seq<Request>): seq<Request> {
    if rs == [] then []
    else
      var n := |rs| - 1;
      PendingAmong(rs[..n]) + if rs[n].status == RequestStatus.Pending then [rs[n]] else []
  }

  lemma {:induction false} PendingMembers(rs: seq<Request>)
    ensures forall r :: r in PendingAmong(rs) <==> r in rs && r.status == RequestStatus.Pending
  {
    if rs != [] {
      var n := |rs| - 1;
      PendingMembers(rs[..n]);
      assert rs == rs[..n] + [rs[n]];
    }
  }

  /** It keeps the order and loses and repeats nothing. */
  lemma {:induction false} PendingSplit(a: seq<Request>, b: seq<Request>)
    ensures PendingAmong(a + b) == PendingAmong(a) + PendingAmong(b)
  {
    if b == [] {
      assert a + b == a;
    } else {
      var n := |b| - 1;
      PendingSplit(a, b[..n]);
      PendingSplitOn(a, b[..n], b[n]);
      assert b == b[..n] + [b[n]];
    }
  }

  lemma {:induction false} PendingSplitOn(a: seq<Request>, b: seq<Request>, r: Request)
    requires PendingAmong(a + b) == PendingAmong(a) + PendingAmong(b)
    ensures PendingAmong(a + (b + [r])) == PendingAmong(a) + PendingAmong(b + [r])
  {
    PendingAfter(a + b, r);
    PendingAfter(b, r);
    ConcatAssociates(a, b, [r]);
    ConcatAssociates(PendingAmong(a), PendingAmong(b), if r.status == RequestStatus.Pending then [r] else []);
  }

  lemma {:induction false} PendingAfter(rs: seq<Request>, r: Request)
    ensures PendingAmong(rs + [r]) == PendingAmong(rs) + if r.status == RequestStatus.Pending then [r] else []
  {
    assert (rs + [r])[..|rs|] == rs;
  }

  lemma PendingOfOne(r: Request)
    ensures PendingAmong([r]) == if r.status == RequestStatus.Pending then [r] else []
  {
    assert [r][..0] == [];
  }

  class RequestStore {
    var requests: JsMap<Request>
    var persistTo: Option<File<Request>>

    /** Whether no line of the file it started from carries a secret. */
    ghost const clean: bool

    /** A restart would bring back every request, and, the file being clean, without
        its secret. */
    ghost predicate Valid()
      reads this
    {
      && requests.Valid()
      && (persistTo.Some? ==>
            && MapValues(Rehydrated(persistTo, RequestKey), WithoutSecret) == MapValues(requests, WithoutSecret)
            && (clean ==> SecretFree(persistTo.value)))
    }

    constructor (persistTo: Option<File<Request>>)
      ensures this.persistTo == persistTo && requests == Rehydrated(persistTo, RequestKey)
      ensures Valid() && (clean <==> persistTo.Some? ==> SecretFree(persistTo.value))
    {
      this.persistTo := persistTo;
      clean := persistTo.Some? ==> SecretFree(persistTo.value);
      requests := EmptyMap();
      new;
      requests := Rehydrate(persistTo, RequestKey);
    }

    method Save(request: Request)
      requires Valid()
      modifies this
      ensures Valid()
      ensures requests == old(requests).Set(request.id, request)
      ensures persistTo == FileWith(old(persistTo), WithoutSecret(request))
    {
      SetKeepsValid(requests, request.id, request);
      MapValuesSet(requests, request.id, request, WithoutSecret);
      if persistTo.Some? {
        SavedRehydrates(persistTo, WithoutSecret(request), RequestKey);
        MapValuesSet(Rehydrated(persistTo, RequestKey), request.id, WithoutSecret(request), WithoutSecret);
        ParsedAppend(persistTo.value, WithoutSecret(request));
        persistTo := Some(Appended(persistTo.value, WithoutSecret(request)));
      }
      requests := requests.Set(request.id, request);
    }

    function Get(id: string): Option<Request>
      reads this
    {
      requests.Get(id)
    }

    method FindByIdempotencyKey(subject: string, key: string) returns (found: Option<Request>)
      requires Valid()
      ensures found == FirstWithKey(requests.Values(), subject, key)
    {
      var all := requests.Values();
      for i := 0 to |all|
        invariant FirstWithKey(all[i..], subject, key) == FirstWithKey(all, subject, key)
      {
        assert all[i..][1..] == all[i + 1..];
        if all[i].subject == subject && all[i].idempotencyKey == Some(key) {
          return Some(all[i]);
        }
      }
      return None;
    }

    /** What still needs an approver: every pending request, and no other, once
        each, in map order. */
    method Pending() returns (waiting: seq<Request>)
      requires Valid()
      ensures waiting == PendingAmong(requests.Values())
      ensures forall r :: r in waiting
                <==> exists id :: id in requests.at && requests.at[id] == r && r.status == RequestStatus.Pending
    {
      var all := requests.Values();
      waiting := [];
      for i := 0 to |all|
        invariant waiting == PendingAmong(all[..i])
      {
        assert all[..i + 1][..i] == all[..i];
        if all[i].status == RequestStatus.Pending {
          waiting := waiting + [all[i]];
        }
      }
      assert all[..|all|] == all;
      PendingMembers(all);
      forall r
        ensures r in all <==> exists id :: id in requests.at && requests.at[id] == r
      {
        if r in all {
          var i :| 0 <= i < |all| && all[i] == r;
          assert requests.order[i] in requests.at;
        }
        if id :| id in requests.at && requests.at[id] == r {
          var i :| 0 <= i < |requests.order| && requests.order[i] == id;
          assert all[i] == r;
        }
      }
    }
  }

  /** A request file as save() writes it: no line carries a secret. */
  ghost predicate SecretFree(file: File<Request>) {
    forall i :: 0 <= i < |Parsed(LinesOf(file))| ==> Parsed(LinesOf(file))[i].tokenSecret == None
  }

  lemma {:induction false} RehydratedSecretFree(vs: seq<Request>)
    requires forall i :: 0 <= i < |vs| ==> vs[i].tokenSecret == None
    ensures MapValues(Replay(vs, RequestKey), WithoutSecret) == Replay(vs, RequestKey)
  {
    if vs != [] {
      var n := |vs| - 1;
      RehydratedSecretFree(vs[..n]);
      MapValuesSet(Replay(vs[..n], RequestKey), vs[n].id, vs[n], WithoutSecret);
    }
  }

  /** What a restart would bring back of a request store. */
  lemma FileRemembers(store: RequestStore)
    requires store.Valid() && store.persistTo.Some?
    ensures var found := Rehydrated(store.persistTo, RequestKey);
            && MapValues(found, WithoutSecret) == MapValues(store.requests, WithoutSecret)
            && (store.clean ==> SecretFree(store.persistTo.value) && found == MapValues(store.requests, WithoutSecret))
  {
    if store.clean {
      RehydratedSecretFree(Parsed(LinesOf(store.persistTo.value)));
    }
  }

  lemma RestartForgets(s: Sys)
    ensures Restart(s).requests == MapValues(s.requests, WithoutSecret)
  {
    assert MapValues(s.requests, WithoutSecret).at
        == map id | id in s.requests.at :: WithoutSecret(s.requests.at[id]);
  }
}
