/** Bootstrap tokens: issued once, used once, kept in memory or as a sorted list in storage. */
module Tokens {
  import opened Sorting
  import opened Text
  import opened Wrappers

  datatype TokenRecord = TokenRecord(token: string, issuedAt: int, expiresAt: int, used: bool)

  datatype TokenError = TokenNotFound | TokenAlreadyUsed | TokenExpired

  type Table = map<string, TokenRecord>

  predicate KeyedByToken(m: Table)
  {
    forall t :: t in m ==> m[t].token == t
  }

  function Issued(m: Table, token: string, now: int, ttl: int): Table
  {
    m[token := TokenRecord(token, now, now + ttl, false)]
  }

  function Check(m: Table, token: string, now: int): Option<TokenError>
  {
    if token !in m then Some(TokenNotFound)
    else if m[token].used then Some(TokenAlreadyUsed)
    else if m[token].expiresAt <= now then Some(TokenExpired)
    else None
  }

  function Marked(m: Table, token: string): Table
    requires token in m
  {
    m[token := m[token].(used := true)]
  }

  // ---------------------------------------------------------------- the stored list

  function TokenOf(r: TokenRecord): string { r.token }

  predicate TokenLe(a: TokenRecord, b: TokenRecord)
  {
    if a.expiresAt == b.expiresAt then StrLe(a.token, b.token) else a.expiresAt < b.expiresAt
  }

  lemma TokenLeTotalOrder()
    ensures TotalOrder(TokenLe)
  {
    forall x: TokenRecord, y: TokenRecord
      ensures TokenLe(x, y) || TokenLe(y, x)
    {
      StrLeTotal(x.token, y.token);
    }
    forall x: TokenRecord, y: TokenRecord, z: TokenRecord | TokenLe(x, y) && TokenLe(y, z)
      ensures TokenLe(x, z)
    {
      if x.expiresAt == y.expiresAt == z.expiresAt {
        StrLeTrans(x.token, y.token, z.token);
      }
    }
  }

  /** Loading a stored list: of two records of one token the later counts. */
  function FromList(items: seq<TokenRecord>): Table
  {
    if items == [] then map[]
    else FromList(items[..|items| - 1])[items[|items| - 1].token := items[|items| - 1]]
  }

  /** `items` holds exactly the records of `m`, once each, ordered by expiry and token. */
  ghost predicate ListForm(items: seq<TokenRecord>, m: Table)
  {
    && SortedBy(items, TokenLe)
    && DistinctBy(items, TokenOf)
    && (forall r :: r in items <==> r.token in m && m[r.token] == r)
  }

  lemma FromListStep(items: seq<TokenRecord>, n: nat)
    requires |items| == n + 1
    ensures FromList(items) == FromList(items[..n])[items[n].token := items[n]]
    ensures items == items[..n] + [items[n]]
  {
  }

  lemma {:induction false} LastIsNew(items: seq<TokenRecord>, n: nat)
    requires |items| == n + 1 && DistinctBy(items, TokenOf)
    ensures DistinctBy(items[..n], TokenOf)
    ensures forall r :: r in items[..n] ==> r.token != items[n].token
  {
    forall r | r in items[..n]
      ensures r.token != items[n].token
    {
      var i :| 0 <= i < n && items[i] == r;
      assert TokenOf(items[i]) != TokenOf(items[n]);
    }
  }

  /** What loading a list gives: exactly its records, each under its token. */
  ghost predicate Loads(items: seq<TokenRecord>, m: Table)
  {
    && (forall t :: t in m ==> m[t] in items && m[t].token == t)
    && (forall r :: r in items ==> r.token in m && m[r.token] == r)
  }

  lemma OneMoreLoads(items: seq<TokenRecord>, m: Table, last: TokenRecord)
    requires Loads(items, m) && forall r :: r in items ==> r.token != last.token
    ensures Loads(items + [last], m[last.token := last])
  {
  }

  lemma {:induction false} FromListHolds(items: seq<TokenRecord>)
    requires DistinctBy(items, TokenOf)
    ensures Loads(items, FromList(items))
  {
    hide DistinctBy;
    if items == [] {
      assert FromList(items) == map[];
    } else {
      var n := |items| - 1;
      LastIsNew(items, n);
      FromListStep(items, n);
      FromListHolds(items[..n]);
      OneMoreLoads(items[..n], FromList(items[..n]), items[n]);
    }
  }

  /** Storing a token map as a list and loading it back gives the map. */
  lemma {:induction false} ListFormLoads(items: seq<TokenRecord>, m: Table)
    requires KeyedByToken(m) && ListForm(items, m)
    ensures FromList(items) == m
  {
    FromListHolds(items);
    forall t | t in m
      ensures t in FromList(items) && FromList(items)[t] == m[t]
    {
      assert m[t] in items;
    }
  }

  lemma {:induction false} SortedListForm(values: seq<TokenRecord>, m: Table)
    requires forall r :: r in values <==> r.token in m && m[r.token] == r
    requires DistinctBy(values, TokenOf)
    ensures ListForm(Sort(values, TokenLe), m)
  {
    TokenLeTotalOrder();
    SortIsSorted(values, TokenLe);
    SortMembers(values, TokenLe);
    SortDistinct(values, TokenLe, TokenOf);
  }

  /** With storage the list is the truth and every call loads it; without, the map in memory is. */
  class BootstrapTokenManager {
    const persisted: bool
    var tokens: Table
    var storedItems: seq<TokenRecord>

    ghost predicate Valid()
      reads this
    {
      && KeyedByToken(tokens)
      && DistinctBy(storedItems, TokenOf) && SortedBy(storedItems, TokenLe)
    }

    /** The table a call sees. */
    function View(): Table
      reads this
    {
      if persisted then FromList(storedItems) else tokens
    }

    constructor (persisted: bool)
      ensures Valid() && this.persisted == persisted && View() == map[]
    {
      this.persisted := persisted;
      tokens, storedItems := map[], [];
    }

    lemma ViewIsKeyed()
      requires Valid()
      ensures KeyedByToken(View())
    {
      FromListHolds(storedItems);
    }

    method SaveTokens(m: Table)
      requires Valid() && KeyedByToken(m)
      modifies this
      ensures Valid() && View() == m
      ensures persisted ==> ListForm(storedItems, m)
    {
      if !persisted {
        tokens := m;
        return;
      }
      var values: seq<TokenRecord> := [];
      var rest := m.Keys;
      while rest != {}
        invariant rest <= m.Keys
        invariant forall r :: r in values <==> r.token in m && r.token !in rest && m[r.token] == r
        invariant DistinctBy(values, TokenOf)
        decreases rest
      {
        var t :| t in rest;
        forall i | 0 <= i < |values|
          ensures values[i].token != t
        {
          assert values[i] in values;
        }
        values := values + [m[t]];
        rest := rest - {t};
      }
      SortedListForm(values, m);
      storedItems := Sort(values, TokenLe);
      ListFormLoads(storedItems, m);
    }

    method IssueToken(token: string, now: int, ttl: int) returns (r: TokenRecord)
      requires Valid()
      modifies this
      ensures Valid() && View() == Issued(old(View()), token, now, ttl)
      ensures r == View()[token]
    {
      ViewIsKeyed();
      r := TokenRecord(token, now, now + ttl, false);
      SaveTokens(View()[token := r]);
    }

    method Validate(token: string, now: int) returns (failure: Option<TokenError>)
      ensures failure == Check(View(), token, now)
    {
      var m := View();
      if token !in m {
        return Some(TokenNotFound);
      }
      if m[token].used {
        return Some(TokenAlreadyUsed);
      }
      if m[token].expiresAt <= now {
        return Some(TokenExpired);
      }
      return None;
    }

    method MarkUsed(token: string)
      requires Valid() && token in View()
      modifies this
      ensures Valid() && View() == Marked(old(View()), token)
    {
      ViewIsKeyed();
      var m := View();
      SaveTokens(m[token := TokenRecord(m[token].token, m[token].issuedAt, m[token].expiresAt, true)]);
    }

    /** A new process starts with an empty map; the stored list is still there. */
    method Restart()
      requires Valid()
      modifies this
      ensures Valid() && View() == if persisted then old(View()) else map[]
    {
      tokens := map[];
    }
  }

  // ---------------------------------------------------------------- runs

  /**
   * What happens to a token manager. `JoinCall` marks the token before the rest of the join, which may
   * still fail; `AdminCall` creates the admin first, which may fail, and marks the token last.
   */
  datatype Event =
    | Issue(token: string, now: int, ttl: int)
    | JoinCall(token: string, now: int, restSucceeds: bool)
    | AdminCall(token: string, now: int, restSucceeds: bool)
    | RestartEvent

  predicate Succeeds(m: Table, e: Event)
  {
    (e.JoinCall? || e.AdminCall?) && Check(m, e.token, e.now).None? && e.restSucceeds
  }

  function Next(persisted: bool, m: Table, e: Event): Table
  {
    match e
    case Issue(token, now, ttl) => Issued(m, token, now, ttl)
    case JoinCall(token, now, _) => if Check(m, token, now).None? then Marked(m, token) else m
    case AdminCall(token, now, ok) => if Check(m, token, now).None? && ok then Marked(m, token) else m
    case RestartEvent => if persisted then m else map[]
  }

  function After(persisted: bool, m: Table, run: seq<Event>): Table
  {
    if run == [] then m else Next(persisted, After(persisted, m, run[..|run| - 1]), run[|run| - 1])
  }

  predicate Spent(m: Table, token: string)
  {
    token !in m || m[token].used
  }

  predicate Reissues(e: Event, token: string)
  {
    e.Issue? && e.token == token
  }

  lemma {:induction false} StaysSpent(persisted: bool, m: Table, run: seq<Event>, i: nat, j: nat, token: string)
    requires i <= j <= |run|
    requires Spent(After(persisted, m, run[..i]), token)
    requires forall k :: i <= k < j ==> !Reissues(run[k], token)
    ensures Spent(After(persisted, m, run[..j]), token)
  {
    if i < j {
      StaysSpent(persisted, m, run, i, j - 1, token);
      assert run[..j][..j - 1] == run[..j - 1];
    }
  }

  /** A token that is not handed out again admits at most one successful join or admin bootstrap. */
  lemma {:induction false} SingleUse(persisted: bool, m: Table, run: seq<Event>, i: nat, j: nat)
    requires i < j < |run|
    requires Succeeds(After(persisted, m, run[..i]), run[i])
    requires (run[j].JoinCall? || run[j].AdminCall?) && run[j].token == run[i].token
    requires forall k :: i < k < j ==> !Reissues(run[k], run[i].token)
    ensures !Succeeds(After(persisted, m, run[..j]), run[j])
  {
    assert run[..i + 1][..i] == run[..i];
    StaysSpent(persisted, m, run, i + 1, j, run[i].token);
  }

  /** `token` was issued somewhere in the first `n` events with the given expiry. */
  ghost predicate IssuedWithExpiry(run: seq<Event>, n: nat, token: string, expiresAt: int)
    requires n <= |run|
  {
    exists k :: 0 <= k < n && Reissues(run[k], token) && run[k].now + run[k].ttl == expiresAt
  }

  lemma {:induction false} RecordComesFromIssue(persisted: bool, run: seq<Event>, n: nat, t: string)
    requires n <= |run| && t in After(persisted, map[], run[..n])
    ensures IssuedWithExpiry(run, n, t, After(persisted, map[], run[..n])[t].expiresAt)
  {
    if n > 0 {
      assert run[..n][..n - 1] == run[..n - 1];
      if Reissues(run[n - 1], t) {
        assert Reissues(run[n - 1], t);
      } else {
        RecordComesFromIssue(persisted, run, n - 1, t);
        var expiresAt := After(persisted, map[], run[..n - 1])[t].expiresAt;
        var k :| 0 <= k < n - 1 && Reissues(run[k], t) && run[k].now + run[k].ttl == expiresAt;
        assert 0 <= k < n && Reissues(run[k], t);
      }
    }
  }

  /** Every success uses an issued token strictly before that token's expiry. */
  lemma {:induction false} SuccessBeforeExpiry(persisted: bool, run: seq<Event>, i: nat)
    requires i < |run| && Succeeds(After(persisted, map[], run[..i]), run[i])
    ensures exists expiresAt :: IssuedWithExpiry(run, i, run[i].token, expiresAt) && run[i].now < expiresAt
  {
    RecordComesFromIssue(persisted, run, i, run[i].token);
  }

  /** The call uses the token up: in time, and a join at once, an admin call only if the rest succeeds. */
  predicate UsesUp(e: Event, token: string, expiresAt: int)
  {
    || (e.JoinCall? && e.token == token && e.now < expiresAt)
    || (e.AdminCall? && e.token == token && e.now < expiresAt && e.restSucceeds)
  }

  ghost predicate UsedUp(run: seq<Event>, token: string, expiresAt: int)
  {
    exists e :: e in run && UsesUp(e, token, expiresAt)
  }

  /** Neither handed out anew nor lost with the memory of a process. */
  predicate KeepsRecord(persisted: bool, e: Event, token: string)
  {
    !Reissues(e, token) && (e.RestartEvent? ==> persisted)
  }

  lemma OneMoreCall(persisted: bool, m: Table, e: Event, r: TokenRecord)
    requires r.token in m && m[r.token] == r && KeepsRecord(persisted, e, r.token)
    ensures var d := Next(persisted, m, e);
            r.token in d && d[r.token] == r.(used := r.used || UsesUp(e, r.token, r.expiresAt))
  {
  }

  lemma {:induction false} IssuedRecordAfter(persisted: bool, m: Table, run: seq<Event>, r: TokenRecord)
    requires r.token in m && m[r.token] == r && !r.used
    requires forall e :: e in run ==> KeepsRecord(persisted, e, r.token)
    ensures var d := After(persisted, m, run);
            r.token in d && d[r.token] == r.(used := UsedUp(run, r.token, r.expiresAt))
  {
    hide Next, KeepsRecord, UsesUp;
    if run != [] {
      var n := |run| - 1;
      assert run == run[..n] + [run[n]] && run[n] in run;
      assert forall e :: e in run[..n] ==> e in run;
      IssuedRecordAfter(persisted, m, run[..n], r);
      OneMoreCall(persisted, After(persisted, m, run[..n]), run[n], r.(used := UsedUp(run[..n], r.token, r.expiresAt)));
    }
  }

  /**
   * An issued token is good for a call iff the call is in time and no earlier one used it up: a join does even
   * when it then fails, a failing admin call does not.
   */
  lemma IssuedIsAcceptedExactly(persisted: bool, m: Table, token: string, now: int, ttl: int, run: seq<Event>,
                                call: Event)
    requires forall e :: e in run ==> KeepsRecord(persisted, e, token)
    requires (call.JoinCall? || call.AdminCall?) && call.token == token && call.restSucceeds
    ensures Succeeds(After(persisted, Next(persisted, m, Issue(token, now, ttl)), run), call) <==>
            call.now < now + ttl && !UsedUp(run, token, now + ttl)
  {
    hide KeepsRecord, UsedUp;
    IssuedRecordAfter(persisted, Next(persisted, m, Issue(token, now, ttl)), run,
                      TokenRecord(token, now, now + ttl, false));
  }
}
