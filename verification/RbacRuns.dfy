/** What every run of manifests, deletes and admin bootstraps keeps. */
module RbacRuns {
  import opened Rbac
  import opened Sorting
  import opened Text
  import opened Wrappers

  datatype Op = ApplyOp(manifest: Manifest) | AdminOp(user: string, publicKey: string, engine: string)

  function Outcome(s: RbacState, op: Op): Result<RbacState, RbacError>
  {
    match op
    case ApplyOp(m) => Apply(s, m)
    case AdminOp(user, publicKey, engine) => EnsureAdmin(s, user, publicKey, engine)
  }

  /** A refused operation leaves the store alone. */
  function Step(s: RbacState, op: Op): RbacState
  {
    var r := Outcome(s, op);
    if r.Ok? then r.value else s
  }

  function After(s: RbacState, run: seq<Op>): RbacState
  {
    if run == [] then s else Step(After(s, run[..|run| - 1]), run[|run| - 1])
  }

  // ---------------------------------------------------------------- the store stays well formed

  lemma UpsertAccountOk(s: RbacState, account: ServiceAccount)
    requires StoreOk(s)
    ensures var r := UpsertAccount(s, account); r.Ok? ==> StoreOk(r.value)
  {
    UpsertedIsSorted(s.accounts, account, AccountName);
  }

  lemma UpsertRoleOk(s: RbacState, role: Role)
    requires StoreOk(s)
    ensures StoreOk(UpsertRole(s, role)) && HasName(UpsertRole(s, role).roles, role.name, RoleName)
  {
    UpsertedIsSorted(s.roles, role, RoleName);
    var roles := UpsertRole(s, role).roles;
    assert role in roles && RoleName(role) == role.name;
    forall b | b in s.bindings
      ensures HasName(roles, b.roleRef, RoleName)
    {
      var i :| 0 <= i < |s.roles| && RoleName(s.roles[i]) == b.roleRef;
      assert s.roles[i] in roles || RoleName(role) == b.roleRef;
    }
  }

  lemma UpsertBindingOk(s: RbacState, binding: RoleBinding)
    requires StoreOk(s) && HasName(s.roles, binding.roleRef, RoleName)
    ensures StoreOk(UpsertBinding(s, binding))
  {
    UpsertedIsSorted(s.bindings, binding, BindingName);
  }

  lemma {:induction false} KeptSortUnchanged<T(!new)>(xs: seq<T>, keep: T -> bool, nameOf: T -> string)
    requires SortedByName(xs, nameOf)
    ensures Sort(Kept(xs, keep), ByName(nameOf)) == Kept(xs, keep)
    ensures SortedByName(Kept(xs, keep), nameOf)
  {
    KeptSorted(xs, keep, nameOf);
    SortKeepsSortedByName(Kept(xs, keep), nameOf);
  }

  /** What a delete leaves, list by list; `s` unchanged is the same thing said with nothing to remove. */
  lemma DeleteServiceAccountLeaves(s: RbacState, name: string)
    requires StoreOk(s)
    ensures var d := DeleteServiceAccount(s, name);
            && StoreOk(d) && d.roles == s.roles && (d == s || d.version == s.version + 1)
            && (forall a :: a in d.accounts <==> a in s.accounts && a.name != name)
            && (forall b :: b in d.bindings <==> b in s.bindings && !NamesSubject(b, name))
  {
    var keepAccount := (a: ServiceAccount) => a.name != name;
    var keepBinding := (b: RoleBinding) => !NamesSubject(b, name);
    KeptSortUnchanged(s.accounts, keepAccount, AccountName);
    KeptSortUnchanged(s.bindings, keepBinding, BindingName);
    if |Kept(s.accounts, keepAccount)| == |s.accounts| && |Kept(s.bindings, keepBinding)| == |s.bindings| {
      KeptAll(s.accounts, keepAccount);
      KeptAll(s.bindings, keepBinding);
    }
  }

  lemma KeptRolesSuffice(s: RbacState, roles: seq<Role>, bindings: seq<RoleBinding>, name: string)
    requires StoreOk(s)
    requires forall r :: r in roles <==> r in s.roles && r.name != name
    requires forall b :: b in bindings ==> b in s.bindings && b.roleRef != name
    ensures forall b :: b in bindings ==> HasName(roles, b.roleRef, RoleName)
  {
    forall b | b in bindings
      ensures HasName(roles, b.roleRef, RoleName)
    {
      assert HasName(s.roles, b.roleRef, RoleName);
      var i :| 0 <= i < |s.roles| && RoleName(s.roles[i]) == b.roleRef;
      assert s.roles[i] in roles;
    }
  }

  lemma DeleteRoleLeaves(s: RbacState, name: string)
    requires StoreOk(s)
    ensures var d := DeleteRole(s, name);
            && StoreOk(d) && d.accounts == s.accounts && (d == s || d.version == s.version + 1)
            && (forall r :: r in d.roles <==> r in s.roles && r.name != name)
            && (forall b :: b in d.bindings <==> b in s.bindings && b.roleRef != name)
  {
    var keepRole := (r: Role) => r.name != name;
    var keepBinding := (b: RoleBinding) => b.roleRef != name;
    KeptSortUnchanged(s.roles, keepRole, RoleName);
    KeptSortUnchanged(s.bindings, keepBinding, BindingName);
    if |Kept(s.roles, keepRole)| == |s.roles| && |Kept(s.bindings, keepBinding)| == |s.bindings| {
      KeptAll(s.roles, keepRole);
      KeptAll(s.bindings, keepBinding);
    }
    var roles, bindings := Kept(s.roles, keepRole), Kept(s.bindings, keepBinding);
    KeptRolesSuffice(s, roles, bindings, name);
    assert DeleteRole(s, name).roles == roles && DeleteRole(s, name).bindings == bindings;
  }

  lemma DeleteRoleBindingLeaves(s: RbacState, name: string)
    requires StoreOk(s)
    ensures var d := DeleteRoleBinding(s, name);
            && StoreOk(d) && d.accounts == s.accounts && d.roles == s.roles
            && (d == s || d.version == s.version + 1)
            && (forall b :: b in d.bindings <==> b in s.bindings && b.name != name)
  {
    var keepBinding := (b: RoleBinding) => b.name != name;
    KeptSortUnchanged(s.bindings, keepBinding, BindingName);
    if |Kept(s.bindings, keepBinding)| == |s.bindings| {
      KeptAll(s.bindings, keepBinding);
    }
  }

  /** A delete manifest, carried out or refused, leaves a well-formed store with nothing new in it. */
  lemma DeleteLeavesLess(s: RbacState, m: Manifest)
    requires StoreOk(s) && IsDelete(m)
    ensures var d := Step(s, ApplyOp(m));
            && StoreOk(d) && s.version <= d.version && (d.version == s.version ==> d == s)
            && (forall a :: a in d.accounts ==> a in s.accounts)
            && (forall r :: r in d.roles ==> r in s.roles)
            && (forall b :: b in d.bindings ==> b in s.bindings)
  {
    hide Trim, StoreOk, DeleteServiceAccount, DeleteRole, DeleteRoleBinding, ApplyUpsert;
    var name := Trim(m.name);
    var r := Apply(s, m);
    if r.Ok? {
      if m.kind == SERVICE_ACCOUNT {
        assert r.value == DeleteServiceAccount(s, name);
        DeleteServiceAccountLeaves(s, name);
      } else if m.kind == "Role" {
        assert r.value == DeleteRole(s, name);
        DeleteRoleLeaves(s, name);
      } else {
        assert r.value == DeleteRoleBinding(s, name);
        DeleteRoleBindingLeaves(s, name);
      }
    }
  }

  lemma UpsertManifestOk(s: RbacState, m: Manifest)
    requires StoreOk(s) && ApplyUpsert(s, m).Ok?
    ensures StoreOk(ApplyUpsert(s, m).value) && ApplyUpsert(s, m).value.version == s.version + 1
  {
    if m.body.AccountBody? {
      UpsertAccountOk(s, m.body.account);
    } else if m.body.RoleBody? {
      UpsertRoleOk(s, m.body.role);
    } else {
      UpsertBindingOk(s, m.body.binding);
    }
  }

  lemma EnsureAdminOk(s: RbacState, user: string, publicKey: string, engine: string)
    requires StoreOk(s) && EnsureAdmin(s, user, publicKey, engine).Ok?
    ensures var d := EnsureAdmin(s, user, publicKey, engine).value; StoreOk(d) && d.version == s.version + 3
  {
    UpsertAccountOk(s, ServiceAccount(user, engine, publicKey, true));
    var withAccount := UpsertAccount(s, ServiceAccount(user, engine, publicKey, true)).value;
    UpsertRoleOk(withAccount, ADMIN_ROLE);
    UpsertBindingOk(UpsertRole(withAccount, ADMIN_ROLE), AdminBinding(user));
  }

  lemma StepOk(s: RbacState, op: Op)
    requires StoreOk(s)
    ensures StoreOk(Step(s, op)) && s.version <= Step(s, op).version
    ensures Step(s, op).version == s.version ==> Step(s, op) == s
  {
    if Outcome(s, op).Ok? {
      match op
      case ApplyOp(m) =>
        if IsDelete(m) {
          DeleteLeavesLess(s, m);
        } else {
          UpsertManifestOk(s, m);
        }
      case AdminOp(user, publicKey, engine) =>
        EnsureAdminOk(s, user, publicKey, engine);
    }
  }

  /** Every run from a well-formed store stays well formed and never lowers the version. */
  lemma {:induction false} RunKeepsStoreOk(s: RbacState, run: seq<Op>)
    requires StoreOk(s)
    ensures StoreOk(After(s, run)) && s.version <= After(s, run).version
  {
    if run != [] {
      RunKeepsStoreOk(s, run[..|run| - 1]);
      StepOk(After(s, run[..|run| - 1]), run[|run| - 1]);
    }
  }

  /** On every store reachable from the empty one, a query is granted iff it is permitted. */
  lemma {:induction false} ReachableDecisionsExact(run: seq<Op>, q: Query)
    ensures StoreOk(After(EMPTY_STORE, run))
    ensures CanI(After(EMPTY_STORE, run), q) <==> Permitted(After(EMPTY_STORE, run), q)
  {
    RunKeepsStoreOk(EMPTY_STORE, run);
    DecisionIsExact(After(EMPTY_STORE, run), q);
  }

  // ---------------------------------------------------------------- deletion only removes

  /** Fewer accounts, roles and bindings permit no more. */
  lemma FewerPermitLess(s: RbacState, d: RbacState, q: Query)
    requires forall a :: a in d.accounts ==> a in s.accounts
    requires forall r :: r in d.roles ==> r in s.roles
    requires forall b :: b in d.bindings ==> b in s.bindings
    requires Permitted(d, q)
    ensures Permitted(s, q)
  {
    var a :| a in d.accounts && a.name == q.user && a.enabled && a.publicKey == q.publicKey;
    assert a in s.accounts;
    var rule :| RuleFor(d, q.user, rule) && RuleLists(rule, q);
    assert RuleFor(s, q.user, rule);
  }

  /** No delete turns a refused query into a granted one. */
  lemma DeleteOnlyRemoves(s: RbacState, m: Manifest, q: Query)
    requires StoreOk(s) && IsDelete(m) && CanI(Step(s, ApplyOp(m)), q)
    ensures CanI(s, q)
  {
    var d := Step(s, ApplyOp(m));
    DeleteLeavesLess(s, m);
    DecisionIsExact(d, q);
    DecisionIsExact(s, q);
    FewerPermitLess(s, d, q);
  }

  /** The operation creates or changes a binding that names `user`. */
  predicate Grants(op: Op, user: string)
  {
    match op
    case ApplyOp(m) => !IsDelete(m) && m.body.BindingBody? && NamesSubject(m.body.binding, user)
    case AdminOp(u, _, _) => u == user
  }

  ghost predicate Unbound(s: RbacState, user: string)
  {
    forall b :: b in s.bindings ==> !NamesSubject(b, user)
  }

  lemma UpsertKeepsUnbound(s: RbacState, binding: RoleBinding, user: string)
    requires SortedByName(s.bindings, BindingName) && Unbound(s, user) && !NamesSubject(binding, user)
    ensures Unbound(UpsertBinding(s, binding), user)
  {
    UpsertedIsSorted(s.bindings, binding, BindingName);
  }

  lemma ManifestKeepsUnbound(s: RbacState, m: Manifest, user: string)
    requires StoreOk(s) && Unbound(s, user) && !Grants(ApplyOp(m), user) && Apply(s, m).Ok?
    ensures Unbound(Apply(s, m).value, user)
  {
    var d := Apply(s, m).value;
    if IsDelete(m) {
      DeleteLeavesLess(s, m);
      assert d == Step(s, ApplyOp(m));
    } else if d.bindings != s.bindings {
      assert d == UpsertBinding(s, m.body.binding);
      UpsertKeepsUnbound(s, m.body.binding, user);
    }
  }

  lemma AdminKeepsUnbound(s: RbacState, op: Op, user: string)
    requires StoreOk(s) && Unbound(s, user) && op.AdminOp? && op.user != user && Outcome(s, op).Ok?
    ensures Unbound(Outcome(s, op).value, user)
  {
    var withAccount := UpsertAccount(s, ServiceAccount(op.user, op.engine, op.publicKey, true)).value;
    var binding := AdminBinding(op.user);
    assert !NamesSubject(binding, user);
    UpsertKeepsUnbound(UpsertRole(withAccount, ADMIN_ROLE), binding, user);
  }

  lemma StepKeepsUnbound(s: RbacState, op: Op, user: string)
    requires StoreOk(s) && Unbound(s, user) && !Grants(op, user)
    ensures Unbound(Step(s, op), user)
  {
    if Outcome(s, op).Ok? {
      match op
      case ApplyOp(m) =>
        ManifestKeepsUnbound(s, m, user);
      case AdminOp(u, publicKey, engine) =>
        AdminKeepsUnbound(s, op, user);
    }
  }

  lemma {:induction false} RunKeepsUnbound(s: RbacState, run: seq<Op>, user: string)
    requires StoreOk(s) && Unbound(s, user)
    requires forall op :: op in run ==> !Grants(op, user)
    ensures Unbound(After(s, run), user)
  {
    if run != [] {
      var before, last := run[..|run| - 1], run[|run| - 1];
      assert run == before + [last];
      RunKeepsStoreOk(s, before);
      RunKeepsUnbound(s, before, user);
      StepKeepsUnbound(After(s, before), last, user);
    }
  }

  predicate DeletesAccount(m: Manifest, user: string)
  {
    && !m.hasNamespace && IsDelete(m) && Trim(m.name) == user != ""
    && m.apiVersion == CORE_API && m.kind == SERVICE_ACCOUNT
  }

  /** A deleted account has no permission, re-created or not, until a later binding names it. */
  lemma {:induction false} DeletedAccountHasNothing(s: RbacState, m: Manifest, run: seq<Op>, q: Query)
    requires StoreOk(s) && DeletesAccount(m, q.user)
    requires forall op :: op in run ==> !Grants(op, q.user)
    ensures !CanI(After(Step(s, ApplyOp(m)), run), q)
  {
    DeleteServiceAccountLeaves(s, q.user);
    StepOk(s, ApplyOp(m));
    RunKeepsUnbound(Step(s, ApplyOp(m)), run, q.user);
  }

  // ---------------------------------------------------------------- keys never change

  /** The key of account `name`, if there is such an account. */
  function KeyOf(s: RbacState, name: string): Option<string>
  {
    var a := FindAccount(s.accounts, name);
    if a.Some? then Some(a.value.publicKey) else None
  }

  lemma {:induction false} MemberIsFound(accounts: seq<ServiceAccount>, a: ServiceAccount)
    requires SortedByName(accounts, AccountName) && a in accounts
    ensures FindAccount(accounts, a.name) == Some(a)
  {
    var i :| 0 <= i < |accounts| && accounts[i] == a;
    assert AccountName(accounts[i]) == a.name;
    SameNameSameElement(accounts, AccountName, a, FindAccount(accounts, a.name).value);
  }

  lemma UpsertKeepsKey(s: RbacState, account: ServiceAccount, name: string)
    requires StoreOk(s) && KeyOf(s, name).Some?
    ensures var r := UpsertAccount(s, account); r.Ok? ==> KeyOf(r.value, name) == KeyOf(s, name)
  {
    var r := UpsertAccount(s, account);
    if r.Ok? {
      var a := FindAccount(s.accounts, name).value;
      UpsertedIsSorted(s.accounts, account, AccountName);
      if account.name == name {
        var i :| 0 <= i < |s.accounts| && s.accounts[i] == a;
        MemberIsFound(r.value.accounts, account);
      } else {
        MemberIsFound(r.value.accounts, a);
      }
    }
  }

  lemma UpsertedAccounts(s: RbacState, m: Manifest)
    requires ApplyUpsert(s, m).Ok?
    ensures if m.body.AccountBody? then ApplyUpsert(s, m) == UpsertAccount(s, m.body.account)
            else ApplyUpsert(s, m).value.accounts == s.accounts
  {
    hide UpsertAccount, Upserted;
  }

  lemma AdminAccounts(s: RbacState, user: string, publicKey: string, engine: string)
    requires EnsureAdmin(s, user, publicKey, engine).Ok?
    ensures var r := UpsertAccount(s, ServiceAccount(user, engine, publicKey, true));
            r.Ok? && EnsureAdmin(s, user, publicKey, engine).value.accounts == r.value.accounts
  {
    hide UpsertAccount, Upserted;
  }

  lemma DeleteKeepsKey(s: RbacState, m: Manifest, name: string)
    requires StoreOk(s) && IsDelete(m) && KeyOf(Step(s, ApplyOp(m)), name).Some?
    ensures KeyOf(Step(s, ApplyOp(m)), name) == KeyOf(s, name)
  {
    hide Apply, Outcome, Step;
    DeleteLeavesLess(s, m);
    MemberIsFound(s.accounts, FindAccount(Step(s, ApplyOp(m)).accounts, name).value);
  }

  lemma StepKeepsKey(s: RbacState, op: Op, name: string)
    requires StoreOk(s) && KeyOf(s, name).Some? && KeyOf(Step(s, op), name).Some?
    ensures KeyOf(Step(s, op), name) == KeyOf(s, name)
  {
    hide ApplyDelete, ApplyUpsert, EnsureAdmin, UpsertAccount, StoreOk, FindAccount;
    if Outcome(s, op).Ok? {
      match op
      case ApplyOp(m) =>
        if IsDelete(m) {
          DeleteKeepsKey(s, m, name);
        } else {
          UpsertedAccounts(s, m);
          if m.body.AccountBody? {
            UpsertKeepsKey(s, m.body.account, name);
          }
        }
      case AdminOp(user, publicKey, engine) =>
        AdminAccounts(s, user, publicKey, engine);
        UpsertKeepsKey(s, ServiceAccount(user, engine, publicKey, true), name);
    }
  }

  /** An account that survives a run keeps its public key throughout. */
  lemma {:induction false} SurvivorKeepsKey(s: RbacState, run: seq<Op>, name: string)
    requires StoreOk(s)
    requires forall k :: 0 <= k <= |run| ==> KeyOf(After(s, run[..k]), name).Some?
    ensures KeyOf(After(s, run), name) == KeyOf(s, name)
  {
    assert run[..|run|] == run;
    if run != [] {
      var before := run[..|run| - 1];
      forall k | 0 <= k <= |before|
        ensures KeyOf(After(s, before[..k]), name).Some?
      {
        assert before[..k] == run[..k];
      }
      SurvivorKeepsKey(s, before, name);
      RunKeepsStoreOk(s, before);
      assert KeyOf(After(s, run[..|run|]), name).Some?;
      StepKeepsKey(After(s, before), run[|run| - 1], name);
    }
  }
}
