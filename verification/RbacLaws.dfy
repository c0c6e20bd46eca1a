/** What each manifest and the admin bootstrap do to the store, said of its members. */
module RbacLaws {
  import opened Rbac
  import opened RbacRuns
  import opened Text
  import opened Wrappers

  /** A store with one change more. */
  ghost predicate NextVersion(s: RbacState, d: RbacState)
  {
    StoreOk(d) && d.version == s.version + 1
  }

  /** An applicable manifest that is no delete, of that API and kind. */
  ghost predicate Puts(m: Manifest, apiVersion: string, kind: string)
  {
    !m.hasNamespace && !IsDelete(m) && m.apiVersion == apiVersion && m.kind == kind
  }

  ghost predicate Removes(m: Manifest, apiVersion: string, kind: string, name: string)
  {
    && !m.hasNamespace && IsDelete(m) && Trim(m.name) == name != "" && m.apiVersion == apiVersion && m.kind == kind
  }

  /** An account manifest is refused iff the name has another key; accepted, it sets that account and nothing else. */
  lemma AppliedAccount(s: RbacState, m: Manifest)
    requires StoreOk(s) && Puts(m, "xenage.dev/v1", "ServiceAccount") && m.body.AccountBody?
    ensures Apply(s, m) == Err(KeyImmutable) || Apply(s, m).Ok?
    ensures Apply(s, m).Err? <==>
            exists a :: a in s.accounts && a.name == m.body.account.name && a.publicKey != m.body.account.publicKey
    ensures Apply(s, m).Ok? ==>
              var d := Apply(s, m).value;
              && NextVersion(s, d) && d.roles == s.roles && d.bindings == s.bindings
              && forall a :: a in d.accounts <==>
                             a == m.body.account || (a in s.accounts && a.name != m.body.account.name)
  {
    hide IsDelete, Trim, Upserted;
    var account := m.body.account;
    assert Apply(s, m) == UpsertAccount(s, account);
    UpsertAccountOk(s, account);
    UpsertedIsSorted(s.accounts, account, AccountName);
    if ChangesKey(s.accounts, account) {
      var i :| 0 <= i < |s.accounts| && s.accounts[i].name == account.name
               && s.accounts[i].publicKey != account.publicKey;
      assert s.accounts[i] in s.accounts;
    }
  }

  /** A role manifest sets that role and nothing else. */
  lemma AppliedRole(s: RbacState, m: Manifest)
    requires StoreOk(s) && Puts(m, "rbac.authorization.xenage.dev/v1", "Role") && m.body.RoleBody?
    ensures Apply(s, m).Ok?
    ensures var d := Apply(s, m).value;
            && NextVersion(s, d) && d.accounts == s.accounts && d.bindings == s.bindings
            && forall r :: r in d.roles <==> r == m.body.role || (r in s.roles && r.name != m.body.role.name)
  {
    hide IsDelete, Trim, Upserted;
    assert Apply(s, m) == Ok(UpsertRole(s, m.body.role));
    UpsertRoleOk(s, m.body.role);
    UpsertedIsSorted(s.roles, m.body.role, RoleName);
  }

  lemma NamedRole(s: RbacState, name: string)
    ensures HasName(s.roles, name, RoleName) <==> exists r :: r in s.roles && r.name == name
  {
    if r :| r in s.roles && r.name == name {
      var i :| 0 <= i < |s.roles| && s.roles[i] == r;
      assert RoleName(s.roles[i]) == name;
    }
  }

  /** A binding manifest is refused iff its role is missing; accepted, it sets that binding and nothing else. */
  lemma AppliedBinding(s: RbacState, m: Manifest)
    requires StoreOk(s) && Puts(m, "rbac.authorization.xenage.dev/v1", "RoleBinding") && m.body.BindingBody?
    ensures Apply(s, m) == Err(MissingRole) || Apply(s, m).Ok?
    ensures Apply(s, m).Ok? <==> exists r :: r in s.roles && r.name == m.body.binding.roleRef
    ensures Apply(s, m).Ok? ==>
              var d := Apply(s, m).value;
              && NextVersion(s, d) && d.accounts == s.accounts && d.roles == s.roles
              && forall b :: b in d.bindings <==>
                             b == m.body.binding || (b in s.bindings && b.name != m.body.binding.name)
  {
    hide IsDelete, Trim, Upserted, HasName;
    var binding := m.body.binding;
    NamedRole(s, binding.roleRef);
    if HasName(s.roles, binding.roleRef, RoleName) {
      assert Apply(s, m) == Ok(UpsertBinding(s, binding));
      UpsertBindingOk(s, binding);
      UpsertedIsSorted(s.bindings, binding, BindingName);
    }
  }

  /** Deleting an account takes it and every binding that names it, and nothing else. */
  lemma RemovedAccount(s: RbacState, m: Manifest, name: string)
    requires StoreOk(s) && Removes(m, "xenage.dev/v1", "ServiceAccount", name)
    ensures Apply(s, m).Ok?
    ensures var d := Apply(s, m).value;
            && StoreOk(d) && (d == s || d.version == s.version + 1) && d.roles == s.roles
            && (forall a :: a in d.accounts <==> a in s.accounts && a.name != name)
            && (forall b :: b in d.bindings <==>
                            b in s.bindings && Subject("ServiceAccount", name) !in b.subjects)
  {
    hide IsDelete, Trim, StoreOk, DeleteServiceAccount, DeleteRole, DeleteRoleBinding;
    assert Apply(s, m) == Ok(DeleteServiceAccount(s, name));
    DeleteServiceAccountLeaves(s, name);
    forall b: RoleBinding
      ensures NamesSubject(b, name) <==> Subject("ServiceAccount", name) in b.subjects
    {
    }
  }

  /** Deleting a role takes it and every binding to it, and nothing else. */
  lemma RemovedRole(s: RbacState, m: Manifest, name: string)
    requires StoreOk(s) && Removes(m, "rbac.authorization.xenage.dev/v1", "Role", name)
    ensures Apply(s, m).Ok?
    ensures var d := Apply(s, m).value;
            && StoreOk(d) && (d == s || d.version == s.version + 1) && d.accounts == s.accounts
            && (forall r :: r in d.roles <==> r in s.roles && r.name != name)
            && (forall b :: b in d.bindings <==> b in s.bindings && b.roleRef != name)
  {
    hide IsDelete, Trim, StoreOk, DeleteServiceAccount, DeleteRole, DeleteRoleBinding;
    assert Apply(s, m) == Ok(DeleteRole(s, name));
    DeleteRoleLeaves(s, name);
  }

  /** Deleting a binding takes it and nothing else. */
  lemma RemovedBinding(s: RbacState, m: Manifest, name: string)
    requires StoreOk(s) && Removes(m, "rbac.authorization.xenage.dev/v1", "RoleBinding", name)
    ensures Apply(s, m).Ok?
    ensures var d := Apply(s, m).value;
            && StoreOk(d) && (d == s || d.version == s.version + 1)
            && d.accounts == s.accounts && d.roles == s.roles
            && (forall b :: b in d.bindings <==> b in s.bindings && b.name != name)
  {
    hide IsDelete, Trim, StoreOk, DeleteServiceAccount, DeleteRole, DeleteRoleBinding;
    assert Apply(s, m) == Ok(DeleteRoleBinding(s, name));
    DeleteRoleBindingLeaves(s, name);
  }

  ghost predicate KnownKind(m: Manifest)
  {
    || (m.apiVersion == "xenage.dev/v1" && m.kind == "ServiceAccount")
    || (m.apiVersion == "rbac.authorization.xenage.dev/v1" && m.kind in ["Role", "RoleBinding"])
  }

  /** What no store changes: namespaced manifests, deletes without a name, and unknown kinds are refused. */
  lemma RefusedManifests(s: RbacState, m: Manifest)
    ensures m.hasNamespace <==> Apply(s, m) == Err(NamespaceNotSupported)
    ensures !m.hasNamespace && IsDelete(m) && Trim(m.name) == "" <==> Apply(s, m) == Err(NameRequired)
    ensures !m.hasNamespace && !KnownKind(m) && !(IsDelete(m) && Trim(m.name) == "") <==>
            Apply(s, m) == Err(UnsupportedKind)
  {
    hide IsDelete, Trim, HasName, ChangesKey, DeleteServiceAccount, DeleteRole, DeleteRoleBinding, UpsertRole,
         UpsertBinding, Upserted;
  }

  /** Bootstrapping an admin is refused iff the name has another key. */
  lemma AdminRefusedExactly(s: RbacState, user: string, publicKey: string, engine: string)
    ensures EnsureAdmin(s, user, publicKey, engine) == Err(KeyImmutable) || EnsureAdmin(s, user, publicKey, engine).Ok?
    ensures EnsureAdmin(s, user, publicKey, engine).Err? <==>
            exists a :: a in s.accounts && a.name == user && a.publicKey != publicKey
  {
    hide Upserted;
    var account := ServiceAccount(user, engine, publicKey, true);
    if ChangesKey(s.accounts, account) {
      var i :| 0 <= i < |s.accounts| && s.accounts[i].name == user && s.accounts[i].publicKey != publicKey;
      assert s.accounts[i] in s.accounts;
    }
  }

  /** What the bootstrap sets, and what it leaves. */
  lemma AdminSets(s: RbacState, user: string, publicKey: string, engine: string)
    requires StoreOk(s) && EnsureAdmin(s, user, publicKey, engine).Ok?
    ensures var d := EnsureAdmin(s, user, publicKey, engine).value;
            var account := ServiceAccount(user, engine, publicKey, true);
            var role := Role("admin", [PolicyRule(["*"], ["*"], ["*"])]);
            var binding := RoleBinding("admin-binding-" + user, [Subject("ServiceAccount", user)], "admin");
            && StoreOk(d) && d.version == s.version + 3
            && (forall a :: a in d.accounts <==> a == account || (a in s.accounts && a.name != user))
            && (forall r :: r in d.roles <==> r == role || (r in s.roles && r.name != "admin"))
            && (forall b :: b in d.bindings <==> b == binding || (b in s.bindings && b.name != binding.name))
  {
    hide Upserted, ChangesKey;
    var account := ServiceAccount(user, engine, publicKey, true);
    var a := UpsertAccount(s, account).value;
    UpsertAccountOk(s, account);
    UpsertedIsSorted(s.accounts, account, AccountName);
    UpsertRoleOk(a, ADMIN_ROLE);
    UpsertedIsSorted(a.roles, ADMIN_ROLE, RoleName);
    UpsertBindingOk(UpsertRole(a, ADMIN_ROLE), AdminBinding(user));
    UpsertedIsSorted(a.bindings, AdminBinding(user), BindingName);
  }

  /** A new admin is granted whatever it asks under its key. */
  lemma AdminMayAll(s: RbacState, user: string, publicKey: string, engine: string, q: Query)
    requires StoreOk(s) && EnsureAdmin(s, user, publicKey, engine).Ok?
    requires q.user == user && q.publicKey == publicKey
    ensures CanI(EnsureAdmin(s, user, publicKey, engine).value, q)
  {
    hide EnsureAdmin, CanI, StoreOk;
    var d := EnsureAdmin(s, user, publicKey, engine).value;
    AdminSets(s, user, publicKey, engine);
    var account := ServiceAccount(user, engine, publicKey, true);
    var rule := PolicyRule(["*"], ["*"], ["*"]);
    var role := Role("admin", [rule]);
    var binding := RoleBinding("admin-binding-" + user, [Subject("ServiceAccount", user)], "admin");
    assert account in d.accounts && role in d.roles && binding in d.bindings;
    assert rule in role.rules && Subject("ServiceAccount", user) in binding.subjects;
    assert RuleFor(d, user, rule) && RuleLists(rule, q);
    DecisionIsExact(d, q);
  }
}
