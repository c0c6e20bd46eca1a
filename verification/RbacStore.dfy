/** The RBAC store object: index-driven loops over the current lists, and its changes. */
module RbacStore {
  import opened Rbac
  import opened Sorting
  import opened Text
  import opened Wrappers

  /** `saved` is what storage would load after a restart. */
  lemma RoleIndexStep(roles: seq<Role>, k: nat)
    requires k < |roles|
    ensures RoleIndex(roles[..k + 1]) == RoleIndex(roles[..k])[roles[k].name := roles[k]]
  {
    assert roles[..k + 1][..k] == roles[..k];
  }

  class RbacStateManager {
    var current: RbacState
    var saved: RbacState

    predicate Valid()
      reads this
    {
      saved == current
    }

    constructor (stored: RbacState)
      ensures Valid() && current == stored
    {
      current, saved := stored, stored;
    }

    method ReplaceState(s: RbacState) returns (r: Result<RbacState, RbacError>)
      requires Valid()
      modifies this
      ensures Valid()
      ensures r == ReplaceStore(old(current), s)
      ensures current == if r.Ok? then s else old(current)
    {
      if s.version < current.version {
        return Err(RbacVersionRegressed);
      }
      current := s;
      saved := s;
      return Ok(s);
    }

    method FindServiceAccount(name: string) returns (r: Option<ServiceAccount>)
      ensures r == FindAccount(current.accounts, name)
    {
      var index := 0;
      while index < |current.accounts|
        invariant 0 <= index <= |current.accounts|
        invariant FindAccount(current.accounts, name) == FindAccount(current.accounts[index..], name)
      {
        if current.accounts[index].name == name {
          return Some(current.accounts[index]);
        }
        index := index + 1;
      }
      return None;
    }

    method RoleExists(name: string) returns (found: bool)
      ensures found <==> HasName(current.roles, name, RoleName)
    {
      var index := 0;
      while index < |current.roles|
        invariant 0 <= index <= |current.roles|
        invariant forall k :: 0 <= k < index ==> RoleName(current.roles[k]) != name
      {
        if RoleName(current.roles[index]) == name {
          return true;
        }
        index := index + 1;
      }
      return false;
    }

    method IndexRoles() returns (m: map<string, Role>)
      ensures m == RoleIndex(current.roles)
    {
      assert RoleIndex(current.roles[..0]) == map[];
      hide RoleIndex;
      m := map[];
      var index := 0;
      while index < |current.roles|
        invariant 0 <= index <= |current.roles|
        invariant m == RoleIndex(current.roles[..index])
      {
        RoleIndexStep(current.roles, index);
        m := m[current.roles[index].name := current.roles[index]];
        index := index + 1;
      }
      assert current.roles[..index] == current.roles;
    }

    method BindingsForSubject(user: string) returns (r: seq<RoleBinding>)
      ensures r == Namings(current.bindings, user)
      ensures forall b :: b in r <==> b in current.bindings && NamesSubject(b, user)
    {
      r := [];
      var index := 0;
      while index < |current.bindings|
        invariant 0 <= index <= |current.bindings|
        invariant r == Namings(current.bindings[..index], user)
      {
        var binding := current.bindings[index];
        ghost var before := r;
        var subjectIndex := 0;
        while subjectIndex < |binding.subjects|
          invariant 0 <= subjectIndex <= |binding.subjects|
          invariant r == before + NamingsIn(binding, binding.subjects[..subjectIndex], user)
        {
          var subject := binding.subjects[subjectIndex];
          assert binding.subjects[..subjectIndex + 1][..subjectIndex] == binding.subjects[..subjectIndex];
          if subject.kind == SERVICE_ACCOUNT && subject.name == user {
            r := r + [binding];
          }
          subjectIndex := subjectIndex + 1;
        }
        assert binding.subjects[..subjectIndex] == binding.subjects;
        assert current.bindings[..index + 1][..index] == current.bindings[..index];
        index := index + 1;
      }
      assert current.bindings[..index] == current.bindings;
    }

    static method MatchAny(values: seq<string>, expected: string) returns (r: bool)
      ensures r <==> Matches(values, expected)
    {
      var index := 0;
      while index < |values|
        invariant 0 <= index <= |values|
        invariant forall k :: 0 <= k < index ==> values[k] != "*" && values[k] != expected
      {
        if values[index] == "*" || values[index] == expected {
          return true;
        }
        index := index + 1;
      }
      return false;
    }

    static method RoleAllowsQuery(role: Role, q: Query) returns (r: bool)
      ensures r <==> RoleAllows(role, q)
    {
      var index := 0;
      while index < |role.rules|
        invariant 0 <= index <= |role.rules|
        invariant forall k :: 0 <= k < index ==> !RuleAllows(role.rules[k], q)
      {
        var rule := role.rules[index];
        var namespaces := if rule.namespaces == [] then ["*"] else rule.namespaces;
        var verb := MatchAny(rule.verbs, q.verb);
        var resource := MatchAny(rule.resources, q.resource);
        var namespace := MatchAny(namespaces, q.namespace);
        if verb && resource && namespace {
          assert rule in role.rules && RuleAllows(rule, q);
          return true;
        }
        index := index + 1;
      }
      return false;
    }

    method AllowsWithBindings(bindings: seq<RoleBinding>, q: Query) returns (r: bool)
      ensures r <==> AllowsWith(bindings, RoleIndex(current.roles), q)
    {
      var roleIndex := IndexRoles();
      var index := 0;
      while index < |bindings|
        invariant 0 <= index <= |bindings|
        invariant forall k :: 0 <= k < index ==>
                    !(bindings[k].roleRef in roleIndex && RoleAllows(roleIndex[bindings[k].roleRef], q))
      {
        if bindings[index].roleRef in roleIndex {
          var allowed := RoleAllowsQuery(roleIndex[bindings[index].roleRef], q);
          if allowed {
            return true;
          }
        }
        index := index + 1;
      }
      return false;
    }

    /** Decides a query; on a well-formed store the answer is exactly what is permitted. */
    method CanIQuery(q: Query) returns (r: bool)
      ensures r <==> CanI(current, q)
      ensures StoreOk(current) ==> (r <==> Permitted(current, q))
    {
      if StoreOk(current) {
        DecisionIsExact(current, q);
      }
      var account := FindServiceAccount(q.user);
      if account.None? || !account.value.enabled || account.value.publicKey != q.publicKey {
        return false;
      }
      var bindings := BindingsForSubject(q.user);
      r := AllowsWithBindings(bindings, q);
    }

    /** The accounts with `account` put in place of its namesake; refuses to change a public key. */
    static method ReplaceAccount(items: seq<ServiceAccount>, account: ServiceAccount)
      returns (r: Option<seq<ServiceAccount>>)
      ensures r.None? <==> ChangesKey(items, account)
      ensures r.Some? ==> Sort(r.value, ByName(AccountName)) == Upserted(items, account, AccountName)
    {
      var replaced := ReplacedByName(items, account, AccountName);
      var out: seq<ServiceAccount> := [];
      var found := false;
      var index := 0;
      while index < |items|
        invariant 0 <= index <= |items|
        invariant out == replaced[..index]
        invariant found <==> HasName(items[..index], account.name, AccountName)
        invariant forall k :: 0 <= k < index && items[k].name == account.name ==>
                    items[k].publicKey == account.publicKey
      {
        var item := items[index];
        assert items[..index + 1] == items[..index] + [item];
        assert AccountName(item) == item.name;
        if item.name == account.name {
          found := true;
          if item.publicKey != account.publicKey {
            return None;
          }
          out := out + [account];
          assert AccountName(items[..index + 1][index]) == account.name;
        } else {
          out := out + [item];
        }
        assert replaced[..index + 1] == replaced[..index] + [replaced[index]];
        index := index + 1;
      }
      assert items[..index] == items && replaced[..index] == replaced;
      if !found {
        out := out + [account];
      }
      return Some(out);
    }

    /** The same loop for roles and for bindings, which have no immutable part. */
    static method ReplaceNamed<T>(items: seq<T>, x: T, nameOf: T -> string) returns (out: seq<T>)
      ensures Sort(out, ByName(nameOf)) == Upserted(items, x, nameOf)
    {
      var replaced := ReplacedByName(items, x, nameOf);
      out := [];
      var found := false;
      var index := 0;
      while index < |items|
        invariant 0 <= index <= |items|
        invariant out == replaced[..index]
        invariant found <==> HasName(items[..index], nameOf(x), nameOf)
      {
        assert items[..index + 1] == items[..index] + [items[index]];
        if nameOf(items[index]) == nameOf(x) {
          out := out + [x];
          found := true;
          assert nameOf(items[..index + 1][index]) == nameOf(x);
        } else {
          out := out + [items[index]];
        }
        assert replaced[..index + 1] == replaced[..index] + [replaced[index]];
        index := index + 1;
      }
      assert items[..index] == items && replaced[..index] == replaced;
      if !found {
        out := out + [x];
      }
    }

    static method UpsertServiceAccount(s: RbacState, account: ServiceAccount) returns (r: Result<RbacState, RbacError>)
      ensures r == UpsertAccount(s, account)
    {
      hide Sort, Upserted, ChangesKey;
      var accounts := ReplaceAccount(s.accounts, account);
      if accounts.None? {
        return Err(KeyImmutable);
      }
      return Ok(s.(version := s.version + 1, accounts := Sort(accounts.value, ByName(AccountName))));
    }

    static method UpsertRoleIn(s: RbacState, role: Role) returns (r: RbacState)
      ensures r == UpsertRole(s, role)
    {
      hide Sort, Upserted;
      var roles := ReplaceNamed(s.roles, role, RoleName);
      r := s.(version := s.version + 1, roles := Sort(roles, ByName(RoleName)));
    }

    static method UpsertBindingIn(s: RbacState, binding: RoleBinding) returns (r: RbacState)
      ensures r == UpsertBinding(s, binding)
    {
      hide Sort, Upserted;
      var bindings := ReplaceNamed(s.bindings, binding, BindingName);
      r := s.(version := s.version + 1, bindings := Sort(bindings, ByName(BindingName)));
    }

    /** The store without the named resource, by kind; nothing is replaced yet. */
    method DeleteManifest(m: Manifest) returns (r: Result<RbacState, RbacError>)
      ensures r == ApplyDelete(current, m)
    {
      hide DeleteServiceAccount, DeleteRole, DeleteRoleBinding, Trim;
      var name := Trim(m.name);
      if name == "" {
        return Err(NameRequired);
      }
      if m.apiVersion == CORE_API && m.kind == SERVICE_ACCOUNT {
        return Ok(DeleteServiceAccount(current, name));
      }
      if m.apiVersion == RBAC_API && m.kind == "Role" {
        return Ok(DeleteRole(current, name));
      }
      if m.apiVersion == RBAC_API && m.kind == "RoleBinding" {
        return Ok(DeleteRoleBinding(current, name));
      }
      return Err(UnsupportedKind);
    }

    /** The store with the manifest's resource in it, by kind; nothing is replaced yet. */
    method UpsertManifest(m: Manifest) returns (r: Result<RbacState, RbacError>)
      ensures r == ApplyUpsert(current, m)
    {
      hide UpsertAccount, UpsertRole, UpsertBinding;
      if m.apiVersion == CORE_API && m.kind == SERVICE_ACCOUNT {
        if !m.body.AccountBody? {
          return Err(MalformedBody);
        }
        r := UpsertServiceAccount(current, m.body.account);
      } else if m.apiVersion == RBAC_API && m.kind == "Role" {
        if !m.body.RoleBody? {
          return Err(MalformedBody);
        }
        var next := UpsertRoleIn(current, m.body.role);
        r := Ok(next);
      } else if m.apiVersion == RBAC_API && m.kind == "RoleBinding" {
        if !m.body.BindingBody? {
          return Err(MalformedBody);
        }
        var found := RoleExists(m.body.binding.roleRef);
        if !found {
          return Err(MissingRole);
        }
        var next := UpsertBindingIn(current, m.body.binding);
        r := Ok(next);
      } else {
        return Err(UnsupportedKind);
      }
    }

    /** A refused manifest leaves the store as it was. */
    method ApplyManifest(m: Manifest) returns (r: Result<RbacState, RbacError>)
      requires Valid()
      modifies this
      ensures Valid()
      ensures r == Apply(old(current), m)
      ensures current == if r.Ok? then r.value else old(current)
    {
      hide ApplyDelete, ApplyUpsert, IsDelete;
      if m.hasNamespace {
        return Err(NamespaceNotSupported);
      }
      if IsDelete(m) {
        r := DeleteManifest(m);
      } else {
        r := UpsertManifest(m);
      }
      if r.Ok? {
        AppliedVersion(current, m);
        r := ReplaceState(r.value);
      }
    }

    method EnsureAdminBundle(user: string, publicKey: string, engine: string) returns (r: Result<RbacState, RbacError>)
      requires Valid()
      modifies this
      ensures Valid()
      ensures r == EnsureAdmin(old(current), user, publicKey, engine)
      ensures current == if r.Ok? then r.value else old(current)
    {
      var withAccount := UpsertServiceAccount(current, ServiceAccount(user, engine, publicKey, true));
      if withAccount.Err? {
        return withAccount;
      }
      var withRole := UpsertRoleIn(withAccount.value, ADMIN_ROLE);
      var next := UpsertBindingIn(withRole, AdminBinding(user));
      r := ReplaceState(next);
    }
  }
}
