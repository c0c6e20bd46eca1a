/** The RBAC store, its changes, and the decision procedure over it. */
module Rbac {
  import opened Sorting
  import opened Text
  import opened Wrappers

  datatype ServiceAccount = ServiceAccount(name: string, engine: string, publicKey: string, enabled: bool)

  datatype PolicyRule = PolicyRule(namespaces: seq<string>, resources: seq<string>, verbs: seq<string>)

  datatype Role = Role(name: string, rules: seq<PolicyRule>)

  datatype Subject = Subject(kind: string, name: string)

  datatype RoleBinding = RoleBinding(name: string, subjects: seq<Subject>, roleRef: string)

  datatype RbacState = RbacState(version: int, accounts: seq<ServiceAccount>, roles: seq<Role>,
                                 bindings: seq<RoleBinding>)

  datatype RbacError =
    | NamespaceNotSupported
    | NameRequired
    | UnsupportedKind
    | MalformedBody
    | KeyImmutable
    | MissingRole
    | RbacVersionRegressed

  const EMPTY_STORE := RbacState(0, [], [], [])
  const SERVICE_ACCOUNT := "ServiceAccount"
  const CORE_API := "xenage.dev/v1"
  const RBAC_API := "rbac.authorization.xenage.dev/v1"

  // ---------------------------------------------------------------- named lists

  function AccountName(a: ServiceAccount): string { a.name }
  function RoleName(r: Role): string { r.name }
  function BindingName(b: RoleBinding): string { b.name }

  function ByName<T>(nameOf: T -> string): (T, T) -> bool
  {
    (a, b) => StrLe(nameOf(a), nameOf(b))
  }

  ghost predicate SortedByName<T>(xs: seq<T>, nameOf: T -> string)
  {
    forall i, j :: 0 <= i < j < |xs| ==> StrLt(nameOf(xs[i]), nameOf(xs[j]))
  }

  lemma ByNameTotalOrder<T(!new)>(nameOf: T -> string)
    ensures TotalOrder(ByName(nameOf))
  {
    var le := ByName(nameOf);
    forall x: T, y: T
      ensures le(x, y) || le(y, x)
    {
      StrLeTotal(nameOf(x), nameOf(y));
    }
    forall x: T, y: T, z: T | le(x, y) && le(y, z)
      ensures le(x, z)
    {
      StrLeTrans(nameOf(x), nameOf(y), nameOf(z));
    }
  }

  /** Replaces every element that has the name of `x`. */
  function ReplacedByName<T>(xs: seq<T>, x: T, nameOf: T -> string): (r: seq<T>)
    ensures |r| == |xs|
    ensures forall i :: 0 <= i < |xs| ==> r[i] == if nameOf(xs[i]) == nameOf(x) then x else xs[i]
  {
    seq(|xs|, i requires 0 <= i < |xs| => if nameOf(xs[i]) == nameOf(x) then x else xs[i])
  }

  predicate HasName<T>(xs: seq<T>, name: string, nameOf: T -> string)
  {
    exists i :: 0 <= i < |xs| && nameOf(xs[i]) == name
  }

  function Upserted<T>(xs: seq<T>, x: T, nameOf: T -> string): seq<T>
  {
    var replaced := ReplacedByName(xs, x, nameOf);
    Sort(if HasName(xs, nameOf(x), nameOf) then replaced else replaced + [x], ByName(nameOf))
  }

  function Kept<T(!new)>(xs: seq<T>, keep: T -> bool): (r: seq<T>)
    ensures forall x :: x in r <==> x in xs && keep(x)
    ensures |r| <= |xs|
  {
    if xs == [] then []
    else
      assert xs == [xs[0]] + xs[1..];
      (if keep(xs[0]) then [xs[0]] else []) + Kept(xs[1..], keep)
  }

  lemma {:induction false} KeptSorted<T(!new)>(xs: seq<T>, keep: T -> bool, nameOf: T -> string)
    requires SortedByName(xs, nameOf)
    ensures SortedByName(Kept(xs, keep), nameOf)
  {
    if xs != [] {
      KeptSorted(xs[1..], keep, nameOf);
      var rest := Kept(xs[1..], keep);
      forall j | 0 <= j < |rest|
        ensures StrLt(nameOf(xs[0]), nameOf(rest[j]))
      {
        assert rest[j] in xs[1..];
      }
    }
  }

  lemma {:induction false} KeptAll<T(!new)>(xs: seq<T>, keep: T -> bool)
    requires |Kept(xs, keep)| == |xs|
    ensures Kept(xs, keep) == xs
  {
    if xs != [] {
      assert xs == [xs[0]] + xs[1..];
      KeptAll(xs[1..], keep);
    }
  }

  lemma {:induction false} SortKeepsSortedByName<T>(xs: seq<T>, nameOf: T -> string)
    requires SortedByName(xs, nameOf)
    ensures Sort(xs, ByName(nameOf)) == xs
  {
    SortFixes(xs, ByName(nameOf));
  }

  /** An upsert keeps the list strictly sorted and changes only the entry of that name. */
  lemma UpsertedIsSorted<T(!new)>(xs: seq<T>, x: T, nameOf: T -> string)
    requires SortedByName(xs, nameOf)
    ensures SortedByName(Upserted(xs, x, nameOf), nameOf)
    ensures forall y :: y in Upserted(xs, x, nameOf) <==> y == x || (y in xs && nameOf(y) != nameOf(x))
  {
    var replaced := ReplacedByName(xs, x, nameOf);
    var found := HasName(xs, nameOf(x), nameOf);
    var list := if found then replaced else replaced + [x];
    var le := ByName(nameOf);
    assert DistinctBy(list, nameOf);
    ByNameTotalOrder(nameOf);
    SortIsSorted(list, le);
    SortDistinct(list, le, nameOf);
    SortMembers(list, le);
    var r := Sort(list, le);
    forall i, j | 0 <= i < j < |r|
      ensures StrLt(nameOf(r[i]), nameOf(r[j]))
    {
      assert le(r[i], r[j]);
    }
    forall y
      ensures y in list <==> y == x || (y in xs && nameOf(y) != nameOf(x))
    {
      if y in xs && nameOf(y) != nameOf(x) {
        var i :| 0 <= i < |xs| && xs[i] == y;
        assert list[i] == y;
      }
      if y == x && found {
        var i :| 0 <= i < |xs| && nameOf(xs[i]) == nameOf(x);
        assert list[i] == x;
      }
    }
  }

  // ---------------------------------------------------------------- decisions

  datatype Query = Query(user: string, publicKey: string, verb: string, resource: string, namespace: string)

  /** A list of patterns matches a value it contains, or anything if it contains the star. */
  predicate Matches(values: seq<string>, expected: string)
  {
    "*" in values || expected in values
  }

  predicate RuleAllows(rule: PolicyRule, q: Query)
  {
    && Matches(rule.verbs, q.verb)
    && Matches(rule.resources, q.resource)
    && (rule.namespaces == [] || Matches(rule.namespaces, q.namespace))
  }

  predicate RoleAllows(role: Role, q: Query)
  {
    exists rule :: rule in role.rules && RuleAllows(rule, q)
  }

  predicate NamesSubjectIn(subjects: seq<Subject>, user: string)
  {
    exists s :: s in subjects && s.kind == SERVICE_ACCOUNT && s.name == user
  }

  predicate NamesSubject(b: RoleBinding, user: string)
  {
    NamesSubjectIn(b.subjects, user)
  }

  /** The binding once for every subject that is the account. */
  function NamingsIn(b: RoleBinding, subjects: seq<Subject>, user: string): (r: seq<RoleBinding>)
    ensures forall x :: x in r <==> x == b && NamesSubjectIn(subjects, user)
  {
    if subjects == [] then []
    else
      var n := |subjects| - 1;
      assert subjects == subjects[..n] + [subjects[n]];
      var last := subjects[n];
      NamingsIn(b, subjects[..n], user) + if last.kind == SERVICE_ACCOUNT && last.name == user then [b] else []
  }

  /** The bindings that name the account, in order, repeated like that. */
  function Namings(bindings: seq<RoleBinding>, user: string): (r: seq<RoleBinding>)
    ensures forall b :: b in r <==> b in bindings && NamesSubject(b, user)
  {
    if bindings == [] then []
    else
      var n := |bindings| - 1;
      assert bindings == bindings[..n] + [bindings[n]];
      Namings(bindings[..n], user) + NamingsIn(bindings[n], bindings[n].subjects, user)
  }

  /** The first account of that name. */
  function FindAccount(accounts: seq<ServiceAccount>, name: string): (r: Option<ServiceAccount>)
    ensures r.Some? ==> r.value in accounts && r.value.name == name
    ensures r.None? ==> !HasName(accounts, name, AccountName)
  {
    if accounts == [] then None
    else if accounts[0].name == name then Some(accounts[0])
    else FindAccount(accounts[1..], name)
  }

  /** Roles by name; of two with one name the later counts. */
  function RoleIndex(roles: seq<Role>): (m: map<string, Role>)
    ensures forall n :: n in m ==> m[n] in roles && m[n].name == n
    ensures forall r :: r in roles ==> r.name in m
  {
    if roles == [] then map[]
    else
      var n := |roles| - 1;
      assert roles == roles[..n] + [roles[n]];
      RoleIndex(roles[..n])[roles[n].name := roles[n]]
  }

  predicate AllowsWith(bindings: seq<RoleBinding>, index: map<string, Role>, q: Query)
  {
    exists b :: b in bindings && b.roleRef in index && RoleAllows(index[b.roleRef], q)
  }

  predicate AllowedBy(s: RbacState, q: Query)
  {
    var index := RoleIndex(s.roles);
    exists b :: b in s.bindings && NamesSubject(b, q.user)
                && b.roleRef in index && RoleAllows(index[b.roleRef], q)
  }

  /** What `can_i` computes: first account of the name, last role of each name. */
  predicate CanI(s: RbacState, q: Query)
  {
    var account := FindAccount(s.accounts, q.user);
    account.Some? && account.value.enabled && account.value.publicKey == q.publicKey && AllowedBy(s, q)
  }

  /** The rule reaches the account: one of its bindings is to a role that has the rule. */
  ghost predicate RuleFor(s: RbacState, user: string, rule: PolicyRule)
  {
    exists b, role, subject ::
      b in s.bindings && role in s.roles && subject in b.subjects && rule in role.rules
      && subject.kind == "ServiceAccount" && subject.name == user && role.name == b.roleRef
  }

  /** The rule lists what is asked, verb, resource and namespace; a star lists all, no namespaces at all too. */
  ghost predicate RuleLists(rule: PolicyRule, q: Query)
  {
    && (q.verb in rule.verbs || "*" in rule.verbs)
    && (q.resource in rule.resources || "*" in rule.resources)
    && (q.namespace in rule.namespaces || "*" in rule.namespaces || rule.namespaces == [])
  }

  /** What an operator means by it: some enabled account, binding, subject, role and rule line up. */
  ghost predicate Permitted(s: RbacState, q: Query)
  {
    && (exists a :: a in s.accounts && a.name == q.user && a.enabled && a.publicKey == q.publicKey)
    && (exists rule :: RuleFor(s, q.user, rule) && RuleLists(rule, q))
  }

  /** Lists strictly sorted by name, and no binding points to a missing role. */
  ghost predicate StoreOk(s: RbacState)
  {
    && SortedByName(s.accounts, AccountName)
    && SortedByName(s.roles, RoleName)
    && SortedByName(s.bindings, BindingName)
    && forall b :: b in s.bindings ==> HasName(s.roles, b.roleRef, RoleName)
  }

  lemma SameNameSameElement<T>(xs: seq<T>, nameOf: T -> string, x: T, y: T)
    requires SortedByName(xs, nameOf) && x in xs && y in xs && nameOf(x) == nameOf(y)
    ensures x == y
  {
    var i :| 0 <= i < |xs| && xs[i] == x;
    var j :| 0 <= j < |xs| && xs[j] == y;
  }

  lemma GrantedIsPermitted(s: RbacState, q: Query)
    requires CanI(s, q)
    ensures Permitted(s, q)
  {
    var index := RoleIndex(s.roles);
    var b :| b in s.bindings && NamesSubject(b, q.user) && b.roleRef in index && RoleAllows(index[b.roleRef], q);
    var role := index[b.roleRef];
    var rule :| rule in role.rules && RuleAllows(rule, q);
    var subject :| subject in b.subjects && subject.kind == SERVICE_ACCOUNT && subject.name == q.user;
    assert role in s.roles && role.name == b.roleRef;
    assert RuleFor(s, q.user, rule) && RuleLists(rule, q);
  }

  lemma PermittedAccountIsFound(s: RbacState, q: Query)
    requires SortedByName(s.accounts, AccountName) && Permitted(s, q)
    ensures var account := FindAccount(s.accounts, q.user);
            account.Some? && account.value.enabled && account.value.publicKey == q.publicKey
  {
    var a :| a in s.accounts && a.name == q.user && a.enabled && a.publicKey == q.publicKey;
    var i :| 0 <= i < |s.accounts| && s.accounts[i] == a;
    assert AccountName(s.accounts[i]) == q.user;
    SameNameSameElement(s.accounts, AccountName, a, FindAccount(s.accounts, q.user).value);
  }

  lemma ListedIsAllowed(role: Role, rule: PolicyRule, q: Query)
    requires rule in role.rules && RuleLists(rule, q)
    ensures RoleAllows(role, q)
  {
    assert RuleAllows(rule, q);
  }

  lemma BoundRuleAllows(s: RbacState, b: RoleBinding, role: Role, rule: PolicyRule, q: Query)
    requires SortedByName(s.roles, RoleName)
    requires b in s.bindings && NamesSubject(b, q.user)
    requires role in s.roles && role.name == b.roleRef && rule in role.rules && RuleLists(rule, q)
    ensures AllowedBy(s, q)
  {
    hide NamesSubject, RoleAllows, RuleLists;
    ListedIsAllowed(role, rule, q);
    SameNameSameElement(s.roles, RoleName, role, RoleIndex(s.roles)[b.roleRef]);
  }

  lemma PermittedIsAllowed(s: RbacState, q: Query)
    requires SortedByName(s.roles, RoleName) && Permitted(s, q)
    ensures AllowedBy(s, q)
  {
    hide RuleLists, SortedByName, AllowedBy;
    var rule :| RuleFor(s, q.user, rule) && RuleLists(rule, q);
    var b, role, subject :|
      b in s.bindings && role in s.roles && subject in b.subjects && rule in role.rules
      && subject.kind == "ServiceAccount" && subject.name == q.user && role.name == b.roleRef;
    assert NamesSubject(b, q.user);
    BoundRuleAllows(s, b, role, rule, q);
  }

  /** On every well-formed store the loops decide exactly what is permitted. */
  lemma DecisionIsExact(s: RbacState, q: Query)
    requires StoreOk(s)
    ensures CanI(s, q) <==> Permitted(s, q)
  {
    if CanI(s, q) {
      GrantedIsPermitted(s, q);
    }
    if Permitted(s, q) {
      PermittedAccountIsFound(s, q);
      PermittedIsAllowed(s, q);
    }
  }

  /** On any store, an account none of whose rules lists the verb is refused. */
  lemma UnlistedVerbRefused(s: RbacState, q: Query)
    requires forall rule :: RuleFor(s, q.user, rule) ==> q.verb !in rule.verbs && "*" !in rule.verbs
    ensures !CanI(s, q)
  {
    if CanI(s, q) {
      GrantedIsPermitted(s, q);
    }
  }

  /** Nor is an account granted a resource that none of its rules lists. */
  lemma UnlistedResourceRefused(s: RbacState, q: Query)
    requires forall rule :: RuleFor(s, q.user, rule) ==> q.resource !in rule.resources && "*" !in rule.resources
    ensures !CanI(s, q)
  {
    if CanI(s, q) {
      GrantedIsPermitted(s, q);
    }
  }

  /** Nor a namespace, where each of its rules lists some and none of them this one. */
  lemma UnlistedNamespaceRefused(s: RbacState, q: Query)
    requires forall rule :: RuleFor(s, q.user, rule) ==>
                              rule.namespaces != [] && q.namespace !in rule.namespaces && "*" !in rule.namespaces
    ensures !CanI(s, q)
  {
    if CanI(s, q) {
      GrantedIsPermitted(s, q);
    }
  }

  // ---------------------------------------------------------------- changes

  predicate ChangesKey(accounts: seq<ServiceAccount>, account: ServiceAccount)
  {
    exists i :: 0 <= i < |accounts| && accounts[i].name == account.name && accounts[i].publicKey != account.publicKey
  }

  function UpsertAccount(s: RbacState, account: ServiceAccount): Result<RbacState, RbacError>
  {
    if ChangesKey(s.accounts, account) then Err(KeyImmutable)
    else Ok(s.(version := s.version + 1, accounts := Upserted(s.accounts, account, AccountName)))
  }

  function UpsertRole(s: RbacState, role: Role): RbacState
  {
    s.(version := s.version + 1, roles := Upserted(s.roles, role, RoleName))
  }

  function UpsertBinding(s: RbacState, binding: RoleBinding): RbacState
  {
    s.(version := s.version + 1, bindings := Upserted(s.bindings, binding, BindingName))
  }

  function DeleteServiceAccount(s: RbacState, name: string): RbacState
  {
    var accounts := Kept(s.accounts, (a: ServiceAccount) => a.name != name);
    var bindings := Kept(s.bindings, (b: RoleBinding) => !NamesSubject(b, name));
    if |accounts| == |s.accounts| && |bindings| == |s.bindings| then s
    else RbacState(s.version + 1, Sort(accounts, ByName(AccountName)), s.roles, Sort(bindings, ByName(BindingName)))
  }

  function DeleteRole(s: RbacState, name: string): RbacState
  {
    var roles := Kept(s.roles, (r: Role) => r.name != name);
    var bindings := Kept(s.bindings, (b: RoleBinding) => b.roleRef != name);
    if |roles| == |s.roles| && |bindings| == |s.bindings| then s
    else RbacState(s.version + 1, s.accounts, Sort(roles, ByName(RoleName)), Sort(bindings, ByName(BindingName)))
  }

  function DeleteRoleBinding(s: RbacState, name: string): RbacState
  {
    var bindings := Kept(s.bindings, (b: RoleBinding) => b.name != name);
    if |bindings| == |s.bindings| then s
    else RbacState(s.version + 1, s.accounts, s.roles, Sort(bindings, ByName(BindingName)))
  }

  datatype Body = AccountBody(account: ServiceAccount) | RoleBody(role: Role) | BindingBody(binding: RoleBinding)
                | OtherBody

  /**
   * A decoded manifest: `action` is the value of the annotation xenage.io/action ("" when absent),
   * `name` the raw metadata name, `body` what converting the document to the kind's type yields.
   */
  datatype Manifest = Manifest(apiVersion: string, kind: string, hasNamespace: bool, action: string, name: string,
                               body: Body)

  predicate IsDelete(m: Manifest)
  {
    AsciiLower(Trim(m.action)) == "delete"
  }

  function ApplyDelete(s: RbacState, m: Manifest): Result<RbacState, RbacError>
  {
    var name := Trim(m.name);
    if name == "" then Err(NameRequired)
    else if m.apiVersion == CORE_API && m.kind == SERVICE_ACCOUNT then Ok(DeleteServiceAccount(s, name))
    else if m.apiVersion == RBAC_API && m.kind == "Role" then Ok(DeleteRole(s, name))
    else if m.apiVersion == RBAC_API && m.kind == "RoleBinding" then Ok(DeleteRoleBinding(s, name))
    else Err(UnsupportedKind)
  }

  function ApplyUpsert(s: RbacState, m: Manifest): Result<RbacState, RbacError>
  {
    if m.apiVersion == CORE_API && m.kind == SERVICE_ACCOUNT then
      if m.body.AccountBody? then UpsertAccount(s, m.body.account) else Err(MalformedBody)
    else if m.apiVersion == RBAC_API && m.kind == "Role" then
      if m.body.RoleBody? then Ok(UpsertRole(s, m.body.role)) else Err(MalformedBody)
    else if m.apiVersion == RBAC_API && m.kind == "RoleBinding" then
      if !m.body.BindingBody? then Err(MalformedBody)
      else if !HasName(s.roles, m.body.binding.roleRef, RoleName) then Err(MissingRole)
      else Ok(UpsertBinding(s, m.body.binding))
    else Err(UnsupportedKind)
  }

  function Apply(s: RbacState, m: Manifest): Result<RbacState, RbacError>
  {
    if m.hasNamespace then Err(NamespaceNotSupported)
    else if IsDelete(m) then ApplyDelete(s, m)
    else ApplyUpsert(s, m)
  }

  lemma DeletedVersion(s: RbacState, name: string)
    ensures s.version <= DeleteServiceAccount(s, name).version
    ensures s.version <= DeleteRole(s, name).version
    ensures s.version <= DeleteRoleBinding(s, name).version
  {
    hide Kept, Sort;
  }

  lemma UpsertedVersion(s: RbacState, m: Manifest)
    ensures ApplyUpsert(s, m).Ok? ==> s.version <= ApplyUpsert(s, m).value.version
  {
    hide Upserted, ChangesKey, HasName;
  }

  /** No manifest lowers the version. */
  lemma AppliedVersion(s: RbacState, m: Manifest)
    ensures Apply(s, m).Ok? ==> s.version <= Apply(s, m).value.version
  {
    hide Trim, IsDelete, ApplyUpsert, DeleteServiceAccount, DeleteRole, DeleteRoleBinding;
    DeletedVersion(s, Trim(m.name));
    UpsertedVersion(s, m);
  }

  const ADMIN_ROLE := Role("admin", [PolicyRule(["*"], ["*"], ["*"])])

  function AdminBinding(user: string): RoleBinding
  {
    RoleBinding("admin-binding-" + user, [Subject(SERVICE_ACCOUNT, user)], "admin")
  }

  function EnsureAdmin(s: RbacState, user: string, publicKey: string, engine: string): Result<RbacState, RbacError>
  {
    var withAccount := UpsertAccount(s, ServiceAccount(user, engine, publicKey, true));
    if withAccount.Err? then withAccount
    else Ok(UpsertBinding(UpsertRole(withAccount.value, ADMIN_ROLE), AdminBinding(user)))
  }

  function ReplaceStore(current: RbacState, s: RbacState): Result<RbacState, RbacError>
  {
    if s.version < current.version then Err(RbacVersionRegressed) else Ok(s)
  }
}
