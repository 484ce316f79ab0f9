/**
  The quota API of glance/api/v2/quotas.py: reading and writing the quota class
  defaults, deriving the effective limits of a project or domain, negotiating a
  new set of limits against bounds inherited from the parent domain or implied
  by the child projects, and reporting a project's usage.
*/
module QuotaApi {

  import opened Wrappers
  import opened QuotaTypes
  import opened QuotaStore
  import opened Identity

  /** The HTTP errors the quota API raises. */
  datatype ApiError = BadRequest | Forbidden

  /**
    QuotaController._get_domain: the parent domain of a project, `None` for a
    domain, and BadRequest for a scope Keystone knows as neither.
  */
  function GetDomain(ks: Keystone, scope: Scope): (r: Result<Option<Scope>, ApiError>)
    ensures r.Err? <==> scope !in ks.parentOf && scope !in ks.domains
    ensures r.Err? ==> r.error == BadRequest
    ensures r.Ok? && scope in ks.parentOf ==> r.value == Some(ks.parentOf[scope])
    ensures r.Ok? && scope !in ks.parentOf ==> r.value.None?
  {
    if scope in ks.parentOf then Ok(ParentDomain(ks, scope))
    else if scope in ks.domains then Ok(None)
    else Err(BadRequest)
  }

  // ---------------------------------------------------------------------------
  // Request deserialisation
  // ---------------------------------------------------------------------------

  /** RequestDeserializer._check_all_classes_present: every quota class is named. */
  function CheckAllClassesPresent(names: set<string>): (r: Result<(), ApiError>)
    ensures r.Ok? <==> forall c: QuotaClass :: ClassName(c) in names
  {
    AllClassesListed();
    if ClassNames() <= names then Ok(()) else Err(BadRequest)
  }

  /** The `_props` schema: every quota value present is an integer in [-1, sys.maxsize]. */
  predicate SchemaValid(body: map<string, int>) {
    forall c: QuotaClass :: ClassName(c) in body ==> ValidQuotaValue(body[ClassName(c)])
  }

  /**
    The body of a set_quotas or set_quota_classes request: the body must be
    present, pass the schema and name every class. Both requests share it.
  */
  function DeserializeClassMap(body: Option<map<string, int>>): (r: Result<Limits, ApiError>)
    ensures r.Ok? <==>
      body.Some? && forall c: QuotaClass :: ClassName(c) in body.value && ValidQuotaValue(body.value[ClassName(c)])
    ensures r.Err? ==> r.error == BadRequest
    ensures r.Ok? ==> Complete(r.value) && forall c: QuotaClass :: r.value[c] == body.value[ClassName(c)]
  {
    if body.None? then Err(BadRequest)
    else if !SchemaValid(body.value) then Err(BadRequest)
    else
      var _ :- CheckAllClassesPresent(body.value.Keys);
      AllClassesListed();
      Ok(map c: QuotaClass | c in QuotaClasses :: body.value[ClassName(c)])
  }

  /** Every accepted request value lies in the schema range. */
  lemma AcceptedValuesInRange(body: Option<map<string, int>>, c: QuotaClass)
    requires DeserializeClassMap(body).Ok?
    ensures ValidQuotaValue(DeserializeClassMap(body).value[c])
    ensures -1 <= DeserializeClassMap(body).value[c] <= MaxQuotaValue
  {
  }

  // ---------------------------------------------------------------------------
  // Quota classes
  // ---------------------------------------------------------------------------

  /** QuotaController.get_quota_classes: the defaults used for new projects. */
  function GetQuotaClasses(st: Store): Limits {
    st.classes
  }

  /** QuotaController.set_quota_classes: writes the defaults and returns them. */
  function SetQuotaClasses(st: Store, q: Limits): (r: (Store, Limits))
    ensures forall c :: c in q ==> c in r.1 && r.1[c] == q[c]
    ensures r.1 == GetQuotaClasses(r.0)
    ensures r.0.quotas == st.quotas && r.0.reservations == st.reservations
  {
    var st' := QuotaClassesSet(st, q);
    (st', st'.classes)
  }

  /** Setting every class default and then reading them back returns exactly what was set. */
  lemma SetThenGetQuotaClasses(st: Store, body: Option<map<string, int>>)
    requires DeserializeClassMap(body).Ok?
    ensures GetQuotaClasses(SetQuotaClasses(st, DeserializeClassMap(body).value).0) == DeserializeClassMap(body).value
  {
    var q := DeserializeClassMap(body).value;
    var got := GetQuotaClasses(SetQuotaClasses(st, q).0);
    assert got.Keys == q.Keys;
  }

  // ---------------------------------------------------------------------------
  // Effective limits
  // ---------------------------------------------------------------------------

  /**
    QuotaController.get_quotas: the explicit limits if any; else, for a project,
    the parent domain's defaults; else, for a domain, -1 for every class.
  */
  function GetQuotas(st: Store, ks: Keystone, scope: Scope): (r: Result<Limits, ApiError>)
    ensures QuotasGet(st, scope) != map[] ==> r == Ok(QuotasGet(st, scope))
    ensures QuotasGet(st, scope) == map[] ==> (r.Err? <==> GetDomain(ks, scope).Err?)
    ensures QuotasGet(st, scope) == map[] && r.Ok? && Truthy(GetDomain(ks, scope).value) ==>
              r.value == QuotasGetDefaults(st, GetDomain(ks, scope).value)
    ensures QuotasGet(st, scope) == map[] && r.Ok? && !Truthy(GetDomain(ks, scope).value) ==>
              r.value == Uniform(Unlimited)
  {
    var quotas := QuotasGet(st, scope);
    if quotas != map[] then Ok(quotas)
    else
      var domain :- GetDomain(ks, scope);
      if Truthy(domain) then Ok(QuotasGetDefaults(st, domain)) else Ok(Uniform(Unlimited))
  }

  /** QuotaController.delete_quotas: the scope falls back to its default limits. */
  function DeleteQuotas(st: Store, scope: Scope): (r: Store)
    ensures QuotasGet(r, scope) == map[]
    ensures forall s :: s != scope ==> QuotasGet(r, s) == QuotasGet(st, s)
  {
    QuotasReset(st, scope)
  }

  /**
    Deleting limits undoes setting them: a scope that had no explicit limits
    reads the same effective limits after a set followed by a delete.
  */
  lemma DeleteUndoesSet(st: Store, ks: Keystone, scope: Scope, q: Limits)
    requires QuotasGet(st, scope) == map[]
    ensures GetQuotas(DeleteQuotas(QuotasSet(st, scope, q), scope), ks, scope) == GetQuotas(st, ks, scope)
  {
  }

  // ---------------------------------------------------------------------------
  // Bounds
  // ---------------------------------------------------------------------------

  /** The allowed range of one class: `max == -1` means not bounded from above. */
  datatype Bound = Bound(min: int, max: int)

  /** A value is rejected when it exceeds a real maximum or is a real limit below the minimum. */
  predicate Rejects(b: Bound, v: int) {
    (b.max != Unlimited && v > b.max) || (v != Unlimited && v < b.min)
  }

  /** The value a class has in a map, or `default` when it has no row. */
  function ValueOr(m: Limits, c: QuotaClass, default: int): int {
    if c in m then m[c] else default
  }

  /**
    The bounds of a project: the maximum is the parent domain's explicit limit,
    else unrestricted; the minimum is the project's usage, else 0.
  */
  function ProjectBound(st: Store, domain: Scope, scope: Scope, c: QuotaClass): Bound {
    Bound(ValueOr(QuotaGetUsage(st, scope), c, 0), ValueOr(QuotasGet(st, domain), c, Unlimited))
  }

  /** max(0, the largest explicit limit of the given child projects) for a class. */
  function ChildLimitFloor(st: Store, projects: seq<Scope>, c: QuotaClass): (r: int)
    ensures r >= 0
  {
    if |projects| == 0 then 0
    else
      var rest := ChildLimitFloor(st, projects[..|projects| - 1], c);
      var last := projects[|projects| - 1];
      if c in QuotasGet(st, last) && rest < QuotasGet(st, last)[c] then QuotasGet(st, last)[c] else rest
  }

  /** The sum of the usages of the given child projects for a class (duplicates count twice). */
  function TotalChildUsage(st: Store, projects: seq<Scope>, c: QuotaClass): int {
    if |projects| == 0 then 0
    else TotalChildUsage(st, projects[..|projects| - 1], c) + ValueOr(QuotaGetUsage(st, projects[|projects| - 1]), c, 0)
  }

  /** The minimum of a domain: the larger of the child limit floor and the total child usage. */
  function DomainMinimum(st: Store, projects: seq<Scope>, c: QuotaClass): int {
    var floor := ChildLimitFloor(st, projects, c);
    var total := TotalChildUsage(st, projects, c);
    if floor < total then total else floor
  }

  /** The bounds of a domain: never bounded from above. */
  function DomainBound(st: Store, projects: seq<Scope>, c: QuotaClass): Bound {
    Bound(DomainMinimum(st, projects, c), Unlimited)
  }

  /** The bounds set_quotas applies to a class, given the result of _get_domain. */
  function BoundFor(st: Store, ks: Keystone, scope: Scope, domain: Option<Scope>, c: QuotaClass): Bound {
    if Truthy(domain) then ProjectBound(st, domain.value, scope, c)
    else DomainBound(st, ProjectsOf(ks, scope), c)
  }

  /** The domain minimum is at least every child's explicit limit and 0. */
  lemma {:induction false} ChildLimitFloorIsUpperBound(st: Store, projects: seq<Scope>, c: QuotaClass, i: int)
    requires 0 <= i < |projects| && c in QuotasGet(st, projects[i])
    ensures QuotasGet(st, projects[i])[c] <= ChildLimitFloor(st, projects, c)
    decreases |projects|
  {
    if i < |projects| - 1 {
      var prefix := projects[..|projects| - 1];
      assert prefix[i] == projects[i];
      ChildLimitFloorIsUpperBound(st, prefix, c, i);
    }
  }

  /** The child limit floor is 0 or some child's explicit limit: it is the least such bound. */
  lemma {:induction false} ChildLimitFloorIsAttained(st: Store, projects: seq<Scope>, c: QuotaClass)
    ensures ChildLimitFloor(st, projects, c) == 0 ||
            exists i :: 0 <= i < |projects| && c in QuotasGet(st, projects[i]) &&
                        ChildLimitFloor(st, projects, c) == QuotasGet(st, projects[i])[c]
  {
    if |projects| > 0 {
      var prefix := projects[..|projects| - 1];
      ChildLimitFloorIsAttained(st, prefix, c);
      if ChildLimitFloor(st, projects, c) != ChildLimitFloor(st, prefix, c) {
        assert c in QuotasGet(st, projects[|projects| - 1]);
      } else if ChildLimitFloor(st, prefix, c) != 0 {
        var i :| 0 <= i < |prefix| && c in QuotasGet(st, prefix[i]) &&
                 ChildLimitFloor(st, prefix, c) == QuotasGet(st, prefix[i])[c];
        assert prefix[i] == projects[i];
      }
    }
  }

  /** With non-negative usages, the total child usage covers every child's usage. */
  lemma {:induction false} TotalChildUsageCoversChild(st: Store, projects: seq<Scope>, c: QuotaClass, i: int)
    requires UsageNonNegative(st)
    requires 0 <= i < |projects|
    ensures ValueOr(QuotaGetUsage(st, projects[i]), c, 0) <= TotalChildUsage(st, projects, c)
    ensures 0 <= TotalChildUsage(st, projects, c)
    decreases |projects|
  {
    var prefix := projects[..|projects| - 1];
    if i < |projects| - 1 {
      assert prefix[i] == projects[i];
      TotalChildUsageCoversChild(st, prefix, c, i);
    } else if |prefix| > 0 {
      TotalChildUsageCoversChild(st, prefix, c, 0);
    }
  }

  /**
    A domain cannot be tightened below what a child project is explicitly
    allotted or uses, nor below the children's overall usage.
  */
  lemma DomainMinimumCoversChildren(st: Store, projects: seq<Scope>, c: QuotaClass)
    requires UsageNonNegative(st)
    ensures DomainMinimum(st, projects, c) >= 0
    ensures DomainMinimum(st, projects, c) >= TotalChildUsage(st, projects, c)
    ensures forall i :: 0 <= i < |projects| && c in QuotasGet(st, projects[i]) ==>
              QuotasGet(st, projects[i])[c] <= DomainMinimum(st, projects, c)
    ensures forall i :: 0 <= i < |projects| ==>
              ValueOr(QuotaGetUsage(st, projects[i]), c, 0) <= DomainMinimum(st, projects, c)
  {
    forall i | 0 <= i < |projects| && c in QuotasGet(st, projects[i])
      ensures QuotasGet(st, projects[i])[c] <= DomainMinimum(st, projects, c)
    {
      ChildLimitFloorIsUpperBound(st, projects, c, i);
    }
    forall i | 0 <= i < |projects|
      ensures ValueOr(QuotaGetUsage(st, projects[i]), c, 0) <= DomainMinimum(st, projects, c)
    {
      TotalChildUsageCoversChild(st, projects, c, i);
    }
  }

  /**
    The domain branch of set_quotas, as written: a first pass raises each class's
    minimum to the largest child explicit limit, a second pass sums the child
    usages, and the minimum is raised to that sum where it is larger.
  */
  method ComputeDomainMinimum(st: Store, projects: seq<Scope>) returns (minLimit: Limits)
    ensures Complete(minLimit)
    ensures forall c :: minLimit[c] == DomainMinimum(st, projects, c)
  {
    var floor := LargestChildLimits(st, projects);
    var total := SumChildUsages(st, projects);
    minLimit := map c: QuotaClass | c in floor :: if floor[c] < total[c] then total[c] else floor[c];
  }

  /** The first pass: each class's largest explicit child limit, starting from 0. */
  method LargestChildLimits(st: Store, projects: seq<Scope>) returns (floor: Limits)
    ensures Complete(floor)
    ensures forall c :: floor[c] == ChildLimitFloor(st, projects, c)
  {
    floor := Uniform(0);
    var i := 0;
    while i < |projects|
      invariant 0 <= i <= |projects|
      invariant Complete(floor)
      invariant forall c :: floor[c] == ChildLimitFloor(st, projects[..i], c)
    {
      var q := QuotasGet(st, projects[i]);
      assert projects[..i + 1][..i] == projects[..i];
      floor := map c: QuotaClass | c in floor :: if c in q && floor[c] < q[c] then q[c] else floor[c];
      i := i + 1;
    }
    assert projects[..|projects|] == projects;
  }

  /** The second pass: each class's usage summed over the child projects. */
  method SumChildUsages(st: Store, projects: seq<Scope>) returns (total: Limits)
    ensures Complete(total)
    ensures forall c :: total[c] == TotalChildUsage(st, projects, c)
  {
    total := Uniform(0);
    var j := 0;
    while j < |projects|
      invariant 0 <= j <= |projects|
      invariant Complete(total)
      invariant forall c :: total[c] == TotalChildUsage(st, projects[..j], c)
    {
      var u := QuotaGetUsage(st, projects[j]);
      assert projects[..j + 1][..j] == projects[..j];
      total := map c: QuotaClass | c in total :: total[c] + ValueOr(u, c, 0);
      j := j + 1;
    }
    assert projects[..|projects|] == projects;
  }

  // ---------------------------------------------------------------------------
  // Setting limits
  // ---------------------------------------------------------------------------

  /** True when every class of the request lies within its bounds. */
  predicate WithinBounds(st: Store, ks: Keystone, scope: Scope, domain: Option<Scope>, request: Limits) {
    forall c :: c in request ==> !Rejects(BoundFor(st, ks, scope, domain, c), request[c])
  }

  /**
    QuotaController.set_quotas: resolves the scope, computes the bounds, and
    writes the request only when every class passes; a rejection leaves the
    store unchanged. Returns the scope's limits after the write.
  */
  method SetQuotas(st: Store, ks: Keystone, scope: Scope, request: Limits)
    returns (r: Result<Limits, ApiError>, st': Store)
    ensures r.Err? ==> st' == st && r.error == BadRequest
    ensures r.Ok? <==> GetDomain(ks, scope).Ok? && WithinBounds(st, ks, scope, GetDomain(ks, scope).value, request)
    ensures r.Ok? ==> st' == QuotasSet(st, scope, request) && r.value == QuotasGet(st', scope)
  {
    st' := st;
    var resolved := GetDomain(ks, scope);
    if resolved.Err? {
      return Err(resolved.error), st;
    }
    var domain := resolved.value;
    var minLimit: Limits, maxLimit: Limits;
    if Truthy(domain) {
      AllClassesListed();
      var domainQuotas := QuotasGet(st, domain.value);
      var usage := QuotaGetUsage(st, scope);
      maxLimit := map c: QuotaClass | c in QuotaClasses :: ValueOr(domainQuotas, c, Unlimited);
      minLimit := map c: QuotaClass | c in QuotaClasses :: ValueOr(usage, c, 0);
    } else {
      minLimit := ComputeDomainMinimum(st, ProjectsOf(ks, scope));
      maxLimit := Uniform(Unlimited);
    }
    assert forall c :: Bound(minLimit[c], maxLimit[c]) == BoundFor(st, ks, scope, domain, c);
    var k := 0;
    while k < |QuotaClasses|
      invariant 0 <= k <= |QuotaClasses|
      invariant forall j :: 0 <= j < k && QuotaClasses[j] in request ==>
                  !Rejects(Bound(minLimit[QuotaClasses[j]], maxLimit[QuotaClasses[j]]), request[QuotaClasses[j]])
    {
      var c := QuotaClasses[k];
      if c in request && Rejects(Bound(minLimit[c], maxLimit[c]), request[c]) {
        return Err(BadRequest), st;
      }
      k := k + 1;
    }
    assert WithinBounds(st, ks, scope, domain, request) by {
      forall c | c in request
        ensures !Rejects(BoundFor(st, ks, scope, domain, c), request[c])
      {
        assert QuotaClasses[ClassIndex(c)] == c;
      }
    }
    st' := QuotasSet(st, scope, request);
    r := Ok(QuotasGet(st', scope));
  }

  /** -1 ("not restricted") is accepted for every class of any resolvable scope. */
  lemma UnlimitedAlwaysAccepted(st: Store, ks: Keystone, scope: Scope, domain: Option<Scope>, request: Limits)
    requires QuotasInRange(st)
    requires forall c :: c in request ==> request[c] == Unlimited
    ensures WithinBounds(st, ks, scope, domain, request)
  {
  }

  /**
    For a project, a request passes exactly when every value is -1 or lies
    between the project's usage and the parent domain's explicit limit.
  */
  lemma ProjectRequestAcceptedIff(st: Store, ks: Keystone, scope: Scope, request: Limits)
    requires GetDomain(ks, scope).Ok? && Truthy(GetDomain(ks, scope).value)
    requires QuotasInRange(st)
    ensures var domain := GetDomain(ks, scope).value.value;
      WithinBounds(st, ks, scope, GetDomain(ks, scope).value, request) <==>
      forall c :: c in request ==>
        request[c] == Unlimited ||
        (ValueOr(QuotaGetUsage(st, scope), c, 0) <= request[c] &&
         (ValueOr(QuotasGet(st, domain), c, Unlimited) == Unlimited ||
          request[c] <= ValueOr(QuotasGet(st, domain), c, Unlimited)))
  {
  }

  /**
    A domain request is refused when it sets a real limit below a child
    project's explicit limit or usage.
  */
  lemma DomainRequestBelowChildRejected(st: Store, ks: Keystone, scope: Scope, request: Limits,
                                        c: QuotaClass, i: int)
    requires UsageNonNegative(st)
    requires GetDomain(ks, scope) == Ok(None)
    requires 0 <= i < |ProjectsOf(ks, scope)|
    requires c in request && request[c] != Unlimited
    requires var child := ProjectsOf(ks, scope)[i];
      (c in QuotasGet(st, child) && request[c] < QuotasGet(st, child)[c]) ||
      request[c] < ValueOr(QuotaGetUsage(st, child), c, 0)
    ensures !WithinBounds(st, ks, scope, GetDomain(ks, scope).value, request)
  {
    DomainMinimumCoversChildren(st, ProjectsOf(ks, scope), c);
  }

  /** After a successful full set, get_quotas reads back exactly the request. */
  lemma SetThenGetQuotas(st: Store, ks: Keystone, scope: Scope, request: Limits)
    requires Complete(request)
    ensures GetQuotas(QuotasSet(st, scope, request), ks, scope) == Ok(request)
  {
    var after := QuotasSet(st, scope, request);
    assert TotalImagesNumber in QuotasGet(after, scope);
    assert QuotasGet(after, scope) == request;
  }

  // ---------------------------------------------------------------------------
  // Usage
  // ---------------------------------------------------------------------------

  /** One row of the usage report. */
  datatype UsageEntry = UsageEntry(usage: int, limit: int)

  /**
    QuotaController.quota_usage: refused for domains; for a project, each class
    reports its usage (0 when none) and its limit (explicit, else the domain's
    defaults, else -1).
  */
  function QuotaUsage(st: Store, ks: Keystone, scope: Scope): (r: Result<map<QuotaClass, UsageEntry>, ApiError>)
    ensures r.Err? <==> GetDomain(ks, scope).Err? || GetDomain(ks, scope).value.None?
    ensures r.Err? && GetDomain(ks, scope).Ok? ==> r.error == Forbidden
    ensures r.Ok? ==> forall c: QuotaClass :: c in r.value && r.value[c].usage == ValueOr(QuotaGetUsage(st, scope), c, 0)
  {
    var domain :- GetDomain(ks, scope);
    if domain.None? then Err(Forbidden)
    else
      AllClassesListed();
      var used := QuotaGetUsage(st, scope);
      var limits := if QuotasGet(st, scope) != map[] then QuotasGet(st, scope) else QuotasGetDefaults(st, domain);
      Ok(map c: QuotaClass | c in QuotaClasses :: UsageEntry(ValueOr(used, c, 0), ValueOr(limits, c, Unlimited)))
  }

  /** The limits the usage report gives a project agree with get_quotas. */
  lemma UsageLimitsAgreeWithGetQuotas(st: Store, ks: Keystone, scope: Scope, c: QuotaClass)
    requires GetDomain(ks, scope).Ok? && Truthy(GetDomain(ks, scope).value)
    ensures QuotaUsage(st, ks, scope).Ok? && GetQuotas(st, ks, scope).Ok?
    ensures QuotaUsage(st, ks, scope).value[c].limit == ValueOr(GetQuotas(st, ks, scope).value, c, Unlimited)
  {
  }
}
