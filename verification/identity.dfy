/**
  What glance asks Keystone through ProjectUtils (glance/common/utils.py is
  not part of this model):
  the parent domain of a project, whether a scope is a domain, and the
  projects of a domain. Keystone itself is not part of this model; its answers
  are a record the callers pass in.
*/
module Identity {

  import opened Wrappers
  import opened QuotaTypes

  /**
    What Keystone answers about scopes: the parent domain of a project
    (get_domain), whether a scope is a domain (is_domain) and the projects of a
    domain (get_projects).
  */
  datatype Keystone = Keystone(
    parentOf: map<Scope, Scope>,
    domains: set<Scope>,
    projectsOf: map<Scope, seq<Scope>>)

  /** ProjectUtils.get_domain: the parent domain of a project, `None` for any other scope. */
  function ParentDomain(ks: Keystone, scope: Scope): (r: Option<Scope>)
    ensures r.Some? <==> scope in ks.parentOf
    ensures r.Some? ==> r.value == ks.parentOf[scope]
  {
    if scope in ks.parentOf then Some(ks.parentOf[scope]) else None
  }

  /** ProjectUtils.get_projects: the child projects of a domain, in Keystone's order. */
  function ProjectsOf(ks: Keystone, domain: Scope): seq<Scope> {
    if domain in ks.projectsOf then ks.projectsOf[domain] else []
  }
}
