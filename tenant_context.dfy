/**
 * How a request's tenant is chosen: the `x-tenant-id` header, else the
 * first label of the host name, else the default tenant.
 */
module TenantContext {
  import opened Wrappers
  import JsString

  const DefaultTenant := "default-tenant"

  /** The first dot-separated label of a host name that can name a tenant. */
  function Subdomain(hostname: Option<string>): Option<string>
  {
    if hostname.Some? && hostname.value != "" && hostname.value != "localhost" && JsString.Includes(hostname.value, ".") then
      var first := JsString.Split(hostname.value, '.')[0];
      if first != "" && first != "www" then Some(first) else None
    else None
  }

  /** `extractTenantId`. */
  function ExtractTenantId(headerTenantId: Option<string>, hostname: Option<string>): (tenantId: string)
    ensures tenantId != ""
    ensures headerTenantId.Some? && headerTenantId.value != "" ==> tenantId == headerTenantId.value
  {
    if headerTenantId.Some? && headerTenantId.value != "" then headerTenantId.value
    else
      var sub := Subdomain(hostname);
      if sub.Some? then sub.value else DefaultTenant
  }

  /**
   * Without a header, a host such as `grace.example.org` names the tenant
   * `grace`: the part before its first dot, when that part is neither empty
   * nor `www`.
   */
  lemma SubdomainIsFirstLabel(hostname: string)
    ensures var sub := Subdomain(Some(hostname));
            sub.Some? <==> (hostname != "localhost" && '.' in hostname
                            && JsString.Split(hostname, '.')[0] != "" && JsString.Split(hostname, '.')[0] != "www")
    ensures var sub := Subdomain(Some(hostname));
            sub.Some? ==> sub.value + "." <= hostname && '.' !in sub.value
  {
    JsString.IncludesChar(hostname, '.');
    JsString.SplitFirst(hostname, '.');
  }

  /** Without a header, the tenant is the subdomain when there is one and the default tenant otherwise. */
  lemma HeaderlessTenant(headerTenantId: Option<string>, hostname: Option<string>)
    requires headerTenantId.None? || headerTenantId.value == ""
    ensures Subdomain(hostname).Some? ==> ExtractTenantId(headerTenantId, hostname) == Subdomain(hostname).value
    ensures Subdomain(hostname).None? ==> ExtractTenantId(headerTenantId, hostname) == DefaultTenant
  {
  }

  /** `localhost`, dotless hosts and `www.` hosts fall back to the default tenant. */
  lemma DefaultTenantHosts(name: string, rest: string)
    ensures ExtractTenantId(None, Some("localhost")) == DefaultTenant
    ensures '.' !in name ==> ExtractTenantId(None, Some(name)) == DefaultTenant
    ensures ExtractTenantId(None, Some("www." + rest)) == DefaultTenant
  {
    JsString.IncludesChar(name, '.');
    JsString.IncludesChar("localhost", '.');
    JsString.IncludesChar("www." + rest, '.');
    assert "www." + rest == "www" + ['.'] + rest;
    JsString.SplitAround("www", rest, '.');
  }
}
