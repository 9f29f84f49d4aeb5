/** Tenant host names: how the DNS manager builds them and how the certificate policy takes them apart. */
module HostNames {

  datatype Option<+T> = None | Some(value: T) {
    function GetOr(default: T): T {
      if Some? then value else default
    }
  }

  function TenantHost(slug: string, base: string): string {
    slug + "." + base
  }

  predicate HasSuffix(s: string, suffix: string) {
    |suffix| <= |s| && s[|s| - |suffix|..] == suffix
  }

  function TrimSuffix(s: string, suffix: string): string {
    if HasSuffix(s, suffix) then s[..|s| - |suffix|] else s
  }

  datatype Verdict = Accepted | NotASubdomain | NotSingleLabel | UnknownTenant

  /** The hosts certificates are issued for. Without an `allow` set every slug passes. */
  function HostPolicy(base: string, allow: Option<set<string>>, host: string): Verdict {
    var suffix := "." + base;
    if !HasSuffix(host, suffix) then NotASubdomain
    else
      var slug := TrimSuffix(host, suffix);
      if slug == "" || '.' in slug then NotSingleLabel
      else if allow.None? then Accepted
      else if slug !in allow.value then UnknownTenant
      else Accepted
  }

  /** A slug a certificate can be issued for. */
  predicate SingleLabel(slug: string) {
    slug != "" && '.' !in slug
  }

  /** Building a host name and taking it apart again gives the slug back. */
  lemma HostRoundTrip(slug: string, base: string)
    ensures HasSuffix(TenantHost(slug, base), "." + base)
    ensures TrimSuffix(TenantHost(slug, base), "." + base) == slug
  {
  }

  lemma HostInjective(slug1: string, slug2: string, base: string)
    requires TenantHost(slug1, base) == TenantHost(slug2, base)
    ensures slug1 == slug2
  {
    HostRoundTrip(slug1, base);
    HostRoundTrip(slug2, base);
  }

  /** The policy accepts exactly the hosts the DNS manager would create for single-label, allowed slugs. */
  lemma PolicyAcceptsTenantHosts(base: string, allow: Option<set<string>>, host: string)
    ensures HostPolicy(base, allow, host) == Accepted <==>
            exists slug :: host == TenantHost(slug, base) && SingleLabel(slug) && (allow.Some? ==> slug in allow.value)
  {
    var suffix := "." + base;
    if HasSuffix(host, suffix) {
      var slug := TrimSuffix(host, suffix);
      assert host == TenantHost(slug, base);
    }
    forall slug | host == TenantHost(slug, base)
      ensures HasSuffix(host, suffix) && TrimSuffix(host, suffix) == slug
    {
      HostRoundTrip(slug, base);
    }
  }

  /** What it says of a tenant's host, in terms of the slug. */
  lemma PolicyOnTenantHost(base: string, allow: Option<set<string>>, slug: string)
    ensures HostPolicy(base, allow, TenantHost(slug, base))
         == if slug == "" || '.' in slug then NotSingleLabel
            else if allow.Some? && slug !in allow.value then UnknownTenant else Accepted
  {
    HostRoundTrip(slug, base);
  }

  /** And it says of just the hosts that no slug has that they are no subdomains. */
  lemma PolicyOffTheDomain(base: string, allow: Option<set<string>>, host: string)
    ensures HostPolicy(base, allow, host) == NotASubdomain <==> !exists slug :: host == TenantHost(slug, base)
  {
    if slug :| host == TenantHost(slug, base) {
      PolicyOnTenantHost(base, allow, slug);
    }
    if HasSuffix(host, "." + base) {
      assert host == TenantHost(TrimSuffix(host, "." + base), base);
    }
  }
}
