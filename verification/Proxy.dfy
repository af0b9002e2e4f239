/** The lookup part of the proxy (src/demo_controller/api.py): from a Host header to a service and a port. */
module Proxy {
  import opened Text
  import opened Naming
  import opened Models
  import opened Store

  function BeforeColon(s: string): (r: string) {
    if s == [] || s[0] == ':' then [] else [s[0]] + BeforeColon(s[1..])
  }

  function StripDots(s: string): (r: string) {
    if s != [] && s[|s| - 1] == '.' then StripDots(s[..|s| - 1]) else s
  }

  /** The host that a header asks for. */
  function RequestedHost(header: string): string {
    StripDots(Lower(BeforeColon(header)))
  }

  predicate EndsWith(s: string, end: string) {
    |end| <= |s| && s[|s| - |end|..] == end
  }

  datatype Target = Target(service: string, port: int)

  class ProxyLookup {
    const store: DemoStore
    const name: Key -> string

    constructor (store: DemoStore, name: Key -> string)
      ensures this.store == store && this.name == name
    {
      this.store, this.name := store, name;
    }

    /** None where the proxy answers 404. */
    method Lookup(header: string) returns (target: Option<Target>)
      requires WellKeyed(store.demos)
      ensures target.Some? ==>
                exists k | k in store.demos ::
                  && Eligible(store.demos[k]) && store.demos[k].port == Some(target.value.port) && target.value.port != 0
                  && target.value.service == name(k)
                  && Hostname(k.repository, k.pr, store.hostnameSuffix) == RequestedHost(header)
      ensures target.None? && (forall k | k in store.demos :: store.demos[k].port != Some(0)) ==>
                forall k | k in store.demos && Eligible(store.demos[k]) ::
                  Hostname(k.repository, k.pr, store.hostnameSuffix) != RequestedHost(header)
    {
      var host := RequestedHost(header);
      if !EndsWith(host, "." + store.hostnameSuffix) {
        forall k | k in store.demos ensures Hostname(k.repository, k.pr, store.hostnameSuffix) != host {
          HostEndsWithSuffix(k.repository, k.pr, store.hostnameSuffix);
        }
        return None;
      }
      var found := store.GetReadyByHostname(host);
      if found.None? || found.value.port == Some(0) {
        return None;
      }
      var record := found.value;
      assert record.Id() in store.demos && store.demos[record.Id()] == record;
      return Some(Target(name(record.Id()), record.port.value));
    }
  }

  lemma HostEndsWithSuffix(repository: string, pr: nat, suffix: string)
    requires '/' in repository
    ensures EndsWith(Hostname(repository, pr, suffix), "." + suffix)
  {
    var host, front := Hostname(repository, pr, suffix), HostSlug(repository) + "-pr-" + Decimal(pr);
    assert host == front + ("." + suffix);
    assert host[|front|..] == "." + suffix;
  }

  lemma {:induction false} BeforeColonOf(s: string, rest: string)
    requires ':' !in s
    ensures BeforeColon(s + ":" + rest) == s && BeforeColon(s) == s
  {
    var whole := s + ":" + rest;
    if s != [] {
      BeforeColonOf(s[1..], rest);
      assert whole[0] == s[0] && s[0] in s && whole[1..] == s[1..] + ":" + rest;
      assert s == [s[0]] + s[1..];
    }
  }

  lemma {:induction false} StripDotsOf(s: string, dots: string)
    requires (s != [] ==> s[|s| - 1] != '.') && forall i | 0 <= i < |dots| :: dots[i] == '.'
    ensures StripDots(s + dots) == s
  {
    if dots == [] {
      assert s + dots == s;
    } else {
      StripDotsOf(s, dots[..|dots| - 1]);
      assert (s + dots)[..|s + dots| - 1] == s + dots[..|dots| - 1];
    }
  }

  /** A demo's host is found in capital letters as well, with trailing dots, and with a port. */
  lemma HostVariants(host: string, written: string, dots: string, port: string)
    requires ':' !in written && Lower(written) == host && host != [] && host[|host| - 1] != '.'
    requires forall i | 0 <= i < |dots| :: dots[i] == '.'
    ensures RequestedHost(written + dots) == host && RequestedHost(written + dots + ":" + port) == host
  {
    assert ':' !in written + dots;
    BeforeColonOf(written + dots, port);
    assert Lower(written + dots) == host + dots;
    StripDotsOf(host, dots);
  }
}
