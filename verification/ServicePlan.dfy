/**
 Which services a request uses: host rules, the choice to intercept a connection, the selection for
 each request, and the application of the selected services to it.
 */
module ServicePlan {
  import opened Distinct
  import opened PathPolicy
  import opened ServiceIndex
  import opened Services
  import opened Text
  import opened Wrappers

  // ---------- Hosts ----------

  function HostOnly(lib: Library, host: string): string {
    var lowered := lib.lower(host);
    match lib.hostOfHostPort(lowered) case Some(h) => h case None => lowered
  }

  predicate SuffixApplies(lib: Library, suffix: string, host: string) {
    HasSuffix(host, lib.lower(suffix)) && |host| > |lib.lower(suffix)|
  }

  /** Each part of a rule that is set must hold. */
  predicate RuleApplies(lib: Library, rule: HostRule, host: string, path: string) {
    && (rule.host != "" ==> lib.lower(rule.host) == host)
    && (rule.hostSuffix != "" ==> SuffixApplies(lib, rule.hostSuffix, host))
    && (rule.pathPrefix != "" ==> rule.pathPrefix <= path)
  }

  function FirstRule(lib: Library, rules: seq<HostRule>, host: string, path: string): Option<HostRule> {
    if rules == [] then None
    else if RuleApplies(lib, rules[0], host, path) then Some(rules[0])
    else FirstRule(lib, rules[1..], host, path)
  }

  function RuleFor(lib: Library, s: Service, host: string, path: string): Option<HostRule> {
    FirstRule(lib, s.hosts, HostOnly(lib, host), path)
  }

  /** For a whole connection, one part of a rule is enough. */
  predicate RuleMatchesHost(lib: Library, rule: HostRule, host: string) {
    || (rule.host != "" && lib.lower(rule.host) == host)
    || (rule.hostSuffix != "" && SuffixApplies(lib, rule.hostSuffix, host))
  }

  predicate HostMatches(lib: Library, s: Service, host: string) {
    exists i :: 0 <= i < |s.hosts| && RuleMatchesHost(lib, s.hosts[i], HostOnly(lib, host))
  }

  lemma {:induction false} FirstRuleExists(lib: Library, rules: seq<HostRule>, host: string, path: string)
    ensures FirstRule(lib, rules, host, path).Some? <==>
              exists i :: 0 <= i < |rules| && RuleApplies(lib, rules[i], host, path)
    ensures FirstRule(lib, rules, host, path).Some? ==>
              exists i :: 0 <= i < |rules| && rules[i] == FirstRule(lib, rules, host, path).value
                          && RuleApplies(lib, rules[i], host, path)
                          && forall j :: 0 <= j < i ==> !RuleApplies(lib, rules[j], host, path)
  {
    if rules != [] {
      var rest := rules[1..];
      FirstRuleExists(lib, rest, host, path);
      assert forall i :: 0 <= i < |rest| ==> rest[i] == rules[i + 1];
      assert forall i :: 1 <= i < |rules| ==> rules[i] == rest[i - 1];
      if !RuleApplies(lib, rules[0], host, path) && FirstRule(lib, rest, host, path).Some? {
        var i :| 0 <= i < |rest| && rest[i] == FirstRule(lib, rest, host, path).value
                 && RuleApplies(lib, rest[i], host, path)
                 && forall j :: 0 <= j < i ==> !RuleApplies(lib, rest[j], host, path);
        assert rules[i + 1] == rest[i];
        assert forall j :: 0 <= j < i + 1 ==> !RuleApplies(lib, rules[j], host, path);
      }
    }
  }

  /** A host without its port: what the library splits off, or the whole host when it has no port. */
  predicate IsHostOf(lib: Library, host: string, bare: string) {
    var split := lib.hostOfHostPort(lib.lower(host));
    split == Some(bare) || (split.None? && bare == lib.lower(host))
  }

  /** A text that ends in another one, and is longer. */
  ghost predicate EndsIn(s: string, suffix: string) {
    exists front :: front != "" && s == front + suffix
  }

  /** A rule asks for nothing, or for this host, for hosts below this one, for paths that start with this. */
  ghost predicate Asks(lib: Library, rule: HostRule, bare: string, path: string) {
    && (rule.host == "" || bare == lib.lower(rule.host))
    && (rule.hostSuffix == "" || EndsIn(bare, lib.lower(rule.hostSuffix)))
    && (rule.pathPrefix == "" || exists rest :: path == rule.pathPrefix + rest)
  }

  lemma SuffixMeans(lib: Library, suffix: string, bare: string)
    ensures SuffixApplies(lib, suffix, bare) <==> EndsIn(bare, lib.lower(suffix))
  {
    var lowered := lib.lower(suffix);
    if SuffixApplies(lib, suffix, bare) {
      var front := bare[..|bare| - |lowered|];
      assert front != "" && bare == front + lowered;
    }
    if EndsIn(bare, lowered) {
      var front :| front != "" && bare == front + lowered;
      assert bare[|bare| - |lowered|..] == lowered;
    }
  }

  lemma RuleMeans(lib: Library, rule: HostRule, bare: string, path: string)
    ensures RuleApplies(lib, rule, bare, path) <==> Asks(lib, rule, bare, path)
  {
    SuffixMeans(lib, rule.hostSuffix, bare);
    if rule.pathPrefix <= path {
      assert path == rule.pathPrefix + path[|rule.pathPrefix|..];
    }
  }

  /** The rule of a request is the first that asks for no more than its host, without the port, and its path. */
  lemma RuleForMeans(lib: Library, s: Service, host: string, bare: string, path: string)
    requires IsHostOf(lib, host, bare)
    ensures RuleFor(lib, s, host, path).Some? <==> exists i :: 0 <= i < |s.hosts| && Asks(lib, s.hosts[i], bare, path)
    ensures RuleFor(lib, s, host, path).Some? ==>
              exists i :: 0 <= i < |s.hosts| && RuleFor(lib, s, host, path) == Some(s.hosts[i])
                          && Asks(lib, s.hosts[i], bare, path)
                          && forall j :: 0 <= j < i ==> !Asks(lib, s.hosts[j], bare, path)
  {
    FirstRuleExists(lib, s.hosts, bare, path);
    forall i | 0 <= i < |s.hosts|
      ensures RuleApplies(lib, s.hosts[i], bare, path) <==> Asks(lib, s.hosts[i], bare, path)
    {
      RuleMeans(lib, s.hosts[i], bare, path);
    }
  }

  /** A connection is on a host of the service exactly when a rule names that host, without its port, or one above. */
  lemma HostMatchesMeans(lib: Library, s: Service, host: string, bare: string)
    requires IsHostOf(lib, host, bare)
    ensures HostMatches(lib, s, host) <==>
              exists i :: 0 <= i < |s.hosts|
                          && ((s.hosts[i].host != "" && bare == lib.lower(s.hosts[i].host))
                              || (s.hosts[i].hostSuffix != "" && EndsIn(bare, lib.lower(s.hosts[i].hostSuffix))))
  {
    forall i | 0 <= i < |s.hosts|
      ensures SuffixApplies(lib, s.hosts[i].hostSuffix, bare) <==> EndsIn(bare, lib.lower(s.hosts[i].hostSuffix))
    {
      SuffixMeans(lib, s.hosts[i].hostSuffix, bare);
    }
  }

  /** Two hosts that differ in case and port alone. */
  ghost predicate SameBareHost(lib: Library, a: string, b: string) {
    exists bare :: IsHostOf(lib, a, bare) && IsHostOf(lib, b, bare)
  }

  /** The port does not count, nor does case. */
  lemma PortDoesNotCount(lib: Library, s: Service, a: string, b: string, path: string)
    requires SameBareHost(lib, a, b)
    ensures RuleFor(lib, s, a, path) == RuleFor(lib, s, b, path)
    ensures HostMatches(lib, s, a) == HostMatches(lib, s, b)
  {
  }

  /** In particular a host with a port is the same host as without it. */
  lemma WithAndWithoutPort(lib: Library, a: string, b: string)
    requires lib.hostOfHostPort(lib.lower(a)) == Some(lib.lower(b)) && lib.hostOfHostPort(lib.lower(b)).None?
    ensures SameBareHost(lib, a, b)
  {
    assert IsHostOf(lib, a, lib.lower(b)) && IsHostOf(lib, b, lib.lower(b));
  }

  /** With one of host and suffix in every rule, a host matches exactly when some path on it finds a rule. */
  lemma HostMatchesExactlyWhen(lib: Library, s: Service, host: string)
    requires HostsOk(s)
    ensures HostMatches(lib, s, host) <==> exists path :: RuleFor(lib, s, host, path).Some?
  {
    var h := HostOnly(lib, host);
    if HostMatches(lib, s, host) {
      var i :| 0 <= i < |s.hosts| && RuleMatchesHost(lib, s.hosts[i], h);
      var path := s.hosts[i].pathPrefix;
      assert RuleApplies(lib, s.hosts[i], h, path) by {
        assert OneOfHostAndSuffix(s.hosts[i]);
      }
      FirstRuleExists(lib, s.hosts, h, path);
      assert RuleFor(lib, s, host, path).Some?;
    }
    if path :| RuleFor(lib, s, host, path).Some? {
      RuleMeansMatch(lib, s, host, path);
    }
  }

  lemma RuleMeansMatch(lib: Library, s: Service, host: string, path: string)
    requires HostsOk(s) && RuleFor(lib, s, host, path).Some?
    ensures HostMatches(lib, s, host)
  {
    var h := HostOnly(lib, host);
    FirstRuleExists(lib, s.hosts, h, path);
    var i :| 0 <= i < |s.hosts| && RuleApplies(lib, s.hosts[i], h, path);
    assert OneOfHostAndSuffix(s.hosts[i]);
  }

  /** Without that condition neither implies the other: a rule with both parts, and one with none. */
  lemma BothPartsOrNone(lib: Library, host: string, path: string, s: Service)
    requires s.hosts == [HostRule("", "", "", "none", "")]
    ensures RuleFor(lib, s, host, path).Some? && !HostMatches(lib, s, host)
    ensures forall suffix :: suffix != "" && !SuffixApplies(lib, suffix, HostOnly(lib, host))
                             && lib.lower("a") == HostOnly(lib, host) ==>
              var both := s.(hosts := [HostRule("a", suffix, "", "none", "")]);
              HostMatches(lib, both, host) && forall p :: RuleFor(lib, both, host, p).None?
  {
    assert RuleApplies(lib, s.hosts[0], HostOnly(lib, host), path);
    forall suffix |
      suffix != "" && !SuffixApplies(lib, suffix, HostOnly(lib, host)) && lib.lower("a") == HostOnly(lib, host)
      ensures var both := s.(hosts := [HostRule("a", suffix, "", "none", "")]);
              HostMatches(lib, both, host) && forall p :: RuleFor(lib, both, host, p).None?
    {
      var both := s.(hosts := [HostRule("a", suffix, "", "none", "")]);
      assert RuleMatchesHost(lib, both.hosts[0], HostOnly(lib, host));
      forall p ensures RuleFor(lib, both, host, p).None? {
        FirstRuleExists(lib, both.hosts, HostOnly(lib, host), p);
      }
    }
  }

  // ---------- Configured services, in order of their identifiers ----------

  /** Byte order of texts. */
  predicate Less(a: string, b: string) {
    b != "" && (a == "" || a[0] < b[0] || (a[0] == b[0] && Less(a[1..], b[1..])))
  }

  lemma {:induction false} LessIsTotal(a: string, b: string)
    ensures !Less(a, a)
    ensures a == b || Less(a, b) || Less(b, a)
  {
    if a != "" {
      LessIsTotal(a[1..], a[1..]);
      if b != "" {
        LessIsTotal(a[1..], b[1..]);
        assert a[0] == b[0] && a[1..] == b[1..] ==> a == b by {
          assert a == [a[0]] + a[1..] && b == [b[0]] + b[1..];
        }
      }
    }
  }

  lemma {:induction false} LessIsTransitive(a: string, b: string, c: string)
    requires Less(a, b) && Less(b, c)
    ensures Less(a, c)
  {
    if a != "" && a[0] == b[0] == c[0] {
      LessIsTransitive(a[1..], b[1..], c[1..]);
    }
  }

  ghost predicate Ascending(ids: seq<string>) {
    forall i, j :: 0 <= i < j < |ids| ==> Less(ids[i], ids[j])
  }

  /** The one listing of a set in ascending order. */
  ghost predicate Listing(ids: seq<string>, s: set<string>) {
    Ascending(ids) && forall id :: id in ids <==> id in s
  }

  lemma {:induction false} ListingUnique(a: seq<string>, b: seq<string>, s: set<string>)
    requires Listing(a, s) && Listing(b, s)
    ensures a == b
    decreases |a|
  {
    if a == [] {
      HeadIsIn(b);
    } else {
      assert a[0] in s && a[0] in b;
      assert b[0] in s && b[0] in a;
      SmallestFirst(a, b[0]);
      SmallestFirst(b, a[0]);
      LessBothWays(a[0], b[0]);
      assert a == [a[0]] + a[1..] && b == [b[0]] + b[1..];
      forall id ensures id in a[1..] <==> id in s - {a[0]} {
        WithoutFirst(a, id);
      }
      forall id ensures id in b[1..] <==> id in s - {a[0]} {
        WithoutFirst(b, id);
      }
      ListingUnique(a[1..], b[1..], s - {a[0]});
    }
  }

  lemma HeadIsIn(ids: seq<string>)
    ensures ids != [] ==> ids[0] in ids
  {
  }

  lemma SmallestFirst(ids: seq<string>, id: string)
    requires ids != [] && Ascending(ids) && id in ids
    ensures id == ids[0] || Less(ids[0], id)
  {
  }

  lemma LessBothWays(a: string, b: string)
    ensures Less(a, b) && Less(b, a) ==> a == b
  {
    if Less(a, b) && Less(b, a) {
      LessIsTransitive(a, b, a);
      LessIsTotal(a, a);
    }
  }

  lemma WithoutFirst(ids: seq<string>, id: string)
    requires ids != [] && Ascending(ids)
    ensures id in ids[1..] <==> id in ids && id != ids[0]
  {
    assert ids == [ids[0]] + ids[1..];
    if id in ids[1..] {
      var i :| 0 <= i < |ids[1..]| && ids[1..][i] == id;
      assert Less(ids[0], ids[i + 1]);
      LessIsTotal(ids[0], ids[0]);
    }
  }

  method InsertSorted(ids: seq<string>, id: string) returns (r: seq<string>)
    requires Ascending(ids) && id !in ids
    ensures Ascending(r) && forall x :: x in r <==> x in ids || x == id
  {
    var k := 0;
    while k < |ids| && Less(ids[k], id)
      invariant k <= |ids| && forall i :: 0 <= i < k ==> Less(ids[i], id)
    {
      k := k + 1;
    }
    r := ids[..k] + [id] + ids[k..];
    assert ids == ids[..k] + ids[k..];
    if k < |ids| {
      LessIsTotal(id, ids[k]);
    }
    forall j | k <= j < |ids| ensures Less(id, ids[j]) {
      if j > k {
        LessIsTransitive(id, ids[k], ids[j]);
      }
    }
    forall i, j | 0 <= i < j < |r| ensures Less(r[i], r[j]) {
      assert r[i] == if i < k then ids[i] else if i == k then id else ids[i - 1];
      assert r[j] == if j < k then ids[j] else if j == k then id else ids[j - 1];
    }
  }

  ghost function ConfiguredMatches(lib: Library, configured: map<string, Service>, host: string,
                                   path: string): set<string> {
    set id | id in configured && RuleFor(lib, configured[id], host, path).Some?
  }

  /** The map is walked in any order; the result does not depend on it. */
  method MatchingConfiguredIDs(lib: Library, configured: map<string, Service>, host: string, path: string)
    returns (ids: seq<string>)
    ensures Listing(ids, ConfiguredMatches(lib, configured, host, path))
  {
    ids := [];
    var left := configured.Keys;
    while left != {}
      invariant left <= configured.Keys && Ascending(ids)
      invariant forall id :: id in ids <==> id in ConfiguredMatches(lib, configured, host, path) && id !in left
      decreases |left|
    {
      var id :| id in left;
      left := left - {id};
      if RuleFor(lib, configured[id], host, path).Some? {
        ids := InsertSorted(ids, id);
      }
    }
  }
}
