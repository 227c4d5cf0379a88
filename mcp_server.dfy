/**
 * The engagement state of the MCP server (backend/mcp_server.py): the
 * authorised scope, split into IP-like targets and domains, the scan
 * findings, and the "latest" report resource.
 *
 * The JSON text of a finding is not modelled: a report holds the finding it
 * renders.
 */
module McpServer {
  import opened Text
  import opened Values
  import opened Seqs

  // ---------------------------------------------------------------------------
  // IP-like targets (line 92)

  /** Python's `str.isdigit` over ASCII digits: non-empty and digits only. */
  predicate IsDigits(s: string) {
    s != [] && forall k | 0 <= k < |s| :: IsDigitChar(s[k])
  }

  /** `t.replace('.', '').isdigit()` */
  predicate IsIpLike(t: string) {
    IsDigits(ReplaceAll(t, ".", ""))
  }

  /** Removing the dots keeps exactly the other characters. */
  lemma {:induction false} RemoveDotsChars(s: string)
    ensures forall c :: c in ReplaceAll(s, ".", "") <==> c in s && c != '.'
    decreases |s|
  {
    if |s| >= 1 {
      RemoveDotsChars(s[1..]);
      assert s == [s[0]] + s[1..];
      if s[..1] == "." {
        assert s[0] == '.';
        assert ReplaceAll(s, ".", "") == "" + ReplaceAll(s[1..], ".", "");
      } else {
        assert s[0] != '.' by {
          assert s[..1] == [s[0]];
        }
      }
    }
  }

  /** A target is IP-like iff it holds a digit and nothing but digits and dots. */
  lemma IpLikeChars(t: string)
    ensures IsIpLike(t) <==>
      (exists k | 0 <= k < |t| :: IsDigitChar(t[k])) &&
      (forall k | 0 <= k < |t| :: IsDigitChar(t[k]) || t[k] == '.')
  {
    var r := ReplaceAll(t, ".", "");
    RemoveDotsChars(t);
    if IsIpLike(t) {
      assert r[0] in r;
      var k :| 0 <= k < |t| && t[k] == r[0];
      assert IsDigitChar(t[k]);
      forall k | 0 <= k < |t| && t[k] != '.' ensures IsDigitChar(t[k]) {
        assert t[k] in r;
        var j :| 0 <= j < |r| && r[j] == t[k];
      }
    } else if exists k | 0 <= k < |t| :: IsDigitChar(t[k]) {
      var k :| 0 <= k < |t| && IsDigitChar(t[k]);
      assert t[k] in r;
      var j :| 0 <= j < |r| && !IsDigitChar(r[j]);
      assert r[j] in t;
    }
  }

  // ---------------------------------------------------------------------------
  // The scope (lines 17-20, 90-94)

  datatype TargetScope = TargetScope(allowedIps: seq<string>, allowedDomains: seq<string>, excludedHosts: seq<string>)

  const EmptyScope := TargetScope([], [], [])

  /** `[t for t in allowed_targets if t.replace('.', '').isdigit()]` */
  function IpsOf(targets: seq<string>): (r: seq<string>)
    ensures forall t :: t in r <==> t in targets && IsIpLike(t)
    ensures Subsequence(r, targets)
    decreases |targets|
  {
    if targets == [] then []
    else
      var rest := IpsOf(targets[1..]);
      if IsIpLike(targets[0]) then [targets[0]] + rest else rest
  }

  /** `[t for t in allowed_targets if t not in state.scope.allowed_ips]` */
  function DomainsOf(targets: seq<string>, ips: seq<string>): (r: seq<string>)
    ensures forall t :: t in r <==> t in targets && t !in ips
    ensures Subsequence(r, targets)
    decreases |targets|
  {
    if targets == [] then []
    else
      var rest := DomainsOf(targets[1..], ips);
      if targets[0] !in ips then [targets[0]] + rest else rest
  }

  /** The targets that are not IP-like, in input order. */
  function NonIpsOf(targets: seq<string>): seq<string>
    decreases |targets|
  {
    if targets == [] then []
    else
      var rest := NonIpsOf(targets[1..]);
      if IsIpLike(targets[0]) then rest else [targets[0]] + rest
  }

  /** Filtering against a list that holds exactly the IP-like targets keeps the non-IP-like ones. */
  lemma {:induction false} DomainsAreNonIps(targets: seq<string>, ips: seq<string>)
    requires forall t | t in targets :: t in ips <==> IsIpLike(t)
    ensures DomainsOf(targets, ips) == NonIpsOf(targets)
    decreases |targets|
  {
    if targets != [] {
      DomainsAreNonIps(targets[1..], ips);
    }
  }

  lemma {:induction false} SplitCounts(targets: seq<string>)
    ensures |IpsOf(targets)| + |NonIpsOf(targets)| == |targets|
    decreases |targets|
  {
    if targets != [] {
      SplitCounts(targets[1..]);
    }
  }

  /**
   * The IPs and the domains partition the targets: each target lands in
   * exactly one list, a domain being exactly a target that is not IP-like,
   * and together the lists have as many entries as the input.
   */
  lemma ScopePartition(targets: seq<string>)
    ensures var ips := IpsOf(targets); var domains := DomainsOf(targets, ips);
      (forall t | t in targets :: (t in ips) != (t in domains)) &&
      (forall t :: t in domains <==> t in targets && !IsIpLike(t)) &&
      domains == NonIpsOf(targets) &&
      |ips| + |domains| == |targets|
  {
    DomainsAreNonIps(targets, IpsOf(targets));
    SplitCounts(targets);
  }

  /** The scope after `set_engagement_scope`: both lists replaced, the exclusions kept. */
  function ScopeFor(scope: TargetScope, targets: seq<string>): (r: TargetScope)
    ensures r.excludedHosts == scope.excludedHosts
    ensures r.allowedIps == IpsOf(targets) && r.allowedDomains == DomainsOf(targets, IpsOf(targets))
  {
    var ips := IpsOf(targets);
    scope.(allowedIps := ips, allowedDomains := DomainsOf(targets, ips))
  }

  /** The scope check of `run_scan` (line 100). */
  predicate InScope(scope: TargetScope, target: string) {
    target in scope.allowedIps || target in scope.allowedDomains
  }

  /** After setting the scope, exactly the given targets are in scope, whatever the scope was before. */
  lemma ScopeIsReplaced(scope: TargetScope, targets: seq<string>, target: string)
    ensures InScope(ScopeFor(scope, targets), target) <==> target in targets
  {
  }

  /** Nothing is in scope before a scope is set. */
  lemma NothingInScopeInitially(target: string)
    ensures !InScope(EmptyScope, target)
  {
  }

  // ---------------------------------------------------------------------------
  // Findings and messages (lines 52-54, 94, 101, 109-119)

  datatype Finding = Finding(target: string, ports: seq<int>, vuln: string)

  /** The mock finding of a scan. */
  function ScanFinding(target: string): (f: Finding)
    ensures f.target == target
  {
    Finding(target, [80, 443, 8080], "Weak Credentials (SSH)")
  }

  function ScopeSetText(targets: seq<string>): string {
    "Scope set. Allowed: " + Str(VList(Strings(targets)))
  }

  function OutOfScopeText(target: string): string {
    "ERROR: " + target + " is Out of Scope."
  }

  function ScanCompleteText(f: Finding): string {
    "Scan complete. Found open ports: " + Str(VList(Ints(f.ports)))
  }

  function Ints(xs: seq<int>): (r: seq<Value>)
    ensures |r| == |xs| && forall k | 0 <= k < |xs| :: r[k] == VInt(xs[k])
  {
    if xs == [] then [] else [VInt(xs[0])] + Ints(xs[1..])
  }

  /** What a resource read returns: a fixed text, or the JSON rendering of a finding. */
  datatype Report = Plain(text: string) | Json(finding: Finding)

  const NoFindingsText := "No findings available."

  // ---------------------------------------------------------------------------
  // The engagement state (lines 22-27)

  class Engagement {
    var scope: TargetScope
    var findings: seq<Finding>
    /** `reports`, each entry holding the finding its JSON text renders. */
    var reports: map<string, Finding>

    /** The "latest" report is present exactly when there are findings, and renders the last one. */
    predicate Valid()
      reads this
    {
      reports.Keys <= {"latest"} &&
      ("latest" in reports <==> findings != []) &&
      (findings != [] ==> reports["latest"] == findings[|findings| - 1])
    }

    constructor()
      ensures scope == EmptyScope && findings == [] && reports == map[]
      ensures Valid()
    {
      scope := EmptyScope;
      findings := [];
      reports := map[];
    }

    /** `set_engagement_scope` (lines 89-94). */
    method SetEngagementScope(targets: seq<string>) returns (msg: string)
      modifies this
      ensures scope == ScopeFor(old(scope), targets)
      ensures findings == old(findings) && reports == old(reports)
      ensures msg == ScopeSetText(targets)
      ensures old(Valid()) ==> Valid()
    {
      scope := scope.(allowedIps := IpsOf(targets));
      scope := scope.(allowedDomains := DomainsOf(targets, scope.allowedIps));
      msg := ScopeSetText(targets);
    }

    /**
     * `run_scan` (lines 96-119): a target out of scope is refused and nothing
     * changes; otherwise one finding for the target is appended and becomes
     * the latest report.
     */
    method RunScan(target: string) returns (msg: string)
      modifies this
      ensures scope == old(scope)
      ensures !InScope(old(scope), target) ==>
        msg == OutOfScopeText(target) && findings == old(findings) && reports == old(reports)
      ensures InScope(old(scope), target) ==>
        findings == old(findings) + [ScanFinding(target)] &&
        reports == old(reports)["latest" := ScanFinding(target)] &&
        msg == ScanCompleteText(ScanFinding(target))
      ensures old(Valid()) ==> Valid()
    {
      if target !in scope.allowedIps && target !in scope.allowedDomains {
        return OutOfScopeText(target);
      }
      var finding := ScanFinding(target);
      findings := findings + [finding];
      reports := reports["latest" := finding];
      msg := ScanCompleteText(finding);
    }

    /** `get_latest_report` (lines 47-54). */
    function LatestReport(): (r: Report)
      reads this
      ensures findings == [] <==> r == Plain(NoFindingsText)
      ensures findings != [] ==> r == Json(findings[|findings| - 1])
      ensures Valid() && findings != [] ==> r == Json(reports["latest"])
    {
      if findings == [] then Plain(NoFindingsText) else Json(findings[|findings| - 1])
    }
  }
}
