/**
 * The template library of the builder
 * (bug-bounty-platform/src/components/WorkflowLibrary.tsx): the built-in
 * workflow templates, the search / category / difficulty filter over them,
 * and the colour class of a difficulty badge.
 *
 * The built-in templates name their nodes '1', '2', ... up to their node
 * count, and their edges join two such ids. The model keeps each edge as the
 * pair of numbers and derives the string ids from them.
 */
module WorkflowLibrary {
  import opened Text
  import opened Graph
  import opened Seqs

  /** An edge of a built-in template, by the numbers of its endpoints. */
  datatype Link = Link(from: nat, to: nat)

  datatype Template = Template(
    id: nat,
    title: string,
    description: string,
    category: string,
    difficulty: string,
    tags: seq<string>,
    size: nat,          // the nodes are '1' .. size
    links: seq<Link>)

  // ---------------------------------------------------------------------------
  // Node ids

  /** The numeric value of a decimal id (`parseInt`), for ids made of digits. */
  function Num(s: string): nat
    decreases |s|
  {
    if s == [] then 0
    else Num(s[..|s| - 1]) * 10 + ((s[|s| - 1] as int - '0' as int) % 10)
  }

  /** Reading back the decimal text of a number gives that number. */
  lemma {:induction false} NumOfNat(n: nat)
    ensures Num(NatToString(n)) == n
    decreases n
  {
    var s := NatToString(n);
    if n < 10 {
      assert s[..|s| - 1] == [];
    } else {
      NumOfNat(n / 10);
      assert s[..|s| - 1] == NatToString(n / 10);
    }
  }

  /** The id of node number `n`. */
  function IdOf(n: nat): string {
    NatToString(n)
  }

  /** The ids '1' .. 'n', in numeric order. */
  function IdRange(n: nat): (r: seq<string>)
    ensures |r| == n
    ensures forall i | 0 <= i < n :: r[i] == IdOf(i + 1)
  {
    if n == 0 then [] else IdRange(n - 1) + [IdOf(n)]
  }

  function NodeIds(t: Template): seq<string> {
    IdRange(t.size)
  }

  function Edges(links: seq<Link>): (r: seq<Edge>)
    ensures |r| == |links|
    ensures forall k | 0 <= k < |links| :: r[k] == Edge(IdOf(links[k].from), IdOf(links[k].to))
  {
    if links == [] then [] else [Edge(IdOf(links[0].from), IdOf(links[0].to))] + Edges(links[1..])
  }

  function GraphEdges(t: Template): seq<Edge> {
    Edges(t.links)
  }

  /** Every edge joins two of the template's nodes, from the lower number to the higher. */
  predicate Forward(t: Template) {
    forall k | 0 <= k < |t.links| :: 1 <= t.links[k].from < t.links[k].to <= t.size
  }

  lemma IdInjective(a: nat, b: nat)
    ensures IdOf(a) == IdOf(b) <==> a == b
  {
    NumOfNat(a);
    NumOfNat(b);
  }

  /** Each edge of a forward template joins two of its ids, the source numerically below the target. */
  lemma ForwardEdgesJoinIds(t: Template)
    requires Forward(t)
    ensures forall e | e in GraphEdges(t) ::
      e.source in NodeIds(t) && e.target in NodeIds(t) && Num(e.source) < Num(e.target)
  {
    var ids, edges := NodeIds(t), GraphEdges(t);
    forall e | e in edges
      ensures e.source in ids && e.target in ids && Num(e.source) < Num(e.target)
    {
      var k :| 0 <= k < |edges| && edges[k] == e;
      var l := t.links[k];
      assert ids[l.from - 1] == e.source && ids[l.to - 1] == e.target;
      NumOfNat(l.from);
      NumOfNat(l.to);
    }
  }

  lemma IdRangeDistinct(n: nat)
    ensures Distinct(IdRange(n))
  {
    var ids := IdRange(n);
    forall i, j | 0 <= i < j < |ids| ensures ids[i] != ids[j] {
      IdInjective(i + 1, j + 1);
    }
  }

  lemma ForwardRespects(t: Template)
    requires Forward(t)
    ensures RespectsEdges(NodeIds(t), GraphEdges(t))
  {
    var ids, edges := NodeIds(t), GraphEdges(t);
    forall i, j | 0 <= i < |ids| && 0 <= j < |ids| && HasEdge(edges, ids[i], ids[j])
      ensures i < j
    {
      var k :| 0 <= k < |edges| && edges[k] == Edge(ids[i], ids[j]);
      var l := t.links[k];
      IdInjective(l.from, i + 1);
      IdInjective(l.to, j + 1);
    }
  }

  /**
   * A template whose edges all go forward is acyclic: the ids in numeric
   * order are an execution order respecting every edge.
   */
  lemma ForwardIsAcyclic(t: Template)
    requires Forward(t)
    ensures IsTopoOrder(NodeIds(t), NodeIds(t), GraphEdges(t))
  {
    IdRangeDistinct(t.size);
    ForwardRespects(t);
  }

  // ---------------------------------------------------------------------------
  // The built-in templates (lines 18-367) and the filter choices (lines 369-370)

  const T1 := Template(1, "Basic Web Application Scan",
    "Comprehensive web application security assessment workflow for beginners",
    "Web Security", "Beginner", ["web", "scanning", "basic", "beginner"],
    7, [Link(1, 2), Link(2, 3), Link(3, 4), Link(2, 5), Link(5, 6), Link(4, 7), Link(6, 7)])

  const T2 := Template(2, "Advanced Reconnaissance Workflow",
    "Comprehensive reconnaissance workflow using multiple tools and techniques",
    "Reconnaissance", "Advanced", ["recon", "advanced", "osint", "subdomain"],
    7, [Link(1, 2), Link(1, 3), Link(2, 4), Link(3, 4), Link(4, 5), Link(5, 6), Link(6, 7)])

  const T3 := Template(3, "Parameter Discovery & XSS Testing",
    "Comprehensive parameter discovery and XSS vulnerability testing workflow",
    "Web Security", "Advanced", ["xss", "parameters", "web", "vulnerability"],
    7, [Link(1, 2), Link(1, 3), Link(2, 4), Link(3, 4), Link(4, 5), Link(4, 6), Link(5, 7), Link(6, 7)])

  const T4 := Template(4, "GitHub Secrets & Leaks Scanner",
    "Comprehensive GitHub repository scanning for secrets and sensitive information",
    "OSINT", "Intermediate", ["github", "secrets", "leaks", "osint"],
    7, [Link(1, 2), Link(1, 3), Link(2, 4), Link(3, 5), Link(4, 6), Link(5, 6), Link(6, 7)])

  const T5 := Template(5, "JavaScript Analysis & Endpoint Discovery",
    "Extract endpoints and secrets from JavaScript files using specialized tools",
    "Web Security", "Intermediate", ["javascript", "endpoints", "secrets", "analysis"],
    6, [Link(1, 2), Link(2, 3), Link(2, 4), Link(3, 5), Link(4, 5), Link(5, 6)])

  const T6 := Template(6, "CSRF & Authentication Bypass Testing",
    "Comprehensive CSRF vulnerability testing and authentication bypass techniques",
    "Web Security", "Advanced", ["csrf", "authentication", "bypass", "web"],
    6, [Link(1, 2), Link(2, 3), Link(2, 4), Link(3, 5), Link(4, 5), Link(5, 6)])

  const T7 := Template(7, "ProjectDiscovery Full Suite Workflow",
    "Complete workflow using the entire ProjectDiscovery toolkit for comprehensive testing",
    "Comprehensive", "Expert", ["projectdiscovery", "comprehensive", "nuclei", "subfinder"],
    9, [Link(1, 2), Link(1, 3), Link(2, 4), Link(3, 4), Link(4, 5), Link(5, 6), Link(5, 7),
        Link(6, 8), Link(7, 8), Link(8, 9)])

  const T8 := Template(8, "Cloud Security Assessment",
    "Multi-cloud security assessment workflow for AWS, Azure, and GCP",
    "Cloud Security", "Advanced", ["cloud", "aws", "azure", "gcp"],
    5, [Link(1, 2), Link(1, 3), Link(2, 4), Link(3, 4), Link(4, 5)])

  const T9 := Template(9, "Mobile Application Security Testing",
    "Comprehensive mobile app security testing for Android and iOS applications",
    "Mobile Security", "Advanced", ["mobile", "android", "ios", "apk"],
    5, [Link(1, 2), Link(2, 3), Link(2, 4), Link(3, 5), Link(4, 5)])

  const T10 := Template(10, "API Security Testing",
    "Comprehensive API security testing workflow for REST and GraphQL APIs",
    "API Security", "Intermediate", ["api", "rest", "graphql", "security"],
    6, [Link(1, 2), Link(2, 3), Link(2, 4), Link(3, 5), Link(4, 5), Link(5, 6)])

  const T11 := Template(11, "Network Discovery & Enumeration",
    "Complete network discovery and service enumeration workflow",
    "Network Security", "Intermediate", ["network", "discovery", "enumeration", "ports"],
    6, [Link(1, 2), Link(1, 3), Link(2, 4), Link(3, 4), Link(4, 5), Link(5, 6)])

  const T12 := Template(12, "SQL Injection Testing Workflow",
    "Advanced SQL injection detection and exploitation workflow",
    "Web Security", "Advanced", ["sql", "injection", "database", "web"],
    6, [Link(1, 2), Link(2, 3), Link(2, 4), Link(3, 5), Link(4, 5), Link(5, 6)])

  const Library: seq<Template> := [T1, T2, T3, T4, T5, T6, T7, T8, T9, T10, T11, T12]

  const Categories: seq<string> := ["all", "Web Security", "Reconnaissance", "OSINT", "Cloud Security",
    "Mobile Security", "API Security", "Network Security", "Comprehensive"]

  const Difficulties: seq<string> := ["all", "Beginner", "Intermediate", "Advanced", "Expert"]

  /** Every built-in template's edges go forward. */
  lemma BuiltInsForward()
    ensures forall t | t in Library :: Forward(t)
  {
    ForwardT1To3();
    ForwardT4To6();
    ForwardT7To9();
    ForwardT10To12();
  }

  lemma ForwardT1To3()
    ensures Forward(T1) && Forward(T2) && Forward(T3)
  {
  }

  lemma ForwardT4To6()
    ensures Forward(T4) && Forward(T5) && Forward(T6)
  {
  }

  lemma ForwardT7To9()
    ensures Forward(T7) && Forward(T8) && Forward(T9)
  {
  }

  lemma ForwardT10To12()
    ensures Forward(T10) && Forward(T11) && Forward(T12)
  {
  }

  /** Every built-in template's category and difficulty can be selected. */
  lemma BuiltInsSelectable()
    ensures forall t | t in Library :: Selectable(t)
  {
    SelectableT1To4();
    SelectableT5To8();
    SelectableT9To12();
    assert Library == [T1, T2, T3, T4] + [T5, T6, T7, T8] + [T9, T10, T11, T12];
  }

  /** The template's category and difficulty are among the choices other than "all". */
  predicate Selectable(t: Template) {
    t.category in Categories[1..] && t.difficulty in Difficulties[1..]
  }

  lemma SelectableT1To4()
    ensures forall t | t in [T1, T2, T3, T4] :: Selectable(t)
  {
  }

  lemma SelectableT5To8()
    ensures forall t | t in [T5, T6, T7, T8] :: Selectable(t)
  {
  }

  lemma SelectableT9To12()
    ensures forall t | t in [T9, T10, T11, T12] :: Selectable(t)
  {
  }

  /** Every built-in template graph is acyclic, its ids in numeric order being an execution order. */
  lemma BuiltInsAcyclic()
    ensures forall t | t in Library :: IsTopoOrder(NodeIds(t), NodeIds(t), GraphEdges(t))
  {
    BuiltInsForward();
    forall t | t in Library ensures IsTopoOrder(NodeIds(t), NodeIds(t), GraphEdges(t)) {
      ForwardIsAcyclic(t);
    }
  }

  // ---------------------------------------------------------------------------
  // The filter (lines 372-380)

  predicate MatchesSearch(t: Template, term: string) {
    var q := Lower(term);
    IsSubstring(q, Lower(t.title)) || IsSubstring(q, Lower(t.description)) ||
    exists k | 0 <= k < |t.tags| :: IsSubstring(q, Lower(t.tags[k]))
  }

  predicate MatchesCategory(t: Template, category: string) {
    category == "all" || t.category == category
  }

  predicate MatchesDifficulty(t: Template, difficulty: string) {
    difficulty == "all" || t.difficulty == difficulty
  }

  predicate Keep(t: Template, term: string, category: string, difficulty: string) {
    MatchesSearch(t, term) && MatchesCategory(t, category) && MatchesDifficulty(t, difficulty)
  }

  /** `workflows.filter(...)`: the templates kept, in library order. */
  function Filter(ts: seq<Template>, term: string, category: string, difficulty: string): (r: seq<Template>)
    ensures forall t :: t in r <==> t in ts && Keep(t, term, category, difficulty)
    ensures Subsequence(r, ts)
    decreases |ts|
  {
    if ts == [] then []
    else
      var rest := Filter(ts[1..], term, category, difficulty);
      if Keep(ts[0], term, category, difficulty) then [ts[0]] + rest else rest
  }

  /** "Showing X of Y workflows": X never exceeds Y. */
  lemma ShownAtMostTotal(ts: seq<Template>, term: string, category: string, difficulty: string)
    ensures |Filter(ts, term, category, difficulty)| <= |ts|
  {
    SubsequenceLength(Filter(ts, term, category, difficulty), ts);
  }

  /** The empty search matches every template. */
  lemma EmptySearchMatches(t: Template)
    ensures MatchesSearch(t, "")
  {
    assert Lower("") == "";
    EmptyIsSubstring(Lower(t.title));
  }

  /** With an empty search, exactly the templates passing the category and difficulty filters are kept. */
  lemma EmptySearchKeeps(ts: seq<Template>, category: string, difficulty: string)
    ensures forall t :: t in Filter(ts, "", category, difficulty) <==>
      t in ts && MatchesCategory(t, category) && MatchesDifficulty(t, difficulty)
  {
    forall t | t in ts {
      EmptySearchMatches(t);
    }
  }

  /** The initial filter state (no search, 'all', 'all') shows the whole library. */
  lemma {:induction false} NoFilterShowsAll(ts: seq<Template>)
    ensures Filter(ts, "", "all", "all") == ts
    decreases |ts|
  {
    if ts != [] {
      EmptySearchMatches(ts[0]);
      NoFilterShowsAll(ts[1..]);
    }
  }

  // ---------------------------------------------------------------------------
  // Difficulty badge (lines 389-397)

  const Gray := "bg-gray-100 text-gray-800"

  function DifficultyColor(difficulty: string): (r: string)
    ensures difficulty !in Difficulties[1..] ==> r == Gray
    ensures difficulty in Difficulties[1..] ==> r != Gray
  {
    match difficulty
    case "Beginner" => "bg-green-100 text-green-800"
    case "Intermediate" => "bg-yellow-100 text-yellow-800"
    case "Advanced" => "bg-orange-100 text-orange-800"
    case "Expert" => "bg-red-100 text-red-800"
    case _ => Gray
  }

  /** The four levels get four different classes. */
  lemma ColorsDistinct(a: string, b: string)
    requires a in Difficulties[1..] && b in Difficulties[1..] && a != b
    ensures DifficultyColor(a) != DifficultyColor(b)
  {
  }
}
