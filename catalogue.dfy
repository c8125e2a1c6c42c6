/**
 * The portfolio catalogue of app.py: the PROJECTS list and the SKILLS table,
 * and the three queries over them: the category filter of the projects page,
 * the id lookup of the project page and the counts of the statistics endpoint.
 */
module Catalogue {
  import opened Wrappers

  /** A project entry; only the fields the queries look at, plus its title. */
  datatype Project = Project(id: int, title: string, category: string)

  const PROJECTS: seq<Project> := [
    Project(1, "SwasthaAI-Agent", "AI/ML"),
    Project(2, "NeuroShield AI", "AI/ML"),
    Project(3, "Campus Placement Analytics", "Data Analytics"),
    Project(4, "Sales Performance Dashboard", "Data Analytics"),
    Project(5, "Automated Report Generator", "Automation")
  ]

  /** One entry of the SKILLS table: an area and the skills listed under it. */
  datatype SkillGroup = SkillGroup(area: string, skills: seq<string>)

  /** The SKILLS table, in the table's insertion order. */
  const SKILLS: seq<SkillGroup> := [
    SkillGroup("Programming", ["Python", "SQL", "JavaScript", "HTML/CSS"]),
    SkillGroup("Data Analysis", ["Pandas", "NumPy", "Excel", "Statistical Analysis"]),
    SkillGroup("Visualization", ["Power BI", "Looker Studio", "Matplotlib", "Seaborn", "Plotly"]),
    SkillGroup("AI/ML", ["TensorFlow", "Scikit-learn", "NLP", "OpenAI API"]),
    SkillGroup("Web Development", ["Flask", "Django", "REST APIs", "Bootstrap"]),
    SkillGroup("Tools", ["Git", "Jupyter", "VS Code", "Tableau"])
  ]

  /** The category query parameter's default, which selects every project. */
  const ALL: string := "all"

  // ---------------------------------------------------------------- category filter

  /** `xs` is `ys` with some elements dropped, the rest kept in order. */
  predicate IsSubsequence<T(==)>(xs: seq<T>, ys: seq<T>)
    decreases |ys|
  {
    if xs == [] then true
    else if ys == [] then false
    else if xs[0] == ys[0] then IsSubsequence(xs[1..], ys[1..])
    else IsSubsequence(xs, ys[1..])
  }

  /** `[p for p in ps if p['category'] == c]`. */
  function WithCategory(ps: seq<Project>, c: string): (r: seq<Project>)
    ensures IsSubsequence(r, ps)
    ensures forall i :: 0 <= i < |r| ==> r[i].category == c
  {
    if ps == [] then []
    else if ps[0].category == c then [ps[0]] + WithCategory(ps[1..], c)
    else WithCategory(ps[1..], c)
  }

  /** The filter keeps every project of the category, as often as it occurs, and no other. */
  lemma {:induction false} WithCategoryCount(ps: seq<Project>, c: string)
    ensures forall p :: multiset(WithCategory(ps, c))[p] == if p.category == c then multiset(ps)[p] else 0
  {
    if ps != [] {
      WithCategoryCount(ps[1..], c);
      assert ps == [ps[0]] + ps[1..];
    }
  }

  /** What the filter keeps of one project. */
  function Keep(p: Project, c: string): seq<Project>
  {
    if p.category == c then [p] else []
  }

  /** Filtering a catalogue that starts with `p` decides `p` first, then the rest. */
  lemma WithCategoryCons(p: Project, rest: seq<Project>, c: string)
    ensures WithCategory([p] + rest, c) == Keep(p, c) + WithCategory(rest, c)
  {
    assert ([p] + rest)[1..] == rest;
  }

  /** The projects page's selection: every project for "all", else those of the category. */
  function FilterProjects(ps: seq<Project>, category: string): (r: seq<Project>)
    ensures category == ALL ==> r == ps
    ensures category != ALL ==> IsSubsequence(r, ps)
    ensures category != ALL ==> forall i :: 0 <= i < |r| ==> r[i].category == category
  {
    if category != ALL then WithCategory(ps, category) else ps
  }

  /** What a category selects: "all" gives the catalogue unchanged, any other
      category exactly the projects of that category, in catalogue order. */
  lemma FilterProjectsSpec(ps: seq<Project>, category: string)
    ensures category == ALL ==> FilterProjects(ps, category) == ps
    ensures category != ALL ==>
      var r := FilterProjects(ps, category);
      && IsSubsequence(r, ps)
      && (forall i :: 0 <= i < |r| ==> r[i].category == category)
      && (forall i :: 0 <= i < |ps| && ps[i].category == category ==> ps[i] in r)
      && (forall p :: multiset(r)[p] == if p.category == category then multiset(ps)[p] else 0)
  {
    if category != ALL {
      var r := FilterProjects(ps, category);
      WithCategoryCount(ps, category);
      forall i | 0 <= i < |r| ensures r[i].category == category {
        assert r[i] in multiset(r);
      }
      forall i | 0 <= i < |ps| && ps[i].category == category ensures ps[i] in r {
        assert ps[i] in multiset(ps);
        assert multiset(r)[ps[i]] > 0;
      }
    }
  }

  /** The filter, unfolded one project at a time from the end of the catalogue. */
  lemma WithCategoryCatalogue(c: string)
    ensures WithCategory(PROJECTS, c) ==
      Keep(PROJECTS[0], c) + Keep(PROJECTS[1], c) + Keep(PROJECTS[2], c)
      + Keep(PROJECTS[3], c) + Keep(PROJECTS[4], c)
  {
    var p0, p1, p2, p3, p4 := PROJECTS[0], PROJECTS[1], PROJECTS[2], PROJECTS[3], PROJECTS[4];
    var t4 := [p4] + [];
    var t3 := [p3] + t4;
    var t2 := [p2] + t3;
    var t1 := [p1] + t2;
    var t0 := [p0] + t1;
    assert PROJECTS == t0;
    WithCategoryCons(p4, [], c);
    WithCategoryCons(p3, t4, c);
    WithCategoryCons(p2, t3, c);
    WithCategoryCons(p1, t2, c);
    WithCategoryCons(p0, t1, c);
  }

  /** On the catalogue itself the filter is determined project by project. */
  lemma FilterCatalogue()
    ensures FilterProjects(PROJECTS, ALL) == PROJECTS
    ensures FilterProjects(PROJECTS, "AI/ML") == PROJECTS[0..2]
    ensures FilterProjects(PROJECTS, "Data Analytics") == PROJECTS[2..4]
    ensures FilterProjects(PROJECTS, "Automation") == PROJECTS[4..5]
    ensures forall c | c != ALL && c != "AI/ML" && c != "Data Analytics" && c != "Automation" ::
      FilterProjects(PROJECTS, c) == []
  {
    WithCategoryCatalogue("AI/ML");
    WithCategoryCatalogue("Data Analytics");
    WithCategoryCatalogue("Automation");
    forall c | c != ALL && c != "AI/ML" && c != "Data Analytics" && c != "Automation"
      ensures FilterProjects(PROJECTS, c) == []
    {
      WithCategoryCatalogue(c);
    }
  }

  // ---------------------------------------------------------------- id lookup

  /** The position of the first project with id `id`, or `|ps|` when there is none. */
  function FirstWithId(ps: seq<Project>, id: int): (k: nat)
    ensures k <= |ps|
    ensures forall j :: 0 <= j < k ==> ps[j].id != id
    ensures k < |ps| ==> ps[k].id == id
  {
    if ps == [] then 0
    else if ps[0].id == id then 0
    else 1 + FirstWithId(ps[1..], id)
  }

  /** `next((p for p in ps if p['id'] == id), None)`. */
  function FindById(ps: seq<Project>, id: int): (r: Option<Project>)
    ensures r.None? <==> forall i :: 0 <= i < |ps| ==> ps[i].id != id
    ensures r.Some? ==> exists k :: 0 <= k < |ps| && r.value == ps[k] && r.value.id == id
                          && forall j :: 0 <= j < k ==> ps[j].id != id
  {
    var k := FirstWithId(ps, id);
    if k < |ps| then Some(ps[k]) else None
  }

  predicate DistinctIds(ps: seq<Project>)
  {
    forall i, j :: 0 <= i < j < |ps| ==> ps[i].id != ps[j].id
  }

  /** With distinct ids, looking up a project's id finds that very project. */
  lemma FindDistinct(ps: seq<Project>, i: int)
    requires DistinctIds(ps)
    requires 0 <= i < |ps|
    ensures FindById(ps, ps[i].id) == Some(ps[i])
  {
    var k := FirstWithId(ps, ps[i].id);
    assert k <= i;
  }

  lemma CatalogueDistinctIds()
    ensures DistinctIds(PROJECTS)
    ensures forall i :: 0 <= i < |PROJECTS| ==> PROJECTS[i].id == i + 1
  {
  }

  /** The project page: the project itself, or a redirect to the projects page. */
  datatype DetailPage = ShowProject(project: Project) | RedirectToProjects

  /** `project_detail`; the route's `int` converter passes only non-negative ids. */
  function ProjectDetail(id: nat): (r: DetailPage)
    ensures r.RedirectToProjects? <==> forall i :: 0 <= i < |PROJECTS| ==> PROJECTS[i].id != id
    ensures r.ShowProject? ==> r.project.id == id && r.project in PROJECTS
  {
    match FindById(PROJECTS, id)
    case Some(p) => ShowProject(p)
    case None => RedirectToProjects
  }

  /** A project page is shown exactly for the ids 1 to 5, and shows the project with that id. */
  lemma ProjectDetailSpec(id: nat)
    ensures ProjectDetail(id).ShowProject? <==> 1 <= id <= 5
    ensures ProjectDetail(id).ShowProject? ==>
      ProjectDetail(id).project.id == id && ProjectDetail(id).project == PROJECTS[id - 1]
  {
    CatalogueDistinctIds();
    if 1 <= id <= 5 {
      FindDistinct(PROJECTS, id - 1);
    }
  }

  // ---------------------------------------------------------------- statistics

  /** `sum(len(v) for v in groups)`. */
  function TotalSkills(groups: seq<SkillGroup>): (n: nat)
    ensures n == 0 <==> forall i :: 0 <= i < |groups| ==> groups[i].skills == []
    ensures forall i :: 0 <= i < |groups| ==> |groups[i].skills| <= n
  {
    if groups == [] then 0 else |groups[0].skills| + TotalSkills(groups[1..])
  }

  /** All skills of all groups, one after another. */
  function AllSkills(groups: seq<SkillGroup>): seq<string>
  {
    if groups == [] then [] else groups[0].skills + AllSkills(groups[1..])
  }

  /** The sum of the list lengths is the length of the lists laid end to end. */
  lemma {:induction false} TotalSkillsIsLength(groups: seq<SkillGroup>)
    ensures TotalSkills(groups) == |AllSkills(groups)|
  {
    if groups != [] {
      TotalSkillsIsLength(groups[1..]);
    }
  }

  /** Adding a table of groups adds its count. */
  lemma {:induction false} TotalSkillsAppend(a: seq<SkillGroup>, b: seq<SkillGroup>)
    ensures TotalSkills(a + b) == TotalSkills(a) + TotalSkills(b)
  {
    if a != [] {
      assert (a + b)[0] == a[0];
      assert (a + b)[1..] == a[1..] + b;
      TotalSkillsAppend(a[1..], b);
    } else {
      assert a + b == b;
    }
  }

  /** The statistics endpoint's JSON object. */
  datatype Stats = Stats(projectsCompleted: nat, skillsMastered: nat, yearsExperience: nat, certifications: nat)

  function GetStats(): (r: Stats)
    ensures r.projectsCompleted == |PROJECTS| == 5
    ensures r.skillsMastered == |AllSkills(SKILLS)| == 25
    ensures r.yearsExperience == 2 && r.certifications == 5
  {
    TotalSkillsIsLength(SKILLS);
    assert TotalSkills(SKILLS) == 25 by {
      assert SKILLS[1..][1..][1..][1..][1..][1..] == [];
    }
    Stats(|PROJECTS|, TotalSkills(SKILLS), 2, 5)
  }
}
