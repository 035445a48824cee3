/**
 The project catalogue section (src/components/Sections/Projects.tsx): the
 category buttons, the list the selected category shows, and the links of
 the project dialog.
 */
module Catalogue {
  import opened Js
  import opened Seqs

  /** A catalogue entry (the display-only text fields are not modelled). */
  datatype Project = Project(id: int, title: string, technologies: seq<string>, category: string,
                             liveUrl: Option<string>, githubUrl: Option<string>, featured: bool)

  /** The button that shows every project. */
  const AllCategory: string := "All"

  /** `projects.map(project => project.category)` */
  function CategoryNames(ps: seq<Project>): (r: seq<string>)
    ensures |r| == |ps|
    ensures forall i :: 0 <= i < |ps| ==> r[i] == ps[i].category
  {
    seq(|ps|, i requires 0 <= i < |ps| => ps[i].category)
  }

  /** `categories`: `'All'` followed by the distinct project categories. */
  function Categories(ps: seq<Project>): (r: seq<string>)
    ensures |r| >= 1 && r[0] == AllCategory
    ensures NoDuplicates(r[1..])
    ensures forall i :: 0 <= i < |ps| ==> ps[i].category in r[1..]
    ensures forall c :: c in r[1..] ==> exists i :: 0 <= i < |ps| && ps[i].category == c
  {
    var names := CategoryNames(ps);
    var d := Dedup(names);
    assert forall i :: 0 <= i < |ps| ==> names[i] in names;
    assert ([AllCategory] + d)[1..] == d;
    [AllCategory] + d
  }

  /** The categories after `'All'` come in the order of their first appearance in the catalogue. */
  lemma CategoriesInFirstAppearanceOrder(ps: seq<Project>)
    ensures var names := CategoryNames(ps);
            var cs := Categories(ps)[1..];
            forall i, j :: 0 <= i < j < |cs| ==> FirstIndex(names, cs[i]) < FirstIndex(names, cs[j])
  {
    var names := CategoryNames(ps);
    assert Categories(ps)[1..] == Dedup(names);
    DedupOrder(names);
  }

  /** The category list computed as the component does, with a `Set` filled in catalogue order. */
  method CollectCategories(ps: seq<Project>) returns (cats: seq<string>)
    ensures cats == Categories(ps)
    ensures cats[0] == AllCategory && NoDuplicates(cats[1..])
    ensures forall i :: 0 <= i < |ps| ==> ps[i].category in cats[1..]
  {
    var names := CategoryNames(ps);
    var seen: set<string> := {};
    var order: seq<string> := [];
    var i := 0;
    while i < |ps|
      invariant 0 <= i <= |ps|
      invariant order == Dedup(names[..i])
      invariant forall c :: c in seen <==> c in order
    {
      var c := ps[i].category;
      assert names[..i + 1] == names[..i] + [c];
      assert (names[..i] + [c])[..i] == names[..i];
      if c !in seen {
        order := order + [c];
        seen := seen + {c};
      }
      i := i + 1;
    }
    assert names[..|ps|] == names;
    cats := [AllCategory] + order;
  }

  /** The filter test of one category. */
  function InCategory(c: string): Project -> bool
  {
    (p: Project) => p.category == c
  }

  /** `filteredProjects` for the selected category. */
  function Select(ps: seq<Project>, selected: string): (r: seq<Project>)
    ensures selected == AllCategory ==> r == ps
    ensures selected != AllCategory ==> forall p :: p in r <==> p in ps && p.category == selected
  {
    if selected == AllCategory then ps else Filter(ps, InCategory(selected))
  }

  /** Any selection keeps the catalogue order. */
  lemma SelectKeepsOrder(ps: seq<Project>, selected: string)
    ensures IsSubseq(Select(ps, selected), ps)
  {
    if selected == AllCategory {
      FilterKeepsAll(ps, (p: Project) => true);
      FilterIsSubseq(ps, (p: Project) => true);
    } else {
      FilterIsSubseq(ps, InCategory(selected));
    }
  }

  /** Two different categories other than `'All'` show no project in common. */
  lemma DistinctSelectionsDisjoint(ps: seq<Project>, c1: string, c2: string)
    requires c1 != c2 && c1 != AllCategory && c2 != AllCategory
    ensures forall p :: p in Select(ps, c1) ==> p !in Select(ps, c2)
  {
  }

  /** The number of projects shown over the buttons `cs`, one button after the other. */
  function SelectedTotal(ps: seq<Project>, cs: seq<string>): nat
  {
    if |cs| == 0 then 0 else |Select(ps, cs[0])| + SelectedTotal(ps, cs[1..])
  }

  lemma {:induction false} SelectedTotalEmpty(cs: seq<string>)
    ensures SelectedTotal([], cs) == 0
  {
    if |cs| > 0 {
      SelectedTotalEmpty(cs[1..]);
    }
  }

  lemma {:induction false} SelectedTotalCons(p: Project, ps: seq<Project>, cs: seq<string>)
    requires NoDuplicates(cs)
    requires forall i :: 0 <= i < |cs| ==> cs[i] != AllCategory
    ensures SelectedTotal([p] + ps, cs) == SelectedTotal(ps, cs) + (if p.category in cs then 1 else 0)
  {
    if |cs| > 0 {
      assert NoDuplicates(cs[1..]);
      SelectedTotalCons(p, ps, cs[1..]);
      assert ([p] + ps)[1..] == ps;
      assert p.category in cs <==> p.category == cs[0] || p.category in cs[1..];
      if p.category == cs[0] {
        assert p.category !in cs[1..];
      }
    }
  }

  lemma {:induction false} SelectedTotalCovers(ps: seq<Project>, cs: seq<string>)
    requires NoDuplicates(cs)
    requires forall i :: 0 <= i < |cs| ==> cs[i] != AllCategory
    requires forall i :: 0 <= i < |ps| ==> ps[i].category in cs
    ensures SelectedTotal(ps, cs) == |ps|
  {
    if |ps| == 0 {
      SelectedTotalEmpty(cs);
    } else {
      SelectedTotalCons(ps[0], ps[1..], cs);
      assert [ps[0]] + ps[1..] == ps;
      SelectedTotalCovers(ps[1..], cs);
    }
  }

  /** When no project is itself filed under `'All'`, the buttons after `'All'`
      split the catalogue: every project is shown by the button of its own
      category, and the selections of all those buttons add up to the whole
      catalogue, each project counted once. */
  lemma CategoryButtonsPartition(ps: seq<Project>)
    requires forall i :: 0 <= i < |ps| ==> ps[i].category != AllCategory
    ensures forall i :: 0 <= i < |ps| ==> ps[i] in Select(ps, ps[i].category)
    ensures SelectedTotal(ps, Categories(ps)[1..]) == |ps|
  {
    var cs := Categories(ps)[1..];
    forall i | 0 <= i < |cs| ensures cs[i] != AllCategory {
      assert cs[i] in cs;
    }
    SelectedTotalCovers(ps, cs);
    forall i | 0 <= i < |ps| ensures ps[i] in Select(ps, ps[i].category) {
      assert ps[i] in ps;
    }
  }

  /** A link of the project dialog. */
  datatype Link = LiveDemo(url: string) | ViewCode(url: string)

  /** `liveUrl`/`githubUrl` is present and truthy. */
  predicate Shown(url: Option<string>)
  {
    url.Some? && Truthy(url.value)
  }

  /** The links of the project dialog, in page order. */
  function Links(p: Project): (r: seq<Link>)
    ensures |r| == (if Shown(p.liveUrl) then 1 else 0) + (if Shown(p.githubUrl) then 1 else 0)
    ensures (exists i :: 0 <= i < |r| && r[i].LiveDemo?) <==> Shown(p.liveUrl)
    ensures (exists i :: 0 <= i < |r| && r[i].ViewCode?) <==> Shown(p.githubUrl)
    ensures forall i :: 0 <= i < |r| && r[i].LiveDemo? ==> p.liveUrl == Some(r[i].url) && i == 0
    ensures forall i :: 0 <= i < |r| && r[i].ViewCode? ==> p.githubUrl == Some(r[i].url) && i == |r| - 1
  {
    var live := if Shown(p.liveUrl) then [LiveDemo(p.liveUrl.value)] else [];
    var code := if Shown(p.githubUrl) then [ViewCode(p.githubUrl.value)] else [];
    var r := live + code;
    assert Shown(p.liveUrl) ==> r[0].LiveDemo?;
    assert Shown(p.githubUrl) ==> r[|r| - 1].ViewCode?;
    r
  }

  /** `projects` */
  const Projects: seq<Project> := [
    Project(1, "E-Commerce Platform", ["React", "Node.js", "MongoDB", "AWS", "Stripe"],
            "Full Stack", Some("#"), Some("#"), true),
    Project(2, "Task Management App", ["React", "TypeScript", "Firebase", "Tailwind"],
            "Frontend", Some("#"), Some("#"), true),
    Project(3, "Weather Dashboard", ["Vue.js", "API Integration", "Chart.js"],
            "Frontend", Some("#"), Some("#"), false),
    Project(4, "ML Sentiment Analysis", ["Python", "TensorFlow", "FastAPI", "React"],
            "Machine Learning", Some("#"), Some("#"), true)
  ]

  /** The category names of the shipped catalogue. */
  lemma ShippedCategoryNames()
    ensures CategoryNames(Projects) == ["Full Stack", "Frontend", "Frontend", "Machine Learning"]
  {
  }

  lemma ShippedDedup()
    ensures Dedup(["Full Stack", "Frontend", "Frontend", "Machine Learning"]) == ["Full Stack", "Frontend", "Machine Learning"]
  {
    var n1: seq<string> := ["Full Stack"];
    var n2 := n1 + ["Frontend"];
    var n3 := n2 + ["Frontend"];
    var n4 := n3 + ["Machine Learning"];
    assert n4 == ["Full Stack", "Frontend", "Frontend", "Machine Learning"];
    assert n1[..0] == [] && n2[..1] == n1 && n3[..2] == n2 && n4[..3] == n3;
    assert Dedup(n1) == ["Full Stack"];
    assert Dedup(n2) == ["Full Stack", "Frontend"];
    assert Dedup(n3) == ["Full Stack", "Frontend"];
  }

  lemma ShippedFrontend()
    ensures Select(Projects, "Frontend") == [Projects[1], Projects[2]]
  {
    var ps := Projects;
    var k := InCategory("Frontend");
    assert ps[3..][1..] == [] && ps[2..][1..] == ps[3..] && ps[1..][1..] == ps[2..] && ps[1..] == ps[1..];
    assert Filter(ps[3..], k) == [];
    assert Filter(ps[2..], k) == [ps[2]];
    assert Filter(ps[1..], k) == [ps[1], ps[2]];
  }

  lemma CategoriesFromNames(ps: seq<Project>)
    requires CategoryNames(ps) == ["Full Stack", "Frontend", "Frontend", "Machine Learning"]
    ensures Categories(ps) == ["All", "Full Stack", "Frontend", "Machine Learning"]
  {
    ShippedDedup();
  }

  /** The buttons of the shipped catalogue, and what `Frontend` shows. */
  lemma ShippedCatalogue()
    ensures Categories(Projects) == ["All", "Full Stack", "Frontend", "Machine Learning"]
    ensures Select(Projects, "Frontend") == [Projects[1], Projects[2]]
  {
    ShippedCategoryNames();
    CategoriesFromNames(Projects);
    ShippedFrontend();
  }
}
