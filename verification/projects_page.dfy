/** The portfolio page (`pages/Projects.tsx`): the category filter, its two-way sync with the
    `category` query parameter, and opening a project named by the `id` parameter. */
module ProjectsPage {
  import opened Seqs
  import opened Types

  /** The selection that shows every project. */
  const All: string := "All"

  /** The query string, one value per parameter name. */
  type Params = map<string, string>

  /** The test "is filed under `name`" (exact, case-sensitive string equality). */
  function InCategory(name: string): Project -> bool {
    (p: Project) => p.category == name
  }

  /** `filteredProjects`. */
  function FilteredProjects(ps: seq<Project>, selected: string): (r: seq<Project>)
    ensures selected == All ==> r == ps
    ensures |r| <= |ps|
    ensures selected != All ==> forall i :: 0 <= i < |r| ==> r[i].category == selected
  {
    if selected == All then ps else Filter(InCategory(selected), ps)
  }

  /** Any other selection keeps exactly the projects filed under it, as often as they occur,
      in their original order (filtering distributes over concatenation); filtering the result
      again changes nothing. */
  lemma FilteredProjectsSpec(ps: seq<Project>, selected: string, p: Project, a: seq<Project>, b: seq<Project>)
    requires selected != All
    ensures multiset(FilteredProjects(ps, selected))[p] == if p.category == selected then multiset(ps)[p] else 0
    ensures FilteredProjects(a + b, selected) == FilteredProjects(a, selected) + FilteredProjects(b, selected)
    ensures FilteredProjects(FilteredProjects(ps, selected), selected) == FilteredProjects(ps, selected)
  {
    FilterMultiplicity(InCategory(selected), ps, p);
    FilterConcat(InCategory(selected), a, b);
    FilterIdempotent(InCategory(selected), ps);
  }

  /** The URL-to-selection half of the sync effect: an absent or empty parameter means "All". */
  function SelectedFromParams(params: Params): (selected: string)
    ensures selected != ""
    ensures "category" in params && params["category"] != "" ==> selected == params["category"]
    ensures !("category" in params && params["category"] != "") ==> selected == All
  {
    if "category" in params && params["category"] != "" then params["category"] else All
  }

  /** The result of `handleCategoryChange`: the new selection and the rewritten query. */
  datatype CategoryChange = CategoryChange(selected: string, params: Params)

  /** `handleCategoryChange`: "All" removes the parameter, anything else sets it; the other
      parameters are kept. */
  function ChangeCategory(params: Params, cat: string): (r: CategoryChange)
    ensures r.selected == cat
    ensures cat == All ==> "category" !in r.params
    ensures cat != All ==> "category" in r.params && r.params["category"] == cat
    ensures forall k :: k != "category" ==> (k in r.params <==> k in params)
    ensures forall k :: k != "category" && k in params ==> r.params[k] == params[k]
  {
    if cat == All then CategoryChange(cat, params - {"category"})
    else CategoryChange(cat, params["category" := cat])
  }

  /** Writing a non-empty selection to the URL and reading it back gives the same selection,
      so the sync effect that runs after the change agrees with it. */
  lemma ChangeThenRead(params: Params, cat: string)
    requires cat != ""
    ensures SelectedFromParams(ChangeCategory(params, cat).params) == cat
  {
  }

  /** Reading a URL and writing the selection back leaves the URL alone, except that an
      explicit empty or "All" parameter is removed. */
  lemma ReadThenChange(params: Params)
    requires "category" !in params || (params["category"] != "" && params["category"] != All)
    ensures ChangeCategory(params, SelectedFromParams(params)).params == params
  {
  }

  /** The page state that the sync effect sets. */
  datatype View = View(selectedCategory: string, selectedProject: Option<Project>)

  function HasId(id: string): Project -> bool {
    (p: Project) => p.id == id
  }

  /** The sync effect: set the selection from the URL, then open the first project whose id
      is the `id` parameter, if there is one; otherwise keep the open project. */
  function SyncFromUrl(v: View, params: Params, ps: seq<Project>): (r: View)
    ensures r.selectedCategory == SelectedFromParams(params)
    ensures !("id" in params && params["id"] != "") ==> r.selectedProject == v.selectedProject
  {
    var shown :=
      if "id" in params && params["id"] != "" then
        match Find(HasId(params["id"]), ps)
        case Some(p) => Some(p)
        case None => v.selectedProject
      else v.selectedProject;
    View(SelectedFromParams(params), shown)
  }

  /** The opened project is the first one with the requested id; with no match the open
      project is unchanged. */
  lemma SyncOpensFirstMatch(v: View, params: Params, ps: seq<Project>)
    requires "id" in params && params["id"] != ""
    ensures var r := SyncFromUrl(v, params, ps);
      && ((exists i :: 0 <= i < |ps| && ps[i].id == params["id"]) ==>
            exists i :: 0 <= i < |ps| && r.selectedProject == Some(ps[i]) && ps[i].id == params["id"]
              && forall j :: 0 <= j < i ==> ps[j].id != params["id"])
      && ((forall i :: 0 <= i < |ps| ==> ps[i].id != params["id"]) ==> r.selectedProject == v.selectedProject)
  {
    var found := Find(HasId(params["id"]), ps);
    if exists i :: 0 <= i < |ps| && ps[i].id == params["id"] {
      var i :| 0 <= i < |ps| && ps[i].id == params["id"];
      assert HasId(params["id"])(ps[i]);
    } else {
      assert forall i :: 0 <= i < |ps| ==> !HasId(params["id"])(ps[i]);
    }
  }
}
