/** The catalog store (`context/StoreContext.tsx`): the cached projects, categories and
    site configuration, the optimistic mutations, the full load that doubles as the
    recovery path after a rejected write, and the session flag. */
module Store {
  import opened Seqs
  import opened Types
  import opened Rows
  import opened CategoryId

  /** The three cached values. */
  datatype Catalog = Catalog(projects: seq<Project>, categories: seq<Category>, siteConfig: SiteConfig)

  /** The cache before any load has completed. */
  const InitialCatalog: Catalog := Catalog([], [], DefaultSiteConfig)

  // ---------------------------------------------------------------------------
  // Optimistic effects on the cached sequences

  /** The test "has an id other than `id`", as a value that can be passed to `Filter`. */
  function OtherProjectId(id: string): Project -> bool {
    (p: Project) => p.id != id
  }

  function OtherCategoryId(id: string): Category -> bool {
    (c: Category) => c.id != id
  }

  /** `addProject`: the new project goes in front. */
  function PrependProject(ps: seq<Project>, p: Project): (r: seq<Project>)
    ensures |r| == |ps| + 1 && r[0] == p && r[1..] == ps
  {
    [p] + ps
  }

  /** `deleteProject`: keep the projects whose id differs. */
  function RemoveProject(ps: seq<Project>, id: string): (r: seq<Project>)
    ensures |r| <= |ps|
    ensures forall i :: 0 <= i < |r| ==> r[i].id != id
  {
    Filter(OtherProjectId(id), ps)
  }

  /** `updateProject`: every entry with the same id is replaced in place. */
  function ReplaceProject(ps: seq<Project>, p: Project): (r: seq<Project>)
    ensures |r| == |ps|
    ensures ProjectIds(r) == ProjectIds(ps)
    ensures forall i :: 0 <= i < |ps| ==> r[i] == p || r[i] == ps[i]
  {
    seq(|ps|, i requires 0 <= i < |ps| => if ps[i].id == p.id then p else ps[i])
  }

  /** The category `addCategory` builds from a name. */
  function NewCategory(name: string): (c: Category)
    ensures c.name == name && c.id == Slug(name)
  {
    Category(Slug(name), name)
  }

  /** `addCategory`: the new category goes at the end. */
  function AppendCategory(cs: seq<Category>, name: string): (r: seq<Category>)
    ensures |r| == |cs| + 1 && r[..|cs|] == cs && r[|cs|] == NewCategory(name)
  {
    cs + [NewCategory(name)]
  }

  /** `deleteCategory`: keep the categories whose id differs. */
  function RemoveCategory(cs: seq<Category>, id: string): (r: seq<Category>)
    ensures |r| <= |cs|
    ensures forall i :: 0 <= i < |r| ==> r[i].id != id
  {
    Filter(OtherCategoryId(id), cs)
  }

  /** Deleting keeps every other project, as often as it occurred, and in the same order:
      deletion distributes over concatenation. A missing id changes nothing. */
  lemma RemoveProjectKeepsOthers(ps: seq<Project>, id: string, q: Project)
    ensures q.id != id ==> multiset(RemoveProject(ps, id))[q] == multiset(ps)[q]
    ensures q.id == id ==> q !in RemoveProject(ps, id)
    ensures (forall i :: 0 <= i < |ps| ==> ps[i].id != id) ==> RemoveProject(ps, id) == ps
  {
    FilterMultiplicity(OtherProjectId(id), ps, q);
    if forall i :: 0 <= i < |ps| ==> ps[i].id != id {
      FilterKeepsAll(OtherProjectId(id), ps);
    }
  }

  lemma RemoveProjectInOrder(a: seq<Project>, b: seq<Project>, id: string)
    ensures RemoveProject(a + b, id) == RemoveProject(a, id) + RemoveProject(b, id)
  {
    FilterConcat(OtherProjectId(id), a, b);
  }

  /** The same for categories. */
  lemma RemoveCategoryKeepsOthers(cs: seq<Category>, id: string, c: Category)
    ensures c.id != id ==> multiset(RemoveCategory(cs, id))[c] == multiset(cs)[c]
    ensures c.id == id ==> c !in RemoveCategory(cs, id)
    ensures (forall i :: 0 <= i < |cs| ==> cs[i].id != id) ==> RemoveCategory(cs, id) == cs
  {
    FilterMultiplicity(OtherCategoryId(id), cs, c);
    if forall i :: 0 <= i < |cs| ==> cs[i].id != id {
      FilterKeepsAll(OtherCategoryId(id), cs);
    }
  }

  lemma RemoveCategoryInOrder(a: seq<Category>, b: seq<Category>, id: string)
    ensures RemoveCategory(a + b, id) == RemoveCategory(a, id) + RemoveCategory(b, id)
  {
    FilterConcat(OtherCategoryId(id), a, b);
  }

  /** Deleting what was just added undoes the addition when the id was new. */
  lemma RemoveUndoesPrepend(ps: seq<Project>, p: Project)
    ensures RemoveProject(PrependProject(ps, p), p.id) == RemoveProject(ps, p.id)
    ensures (forall i :: 0 <= i < |ps| ==> ps[i].id != p.id) ==> RemoveProject(PrependProject(ps, p), p.id) == ps
  {
    RemoveProjectInOrder([p], ps, p.id);
    assert RemoveProject([p], p.id) == [];
    RemoveProjectKeepsOthers(ps, p.id, p);
  }

  lemma RemoveUndoesAppend(cs: seq<Category>, name: string)
    ensures RemoveCategory(AppendCategory(cs, name), Slug(name)) == RemoveCategory(cs, Slug(name))
    ensures (forall i :: 0 <= i < |cs| ==> cs[i].id != Slug(name)) ==> RemoveCategory(AppendCategory(cs, name), Slug(name)) == cs
  {
    RemoveCategoryInOrder(cs, [NewCategory(name)], Slug(name));
    assert RemoveCategory([NewCategory(name)], Slug(name)) == [];
    RemoveCategoryKeepsOthers(cs, Slug(name), NewCategory(name));
  }

  /** Updating an id that is absent changes nothing; otherwise the new record is there,
      every entry with that id is the new record, and updating again changes nothing. */
  lemma ReplaceProjectFacts(ps: seq<Project>, p: Project)
    ensures (forall i :: 0 <= i < |ps| ==> ps[i].id != p.id) ==> ReplaceProject(ps, p) == ps
    ensures (exists i :: 0 <= i < |ps| && ps[i].id == p.id) ==> p in ReplaceProject(ps, p)
    ensures forall i :: 0 <= i < |ps| && ReplaceProject(ps, p)[i].id == p.id ==> ReplaceProject(ps, p)[i] == p
    ensures ReplaceProject(ReplaceProject(ps, p), p) == ReplaceProject(ps, p)
  {
  }

  /** Unique ids survive deletion and update, and survive addition exactly when the new id is fresh. */
  lemma UniqueIdsPreserved(ps: seq<Project>, p: Project, id: string)
    requires UniqueProjectIds(ps)
    ensures UniqueProjectIds(ReplaceProject(ps, p))
    ensures UniqueProjectIds(PrependProject(ps, p)) <==> forall i :: 0 <= i < |ps| ==> ps[i].id != p.id
    ensures UniqueProjectIds(RemoveProject(ps, id))
  {
    var r := ReplaceProject(ps, p);
    forall i, j | 0 <= i < j < |r|
      ensures r[i].id != r[j].id
    {
      assert ProjectIds(r)[i] == ProjectIds(ps)[i];
      assert ProjectIds(r)[j] == ProjectIds(ps)[j];
    }
    var a := PrependProject(ps, p);
    if forall i :: 0 <= i < |ps| ==> ps[i].id != p.id {
      forall i, j | 0 <= i < j < |a|
        ensures a[i].id != a[j].id
      {
        if i > 0 {
          assert a[i] == ps[i - 1] && a[j] == ps[j - 1];
        } else {
          assert a[j] == ps[j - 1];
        }
      }
    } else {
      var k :| 0 <= k < |ps| && ps[k].id == p.id;
      assert a[0].id == a[k + 1].id;
    }
    RemoveKeepsUnique(ps, id);
  }

  lemma {:induction false} RemoveKeepsUnique(ps: seq<Project>, id: string)
    requires UniqueProjectIds(ps)
    ensures UniqueProjectIds(RemoveProject(ps, id))
    decreases |ps|
  {
    if |ps| > 0 {
      RemoveKeepsUnique(ps[1..], id);
      RemoveProjectInOrder([ps[0]], ps[1..], id);
      assert ps == [ps[0]] + ps[1..];
      var rest := RemoveProject(ps[1..], id);
      forall q | q in rest
        ensures q.id != ps[0].id
      {
        FilterMembers(OtherProjectId(id), ps[1..], q);
        var k :| 0 <= k < |ps[1..]| && ps[1..][k] == q;
        assert ps[k + 1] == q;
      }
    }
  }

  /** Adding a category never checks for an existing id: adding "Logos" to the fallback
      categories yields two categories with id "logos". */
  lemma AppendCategoryDuplicatesId()
    ensures !UniqueCategoryIds(AppendCategory(DefaultCategories, "Logos"))
  {
    SlugCollision();
    var r := AppendCategory(DefaultCategories, "Logos");
    assert r[1].id == r[5].id;
  }

  // ---------------------------------------------------------------------------
  // Mutations and the remote writes they issue

  datatype Mutation =
    | AddProject(project: Project)
    | DeleteProject(id: string)
    | UpdateProject(project: Project)
    | AddCategory(name: string)
    | DeleteCategory(id: string)
    | UpdateSiteConfig(config: SiteConfig)

  /** The optimistic effect of a mutation on the cache. Each mutation touches one of the
      three cached values and leaves the other two alone. */
  function Optimistic(c: Catalog, m: Mutation): (r: Catalog)
    ensures m.AddProject? || m.DeleteProject? || m.UpdateProject? ==>
      r.categories == c.categories && r.siteConfig == c.siteConfig
    ensures m.AddCategory? || m.DeleteCategory? ==>
      r.projects == c.projects && r.siteConfig == c.siteConfig
    ensures m.UpdateSiteConfig? ==>
      r.projects == c.projects && r.categories == c.categories && r.siteConfig == m.config
  {
    match m
    case AddProject(p) => c.(projects := PrependProject(c.projects, p))
    case DeleteProject(id) => c.(projects := RemoveProject(c.projects, id))
    case UpdateProject(p) => c.(projects := ReplaceProject(c.projects, p))
    case AddCategory(name) => c.(categories := AppendCategory(c.categories, name))
    case DeleteCategory(id) => c.(categories := RemoveCategory(c.categories, id))
    case UpdateSiteConfig(config) => c.(siteConfig := config)
  }

  /** The call a mutation makes on the remote tables. */
  datatype RemoteWrite =
    | InsertProject(row: ProjectRow)
    | DeleteProjectWhere(id: string)
    | UpdateProjectWhere(id: string, patch: ProjectPatch)
    | InsertCategory(category: Category)
    | DeleteCategoryWhere(id: string)
    | UpdateConfigWhere(key: int, config: ConfigRow)

  /** Every write carries, in column form, exactly the record the optimistic step applied. */
  function WriteOf(m: Mutation): (w: RemoteWrite)
    ensures m.AddProject? ==> w.InsertProject? && ProjectFromRow(w.row) == m.project
    ensures m.DeleteProject? ==> w == DeleteProjectWhere(m.id)
    ensures m.UpdateProject? ==> w.UpdateProjectWhere? && ProjectFromRow(PatchedRow(w.id, w.patch)) == m.project
    ensures m.AddCategory? ==> w == InsertCategory(NewCategory(m.name))
    ensures m.DeleteCategory? ==> w == DeleteCategoryWhere(m.id)
    ensures m.UpdateSiteConfig? ==> w.UpdateConfigWhere? && w.key == ConfigRowKey && ConfigFromRow(w.config) == m.config
  {
    match m
    case AddProject(p) => InsertProject(ProjectToRow(p))
    case DeleteProject(id) => DeleteProjectWhere(id)
    case UpdateProject(p) => UpdateProjectWhere(p.id, ProjectToPatch(p))
    case AddCategory(name) => InsertCategory(NewCategory(name))
    case DeleteCategory(id) => DeleteCategoryWhere(id)
    case UpdateSiteConfig(config) => UpdateConfigWhere(ConfigRowKey, ConfigToRow(config))
  }

  // ---------------------------------------------------------------------------
  // The load

  /** The outcome of one remote read: an exception escaping the call, a reported error,
      a response without data, or the data (zero rows is `Got([])`). */
  datatype Fetch<+T> = Threw | Failed | NoData | Got(data: T)

  /** The three reads of one load, in the order they are issued. Reads after one that
      threw are never issued, so their outcome is ignored. */
  datatype Remote = Remote(
    projects: Fetch<seq<ProjectRow>>,
    categories: Fetch<seq<Category>>,
    config: Fetch<ConfigRow>)

  /** The catch block: each collection that was empty in the snapshot gets its fallback
      data; the site configuration is not touched. */
  function Recover(snap: Catalog, w: Catalog): (r: Catalog)
    ensures r.siteConfig == w.siteConfig
    ensures r.projects == if |snap.projects| == 0 then DefaultProjects else w.projects
    ensures r.categories == if |snap.categories| == 0 then DefaultCategories else w.categories
  {
    w.(projects := if |snap.projects| == 0 then DefaultProjects else w.projects)
     .(categories := if |snap.categories| == 0 then DefaultCategories else w.categories)
  }

  /** Step 1, when the projects read returned: fallback data only if the snapshot was empty;
      rows replace the cache wholesale. */
  function ProjectsStage(snap: Catalog, w: Catalog, f: Fetch<seq<ProjectRow>>): (r: Catalog)
    requires !f.Threw?
    ensures r.categories == w.categories && r.siteConfig == w.siteConfig
  {
    match f
    case Failed => if |snap.projects| == 0 then w.(projects := DefaultProjects) else w
    case NoData => w
    case Got(rows) =>
      if |rows| == 0 then (if |snap.projects| == 0 then w.(projects := DefaultProjects) else w)
      else w.(projects := ProjectsFromRows(rows))
  }

  /** Step 2, when the categories read returned: anything but a non-empty result means the
      fallback categories, whatever the cache held. */
  function CategoriesStage(w: Catalog, f: Fetch<seq<Category>>): (r: Catalog)
    requires !f.Threw?
    ensures r.projects == w.projects && r.siteConfig == w.siteConfig
  {
    match f
    case Got(rows) => if |rows| > 0 then w.(categories := rows) else w.(categories := DefaultCategories)
    case _ => w.(categories := DefaultCategories)
  }

  /** Step 3, when the site_config read returned: only a row replaces the configuration. */
  function ConfigStage(w: Catalog, f: Fetch<ConfigRow>): (r: Catalog)
    requires !f.Threw?
    ensures r.projects == w.projects && r.categories == w.categories
  {
    match f
    case Got(row) => w.(siteConfig := ConfigFromRow(row))
    case _ => w
  }

  /** `fetchData`. Its emptiness tests read `snap`, the values captured when the function
      was created; its updates land on `cur`, the cache as it is when they are applied.
      For the load at start-up both are the initial cache; for the reload after a rejected
      write, `snap` is the cache before the mutation and `cur` the optimistic cache. */
  function Load(snap: Catalog, cur: Catalog, r: Remote): (result: Catalog)
    ensures (r.projects.Threw? || r.categories.Threw? || r.config.Threw?) ==> result.siteConfig == cur.siteConfig
    ensures !r.projects.Threw? && !r.categories.Threw? && !r.config.Threw? ==> |result.categories| > 0
    ensures |snap.projects| == 0 && !r.projects.NoData? ==> |result.projects| > 0
  {
    if r.projects.Threw? then Recover(snap, cur)
    else
      var w1 := ProjectsStage(snap, cur, r.projects);
      if r.categories.Threw? then Recover(snap, w1)
      else
        var w2 := CategoriesStage(w1, r.categories);
        if r.config.Threw? then Recover(snap, w2)
        else ConfigStage(w2, r.config)
  }

  /** True when some read after the projects read threw. */
  predicate LaterReadThrew(r: Remote) {
    !r.projects.Threw? && (r.categories.Threw? || r.config.Threw?)
  }

  /** Projects after a load. An error, an exception or zero rows leave the cache alone unless
      the snapshot was empty, in which case the fallback list is used; rows replace the cache
      unless a later read threw with an empty snapshot. */
  lemma LoadProjects(snap: Catalog, cur: Catalog, r: Remote)
    ensures r.projects.Threw? || r.projects.Failed? || r.projects == Got([]) ==>
      Load(snap, cur, r).projects == if |snap.projects| == 0 then DefaultProjects else cur.projects
    ensures r.projects.NoData? ==>
      Load(snap, cur, r).projects
        == if |snap.projects| == 0 && LaterReadThrew(r) then DefaultProjects else cur.projects
    ensures r.projects.Got? && |r.projects.data| > 0 ==>
      Load(snap, cur, r).projects
        == if |snap.projects| == 0 && LaterReadThrew(r) then DefaultProjects
           else ProjectsFromRows(r.projects.data)
  {
  }

  /** Categories after a load. Once the categories read is issued, an error, missing data or
      zero rows give the fallback list even over a non-empty cache; an exception before or at
      that read gives the fallback list only if the snapshot was empty. */
  lemma LoadCategories(snap: Catalog, cur: Catalog, r: Remote)
    ensures r.projects.Threw? || r.categories.Threw? ==>
      Load(snap, cur, r).categories == if |snap.categories| == 0 then DefaultCategories else cur.categories
    ensures !r.projects.Threw? && (r.categories.Failed? || r.categories.NoData? || r.categories == Got([])) ==>
      Load(snap, cur, r).categories == DefaultCategories
    ensures !r.projects.Threw? && r.categories.Got? && |r.categories.data| > 0 ==>
      Load(snap, cur, r).categories
        == if |snap.categories| == 0 && r.config.Threw? then DefaultCategories else r.categories.data
  {
  }

  /** The site configuration changes on a load exactly when all three reads return and the
      config read returns a row; it never falls back to the default. */
  lemma LoadSiteConfig(snap: Catalog, cur: Catalog, r: Remote)
    ensures Load(snap, cur, r).siteConfig
      == if !r.projects.Threw? && !r.categories.Threw? && r.config.Got? then ConfigFromRow(r.config.data)
         else cur.siteConfig
  {
  }

  /** After the start-up load the category list is never empty, and the project list is
      empty only when the projects response carried no data and no later read threw. */
  lemma StartupLoadNonEmpty(r: Remote)
    ensures |Load(InitialCatalog, InitialCatalog, r).categories| > 0
    ensures |Load(InitialCatalog, InitialCatalog, r).projects| == 0 <==> r.projects.NoData? && !LaterReadThrew(r)
  {
    LoadProjects(InitialCatalog, InitialCatalog, r);
    LoadCategories(InitialCatalog, InitialCatalog, r);
  }

  /** The catch block tests the snapshot, not the rows already applied: at start-up, rows
      fetched for projects are replaced by the fallback list if the categories read throws. */
  lemma RecoverOverridesFetchedRows(rows: seq<ProjectRow>, config: Fetch<ConfigRow>)
    requires |rows| > 0
    ensures Load(InitialCatalog, InitialCatalog, Remote(Got(rows), Threw, config)).projects == DefaultProjects
  {
  }

  // ---------------------------------------------------------------------------
  // Committing a mutation

  /** What the remote write reported. A rejected write triggers a reload whose reads have
      the given outcome. */
  datatype WriteResult = Written | Rejected(reload: Remote)

  /** A mutation as the store performs it: the optimistic effect, then, if the write was
      rejected, a reload whose emptiness tests read the cache before the mutation. */
  function Commit(c: Catalog, m: Mutation, w: WriteResult): (r: Catalog)
    ensures w.Written? ==> r == Optimistic(c, m)
  {
    var optimistic := Optimistic(c, m);
    match w
    case Written => optimistic
    case Rejected(reload) => Load(c, optimistic, reload)
  }

  /** After a rejected project insert with a non-empty cache, the new project is discarded only
      if the reload reads at least one row; on an error, an exception or an empty table it stays
      at the front of the list. */
  lemma RejectedAddProject(c: Catalog, p: Project, r: Remote)
    requires |c.projects| > 0
    ensures Commit(c, AddProject(p), Rejected(r)).projects
      == if r.projects.Got? && |r.projects.data| > 0 then ProjectsFromRows(r.projects.data)
         else [p] + c.projects
  {
    LoadProjects(c, Optimistic(c, AddProject(p)), r);
  }

  /** After a rejected category insert, once the categories read is issued the new category is
      always discarded: the list becomes the rows read or the fallback list. If the reload
      throws before that read, the catch block tests the cache before the insert: over a
      non-empty list the new category stays at the end. */
  lemma RejectedAddCategory(c: Catalog, name: string, r: Remote)
    ensures var cats := Commit(c, AddCategory(name), Rejected(r)).categories;
      && (!r.projects.Threw? && !r.categories.Threw? ==>
            cats == DefaultCategories || (r.categories.Got? && cats == r.categories.data))
      && (r.projects.Threw? || r.categories.Threw? ==>
            cats == if |c.categories| == 0 then DefaultCategories else c.categories + [NewCategory(name)])
  {
    LoadCategories(c, Optimistic(c, AddCategory(name)), r);
  }

  /** After a rejected configuration update, the new configuration stays unless the reload
      reads the configuration row. */
  lemma RejectedUpdateSiteConfig(c: Catalog, config: SiteConfig, r: Remote)
    ensures Commit(c, UpdateSiteConfig(config), Rejected(r)).siteConfig
      == if !r.projects.Threw? && !r.categories.Threw? && r.config.Got? then ConfigFromRow(r.config.data)
         else config
  {
    LoadSiteConfig(c, Optimistic(c, UpdateSiteConfig(config)), r);
  }

  // ---------------------------------------------------------------------------
  // The session flag

  /** The secret `login` compares against. */
  const Secret: string := "commatoze"

  /** The authentication state and the value stored under the session key, if any. */
  datatype Session = Session(authenticated: bool, stored: Option<string>)

  /** The state at start-up: authenticated exactly when the stored value is "true". */
  function Restore(stored: Option<string>): (s: Session)
    ensures s.authenticated <==> stored == Some("true")
    ensures s.stored == stored
  {
    Session(stored == Some("true"), stored)
  }

  datatype LoginResult = LoginResult(ok: bool, session: Session)

  /** `login`: succeeds exactly on the secret, and then records the session; a wrong
      password changes nothing. */
  function Login(s: Session, password: string): (r: LoginResult)
    ensures r.ok <==> password == Secret
    ensures r.ok ==> r.session == Session(true, Some("true"))
    ensures !r.ok ==> r.session == s
  {
    if password == Secret then LoginResult(true, Session(true, Some("true"))) else LoginResult(false, s)
  }

  /** `logout`: unauthenticated, with the stored value removed. */
  function Logout(s: Session): (r: Session)
    ensures !r.authenticated && r.stored.None?
  {
    Session(false, None)
  }

  /** A successful login survives a restart; a logout does too. */
  lemma SessionSurvivesRestart(s: Session, password: string)
    ensures Login(s, password).ok ==> Restore(Login(s, password).session.stored).authenticated
    ensures !Restore(Logout(s).stored).authenticated
  {
  }
}
