/** The recovery path after a rejected write, as written and as evidently intended.

    As written, the reload only writes a collection when its read returns something to
    write; otherwise the cache keeps whatever the mutation put there. So an optimistic
    project survives an error or an empty table, an optimistic site configuration
    survives any failed config read, and an optimistic category survives a reload that
    throws before its categories read (the catch block tests the cache before the write).
    The intended behaviour, stated by the "Revert on error" remark in `addProject`, is that
    the reload discards the optimistic change. The corrected reload starts from the cache as
    it was before the mutation. */
module Reconcile {
  import opened Types
  import opened Rows
  import opened Store

  /** A backend whose tables are empty: both lists come back with zero rows and the
      single-row configuration read reports an error. */
  const EmptyRemote: Remote := Remote(Got([]), Got([]), Failed)

  /** The cache after the start-up load against the empty backend. */
  const FallbackCatalog: Catalog := Catalog(DefaultProjects, DefaultCategories, DefaultSiteConfig)

  /** As written: against an empty backend, a project whose insert is rejected is still at the
      front of the list after the reload. */
  lemma OptimisticProjectSurvivesReload(p: Project)
    ensures Load(InitialCatalog, InitialCatalog, EmptyRemote) == FallbackCatalog
    ensures Commit(FallbackCatalog, AddProject(p), Rejected(EmptyRemote)).projects == [p] + DefaultProjects
  {
    RejectedAddProject(FallbackCatalog, p, EmptyRemote);
  }

  /** As written: a configuration whose update is rejected stays when the reload's config read
      fails, although the backend never stored it. */
  lemma OptimisticConfigSurvivesReload(config: SiteConfig)
    ensures Commit(FallbackCatalog, UpdateSiteConfig(config), Rejected(EmptyRemote)).siteConfig == config
  {
    RejectedUpdateSiteConfig(FallbackCatalog, config, EmptyRemote);
  }

  /** As written: when the reload throws at its first read, a category whose insert is
      rejected stays at the end of a non-empty list, although the backend never stored it. */
  lemma OptimisticCategorySurvivesThrow(c: Catalog, name: string, r: Remote)
    requires |c.categories| > 0 && r.projects.Threw?
    ensures Commit(c, AddCategory(name), Rejected(r)).categories == c.categories + [NewCategory(name)]
  {
    RejectedAddCategory(c, name, r);
  }

  /** The corrected reload: every emptiness test and every "leave it alone" branch refers to
      the cache before the mutation, so nothing from the optimistic step is kept. */
  function ReloadCorrected(before: Catalog, r: Remote): Catalog {
    Load(before, before, r)
  }

  /** The corrected commit: a rejected write is followed by the corrected reload. */
  function CommitCorrected(c: Catalog, m: Mutation, w: WriteResult): (r: Catalog)
    ensures w.Written? ==> r == Optimistic(c, m)
  {
    match w
    case Written => Optimistic(c, m)
    case Rejected(reload) => ReloadCorrected(c, reload)
  }

  /** The intended property: after a rejected write, every cached value is the value from
      before the mutation, the fallback value, or what the reload read from the backend. */
  lemma RejectedWriteLeavesNoTrace(c: Catalog, m: Mutation, r: Remote)
    ensures var after := CommitCorrected(c, m, Rejected(r));
      && (after.projects == c.projects || after.projects == DefaultProjects
          || (r.projects.Got? && after.projects == ProjectsFromRows(r.projects.data)))
      && (after.categories == c.categories || after.categories == DefaultCategories
          || (r.categories.Got? && after.categories == r.categories.data))
      && (after.siteConfig == c.siteConfig
          || (r.config.Got? && after.siteConfig == ConfigFromRow(r.config.data)))
  {
    LoadProjects(c, c, r);
    LoadCategories(c, c, r);
    LoadSiteConfig(c, c, r);
  }

  /** With the correction, the same thrown reload leaves the category list as it was before
      the rejected insert. */
  lemma RejectedCategoryDiscarded(c: Catalog, name: string, r: Remote)
    requires |c.categories| > 0 && r.projects.Threw?
    ensures CommitCorrected(c, AddCategory(name), Rejected(r)).categories == c.categories
  {
    LoadCategories(c, c, r);
  }

  /** With the correction, the same scenario ends without the rejected project, and the
      corrected commit agrees with the original one whenever the write goes through. */
  lemma RejectedProjectDiscarded(p: Project)
    requires forall i :: 0 <= i < |DefaultProjects| ==> DefaultProjects[i].id != p.id
    ensures CommitCorrected(FallbackCatalog, AddProject(p), Rejected(EmptyRemote)).projects == DefaultProjects
    ensures p !in CommitCorrected(FallbackCatalog, AddProject(p), Rejected(EmptyRemote)).projects
    ensures CommitCorrected(FallbackCatalog, AddProject(p), Written) == Commit(FallbackCatalog, AddProject(p), Written)
  {
    LoadProjects(FallbackCatalog, FallbackCatalog, EmptyRemote);
  }
}
