/** The admin dashboard (`pages/AdminDashboard.tsx`): the project form with its validation,
    edit merge and create defaults, the category and settings forms, and the row mapping of
    the seeding upload. Each handler is a pure step that returns the new page state and the
    store mutation it invokes, if any. */
module AdminDashboard {
  import opened Seqs
  import opened Types
  import opened Rows
  import opened Store
  import opened CategoryId

  /** The project form (`Partial<Project>`). The handlers always set every field but the id:
      the form opened for a new project has no id, the form opened on a project copies it. */
  datatype ProjectForm = ProjectForm(
    id: Option<string>,
    title: string,
    category: string,
    description: string,
    imageUrl: string,
    date: string)

  /** The page state the handlers read and write. */
  datatype Dashboard = Dashboard(
    modalOpen: bool,
    editing: Option<Project>,
    form: ProjectForm,
    newCategoryName: string,
    configForm: SiteConfig,
    message: string)

  /** The form for a new project: every text field empty and the date set to `today`. */
  function BlankForm(today: string): (f: ProjectForm)
    ensures f.id.None? && f.date == today
    ensures f.title == "" && f.category == "" && f.description == "" && f.imageUrl == ""
  {
    ProjectForm(None, "", "", "", "", today)
  }

  /** The form opened on a project holds all of its fields. */
  function FormOf(p: Project): (f: ProjectForm)
    ensures f.id == Some(p.id) && f.date == p.date
    ensures f.title == p.title && f.category == p.category
    ensures f.description == p.description && f.imageUrl == p.imageUrl
  {
    ProjectForm(Some(p.id), p.title, p.category, p.description, p.imageUrl, p.date)
  }

  /** `openNewProjectModal`. */
  function OpenNewProject(d: Dashboard, today: string): (r: Dashboard)
    ensures r.modalOpen && r.editing.None? && r.form == BlankForm(today)
    ensures r.newCategoryName == d.newCategoryName && r.configForm == d.configForm && r.message == d.message
  {
    d.(modalOpen := true, editing := None, form := BlankForm(today))
  }

  /** `openEditProjectModal`. */
  function OpenEditProject(d: Dashboard, p: Project): (r: Dashboard)
    ensures r.modalOpen && r.editing == Some(p) && r.form == FormOf(p)
    ensures r.newCategoryName == d.newCategoryName && r.configForm == d.configForm && r.message == d.message
  {
    d.(modalOpen := true, editing := Some(p), form := FormOf(p))
  }

  /** The four inputs of the project modal. */
  datatype Field = Title | CategoryName | Description | ImageUrl

  /** One keystroke-level change: the input `field` now holds `value`. */
  datatype FieldEdit = FieldEdit(field: Field, value: string)

  /** The `onChange` handler of one input: that field takes the new value, the others stay. */
  function SetField(f: ProjectForm, e: FieldEdit): (r: ProjectForm)
    ensures r.id == f.id && r.date == f.date
    ensures r.title == if e.field == Title then e.value else f.title
    ensures r.category == if e.field == CategoryName then e.value else f.category
    ensures r.description == if e.field == Description then e.value else f.description
    ensures r.imageUrl == if e.field == ImageUrl then e.value else f.imageUrl
  {
    match e.field
    case Title => f.(title := e.value)
    case CategoryName => f.(category := e.value)
    case Description => f.(description := e.value)
    case ImageUrl => f.(imageUrl := e.value)
  }

  /** A sequence of edits, applied in order. */
  function ApplyEdits(f: ProjectForm, edits: seq<FieldEdit>): ProjectForm
    decreases |edits|
  {
    if |edits| == 0 then f else ApplyEdits(SetField(f, edits[0]), edits[1..])
  }

  /** No input of the modal edits the id or the date. */
  lemma {:induction false} EditsKeepIdAndDate(f: ProjectForm, edits: seq<FieldEdit>)
    ensures ApplyEdits(f, edits).id == f.id && ApplyEdits(f, edits).date == f.date
    decreases |edits|
  {
    if |edits| > 0 {
      EditsKeepIdAndDate(SetField(f, edits[0]), edits[1..]);
    }
  }

  /** The value the input `fld` shows. */
  function FieldOf(f: ProjectForm, fld: Field): string {
    match fld
    case Title => f.title
    case CategoryName => f.category
    case Description => f.description
    case ImageUrl => f.imageUrl
  }

  /** One more edit at the end acts on the form the earlier edits left. */
  lemma {:induction false} ApplyEditsSnoc(f: ProjectForm, edits: seq<FieldEdit>, e: FieldEdit)
    ensures ApplyEdits(f, edits + [e]) == SetField(ApplyEdits(f, edits), e)
    decreases |edits|
  {
    if |edits| > 0 {
      assert (edits + [e])[1..] == edits[1..] + [e];
      ApplyEditsSnoc(SetField(f, edits[0]), edits[1..], e);
    }
  }

  /** For every input: the last edit of it decides its value, and an input never edited keeps
      the value the form was opened with. */
  lemma {:induction false} LastEditWins(f: ProjectForm, edits: seq<FieldEdit>, fld: Field, v: string)
    ensures FieldOf(ApplyEdits(f, edits + [FieldEdit(fld, v)]), fld) == v
    ensures (forall i :: 0 <= i < |edits| ==> edits[i].field != fld) ==> FieldOf(ApplyEdits(f, edits), fld) == FieldOf(f, fld)
    decreases |edits|
  {
    ApplyEditsSnoc(f, edits, FieldEdit(fld, v));
    if |edits| > 0 {
      LastEditWins(SetField(f, edits[0]), edits[1..], fld, v);
      if forall i :: 0 <= i < |edits| ==> edits[i].field != fld {
        assert forall i :: 0 <= i < |edits[1..]| ==> edits[1..][i].field != fld by {
          forall i | 0 <= i < |edits[1..]| ensures edits[1..][i].field != fld {
            assert edits[1..][i] == edits[i + 1];
          }
        }
        assert FieldOf(SetField(f, edits[0]), fld) == FieldOf(f, fld);
      }
    }
  }

  /** The submit guard: title, category and image URL must be non-empty. */
  predicate Complete(f: ProjectForm) {
    f.title != "" && f.category != "" && f.imageUrl != ""
  }

  /** `{...editingProject, ...projectForm}`: the form's fields over the edited project; a form
      without an id leaves the project's id in place. */
  function Overlay(p: Project, f: ProjectForm): (q: Project)
    ensures q.id == (if f.id.Some? then f.id.value else p.id)
    ensures q.title == f.title && q.category == f.category
    ensures q.description == f.description && q.imageUrl == f.imageUrl && q.date == f.date
  {
    Project(if f.id.Some? then f.id.value else p.id, f.title, f.category, f.description, f.imageUrl, f.date)
  }

  /** The project the create branch builds. The id comes from the clock (`Date.now()`), passed
      in as `freshId`; an empty date would be replaced by the timestamp `now`. */
  function NewProject(f: ProjectForm, freshId: string, now: string): (p: Project)
    ensures p.id == freshId
    ensures p.title == f.title && p.category == f.category
    ensures p.description == f.description && p.imageUrl == f.imageUrl
    ensures p.date == if f.date == "" then now else f.date
  {
    Project(freshId, f.title, f.category, f.description, f.imageUrl, if f.date == "" then now else f.date)
  }

  /** The page state after a handler, and the store mutation it invoked, if any. */
  datatype Step = Step(dashboard: Dashboard, call: Option<Mutation>)

  /** `handleProjectSubmit`. */
  function SubmitProject(d: Dashboard, freshId: string, now: string): (r: Step)
    ensures r.call.Some? <==> Complete(d.form)
    ensures r.dashboard == if Complete(d.form) then d.(modalOpen := false) else d
    ensures Complete(d.form) && d.editing.Some? ==> r.call == Some(UpdateProject(Overlay(d.editing.value, d.form)))
    ensures Complete(d.form) && d.editing.None? ==> r.call == Some(AddProject(NewProject(d.form, freshId, now)))
  {
    if !Complete(d.form) then Step(d, None)
    else
      var m := match d.editing
        case Some(p) => UpdateProject(Overlay(p, d.form))
        case None => AddProject(NewProject(d.form, freshId, now));
      Step(d.(modalOpen := false), Some(m))
  }

  /** Opening a project, editing its inputs and submitting updates that same project: the id
      and the date are the project's own, every other field is what the inputs hold. An
      incomplete form makes no call and keeps the modal open. */
  lemma EditSubmitKeepsIdentity(d: Dashboard, p: Project, edits: seq<FieldEdit>, freshId: string, now: string)
    ensures var start := OpenEditProject(d, p);
      var f := ApplyEdits(start.form, edits);
      var r := SubmitProject(start.(form := f), freshId, now);
      && (Complete(f) ==>
            r.call == Some(UpdateProject(Project(p.id, f.title, f.category, f.description, f.imageUrl, p.date)))
            && !r.dashboard.modalOpen)
      && (!Complete(f) ==> r.call.None? && r.dashboard.modalOpen)
  {
    EditsKeepIdAndDate(FormOf(p), edits);
  }

  /** Creating a project from the new-project form: the id is the fresh one, the date is the
      day the form was opened, every other field is what the inputs hold. */
  lemma CreateSubmitUsesFreshId(d: Dashboard, today: string, edits: seq<FieldEdit>, freshId: string, now: string)
    requires today != ""
    ensures var start := OpenNewProject(d, today);
      var f := ApplyEdits(start.form, edits);
      var r := SubmitProject(start.(form := f), freshId, now);
      Complete(f) ==>
        r.call == Some(AddProject(Project(freshId, f.title, f.category, f.description, f.imageUrl, today)))
  {
    EditsKeepIdAndDate(BlankForm(today), edits);
  }

  /** A form opened on a listed project and submitted unchanged updates the project to itself,
      so with unique ids a written update leaves the project list as it was. */
  lemma UnchangedEditIsIdentity(c: Catalog, d: Dashboard, p: Project, freshId: string, now: string)
    requires p in c.projects && UniqueProjectIds(c.projects)
    requires p.title != "" && p.category != "" && p.imageUrl != ""
    ensures SubmitProject(OpenEditProject(d, p), freshId, now).call == Some(UpdateProject(p))
    ensures Commit(c, UpdateProject(p), Written).projects == c.projects
  {
  }

  /** `handleAddCategory`: a non-empty name is added and the input cleared; an empty name
      does nothing. */
  function SubmitCategory(d: Dashboard): (r: Step)
    ensures d.newCategoryName != "" ==>
      r.call == Some(AddCategory(d.newCategoryName)) && r.dashboard == d.(newCategoryName := "")
    ensures d.newCategoryName == "" ==> r == Step(d, None)
  {
    if d.newCategoryName != "" then Step(d.(newCategoryName := ""), Some(AddCategory(d.newCategoryName)))
    else Step(d, None)
  }

  /** A non-empty name typed in the category form ends up as one new category at the end of
      the list, named as typed, with the id derived from the name. */
  lemma SubmitCategoryAppends(c: Catalog, d: Dashboard)
    requires d.newCategoryName != ""
    ensures var m := SubmitCategory(d).call.value;
      Commit(c, m, Written).categories == c.categories + [Category(Slug(d.newCategoryName), d.newCategoryName)]
      && Commit(c, m, Written).projects == c.projects
  {
  }

  /** The confirmation `handleConfigSave` shows. */
  const SavedMessage: string := "Settings saved successfully!"

  /** `handleConfigSave`: the whole settings form goes to the store, unconditionally. */
  function SaveConfig(d: Dashboard): (r: Step)
    ensures r.call == Some(UpdateSiteConfig(d.configForm))
    ensures r.dashboard == d.(message := SavedMessage)
  {
    Step(d.(message := SavedMessage), Some(UpdateSiteConfig(d.configForm)))
  }

  /** Saving the settings replaces the cached configuration by the form, field for field, and
      the row written decodes to the same record. */
  lemma SaveConfigReplacesConfig(c: Catalog, d: Dashboard)
    ensures var m := SaveConfig(d).call.value;
      && Commit(c, m, Written).siteConfig == d.configForm
      && ConfigFromRow(WriteOf(m).config) == d.configForm
      && Commit(c, m, Written).projects == c.projects
      && Commit(c, m, Written).categories == c.categories
  {
  }

  /** The rows `handleSeedDatabase` upserts: the fallback projects in column form. */
  function SeedRows(): (rows: seq<ProjectRow>)
    ensures |rows| == |DefaultProjects|
    ensures forall i :: 0 <= i < |rows| ==> rows[i].id == DefaultProjects[i].id && rows[i].image_url == DefaultProjects[i].imageUrl
  {
    ProjectsToRows(DefaultProjects)
  }

  /** One row per fallback project, in the same order, every field identical but for the
      renamed image column; a load that reads back exactly these rows yields the fallback
      projects, over any cache and whatever the other two reads do (if one of them throws,
      the catch block falls back to the same list or keeps the rows already applied). */
  lemma SeedRowsFaithful(snap: Catalog, cur: Catalog, categories: Fetch<seq<Category>>, config: Fetch<ConfigRow>)
    ensures forall i :: 0 <= i < |SeedRows()| ==> SeedRows()[i] == ProjectRow(
      DefaultProjects[i].id, DefaultProjects[i].title, DefaultProjects[i].category,
      DefaultProjects[i].description, DefaultProjects[i].imageUrl, DefaultProjects[i].date)
    ensures Load(snap, cur, Remote(Got(SeedRows()), categories, config)).projects == DefaultProjects
  {
    DefaultsNonEmpty();
    ProjectsRowsRoundTrip(DefaultProjects);
    LoadProjects(snap, cur, Remote(Got(SeedRows()), categories, config));
  }
}
