/** The column layout of the remote tables and its translation to the catalog's field names.
    The store renames on the way in (`image_url` to `imageUrl`, the snake_case site_config
    columns to the SiteConfig fields) and renames back on every write. */
module Rows {
  import opened Types

  /** A row of the `projects` table. Field names follow the table's columns. */
  datatype ProjectRow = ProjectRow(
    id: string,
    title: string,
    category: string,
    description: string,
    image_url: string,
    date: string)

  /** The body of a project update: every column but the key, which goes in the filter. */
  datatype ProjectPatch = ProjectPatch(
    title: string,
    category: string,
    description: string,
    image_url: string,
    date: string)

  /** The five columns of the `site_config` row that the store reads and writes. */
  datatype ConfigRow = ConfigRow(
    hero_headline: string,
    hero_subheadline: string,
    contact_email: string,
    instagram_handle: string,
    whatsapp_number: string)

  /** The key of the one site_config row the store updates. */
  const ConfigRowKey: int := 1

  /** The load mapping from a fetched row to a project. */
  function ProjectFromRow(row: ProjectRow): (p: Project)
    ensures p.id == row.id && p.imageUrl == row.image_url
    ensures p.title == row.title && p.category == row.category
    ensures p.description == row.description && p.date == row.date
  {
    Project(row.id, row.title, row.category, row.description, row.image_url, row.date)
  }

  /** The insert payload; decoding it with the load mapping gives back the project. */
  function ProjectToRow(p: Project): (row: ProjectRow)
    ensures ProjectFromRow(row) == p
  {
    ProjectRow(p.id, p.title, p.category, p.description, p.imageUrl, p.date)
  }

  /** Encoding a decoded row gives back the row: the two mappings are mutually inverse. */
  lemma ProjectRowRoundTrip(row: ProjectRow)
    ensures ProjectToRow(ProjectFromRow(row)) == row
  {
  }

  /** The update payload for a project. */
  function ProjectToPatch(p: Project): (patch: ProjectPatch)
    ensures ProjectFromRow(PatchedRow(p.id, patch)) == p
  {
    ProjectPatch(p.title, p.category, p.description, p.imageUrl, p.date)
  }

  /** The row the remote table holds after applying `patch` to the row keyed `id`. */
  function PatchedRow(id: string, patch: ProjectPatch): (row: ProjectRow)
    ensures row.id == id && row.image_url == patch.image_url
    ensures row.title == patch.title && row.category == patch.category
    ensures row.description == patch.description && row.date == patch.date
  {
    ProjectRow(id, patch.title, patch.category, patch.description, patch.image_url, patch.date)
  }

  /** The load mapping for the site_config row. */
  function ConfigFromRow(row: ConfigRow): (c: SiteConfig)
    ensures c.heroHeadline == row.hero_headline && c.heroSubheadline == row.hero_subheadline
    ensures c.contactEmail == row.contact_email && c.instagramHandle == row.instagram_handle
    ensures c.whatsappNumber == row.whatsapp_number
  {
    SiteConfig(row.hero_headline, row.hero_subheadline, row.contact_email, row.instagram_handle, row.whatsapp_number)
  }

  /** The update payload for the site configuration; decoding it gives back the configuration. */
  function ConfigToRow(c: SiteConfig): (row: ConfigRow)
    ensures ConfigFromRow(row) == c
  {
    ConfigRow(c.heroHeadline, c.heroSubheadline, c.contactEmail, c.instagramHandle, c.whatsappNumber)
  }

  lemma ConfigRowRoundTrip(row: ConfigRow)
    ensures ConfigToRow(ConfigFromRow(row)) == row
  {
  }

  /** Translates fetched rows one by one, keeping their order. */
  function ProjectsFromRows(rows: seq<ProjectRow>): (ps: seq<Project>)
    ensures |ps| == |rows|
    ensures forall i :: 0 <= i < |rows| ==> ProjectToRow(ps[i]) == rows[i]
  {
    seq(|rows|, i requires 0 <= i < |rows| => ProjectFromRow(rows[i]))
  }

  /** Translates projects to rows one by one, keeping their order (the seeding upload). */
  function ProjectsToRows(ps: seq<Project>): (rows: seq<ProjectRow>)
    ensures |rows| == |ps|
    ensures forall i :: 0 <= i < |ps| ==> ProjectFromRow(rows[i]) == ps[i]
  {
    seq(|ps|, i requires 0 <= i < |ps| => ProjectToRow(ps[i]))
  }

  /** Uploading a list and reading it back in the same order reproduces the list. */
  lemma ProjectsRowsRoundTrip(ps: seq<Project>)
    ensures ProjectsFromRows(ProjectsToRows(ps)) == ps
  {
  }
}
