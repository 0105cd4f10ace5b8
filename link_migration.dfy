/**
 * The migration that moves a project's three optional link columns
 * (`links_website`, `links_case_study`, `links_repository`) into an ordered
 * array table of `(order, label, url)` rows, for the `projects` table and
 * identically for its version table `_projects_v`.
 */
module LinkMigration {
  import opened Optional

  /** A nullable `varchar` column. */
  datatype Column = Null | Text(value: string)

  /** The WHERE test of each INSERT: neither NULL nor the empty string. */
  predicate Present(c: Column) {
    c.Text? && c.value != ""
  }

  /** `CASE WHEN c IS NOT NULL AND c != '' THEN 1 ELSE 0 END`. */
  function Flag(c: Column): nat {
    if Present(c) then 1 else 0
  }

  /** The three link columns of one row, before they are dropped. */
  datatype LinkColumns = LinkColumns(website: Column, caseStudy: Column, repository: Column)

  const NoLinks := LinkColumns(Null, Null, Null)

  /** A row of `projects` or `_projects_v`; `links` is `None` once the columns are dropped. */
  datatype ParentRow = ParentRow(id: int, links: Option<LinkColumns>)

  /** A row of `projects_links` or `_projects_v_version_links`. */
  datatype LinkRow = LinkRow(order: nat, parentId: int, title: string, url: string)

  /** The three INSERT ... SELECT statements of one table, in the order they run. */
  datatype LinkKind = Website | CaseStudy | Repository

  function Label(kind: LinkKind): string {
    match kind
    case Website => "Visit Website"
    case CaseStudy => "Read Case Study"
    case Repository => "View Repository"
  }

  function ColumnOf(kind: LinkKind, cols: LinkColumns): Column {
    match kind
    case Website => cols.website
    case CaseStudy => cols.caseStudy
    case Repository => cols.repository
  }

  /** The `_order` expression of each SELECT. */
  function Order(kind: LinkKind, cols: LinkColumns): nat {
    match kind
    case Website => 0
    case CaseStudy => Flag(cols.website)
    case Repository => Flag(cols.website) + Flag(cols.caseStudy)
  }

  /** What one SELECT yields for one parent row: a link row, or nothing when the WHERE fails. */
  function SelectRow(kind: LinkKind, id: int, cols: LinkColumns): Option<LinkRow> {
    var c := ColumnOf(kind, cols);
    if Present(c) then Some(LinkRow(Order(kind, cols), id, Label(kind), c.value)) else None
  }

  function OptionToSeq<T>(o: Option<T>): (s: seq<T>)
    ensures o.Some? ==> s == [o.value]
    ensures o.None? ==> s == []
  {
    if o.Some? then [o.value] else []
  }

  /** The columns of a row that still has them; dropped columns read as NULL. */
  function ColumnsOf(p: ParentRow): LinkColumns {
    p.links.GetOr(NoLinks)
  }

  /** One `INSERT INTO ... SELECT ... FROM <parents> WHERE ...`, row by row. */
  function InsertSelect(parents: seq<ParentRow>, kind: LinkKind): seq<LinkRow>
    decreases |parents|
  {
    if parents == [] then []
    else OptionToSeq(SelectRow(kind, parents[0].id, ColumnsOf(parents[0]))) + InsertSelect(parents[1..], kind)
  }

  /** Step 2 of `up` for one table: the three INSERT statements in order. */
  function MigrateLinks(parents: seq<ParentRow>): seq<LinkRow> {
    InsertSelect(parents, Website) + InsertSelect(parents, CaseStudy) + InsertSelect(parents, Repository)
  }

  /** The link rows of one parent, website before case study before repository. */
  function LinksOf(id: int, cols: LinkColumns): seq<LinkRow> {
    OptionToSeq(SelectRow(Website, id, cols))
    + OptionToSeq(SelectRow(CaseStudy, id, cols))
    + OptionToSeq(SelectRow(Repository, id, cols))
  }

  /** The rows of a link table that belong to parent `id`, in table order. */
  function RowsOf(rows: seq<LinkRow>, id: int): seq<LinkRow> {
    if rows == [] then []
    else if rows[0].parentId == id then [rows[0]] + RowsOf(rows[1..], id)
    else RowsOf(rows[1..], id)
  }

  /**
   * A parent gets one row per present column; their orders are exactly
   * 0, 1, ..., n-1, and the rows come website, case study, repository, each
   * with its own label and url.
   */
  lemma LinksOfContiguous(id: int, cols: LinkColumns)
    ensures |LinksOf(id, cols)| == Flag(cols.website) + Flag(cols.caseStudy) + Flag(cols.repository)
    ensures forall k :: 0 <= k < |LinksOf(id, cols)| ==> LinksOf(id, cols)[k].order == k
    ensures forall x :: x in LinksOf(id, cols) ==> x.parentId == id && x.url != ""
    ensures forall kind :: Present(ColumnOf(kind, cols)) ==>
      LinkRow(Order(kind, cols), id, Label(kind), ColumnOf(kind, cols).value) in LinksOf(id, cols)
    ensures forall x :: x in LinksOf(id, cols) ==> exists kind :: Present(ColumnOf(kind, cols)) && x.title == Label(kind)
  {
    var w := OptionToSeq(SelectRow(Website, id, cols));
    var c := OptionToSeq(SelectRow(CaseStudy, id, cols));
    var r := OptionToSeq(SelectRow(Repository, id, cols));
    assert LinksOf(id, cols) == w + c + r;
    forall k | 0 <= k < |w + c + r| ensures (w + c + r)[k].order == k {
      if k < |w| {
        assert (w + c + r)[k] == w[k];
      } else if k < |w| + |c| {
        assert (w + c + r)[k] == c[k - |w|];
      } else {
        assert (w + c + r)[k] == r[k - |w| - |c|];
      }
    }
  }

  lemma {:induction false} RowsOfConcat(a: seq<LinkRow>, b: seq<LinkRow>, id: int)
    ensures RowsOf(a + b, id) == RowsOf(a, id) + RowsOf(b, id)
    decreases |a|
  {
    if a != [] {
      var c := a + b;
      assert c[0] == a[0] && c[1..] == a[1..] + b;
      RowsOfConcat(a[1..], b, id);
      var h := if a[0].parentId == id then [a[0]] else [];
      assert RowsOf(c, id) == h + RowsOf(c[1..], id);
      assert RowsOf(a, id) == h + RowsOf(a[1..], id);
    } else {
      assert a + b == b;
    }
  }

  predicate UniqueIds(parents: seq<ParentRow>) {
    forall j, k :: 0 <= j < k < |parents| ==> parents[j].id != parents[k].id
  }

  /** With unique parent ids, one INSERT gives parent `k` exactly its own row for that kind. */
  lemma {:induction false} InsertSelectOfParent(parents: seq<ParentRow>, kind: LinkKind, k: nat)
    requires k < |parents| && UniqueIds(parents)
    ensures RowsOf(InsertSelect(parents, kind), parents[k].id)
      == OptionToSeq(SelectRow(kind, parents[k].id, ColumnsOf(parents[k])))
    decreases |parents|
  {
    var id := parents[k].id;
    var head := OptionToSeq(SelectRow(kind, parents[0].id, ColumnsOf(parents[0])));
    RowsOfConcat(head, InsertSelect(parents[1..], kind), id);
    if k == 0 {
      RowsOfNone(parents[1..], kind, id);
    } else {
      InsertSelectOfParent(parents[1..], kind, k - 1);
    }
  }

  lemma {:induction false} RowsOfNone(parents: seq<ParentRow>, kind: LinkKind, id: int)
    requires forall j :: 0 <= j < |parents| ==> parents[j].id != id
    ensures RowsOf(InsertSelect(parents, kind), id) == []
    decreases |parents|
  {
    if parents != [] {
      var head := OptionToSeq(SelectRow(kind, parents[0].id, ColumnsOf(parents[0])));
      RowsOfConcat(head, InsertSelect(parents[1..], kind), id);
      RowsOfNone(parents[1..], kind, id);
    }
  }

  /**
   * With unique parent ids, the rows the migration writes for a parent are
   * exactly that parent's ordered link rows.
   */
  lemma MigrateLinksOfParent(parents: seq<ParentRow>, k: nat)
    requires k < |parents| && UniqueIds(parents)
    ensures RowsOf(MigrateLinks(parents), parents[k].id) == LinksOf(parents[k].id, ColumnsOf(parents[k]))
  {
    var id := parents[k].id;
    RowsOfConcat(InsertSelect(parents, Website) + InsertSelect(parents, CaseStudy), InsertSelect(parents, Repository), id);
    RowsOfConcat(InsertSelect(parents, Website), InsertSelect(parents, CaseStudy), id);
    InsertSelectOfParent(parents, Website, k);
    InsertSelectOfParent(parents, CaseStudy, k);
    InsertSelectOfParent(parents, Repository, k);
  }

  /** Every migrated row belongs to some parent and carries a present url. */
  lemma {:induction false} InsertSelectRows(parents: seq<ParentRow>, kind: LinkKind)
    ensures forall x :: x in InsertSelect(parents, kind) ==>
      x.url != "" && x.title == Label(kind) && exists p :: p in parents && x.parentId == p.id
    decreases |parents|
  {
    if parents != [] {
      InsertSelectRows(parents[1..], kind);
      forall x | x in InsertSelect(parents, kind)
        ensures x.url != "" && x.title == Label(kind) && exists p :: p in parents && x.parentId == p.id
      {
        var head := OptionToSeq(SelectRow(kind, parents[0].id, ColumnsOf(parents[0])));
        if x in head {
          assert parents[0] in parents;
        } else {
          assert x in InsertSelect(parents[1..], kind);
          var p :| p in parents[1..] && x.parentId == p.id;
          assert p in parents;
        }
      }
    }
  }

  /** Step 3 of `up`: drop the three link columns. */
  function DropColumns(parents: seq<ParentRow>): seq<ParentRow> {
    seq(|parents|, k requires 0 <= k < |parents| => ParentRow(parents[k].id, None))
  }

  /** `down`: re-add the three columns, empty. */
  function AddEmptyColumns(parents: seq<ParentRow>): seq<ParentRow> {
    seq(|parents|, k requires 0 <= k < |parents| => ParentRow(parents[k].id, Some(NoLinks)))
  }

  /**
   * `up` followed by `down` restores a table exactly when every link column
   * was NULL to begin with: any stored link is lost.
   */
  lemma UpDownLosesLinks(parents: seq<ParentRow>)
    ensures AddEmptyColumns(DropColumns(parents)) == parents <==>
      forall k :: 0 <= k < |parents| ==> parents[k].links == Some(NoLinks)
  {
    var r := AddEmptyColumns(DropColumns(parents));
    if forall k :: 0 <= k < |parents| ==> parents[k].links == Some(NoLinks) {
      assert forall k :: 0 <= k < |parents| ==> r[k] == parents[k];
    }
  }

  /** Before `up`: every parent row has its link columns. */
  predicate HasColumns(parents: seq<ParentRow>) {
    forall k :: 0 <= k < |parents| ==> parents[k].links.Some?
  }

  /** After `up`: no parent row has link columns any more. */
  predicate NoColumns(parents: seq<ParentRow>) {
    forall k :: 0 <= k < |parents| ==> parents[k].links.None?
  }

  /** A new link table filled by the three INSERT ... SELECT statements, in order. */
  method FillLinkTable(parents: seq<ParentRow>) returns (rows: seq<LinkRow>)
    ensures rows == MigrateLinks(parents)
  {
    rows := [];
    rows := rows + InsertSelect(parents, Website);
    rows := rows + InsertSelect(parents, CaseStudy);
    rows := rows + InsertSelect(parents, Repository);
    assert rows == InsertSelect(parents, Website) + InsertSelect(parents, CaseStudy) + InsertSelect(parents, Repository);
  }

  /** The two parent tables and their link tables; a link table is `None` while it does not exist. */
  class Database {
    var projects: seq<ParentRow>
    var projectsLinks: Option<seq<LinkRow>>
    var versions: seq<ParentRow>
    var versionLinks: Option<seq<LinkRow>>

    /** The schema before `up`: link columns on both parent tables, no link tables. */
    predicate BeforeUp()
      reads this
    {
      HasColumns(projects) && HasColumns(versions) && projectsLinks.None? && versionLinks.None?
    }

    /** The schema after `up`: both link tables exist and the link columns are gone. */
    predicate AfterUp()
      reads this
    {
      NoColumns(projects) && NoColumns(versions) && projectsLinks.Some? && versionLinks.Some?
    }

    constructor (projects: seq<ParentRow>, versions: seq<ParentRow>)
      requires HasColumns(projects) && HasColumns(versions)
      ensures BeforeUp()
      ensures this.projects == projects && this.versions == versions
    {
      this.projects := projects;
      this.versions := versions;
      projectsLinks := None;
      versionLinks := None;
    }

    /**
     * `up`: create the link tables, fill them from the columns by the same
     * rule for both tables, then drop the columns.
     */
    method Up()
      requires BeforeUp()
      modifies this
      ensures projectsLinks == Some(MigrateLinks(old(projects)))
      ensures versionLinks == Some(MigrateLinks(old(versions)))
      ensures projects == DropColumns(old(projects)) && versions == DropColumns(old(versions))
      ensures AfterUp()
    {
      // Steps 1 and 2: create each link table and fill it.
      var rows := FillLinkTable(projects);
      var versionRows := FillLinkTable(versions);
      projectsLinks := Some(rows);
      versionLinks := Some(versionRows);
      // Step 3: drop the old columns.
      projects := DropColumns(projects);
      versions := DropColumns(versions);
    }

    /** `down`: drop the link tables and re-add the columns with no data. */
    method Down()
      requires AfterUp()
      modifies this
      ensures projectsLinks.None? && versionLinks.None?
      ensures projects == AddEmptyColumns(old(projects)) && versions == AddEmptyColumns(old(versions))
      ensures BeforeUp()
    {
      projectsLinks := None;
      versionLinks := None;
      projects := AddEmptyColumns(projects);
      versions := AddEmptyColumns(versions);
    }
  }
}
