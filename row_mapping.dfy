/** How the generated DAO moves entities in and out of SQLite: binding an
    entity's fields to the `?` parameters of an INSERT, and reading cursor rows
    back into entities. */
module RowMapping {
  import opened Wrappers
  import opened Entities

  /** A value in a SQLite column. */
  datatype SqlValue = SqlText(text: string) | SqlInteger(n: int) | SqlNull

  /** One row, its columns in the table's declared order. */
  type Row = seq<SqlValue>

  function BindText(s: Option<string>): SqlValue {
    if s.Some? then SqlText(s.value) else SqlNull
  }

  function BindFlag(b: bool): SqlValue {
    SqlInteger(if b then 1 else 0)
  }

  /** The insertion adapter's `bind`: link, title, description, pubDate,
      sourceUrl, imageUrl, isRead, isSaved; a null string binds NULL and a
      flag binds 1 or 0. */
  function BindArticle(a: Article): (row: Row)
    ensures |row| == 8
    ensures row[0] == SqlText(a.link) && row[1] == SqlText(a.title) && row[4] == SqlText(a.sourceUrl)
    ensures row[3] == SqlInteger(a.pubDate)
    ensures (row[2] == SqlNull <==> a.description.None?) && (row[5] == SqlNull <==> a.imageUrl.None?)
    ensures row[6] == SqlInteger(if a.isRead then 1 else 0) && row[7] == SqlInteger(if a.isSaved then 1 else 0)
  {
    [SqlText(a.link), SqlText(a.title), BindText(a.description), SqlInteger(a.pubDate),
     SqlText(a.sourceUrl), BindText(a.imageUrl), BindFlag(a.isRead), BindFlag(a.isSaved)]
  }

  /** The column types the `articles` table declares: NOT NULL text and
      integer columns, and nullable `description` and `imageUrl`. */
  predicate ArticleRow(row: Row) {
    |row| == 8
    && row[0].SqlText? && row[1].SqlText? && !row[2].SqlInteger? && row[3].SqlInteger?
    && row[4].SqlText? && !row[5].SqlInteger? && row[6].SqlInteger? && row[7].SqlInteger?
  }

  function ReadText(v: SqlValue): Option<string> {
    if v.SqlNull? then None else if v.SqlText? then Some(v.text) else None
  }

  /** One cursor row as an entity: `isNull` gives null, a flag is
      `getInt(...) != 0`. */
  function ReadArticle(row: Row): (a: Article)
    requires ArticleRow(row)
    ensures a.isRead <==> row[6].n != 0
    ensures a.isSaved <==> row[7].n != 0
    ensures a.description.None? <==> row[2].SqlNull?
    ensures a.imageUrl.None? <==> row[5].SqlNull?
  {
    Article(row[0].text, row[1].text, ReadText(row[2]), row[3].n, row[4].text, ReadText(row[5]),
            row[6].n != 0, row[7].n != 0)
  }

  /** What is bound is what is read back. */
  lemma ArticleRoundTrip(a: Article)
    ensures ArticleRow(BindArticle(a)) && ReadArticle(BindArticle(a)) == a
  {
  }

  /** Reading and binding again gives the row back once its flags are 0 or 1:
      any other stored flag value reads as `true` and binds back as 1. */
  lemma ArticleRowRoundTrip(row: Row)
    requires ArticleRow(row)
    ensures BindArticle(ReadArticle(row)) == row <==> (row[6].n == 0 || row[6].n == 1) && (row[7].n == 0 || row[7].n == 1)
  {
    var r' := BindArticle(ReadArticle(row));
    if (row[6].n == 0 || row[6].n == 1) && (row[7].n == 0 || row[7].n == 1) {
      assert forall i :: 0 <= i < 8 ==> r'[i] == row[i];
    } else {
      assert r'[6] != row[6] || r'[7] != row[7];
    }
  }

  /** The `sources` adapter of the older schema binds url, title and iconUrl;
      the folder is not among its columns. */
  function BindSource(s: Source): (row: Row)
    ensures |row| == 3 && row[0] == SqlText(s.url) && row[1] == SqlText(s.title)
    ensures row[2] == SqlNull <==> s.iconUrl.None?
  {
    [SqlText(s.url), SqlText(s.title), BindText(s.iconUrl)]
  }

  predicate SourceRow(row: Row) {
    |row| == 3 && row[0].SqlText? && row[1].SqlText? && !row[2].SqlInteger?
  }

  function ReadSource(row: Row): (s: Source)
    requires SourceRow(row)
    ensures s.folderName.None? && (s.iconUrl.None? <==> row[2].SqlNull?)
  {
    NewSource(row[0].text, row[1].text, ReadText(row[2]))
  }

  /** A source without a folder survives the trip; a folder is dropped. */
  lemma SourceRoundTrip(s: Source)
    ensures SourceRow(BindSource(s))
    ensures ReadSource(BindSource(s)) == s <==> s.folderName.None?
  {
  }

  /** The `while (cursor.moveToNext())` loop: one entity per row, in order. */
  method ReadArticles(cursor: seq<Row>) returns (result: seq<Article>)
    requires forall i :: 0 <= i < |cursor| ==> ArticleRow(cursor[i])
    ensures |result| == |cursor|
    ensures forall i :: 0 <= i < |cursor| ==> result[i] == ReadArticle(cursor[i])
  {
    result := [];
    var i := 0;
    while i < |cursor|
      invariant 0 <= i <= |cursor| && |result| == i
      invariant forall j :: 0 <= j < i ==> result[j] == ReadArticle(cursor[j])
    {
      result := result + [ReadArticle(cursor[i])];
      i := i + 1;
    }
  }

  /** The same loop over `sources` rows. */
  method ReadSources(cursor: seq<Row>) returns (result: seq<Source>)
    requires forall i :: 0 <= i < |cursor| ==> SourceRow(cursor[i])
    ensures |result| == |cursor|
    ensures forall i :: 0 <= i < |cursor| ==> result[i] == ReadSource(cursor[i])
  {
    result := [];
    var i := 0;
    while i < |cursor|
      invariant 0 <= i <= |cursor| && |result| == i
      invariant forall j :: 0 <= j < i ==> result[j] == ReadSource(cursor[j])
    {
      result := result + [ReadSource(cursor[i])];
      i := i + 1;
    }
  }

  /** A query result read through the cursor is the list of stored articles. */
  lemma ReadBoundArticles(arts: seq<Article>, cursor: seq<Row>, result: seq<Article>)
    requires |cursor| == |arts| && forall i :: 0 <= i < |arts| ==> cursor[i] == BindArticle(arts[i])
    requires |result| == |cursor| && forall i :: 0 <= i < |cursor| ==> ArticleRow(cursor[i]) && result[i] == ReadArticle(cursor[i])
    ensures result == arts
  {
    forall i | 0 <= i < |arts| ensures result[i] == arts[i] {
      ArticleRoundTrip(arts[i]);
    }
  }
}
