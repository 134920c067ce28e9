/**
 * The `make_rss` plugin (flexget/plugins/output_rss.py): at feed exit it stores
 * one record per accepted entry in the `make_rss` table; at process end it
 * reads the records of its file newest first, keeps those within the item and
 * age limits for the generated feed, deletes the others, and remembers the
 * files it has written.
 *
 * The table is the `rssRows` sequence of the session; the XML generation and
 * the file write are left out, the write's success being a parameter.
 */
module OutputRss {
  import opened Wrappers
  import opened Engine

  /** A day, in the integer seconds times are modelled in. */
  const Day := 86400

  /** The `make_rss` value of a feed's configuration: a bare file name, or a dictionary. */
  datatype RssConfig =
    | FileOnly(path: string)
    | Settings(file: string, days: Option<int>, items: Option<int>, link: Option<seq<string>>)

  /** The feed's configuration dictionary, which `get_config` updates in place. */
  class FeedConfig {
    var makeRss: RssConfig

    constructor (makeRss: RssConfig)
      ensures this.makeRss == makeRss
    {
      this.makeRss := makeRss;
    }
  }

  /** The configuration `get_config` returns. */
  datatype RssSettings = RssSettings(file: string, days: int, items: int, link: seq<string>)

  const DefaultDays := 7
  const DefaultItems := -1
  const DefaultLink: seq<string> := ["imdb_url", "input_url"]

  /** `get_config`'s result: defaults filled in, and `url` appended to the link list. */
  function Normalised(c: RssConfig): (r: RssSettings)
    ensures r.link != [] && r.link[|r.link| - 1] == "url"
    ensures c.FileOnly? ==> r == RssSettings(c.path, DefaultDays, DefaultItems, DefaultLink + ["url"])
  {
    match c
    case FileOnly(path) => RssSettings(path, DefaultDays, DefaultItems, DefaultLink + ["url"])
    case Settings(file, days, items, link) =>
      RssSettings(
        file,
        if days.Some? then days.value else DefaultDays,
        if items.Some? then items.value else DefaultItems,
        (if link.Some? then link.value else DefaultLink) + ["url"])
  }

  /**
   * The configuration stored after `get_config`: a dictionary is completed in
   * place, its link list included, while a bare file name is wrapped in a new
   * dictionary that is not stored.
   */
  function Stored(c: RssConfig): RssConfig {
    match c
    case FileOnly(_) => c
    case Settings(file, _, _, _) =>
      var n := Normalised(c);
      Settings(file, Some(n.days), Some(n.items), Some(n.link))
  }

  /** `get_config` returns the given values where present; a second call sees them stored. */
  lemma {:induction false} NormalisedKeepsGivenValues(c: RssConfig)
    requires c.Settings?
    ensures var r := Normalised(c);
      && r.file == c.file
      && (c.days.Some? ==> r.days == c.days.value) && (c.days.None? ==> r.days == DefaultDays)
      && (c.items.Some? ==> r.items == c.items.value) && (c.items.None? ==> r.items == DefaultItems)
      && (c.link.Some? ==> r.link == c.link.value + ["url"]) && (c.link.None? ==> r.link == DefaultLink + ["url"])
  {
  }

  /**
   * Every call appends another `url` to a dictionary's link list; a bare file
   * name gives the same result on every call.
   */
  lemma RepeatedCallsAppendUrl(c: RssConfig)
    ensures c.Settings? ==> Normalised(Stored(c)) == Normalised(c).(link := Normalised(c).link + ["url"])
    ensures c.FileOnly? ==> Normalised(Stored(c)) == Normalised(c)
  {
  }

  /** `links[k]` is the first name in `links` that `fields` holds. */
  predicate FirstLinkAt(fields: Fields, links: seq<string>, k: int) {
    0 <= k < |links| && links[k] in fields && forall j :: 0 <= j < k ==> links[j] !in fields
  }

  /**
   * The link of a record: the value of the first field of `links`, in order,
   * that the entry has; `None` when it has none of them.
   */
  function LinkFor(fields: Fields, links: seq<string>): (r: Option<Value>)
    ensures r.None? <==> forall k :: 0 <= k < |links| ==> links[k] !in fields
    ensures r.Some? ==> exists k :: FirstLinkAt(fields, links, k) && r.value == fields[links[k]]
  {
    if links == [] then None
    else if links[0] in fields then Some(fields[links[0]])
    else
      var r := LinkFor(fields, links[1..]);
      assert forall k :: 1 <= k < |links| ==> links[k] == links[1..][k - 1];
      if r.Some? then
        var k :| FirstLinkAt(fields, links[1..], k) && r.value == fields[links[1..][k]];
        assert FirstLinkAt(fields, links, k + 1);
        r
      else r
  }

  /**
   * An extra name at the end of the list changes no link when the list already
   * holds it or the entry lacks it; so the `url` each call appends is harmless
   * once one is there.
   */
  lemma {:induction false} ExtraNameIsHarmless(fields: Fields, links: seq<string>, n: string)
    requires n in links || n !in fields
    ensures LinkFor(fields, links + [n]) == LinkFor(fields, links)
  {
    if links != [] && links[0] !in fields {
      assert (links + [n])[1..] == links[1..] + [n];
      ExtraNameIsHarmless(fields, links[1..], n);
    }
  }

  /** The description of a record: `description`, or else `imdb_plot_outline`, or else `None`. */
  function DescriptionFor(fields: Fields): (r: Value)
    ensures "description" in fields ==> r == fields["description"]
    ensures "description" !in fields ==> r == Get(fields, "imdb_plot_outline")
  {
    if "description" in fields then fields["description"] else Get(fields, "imdb_plot_outline")
  }

  /** The record `feed_exit` stores for one accepted entry. */
  function RecordFor(fields: Fields, c: RssSettings, id: int, published: int): RssRow
    requires "title" in fields
  {
    var link := LinkFor(fields, c.link);
    RssRow(id, fields["title"], DescriptionFor(fields), if link.Some? then link.value else Null, c.file, published)
  }

  /** The records for a list of accepted entries, with consecutive ids from `firstId`. */
  function Records(fs: seq<Fields>, c: RssSettings, firstId: int, published: int): (r: seq<RssRow>)
    requires forall k :: 0 <= k < |fs| ==> "title" in fs[k]
    ensures |r| == |fs|
    ensures forall k :: 0 <= k < |fs| ==> r[k] == RecordFor(fs[k], c, firstId + k, published)
  {
    if fs == [] then []
    else
      var n := |fs| - 1;
      Records(fs[..n], c, firstId, published) + [RecordFor(fs[n], c, firstId + n, published)]
  }

  /** `Records` over one more entry. */
  lemma RecordsSnoc(fs: seq<Fields>, k: nat, c: RssSettings, firstId: int, published: int)
    requires k < |fs| && forall j :: 0 <= j < |fs| ==> "title" in fs[j]
    ensures Records(fs[..k + 1], c, firstId, published) == Records(fs[..k], c, firstId, published) + [RecordFor(fs[k], c, firstId + k, published)]
  {
    assert fs[..k + 1][..k] == fs[..k];
  }

  // ---------------------------------------------------------------------------
  // The query: the file's records, newest first
  // ---------------------------------------------------------------------------

  /** The records of one file, in table order. */
  function FileRows(rows: seq<RssRow>, file: string): (r: seq<RssRow>)
    ensures forall k :: 0 <= k < |r| ==> r[k].file == file
    ensures forall row :: row in r <==> row in rows && row.file == file
    ensures multiset(r) <= multiset(rows)
  {
    if rows == [] then []
    else
      var n := |rows| - 1;
      var r := FileRows(rows[..n], file);
      assert rows == rows[..n] + [rows[n]];
      if rows[n].file == file then r + [rows[n]] else r
  }

  predicate NewestFirst(rows: seq<RssRow>) {
    forall i, j :: 0 <= i < j < |rows| ==> rows[i].published >= rows[j].published
  }

  /** `row` inserted into a newest-first list before the first record older than it. */
  function Insert(row: RssRow, rows: seq<RssRow>): seq<RssRow> {
    if rows == [] || rows[0].published <= row.published then [row] + rows
    else [rows[0]] + Insert(row, rows[1..])
  }

  /** Inserting adds exactly `row`. */
  lemma {:induction false} InsertAddsRow(row: RssRow, rows: seq<RssRow>)
    ensures multiset(Insert(row, rows)) == multiset(rows) + multiset{row}
  {
    if rows != [] && rows[0].published > row.published {
      InsertAddsRow(row, rows[1..]);
      assert rows == [rows[0]] + rows[1..];
    }
  }

  /** Inserting into rows that are newest first keeps them so. */
  lemma {:induction false} InsertKeepsOrder(row: RssRow, rows: seq<RssRow>)
    requires NewestFirst(rows)
    ensures NewestFirst(Insert(row, rows))
  {
    if rows != [] && rows[0].published > row.published {
      var rest := Insert(row, rows[1..]);
      InsertKeepsOrder(row, rows[1..]);
      InsertAddsRow(row, rows[1..]);
      forall x | x in rest
        ensures x.published <= rows[0].published
      {
        assert x in multiset(rest);
        if x != row {
          assert x in multiset(rows[1..]);
        }
      }
      HeadBeforeOrdered(rows[0], rest);
    }
  }

  lemma HeadBeforeOrdered(head: RssRow, rest: seq<RssRow>)
    requires NewestFirst(rest)
    requires forall x :: x in rest ==> x.published <= head.published
    ensures NewestFirst([head] + rest)
  {
    var r := [head] + rest;
    forall i, j | 0 <= i < j < |r|
      ensures r[i].published >= r[j].published
    {
      assert r[j] == rest[j - 1];
      if i > 0 {
        assert r[i] == rest[i - 1];
      }
    }
  }

  function SortNewestFirst(rows: seq<RssRow>): (r: seq<RssRow>)
    ensures NewestFirst(r)
    ensures multiset(r) == multiset(rows)
  {
    if rows == [] then []
    else
      assert rows == [rows[0]] + rows[1..];
      InsertKeepsOrder(rows[0], SortNewestFirst(rows[1..]));
      InsertAddsRow(rows[0], SortNewestFirst(rows[1..]));
      Insert(rows[0], SortNewestFirst(rows[1..]))
  }

  // ---------------------------------------------------------------------------
  // Retention
  // ---------------------------------------------------------------------------

  /**
   * Whether the retention loop keeps a record when `count` records have been
   * kept before it: within the item limit (checked as `count > items` meaning
   * full) and not older than `days` days before `today`; -1 disables either limit.
   */
  predicate Keep(count: int, row: RssRow, items: int, days: int, today: int) {
    && (items == -1 || count <= items)
    && (days == -1 || !(today - days * Day > row.published))
  }

  /** The records the loop keeps for the feed, and the ones it deletes. */
  datatype Retention = Retention(kept: seq<RssRow>, deleted: seq<RssRow>)

  function Retain(rows: seq<RssRow>, items: int, days: int, today: int): (r: Retention)
    ensures |r.kept| + |r.deleted| == |rows|
  {
    if rows == [] then Retention([], [])
    else
      var n := |rows| - 1;
      var r := Retain(rows[..n], items, days, today);
      if Keep(|r.kept|, rows[n], items, days, today) then Retention(r.kept + [rows[n]], r.deleted)
      else Retention(r.kept, r.deleted + [rows[n]])
  }

  /**
   * The loop of `on_process_end` over the stored records, newest first: a
   * record is kept while the feed holds no more than `items` records (unless
   * `items` is -1) and it is no older than `days` days (unless `days` is -1).
   */
  method RetainLoop(dbItems: seq<RssRow>, items: int, days: int, today: int) returns (rssItems: seq<RssRow>, deleted: seq<RssRow>)
    ensures Retention(rssItems, deleted) == Retain(dbItems, items, days, today)
  {
    rssItems, deleted := [], [];
    var i := 0;
    while i < |dbItems|
      invariant 0 <= i <= |dbItems|
      invariant Retain(dbItems[..i], items, days, today) == Retention(rssItems, deleted)
    {
      assert dbItems[..i + 1][..i] == dbItems[..i];
      var dbItem := dbItems[i];
      var add := true;
      if items != -1 {
        if |rssItems| > items {
          add := false;
        }
      }
      if days != -1 {
        if today - days * Day > dbItem.published {
          add := false;
        }
      }
      if add {
        rssItems := rssItems + [dbItem];
      } else {
        deleted := deleted + [dbItem];
      }
      i := i + 1;
    }
    assert dbItems[..i] == dbItems;
  }

  /** Every record is either kept or deleted, never both. */
  lemma {:induction false} RetainPartitions(rows: seq<RssRow>, items: int, days: int, today: int)
    ensures var r := Retain(rows, items, days, today);
      multiset(r.kept) + multiset(r.deleted) == multiset(rows)
  {
    if rows != [] {
      var n := |rows| - 1;
      RetainPartitions(rows[..n], items, days, today);
      assert rows == rows[..n] + [rows[n]];
    }
  }

  /** No record in `rows` was published before `limit`. */
  predicate NoneOlderThan(rows: seq<RssRow>, limit: int) {
    forall k :: 0 <= k < |rows| ==> limit <= rows[k].published
  }

  /**
   * With an item limit, at most `items + 1` records are kept (the check is
   * `len(rss_items) > items`); with a day limit, no kept record is older.
   */
  lemma {:induction false} RetainBounds(rows: seq<RssRow>, items: int, days: int, today: int)
    ensures var r := Retain(rows, items, days, today);
      && (items >= 0 ==> |r.kept| <= items + 1)
      && (items < -1 ==> r.kept == [])
      && (days != -1 ==> NoneOlderThan(r.kept, today - days * Day))
  {
    if rows != [] {
      var n := |rows| - 1;
      RetainBounds(rows[..n], items, days, today);
      var r0 := Retain(rows[..n], items, days, today);
      if !Keep(|r0.kept|, rows[n], items, days, today) {
        assert Retain(rows, items, days, today).kept == r0.kept;
      } else {
        var kept := r0.kept + [rows[n]];
        assert Retain(rows, items, days, today).kept == kept;
        if days != -1 {
          forall k | 0 <= k < |kept|
            ensures today - days * Day <= kept[k].published
          {
            if k < |r0.kept| {
              assert kept[k] == r0.kept[k];
            }
          }
        }
      }
    }
  }

  /**
   * Read newest first, the kept records are a prefix and the deleted ones the
   * rest: once a record is dropped every older one is dropped too.
   */
  lemma {:induction false} RetainKeepsPrefix(rows: seq<RssRow>, items: int, days: int, today: int)
    requires NewestFirst(rows)
    ensures var r := Retain(rows, items, days, today);
      r.kept == rows[..|r.kept|] && r.deleted == rows[|r.kept|..]
  {
    RetainPrefixInvariant(rows, items, days, today);
  }

  lemma {:induction false} RetainPrefixInvariant(rows: seq<RssRow>, items: int, days: int, today: int)
    requires NewestFirst(rows)
    ensures var r := Retain(rows, items, days, today);
      && r.kept == rows[..|r.kept|] && r.deleted == rows[|r.kept|..]
      && (r.deleted != [] ==> forall row: RssRow :: row.published <= r.deleted[0].published ==> !Keep(|r.kept|, row, items, days, today))
  {
    if rows != [] {
      var n := |rows| - 1;
      var init := rows[..n];
      assert NewestFirst(init);
      RetainPrefixInvariant(init, items, days, today);
      var r0 := Retain(init, items, days, today);
      var last := rows[n];
      if r0.deleted != [] {
        assert r0.deleted[0] == rows[|r0.kept|];
        assert last.published <= r0.deleted[0].published;
        assert (r0.deleted + [last])[0] == r0.deleted[0];
        assert rows[|r0.kept|..] == init[|r0.kept|..] + [last];
      } else {
        assert |r0.kept| == n;
        if !Keep(|r0.kept|, last, items, days, today) {
          assert rows[n..] == [last];
          forall row: RssRow | row.published <= last.published
            ensures !Keep(n, row, items, days, today)
          {
          }
        } else {
          assert rows[..n + 1] == rows;
        }
      }
    }
  }

  /** The table without the deleted records. */
  function Without(rows: seq<RssRow>, deleted: seq<RssRow>): (r: seq<RssRow>)
    ensures forall row :: row in r <==> row in rows && row !in deleted
    ensures |r| <= |rows|
  {
    if rows == [] then []
    else
      var n := |rows| - 1;
      var r := Without(rows[..n], deleted);
      assert rows == rows[..n] + [rows[n]];
      if rows[n] in deleted then r else r + [rows[n]]
  }

  /**
   * Retention only ever deletes records of the file being written, whatever
   * arrangement of that file's records the query returns.
   */
  lemma OtherFilesUntouched(rows: seq<RssRow>, file: string, q: seq<RssRow>, items: int, days: int, today: int, row: RssRow)
    requires multiset(q) == multiset(FileRows(rows, file))
    requires row in rows && row.file != file
    ensures row in Without(rows, Retain(q, items, days, today).deleted)
  {
    var r := Retain(q, items, days, today);
    RetainPartitions(q, items, days, today);
    assert row !in FileRows(rows, file);
    assert multiset(q)[row] == 0;
    assert multiset(r.deleted)[row] == 0;
  }

  // ---------------------------------------------------------------------------
  // The plugin
  // ---------------------------------------------------------------------------

  class OutputRSS {
    /** `self.written`: the files written during this run. */
    var written: set<string>

    constructor ()
      ensures written == {}
    {
      written := {};
    }

    /** `get_config`. */
    method GetConfig(fc: FeedConfig) returns (c: RssSettings)
      modifies fc
      ensures c == Normalised(old(fc.makeRss))
      ensures fc.makeRss == Stored(old(fc.makeRss))
    {
      match fc.makeRss {
        case FileOnly(path) =>
          c := RssSettings(path, DefaultDays, DefaultItems, DefaultLink + ["url"]);
        case Settings(file, days, items, link) =>
          var d := if days.Some? then days.value else DefaultDays;
          var n := if items.Some? then items.value else DefaultItems;
          var l := if link.Some? then link.value else DefaultLink;
          l := l + ["url"];
          fc.makeRss := Settings(file, Some(d), Some(n), Some(l));
          c := RssSettings(file, d, n, l);
      }
    }

    /**
     * `feed_exit`: without PyRSS2Gen it raises a plugin warning; otherwise one
     * record per accepted entry is added to the session, in order, each given
     * the next primary key and the publication time the column default was
     * computed with when the module was loaded.
     */
    method FeedExit(task: Task, fc: FeedConfig, rss2gen: bool, importTime: int) returns (err: Option<PyError>)
      requires forall e :: e in task.allEntries ==> "title" in e.fields
      modifies fc, task.session
      ensures task.session.shows == old(task.session.shows)
      ensures !rss2gen ==>
        && err == Some(PluginWarning(MissingLibrary)) && fc.makeRss == old(fc.makeRss)
        && task.session.rssRows == old(task.session.rssRows) && task.session.nextId == old(task.session.nextId)
      ensures rss2gen ==> err == None && fc.makeRss == Stored(old(fc.makeRss))
      ensures rss2gen ==>
        var fs := old(FieldsOf(AcceptedOf(task.allEntries)));
        && task.session.rssRows == old(task.session.rssRows) + Records(fs, Normalised(old(fc.makeRss)), old(task.session.nextId), importTime)
        && task.session.nextId == old(task.session.nextId) + |fs|
    {
      if !rss2gen {
        return Some(PluginWarning(MissingLibrary));
      }
      var accepted := AcceptedOf(task.allEntries);
      ghost var fs := FieldsOf(accepted);
      assert forall k :: 0 <= k < |fs| ==> "title" in fs[k] by {
        forall k | 0 <= k < |fs|
          ensures "title" in fs[k]
        {
          assert accepted[k] in task.allEntries;
        }
      }
      var c := GetConfig(fc);
      AddRecords(task.session, accepted, c, importTime, fs);
      return None;
    }

    /** The loop over `feed.accepted`. */
    method AddRecords(session: Session, accepted: seq<Entry>, c: RssSettings, importTime: int, ghost fs: seq<Fields>)
      requires fs == FieldsOf(accepted) && forall k :: 0 <= k < |fs| ==> "title" in fs[k]
      modifies session
      ensures session.rssRows == old(session.rssRows) + Records(fs, c, old(session.nextId), importTime)
      ensures session.nextId == old(session.nextId) + |fs|
      ensures session.shows == old(session.shows)
    {
      ghost var id0 := session.nextId;
      ghost var rows0 := session.rssRows;
      var k := 0;
      while k < |accepted|
        invariant 0 <= k <= |accepted| && FieldsOf(accepted) == fs
        invariant session.rssRows == rows0 + Records(fs[..k], c, id0, importTime)
        invariant session.nextId == id0 + k
        invariant session.shows == old(session.shows)
      {
        RecordsSnoc(fs, k, c, id0, importTime);
        ghost var done := Records(fs[..k], c, id0, importTime);
        ghost var row := RecordFor(fs[k], c, id0 + k, importTime);
        assert accepted[k].fields == fs[k];
        AddRecord(session, accepted[k], c, importTime);
        assert session.rssRows == (rows0 + done) + [row] == rows0 + (done + [row]);
        k := k + 1;
      }
      assert fs[..k] == fs;
    }

    /** The body of the loop over `feed.accepted`: one record, under the next primary key. */
    method AddRecord(session: Session, entry: Entry, c: RssSettings, importTime: int)
      requires "title" in entry.fields
      modifies session
      ensures session.rssRows == old(session.rssRows) + [RecordFor(entry.fields, c, old(session.nextId), importTime)]
      ensures session.nextId == old(session.nextId) + 1
      ensures session.shows == old(session.shows)
    {
      var link := LinkFor(entry.fields, c.link);
      var row := RssRow(session.nextId, entry.fields["title"], DescriptionFor(entry.fields),
                        if link.Some? then link.value else Null, c.file, importTime);
      session.rssRows := session.rssRows + [row];
      session.nextId := session.nextId + 1;
    }

    /**
     * `process_end`: nothing happens without PyRSS2Gen or when learning; a file
     * already written is skipped (after `get_config` has run). Otherwise the
     * file's records are read newest first, as the database returns them
     * (`answer`: records published at the same time come in an order the query
     * leaves open), the retained ones make up the feed,
     * the others are deleted, and the file is remembered only when the write
     * succeeds (`writeOk` is false when opening or writing the file raises IOError).
     */
    method ProcessEnd(fc: FeedConfig, session: Session, learn: bool, rss2gen: bool, today: int, writeOk: bool,
                      answer: seq<RssRow>)
      returns (feed: seq<RssRow>)
      requires NewestFirst(answer)
      requires multiset(answer) == multiset(FileRows(session.rssRows, Normalised(fc.makeRss).file))
      modifies this, fc, session
      ensures session.nextId == old(session.nextId) && session.shows == old(session.shows)
      ensures !rss2gen || learn ==>
        feed == [] && written == old(written) && fc.makeRss == old(fc.makeRss) && session.rssRows == old(session.rssRows)
      ensures rss2gen && !learn ==> fc.makeRss == Stored(old(fc.makeRss))
      ensures rss2gen && !learn && Normalised(old(fc.makeRss)).file in old(written) ==>
        feed == [] && written == old(written) && session.rssRows == old(session.rssRows)
      ensures rss2gen && !learn && Normalised(old(fc.makeRss)).file !in old(written) ==>
        var c := Normalised(old(fc.makeRss));
        var r := Retain(answer, c.items, c.days, today);
        && feed == r.kept
        && session.rssRows == Without(old(session.rssRows), r.deleted)
        && written == if writeOk then old(written) + {c.file} else old(written)
    {
      if !rss2gen || learn {
        return [];
      }
      var c := GetConfig(fc);
      if c.file in written {
        return [];
      }
      var rssItems, deleted := RetainLoop(answer, c.items, c.days, today);
      session.rssRows := Without(session.rssRows, deleted);
      feed := rssItems;
      if !writeOk {
        return;
      }
      written := written + {c.file};
    }
  }

  const MissingLibrary := "plugin make_rss requires PyRSS2Gen library."
}
