/**
 * The `pogcal_acquired` plugin (flexget/plugins/services/pogcal_acquired.py):
 * at task exit it logs in to the pogdesign calendar and marks each accepted
 * episode as watched. Show ids are cached in the `pogcal_shows` table under the
 * lower-cased show name; a miss looks the show up on the calendar's show list
 * with a regular expression built from the name.
 *
 * The web requests are parameters: the login page's text (or `None` when the
 * request raises), whether the show list can be fetched, the id the show list
 * gives for a pattern, and the date. Marks are returned instead of posted.
 */
module PogcalAcquired {
  import opened Wrappers
  import opened Text
  import opened Engine

  // ---------------------------------------------------------------------------
  // show_re: the search pattern for a show name
  // ---------------------------------------------------------------------------

  /** The end of the run of regex whitespace (`\s`) that starts at `i`. */
  function SpaceRunEnd(s: string, i: nat): (j: nat)
    requires i <= |s|
    ensures i <= j <= |s|
    ensures forall k :: i <= k < j ==> IsReSpace(s[k])
    ensures j == |s| || !IsReSpace(s[j])
    decreases |s| - i
  {
    if i < |s| && IsReSpace(s[i]) then SpaceRunEnd(s, i + 1) else i
  }

  /** One match of `\s+\((.*)\)$`: the captured group and where the match ends. */
  datatype SuffixMatch = SuffixMatch(group: string, end: nat)

  /**
   * The match of `\s+\((.*)\)$` starting at `i`, if any. `\s+` takes the whole
   * whitespace run (no shorter run can be followed by `(`); `.*` does not cross
   * a newline; `$` matches at the end or just before a final newline, which the
   * match then leaves in place.
   */
  function MatchAt(s: string, i: nat): (r: Option<SuffixMatch>)
    requires i <= |s|
    ensures r.Some? ==> i < |s| && IsReSpace(s[i]) && r.value.end <= |s|
  {
    if i < |s| && IsReSpace(s[i]) then GroupAt(s, SpaceRunEnd(s, i)) else None
  }

  /** `\((.*)\)$` at `j`: the group runs to the last `)`, before the end or a final newline. */
  function GroupAt(s: string, j: nat): (r: Option<SuffixMatch>)
    requires j <= |s|
    ensures r.Some? ==> j < |s| && s[j] == '(' && r.value.end <= |s|
  {
    if j < |s| && s[j] == '(' then
      var rest := s[j + 1..];
      if |rest| >= 1 && rest[|rest| - 1] == ')' && '\n' !in rest[..|rest| - 1] then
        Some(SuffixMatch(rest[..|rest| - 1], |s|))
      else if |rest| >= 2 && rest[|rest| - 2] == ')' && rest[|rest| - 1] == '\n' && '\n' !in rest[..|rest| - 2] then
        Some(SuffixMatch(rest[..|rest| - 2], |s| - 1))
      else None
    else None
  }

  /** The leftmost position at or after `i` where the pattern matches. */
  function Leftmost(s: string, i: nat): (r: Option<nat>)
    requires i <= |s|
    ensures r.Some? ==> i <= r.value <= |s| && MatchAt(s, r.value).Some?
    decreases |s| - i
  {
    if MatchAt(s, i).Some? then Some(i)
    else if i == |s| then None
    else Leftmost(s, i + 1)
  }

  /** `re.search` finds no match only when there is none at or after `i`. */
  lemma {:induction false} LeftmostNone(s: string, i: nat)
    requires i <= |s|
    ensures Leftmost(s, i).None? <==> forall k :: i <= k <= |s| ==> MatchAt(s, k).None?
    decreases |s| - i
  {
    if MatchAt(s, i).None? && i < |s| {
      LeftmostNone(s, i + 1);
    }
  }

  /** The match `re.search` finds is the leftmost one. */
  lemma {:induction false} LeftmostFirst(s: string, i: nat)
    requires i <= |s|
    ensures Leftmost(s, i).Some? ==> forall k :: i <= k < Leftmost(s, i).value ==> MatchAt(s, k).None?
    decreases |s| - i
  {
    if MatchAt(s, i).None? && i < |s| {
      LeftmostFirst(s, i + 1);
    }
  }

  /** The replacement `( \(\1\))?`: `\(` and `\)` stay as written in the result. */
  function Replacement(group: string): string {
    "( \\(" + group + "\\))?"
  }

  /**
   * `re.sub(r'\s+\((.*)\)$', r'( \(\1\))?', name)`. A match reaches the end of
   * the name (or its final newline), so there is at most one substitution.
   */
  function SubstituteSuffix(s: string): string {
    match Leftmost(s, 0)
    case None => s
    case Some(k) =>
      var m := MatchAt(s, k).value;
      s[..k] + Replacement(m.group) + s[m.end..]
  }

  /** `show_re`: the suffix rewrite, then a leading `the` moved to the end as ` \[the\]`. */
  function ShowRe(name: string): string {
    var r := SubstituteSuffix(name);
    if StartsWith(r, "the") then Strip(r[3..]) + " \\[the\\]" else r
  }

  /** Two whitespace characters in a row start the same match. */
  lemma SpaceBeforeMatch(s: string, i: nat)
    requires i + 1 < |s| && IsReSpace(s[i]) && IsReSpace(s[i + 1])
    ensures MatchAt(s, i) == MatchAt(s, i + 1)
  {
    assert SpaceRunEnd(s, i) == SpaceRunEnd(s, i + 1);
  }

  /** The substitution starts where a whitespace run starts. */
  lemma LeftmostIsRunStart(s: string)
    requires Leftmost(s, 0).Some?
    ensures var k := Leftmost(s, 0).value;
      k == 0 || !IsReSpace(s[k - 1])
  {
    var k := Leftmost(s, 0).value;
    LeftmostFirst(s, 0);
    if k > 0 && IsReSpace(s[k - 1]) {
      SpaceBeforeMatch(s, k - 1);
    }
  }

  /**
   * The substitution keeps everything before the match and ends with the
   * rewritten group, followed by the final newline when the name has one.
   */
  lemma {:induction false} SubstitutionShape(s: string)
    requires Leftmost(s, 0).Some?
    ensures var k := Leftmost(s, 0).value;
      var m := MatchAt(s, k).value;
      && SubstituteSuffix(s) == s[..k] + Replacement(m.group) + s[m.end..]
      && (m.end == |s| || s[m.end..] == "\n")
  {
    var k := Leftmost(s, 0).value;
    var m := MatchAt(s, k).value;
    var j := SpaceRunEnd(s, k);
    var rest := s[j + 1..];
    if m.end != |s| {
      assert rest[|rest| - 2..] == ")\n";
      assert s[m.end..] == rest[|rest| - 1..];
    }
  }

  /** A name without `(` has no suffix to rewrite. */
  lemma {:induction false} NoParenthesisNoRewrite(s: string)
    requires '(' !in s
    ensures SubstituteSuffix(s) == s
  {
    LeftmostNone(s, 0);
    forall k | 0 <= k <= |s|
      ensures MatchAt(s, k).None?
    {
      if k < |s| && IsReSpace(s[k]) {
        var j := SpaceRunEnd(s, k);
        if j < |s| {
          assert s[j] in s;
        }
      }
    }
  }

  /** A name with neither feature is its own pattern. */
  lemma PlainNameIsItsOwnPattern(name: string)
    requires '(' !in name && !StartsWith(name, "the")
    ensures ShowRe(name) == name
  {
    NoParenthesisNoRewrite(name);
  }

  /** A name starting with `the` and without `(` loses the article, stripped, and gains ` \[the\]`. */
  lemma LeadingTheMovesToEnd(name: string)
    requires '(' !in name && StartsWith(name, "the")
    ensures ShowRe(name) == Strip(name[3..]) + " \\[the\\]"
  {
    NoParenthesisNoRewrite(name);
  }

  // ---------------------------------------------------------------------------
  // find_show_id: the cache in `pogcal_shows`
  // ---------------------------------------------------------------------------

  /** `query(PogcalShow).filter(name == key).first()`: the id of the first row named `key`. */
  function CachedId(shows: seq<ShowRow>, key: string): (r: Option<int>)
    ensures r.None? <==> forall k :: 0 <= k < |shows| ==> shows[k].name != key
    ensures r.Some? ==> exists k :: 0 <= k < |shows| && shows[k].name == key && shows[k].id == r.value
  {
    if shows == [] then None
    else if shows[0].name == key then Some(shows[0].id)
    else
      var r := CachedId(shows[1..], key);
      assert forall k :: 1 <= k < |shows| ==> shows[k] == shows[1..][k - 1];
      r
  }

  /**
   * The search of the fetched show list for a pattern (`get_soup`,
   * `re.compile`, `soup.find` and `int(show.previous['value'])`): the id of the
   * matching option, `None` when nothing matches, or the exception raised when
   * the pattern does not compile (as for `show (us`, whose `(` `ShowRe` leaves
   * unbalanced) or when the option's value is not an integer.
   */
  type Finder = string -> Result<Option<int>, PyError>

  /** What `find_show_id` returns or raises, and the cache rows after it. */
  datatype Lookup = Lookup(id: Option<int>, shows: seq<ShowRow>, error: Option<PyError>)

  /**
   * `find_show_id`: a cached id is returned without any request; otherwise,
   * when the show list can be fetched (`reachable`) and `find` finds the
   * pattern on it, the id is stored under the lower-cased name and returned.
   * An exception of the search is raised and stores nothing.
   */
  function FindShow(shows: seq<ShowRow>, name: string, reachable: bool, find: Finder): (r: Lookup)
    ensures CachedId(shows, Lower(name)).Some? ==> r == Lookup(CachedId(shows, Lower(name)), shows, None)
    ensures r.shows == shows || (r.id.Some? && r.error.None? && r.shows == shows + [ShowRow(r.id.value, Lower(name))])
    ensures r.error.Some? ==> r.id.None? && r.shows == shows && reachable
  {
    var key := Lower(name);
    var cached := CachedId(shows, key);
    if cached.Some? then Lookup(cached, shows, None)
    else if !reachable then Lookup(None, shows, None)
    else
      match find(ShowRe(key))
      case Err(e) => Lookup(None, shows, Some(e))
      case Ok(found) =>
        if found.Some? then Lookup(found, shows + [ShowRow(found.value, key)], None) else Lookup(None, shows, None)
  }

  /** Appending rows leaves every name that was already cached with its id. */
  lemma {:induction false} CacheIsStable(shows: seq<ShowRow>, more: seq<ShowRow>, key: string)
    requires CachedId(shows, key).Some?
    ensures CachedId(shows + more, key) == CachedId(shows, key)
  {
    if shows[0].name != key {
      assert (shows + more)[1..] == shows[1..] + more;
      CacheIsStable(shows[1..], more, key);
    }
  }

  /** A row appended under a name not yet cached is the one a later query finds. */
  lemma {:induction false} AppendedRowIsFound(shows: seq<ShowRow>, row: ShowRow)
    requires CachedId(shows, row.name).None?
    ensures CachedId(shows + [row], row.name) == Some(row.id)
  {
    if shows != [] {
      assert (shows + [row])[1..] == shows[1..] + [row];
      AppendedRowIsFound(shows[1..], row);
    }
  }

  /**
   * After a lookup that finds an id, every name equal to the looked-up one up to
   * letter case is answered from the cache with that id.
   */
  lemma FoundShowIsCached(shows: seq<ShowRow>, name: string, other: string, reachable: bool, find: Finder)
    requires FindShow(shows, name, reachable, find).id.Some?
    requires Lower(other) == Lower(name)
    ensures var after := FindShow(shows, name, reachable, find);
      FindShow(after.shows, other, false, find) == Lookup(after.id, after.shows, None)
  {
    var key := Lower(name);
    var after := FindShow(shows, name, reachable, find);
    if CachedId(shows, key).None? {
      AppendedRowIsFound(shows, ShowRow(after.id.value, key));
    }
  }

  /** A failed lookup stores nothing. */
  lemma MissIsNotCached(shows: seq<ShowRow>, name: string, reachable: bool, find: Finder)
    requires FindShow(shows, name, reachable, find).id.None?
    ensures FindShow(shows, name, reachable, find).shows == shows
  {
  }

  /** `find_show_id`, on the task's session. */
  method FindShowId(showName: string, dbSess: Session, reachable: bool, find: Finder) returns (id: Option<int>, err: Option<PyError>)
    modifies dbSess
    ensures Lookup(id, dbSess.shows, err) == FindShow(old(dbSess.shows), showName, reachable, find)
    ensures dbSess.rssRows == old(dbSess.rssRows) && dbSess.nextId == old(dbSess.nextId)
  {
    var key := Lower(showName);
    var cached := CachedId(dbSess.shows, key);
    if cached.Some? {
      return cached, None;
    }
    if !reachable {
      return None, None;
    }
    var search := find(ShowRe(key));
    if search.Err? {
      return None, Some(search.error);
    }
    var found := search.value;
    if found.Some? {
      dbSess.shows := dbSess.shows + [ShowRow(found.value, key)];
      return found, None;
    }
    return None, None;
  }

  // ---------------------------------------------------------------------------
  // on_task_exit
  // ---------------------------------------------------------------------------

  /** One `watchhandle` request: the parts of its `shid` (`id-season-episode/month-year`). */
  datatype Watched = Watched(showId: int, season: Value, episode: Value, month: int, year: int)

  /** What the loop over accepted entries has done so far. */
  datatype ExitRun = ExitRun(shows: seq<ShowRow>, posts: seq<Watched>, error: Option<PyError>)

  /** An entry the plugin marks: a truthy `series_name` and `series_id_type` equal to `ep`. */
  predicate Eligible(f: Fields) {
    Truthy(Get(f, "series_name")) && Get(f, "series_id_type") == Text("ep")
  }

  /**
   * One accepted entry. A show id of 0 counts as not found, like a missing one.
   * The log lines read `series_id` (a missing one raises KeyError) before the
   * test-mode check; the request reads `series_season` and `series_episode`.
   * A `series_name` that is not text has no `lower` and raises `AttributeError`,
   * and an exception of the show search is raised as it is.
   */
  function EntryExit(f: Fields, shows: seq<ShowRow>, test: bool, reachable: bool,
                     find: Finder, month: int, year: int): (r: ExitRun)
    ensures |r.posts| <= 1
    ensures r.posts != [] ==> Eligible(f) && !test && r.error.None?
  {
    if !Eligible(f) then ExitRun(shows, [], None)
    else if !f["series_name"].Text? then ExitRun(shows, [], Some(AttributeError("lower")))
    else
      var l := FindShow(shows, f["series_name"].s, reachable, find);
      if l.error.Some? then ExitRun(l.shows, [], l.error)
      else if l.id.None? || l.id.value == 0 then ExitRun(l.shows, [], None)
      else if "series_id" !in f then ExitRun(l.shows, [], Some(KeyError("series_id")))
      else if test then ExitRun(l.shows, [], None)
      else if "series_season" !in f then ExitRun(l.shows, [], Some(KeyError("series_season")))
      else if "series_episode" !in f then ExitRun(l.shows, [], Some(KeyError("series_episode")))
      else ExitRun(l.shows, [Watched(l.id.value, f["series_season"], f["series_episode"], month, year)], None)
  }

  /** The loop over accepted entries, stopped by the first exception. */
  function ExitLoop(fs: seq<Fields>, shows: seq<ShowRow>, test: bool, reachable: bool,
                    find: Finder, month: int, year: int): (r: ExitRun)
  {
    if fs == [] then ExitRun(shows, [], None)
    else
      var n := |fs| - 1;
      var r := ExitLoop(fs[..n], shows, test, reachable, find, month, year);
      if r.error.Some? then r
      else
        var s := EntryExit(fs[n], r.shows, test, reachable, find, month, year);
        ExitRun(s.shows, r.posts + s.posts, s.error)
  }

  /** In test mode nothing is marked. */
  lemma {:induction false} TestModePostsNothing(fs: seq<Fields>, shows: seq<ShowRow>, reachable: bool,
                                                find: Finder, month: int, year: int)
    ensures ExitLoop(fs, shows, true, reachable, find, month, year).posts == []
  {
    if fs != [] {
      TestModePostsNothing(fs[..|fs| - 1], shows, reachable, find, month, year);
    }
  }

  /**
   * Every mark comes from an eligible entry, at most one per entry, and
   * carries the id the cache holds for the show at the end.
   */
  lemma {:induction false} PostsComeFromEligibleEntries(fs: seq<Fields>, shows: seq<ShowRow>, test: bool, reachable: bool,
                                                        find: Finder, month: int, year: int)
    ensures |ExitLoop(fs, shows, test, reachable, find, month, year).posts| <= |fs|
    ensures PostsFromEntries(fs, ExitLoop(fs, shows, test, reachable, find, month, year))
  {
    if fs != [] {
      var n := |fs| - 1;
      PostsComeFromEligibleEntries(fs[..n], shows, test, reachable, find, month, year);
      var r := ExitLoop(fs[..n], shows, test, reachable, find, month, year);
      if r.error.None? {
        var s := EntryExit(fs[n], r.shows, test, reachable, find, month, year);
        CacheOnlyGrows(fs[n], r.shows, test, reachable, find, month, year, s);
        assert r.shows + s.shows[|r.shows|..] == s.shows;
        PostsSurviveGrowth(fs[..n], r.posts, r.shows, s.shows[|r.shows|..]);
        EntryPostIsFor(fs[n], r.shows, test, reachable, find, month, year);
        PostsSnoc(fs, n, r.posts, s);
      } else {
        PostsFromPrefix(fs, n, r.posts, r.shows);
      }
    }
  }

  /** The marks of the first `n` entries and those of entry `n` are all made for eligible entries of `fs`. */
  lemma PostsSnoc(fs: seq<Fields>, n: nat, posts: seq<Watched>, s: ExitRun)
    requires n < |fs|
    requires forall p :: p in posts ==> exists k :: 0 <= k < |fs[..n]| && Eligible(fs[..n][k]) && PostFor(fs[..n][k], p, s.shows)
    requires forall p :: p in s.posts ==> Eligible(fs[n]) && PostFor(fs[n], p, s.shows)
    ensures PostsFromEntries(fs, ExitRun(s.shows, posts + s.posts, s.error))
  {
    forall p | p in posts + s.posts
      ensures exists k :: 0 <= k < |fs| && Eligible(fs[k]) && PostFor(fs[k], p, s.shows)
    {
      if p in posts {
        var k :| 0 <= k < n && Eligible(fs[..n][k]) && PostFor(fs[..n][k], p, s.shows);
        assert fs[k] == fs[..n][k];
      }
    }
  }

  /** Every mark of `run` is made for one of the eligible entries of `fs`. */
  predicate PostsFromEntries(fs: seq<Fields>, run: ExitRun) {
    forall p :: p in run.posts ==> exists k :: 0 <= k < |fs| && Eligible(fs[k]) && PostFor(fs[k], p, run.shows)
  }

  /** The mark made for one entry, if any, is for that entry and the cache it leaves. */
  lemma EntryPostIsFor(f: Fields, shows: seq<ShowRow>, test: bool, reachable: bool,
                       find: Finder, month: int, year: int)
    ensures var s := EntryExit(f, shows, test, reachable, find, month, year);
      forall p :: p in s.posts ==> Eligible(f) && PostFor(f, p, s.shows)
  {
    var s := EntryExit(f, shows, test, reachable, find, month, year);
    if s.posts != [] {
      var name := f["series_name"].s;
      var l := FindShow(shows, name, reachable, find);
      FoundShowIsCached(shows, name, name, reachable, find);
      assert s.shows == l.shows;
      assert CachedId(l.shows, Lower(name)) == l.id;
    }
  }

  /** Marks keep their ids when rows are appended to the cache. */
  lemma PostsSurviveGrowth(fs: seq<Fields>, posts: seq<Watched>, shows: seq<ShowRow>, more: seq<ShowRow>)
    requires PostsFromEntries(fs, ExitRun(shows, posts, None))
    ensures forall p :: p in posts ==> exists k :: 0 <= k < |fs| && Eligible(fs[k]) && PostFor(fs[k], p, shows + more)
  {
    forall p | p in posts
      ensures exists k :: 0 <= k < |fs| && Eligible(fs[k]) && PostFor(fs[k], p, shows + more)
    {
      var k :| 0 <= k < |fs| && Eligible(fs[k]) && PostFor(fs[k], p, shows);
      CacheIsStable(shows, more, Lower(fs[k]["series_name"].s));
    }
  }

  lemma PostsFromPrefix(fs: seq<Fields>, n: nat, posts: seq<Watched>, shows: seq<ShowRow>)
    requires n <= |fs|
    requires PostsFromEntries(fs[..n], ExitRun(shows, posts, None))
    ensures forall p :: p in posts ==> exists k :: 0 <= k < |fs| && Eligible(fs[k]) && PostFor(fs[k], p, shows)
  {
    forall p | p in posts
      ensures exists k :: 0 <= k < |fs| && Eligible(fs[k]) && PostFor(fs[k], p, shows)
    {
      var k :| 0 <= k < n && Eligible(fs[..n][k]) && PostFor(fs[..n][k], p, shows);
      assert fs[k] == fs[..n][k];
    }
  }

  /** `p` is the mark made for the entry `f`, whose show the cache `shows` maps to `p.showId`. */
  predicate PostFor(f: Fields, p: Watched, shows: seq<ShowRow>) {
    && "series_name" in f && f["series_name"].Text?
    && CachedId(shows, Lower(f["series_name"].s)) == Some(p.showId)
    && p.showId != 0
    && Get(f, "series_season") == p.season && Get(f, "series_episode") == p.episode
  }

  /** One entry only ever appends rows to the cache. */
  lemma CacheOnlyGrows(f: Fields, shows: seq<ShowRow>, test: bool, reachable: bool,
                       find: Finder, month: int, year: int, s: ExitRun)
    requires s == EntryExit(f, shows, test, reachable, find, month, year)
    ensures |shows| <= |s.shows| && s.shows[..|shows|] == shows
  {
    if Eligible(f) && f["series_name"].Text? {
      var l := FindShow(shows, f["series_name"].s, reachable, find);
      assert s.shows == l.shows;
      assert l.shows[..|shows|] == shows;
    }
  }

  /** The text of a response contains `word`. */
  predicate Contains(text: string, word: string) {
    exists i :: 0 <= i <= |text| && StartsWith(text[i..], word)
  }

  /**
   * `on_task_exit`: nothing happens when no entry is accepted outside test
   * mode, when the login request raises (`login == None`), or when the login
   * page lacks `logout`. Otherwise the accepted entries are marked in order;
   * the marks are returned, together with the exception that stopped the loop.
   */
  method OnTaskExit(task: Task, test: bool, login: Option<string>, reachable: bool,
                    find: Finder, month: int, year: int)
    returns (posts: seq<Watched>, err: Option<PyError>)
    modifies task.session
    ensures task.session.rssRows == old(task.session.rssRows) && task.session.nextId == old(task.session.nextId)
    ensures AcceptedOf(task.allEntries) == [] && !test ==>
      posts == [] && err == None && task.session.shows == old(task.session.shows)
    ensures login.None? || !Contains(login.value, "logout") ==>
      posts == [] && err == None && task.session.shows == old(task.session.shows)
    ensures (AcceptedOf(task.allEntries) != [] || test) && login.Some? && Contains(login.value, "logout") ==>
      ExitRun(task.session.shows, posts, err)
        == ExitLoop(FieldsOf(AcceptedOf(task.allEntries)), old(task.session.shows), test, reachable, find, month, year)
  {
    var accepted := AcceptedOf(task.allEntries);
    if accepted == [] && !test {
      return [], None;
    }
    if login.None? || !Contains(login.value, "logout") {
      return [], None;
    }
    ghost var fs := FieldsOf(accepted);
    ghost var shows0 := task.session.shows;
    posts, err := ExitEntries(task.session, accepted, test, reachable, find, month, year);
    assert AcceptedOf(task.allEntries) == accepted && FieldsOf(accepted) == fs;
  }

  /** The loop over `task.accepted`. */
  method ExitEntries(session: Session, accepted: seq<Entry>, test: bool, reachable: bool,
                     find: Finder, month: int, year: int)
    returns (posts: seq<Watched>, err: Option<PyError>)
    modifies session
    ensures session.rssRows == old(session.rssRows) && session.nextId == old(session.nextId)
    ensures ExitRun(session.shows, posts, err) == ExitLoop(FieldsOf(accepted), old(session.shows), test, reachable, find, month, year)
  {
    ghost var fs := FieldsOf(accepted);
    ghost var shows0 := session.shows;
    ghost var run := ExitRun(shows0, [], None);
    posts, err := [], None;
    var k := 0;
    while k < |accepted| && err.None?
      invariant 0 <= k <= |accepted| && FieldsOf(accepted) == fs
      invariant run == ExitLoop(fs[..k], shows0, test, reachable, find, month, year)
      invariant session.shows == run.shows && posts == run.posts && err == run.error
      invariant session.rssRows == old(session.rssRows) && session.nextId == old(session.nextId)
    {
      var post, e := ExitEntry(session, accepted[k], test, reachable, find, month, year);
      ghost var step := EntryExit(fs[k], run.shows, test, reachable, find, month, year);
      ExitLoopSnoc(fs, k, shows0, test, reachable, find, month, year, run, step);
      posts, err := posts + post, e;
      run := ExitRun(session.shows, posts, err);
      k := k + 1;
    }
    if err.Some? {
      ExitStopsAt(fs, k, shows0, test, reachable, find, month, year);
    } else {
      assert fs[..k] == fs;
    }
  }

  /** The body of the loop, for one accepted entry. */
  method ExitEntry(session: Session, entry: Entry, test: bool, reachable: bool,
                   find: Finder, month: int, year: int)
    returns (post: seq<Watched>, err: Option<PyError>)
    modifies session
    ensures session.rssRows == old(session.rssRows) && session.nextId == old(session.nextId)
    ensures ExitRun(session.shows, post, err) == EntryExit(entry.fields, old(session.shows), test, reachable, find, month, year)
  {
    var f := entry.fields;
    var name := Get(f, "series_name");
    if !Truthy(name) || Get(f, "series_id_type") != Text("ep") {
      return [], None;
    }
    if !name.Text? {
      return [], Some(AttributeError("lower"));
    }
    var showId, e := FindShowId(name.s, session, reachable, find);
    if e.Some? {
      return [], e;
    }
    if showId.None? || showId.value == 0 {
      return [], None;
    }
    if "series_id" !in f {
      return [], Some(KeyError("series_id"));
    }
    if test {
      return [], None;
    }
    if "series_season" !in f {
      return [], Some(KeyError("series_season"));
    }
    if "series_episode" !in f {
      return [], Some(KeyError("series_episode"));
    }
    return [Watched(showId.value, f["series_season"], f["series_episode"], month, year)], None;
  }

  lemma ExitLoopSnoc(fs: seq<Fields>, k: nat, shows: seq<ShowRow>, test: bool, reachable: bool,
                     find: Finder, month: int, year: int, r: ExitRun, s: ExitRun)
    requires k < |fs|
    requires r == ExitLoop(fs[..k], shows, test, reachable, find, month, year) && r.error.None?
    requires s == EntryExit(fs[k], r.shows, test, reachable, find, month, year)
    ensures ExitLoop(fs[..k + 1], shows, test, reachable, find, month, year) == ExitRun(s.shows, r.posts + s.posts, s.error)
  {
    assert fs[..k + 1][..k] == fs[..k];
  }

  /** After an exception at entry `k - 1`, the rest of the loop changes nothing. */
  lemma {:induction false} ExitStopsAt(fs: seq<Fields>, k: nat, shows: seq<ShowRow>, test: bool, reachable: bool,
                                       find: Finder, month: int, year: int)
    requires k <= |fs|
    requires ExitLoop(fs[..k], shows, test, reachable, find, month, year).error.Some?
    ensures ExitLoop(fs, shows, test, reachable, find, month, year) == ExitLoop(fs[..k], shows, test, reachable, find, month, year)
    decreases |fs| - k
  {
    if k < |fs| {
      assert fs[..k + 1][..k] == fs[..k];
      ExitStopsAt(fs, k + 1, shows, test, reachable, find, month, year);
    } else {
      assert fs[..k] == fs;
    }
  }
}
