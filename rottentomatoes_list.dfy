/**
 * The `rottentomatoes_list` input plugin
 * (flexget/plugins/input/rottentomatoes_list.py): for every configured list
 * type (`dvds`, `movies`) and list name it fetches the list, and makes one entry
 * per movie whose title no earlier entry has.
 *
 * The `lists` API call is a parameter: the movies of a list, or `None` when the
 * result is empty or missing.
 */
module RottenTomatoesList {
  import opened Wrappers
  import opened Engine

  /** The dvd lists the validator accepts (`self.dvd_lists`). */
  const DvdLists: seq<string> := ["top_rentals", "current_releases", "new_releases", "upcoming"]

  /** The movie lists the validator accepts (`self.movie_lists`). */
  const MovieLists: seq<string> := ["box_office", "in_theaters", "opening", "upcoming"]

  /** The list names the validator accepts under a configuration key; other keys accept none. */
  function Choices(listType: string): seq<string> {
    if listType == "dvds" then DvdLists else if listType == "movies" then MovieLists else []
  }

  /** The configuration: list names under each list type, in `config.items()` order. */
  type Config = seq<(string, seq<string>)>

  /** The validator: only the `dvds` and `movies` keys, each a list of its own choices. */
  predicate ConfigValid(config: Config) {
    forall k :: 0 <= k < |config| ==>
      && (config[k].0 == "dvds" || config[k].0 == "movies")
      && forall j :: 0 <= j < |config[k].1| ==> config[k].1[j] in Choices(config[k].0)
  }

  /** One movie of a list result; `imdb` is `alternate_ids.imdb` when the movie has one. */
  datatype Movie = Movie(title: string, id: Value, imdb: Option<string>, alternate: string)

  /**
   * `imdb_id`: `tt` followed by the alternate id when that is truthy; a missing id
   * stays `None` and an empty one stays the empty string.
   */
  function ImdbId(m: Movie): (r: Value)
    ensures r == Null <==> m.imdb.None?
    ensures m.imdb.Some? ==> r.Text? && (r.s == "" <==> m.imdb.value == "")
    ensures r.Text? && r.s != "" ==> m.imdb.Some? && r.s == "tt" + m.imdb.value
  {
    if m.imdb.None? then Null
    else if m.imdb.value == "" then Text("")
    else Text("tt" + m.imdb.value)
  }

  /** The entry made for a movie. */
  function EntryFor(m: Movie): (e: Fields)
    ensures e.Keys == {"title", "rt_id", "imdb_id", "rt_name", "url"}
    ensures e["title"] == Text(m.title) && e["rt_name"] == e["title"] && e["url"] == Text(m.alternate)
  {
    map["title" := Text(m.title), "rt_id" := m.id, "imdb_id" := ImdbId(m),
        "rt_name" := Text(m.title), "url" := Text(m.alternate)]
  }

  /** `filter(lambda entry: movie['title'] == entry.get('title'), entries)` is non-empty. */
  predicate HasTitle(entries: seq<Fields>, title: string) {
    exists k :: 0 <= k < |entries| && Get(entries[k], "title") == Text(title)
  }

  /** One movie: skipped when an entry already has its title, appended otherwise. */
  function AddMovie(entries: seq<Fields>, m: Movie): seq<Fields> {
    if HasTitle(entries, m.title) then entries else entries + [EntryFor(m)]
  }

  /** The movies of a result, in result order. */
  function AddMovies(entries: seq<Fields>, ms: seq<Movie>): seq<Fields> {
    if ms == [] then entries else AddMovie(AddMovies(entries, ms[..|ms| - 1]), ms[|ms| - 1])
  }

  /** Adding two results one after the other is adding their concatenation. */
  lemma {:induction false} AddMoviesAppend(entries: seq<Fields>, a: seq<Movie>, b: seq<Movie>)
    ensures AddMovies(entries, a + b) == AddMovies(AddMovies(entries, a), b)
    decreases |b|
  {
    if b == [] {
      assert a + b == a;
    } else {
      var n := |b| - 1;
      assert (a + b)[..|a + b| - 1] == a + b[..n];
      AddMoviesAppend(entries, a, b[..n]);
    }
  }

  /** The `(type, name)` pairs the nested loops visit, in order. */
  function Requests(config: Config): (r: seq<(string, string)>)
    ensures forall q :: q in r ==> exists k :: 0 <= k < |config| && q.0 == config[k].0 && q.1 in config[k].1
  {
    if config == [] then []
    else
      var n := |config| - 1;
      Requests(config[..n]) + NamesOf(config[n].0, config[n].1)
  }

  function NamesOf(listType: string, names: seq<string>): (r: seq<(string, string)>)
    ensures |r| == |names|
    ensures forall j :: 0 <= j < |names| ==> r[j] == (listType, names[j])
  {
    if names == [] then [] else NamesOf(listType, names[..|names| - 1]) + [(listType, names[|names| - 1])]
  }

  /** The movies of every fetched list, in request order; a falsy result contributes none. */
  function Fetched(requests: seq<(string, string)>, lists: (string, string) -> Option<seq<Movie>>): seq<Movie> {
    if requests == [] then []
    else
      var n := |requests| - 1;
      var res := lists(requests[n].0, requests[n].1);
      Fetched(requests[..n], lists) + (if res.Some? then res.value else [])
  }

  /** The entries `on_task_input` returns. */
  function Merged(config: Config, lists: (string, string) -> Option<seq<Movie>>): seq<Fields> {
    AddMovies([], Fetched(Requests(config), lists))
  }

  // ---------------------------------------------------------------------------
  // The plugin
  // ---------------------------------------------------------------------------

  /** `on_task_input`: the loop over list types. */
  method OnTaskInput(config: Config, lists: (string, string) -> Option<seq<Movie>>) returns (entries: seq<Fields>)
    ensures entries == Merged(config, lists)
  {
    entries := [];
    var i := 0;
    while i < |config|
      invariant 0 <= i <= |config|
      invariant entries == AddMovies([], Fetched(Requests(config[..i]), lists))
    {
      assert config[..i + 1][..i] == config[..i];
      ghost var done := Fetched(Requests(config[..i]), lists);
      entries := AddLists(entries, config[i].0, config[i].1, lists);
      AddMoviesAppend([], done, Fetched(NamesOf(config[i].0, config[i].1), lists));
      FetchedAppend(Requests(config[..i]), NamesOf(config[i].0, config[i].1), lists);
      i := i + 1;
    }
    assert config[..i] == config;
  }

  /** The loop over the list names of one type. */
  method AddLists(entries0: seq<Fields>, lType: string, lNames: seq<string>,
                  lists: (string, string) -> Option<seq<Movie>>) returns (entries: seq<Fields>)
    ensures entries == AddMovies(entries0, Fetched(NamesOf(lType, lNames), lists))
  {
    entries := entries0;
    var j := 0;
    while j < |lNames|
      invariant 0 <= j <= |lNames|
      invariant entries == AddMovies(entries0, Fetched(NamesOf(lType, lNames[..j]), lists))
    {
      assert lNames[..j + 1][..j] == lNames[..j];
      ghost var done := Fetched(NamesOf(lType, lNames[..j]), lists);
      var results := lists(lType, lNames[j]);
      if results.Some? {
        entries := AddResult(entries, results.value);
        AddMoviesAppend(entries0, done, results.value);
      } else {
        // log.critical: the list could not be fetched; carry on with the next one
        assert done + [] == done;
      }
      j := j + 1;
    }
    assert lNames[..j] == lNames;
  }

  /** The loop over one result's movies, with the membership scan. */
  method AddResult(entries0: seq<Fields>, movies: seq<Movie>) returns (entries: seq<Fields>)
    ensures entries == AddMovies(entries0, movies)
  {
    entries := entries0;
    var k := 0;
    while k < |movies|
      invariant 0 <= k <= |movies|
      invariant entries == AddMovies(entries0, movies[..k])
    {
      assert movies[..k + 1][..k] == movies[..k];
      var movie := movies[k];
      var seen := Seen(entries, movie.title);
      if !seen {
        entries := entries + [EntryFor(movie)];
      }
      k := k + 1;
    }
    assert movies[..k] == movies;
  }

  /** The membership scan: does some entry already have this title? */
  method Seen(entries: seq<Fields>, title: string) returns (found: bool)
    ensures found <==> HasTitle(entries, title)
  {
    found := false;
    var k := 0;
    while k < |entries|
      invariant 0 <= k <= |entries|
      invariant found <==> exists j :: 0 <= j < k && Get(entries[j], "title") == Text(title)
    {
      if Get(entries[k], "title") == Text(title) {
        found := true;
      }
      k := k + 1;
    }
  }

  // ---------------------------------------------------------------------------
  // Properties of the merge
  // ---------------------------------------------------------------------------

  /** No two entries share a title. */
  predicate DistinctTitles(entries: seq<Fields>) {
    forall i, j :: 0 <= i < j < |entries| ==> Get(entries[i], "title") != Get(entries[j], "title")
  }

  /** The position of the first movie with the given title. */
  predicate FirstWithTitle(ms: seq<Movie>, i: int) {
    0 <= i < |ms| && forall j :: 0 <= j < i ==> ms[j].title != ms[i].title
  }

  /** The first occurrence of each title, in order: the positions of the movies that become entries. */
  function FirstIndices(ms: seq<Movie>): (r: seq<nat>)
    ensures forall k :: 0 <= k < |r| ==> FirstWithTitle(ms, r[k])
    ensures forall k, l :: 0 <= k < l < |r| ==> r[k] < r[l]
  {
    if ms == [] then []
    else
      var n := |ms| - 1;
      var r := FirstIndices(ms[..n]);
      assert forall k :: 0 <= k < |r| ==> FirstWithTitle(ms, r[k]) by {
        forall k | 0 <= k < |r|
          ensures FirstWithTitle(ms, r[k])
        {
          assert FirstWithTitle(ms[..n], r[k]);
        }
      }
      if FirstWithTitle(ms, n) then r + [n] else r
  }

  /** Some movie of `ms` has title `t`. */
  predicate TitleIn(ms: seq<Movie>, t: string) {
    exists j :: 0 <= j < |ms| && ms[j].title == t
  }

  /** The entries have exactly the titles of the fetched movies. */
  lemma {:induction false} MergeHasEveryTitle(ms: seq<Movie>)
    ensures forall t :: HasTitle(AddMovies([], ms), t) <==> TitleIn(ms, t)
  {
    if ms != [] {
      var n := |ms| - 1;
      MergeHasEveryTitle(ms[..n]);
      AddMovieTitles(AddMovies([], ms[..n]), ms[n]);
      TitleInSnoc(ms);
    }
  }

  /** After one movie, the titles are the titles before it and the movie's own. */
  lemma AddMovieTitles(entries: seq<Fields>, m: Movie)
    ensures forall t :: HasTitle(AddMovie(entries, m), t) <==> HasTitle(entries, t) || m.title == t
  {
    if !HasTitle(entries, m.title) {
      var e := entries + [EntryFor(m)];
      forall t
        ensures HasTitle(e, t) <==> HasTitle(entries, t) || m.title == t
      {
        if HasTitle(e, t) {
          var k :| 0 <= k < |e| && Get(e[k], "title") == Text(t);
          if k < |entries| {
            assert Get(entries[k], "title") == Text(t);
          }
        }
        if HasTitle(entries, t) {
          var k :| 0 <= k < |entries| && Get(entries[k], "title") == Text(t);
          assert Get(e[k], "title") == Text(t);
        }
        if m.title == t {
          assert Get(e[|entries|], "title") == Text(t);
        }
      }
    }
  }

  /** The titles of the movies are the titles of all but the last, and the last one's. */
  lemma TitleInSnoc(ms: seq<Movie>)
    requires ms != []
    ensures forall t :: TitleIn(ms, t) <==> TitleIn(ms[..|ms| - 1], t) || ms[|ms| - 1].title == t
  {
    var n := |ms| - 1;
    forall t
      ensures TitleIn(ms, t) <==> TitleIn(ms[..n], t) || ms[n].title == t
    {
      if TitleIn(ms[..n], t) {
        var j :| 0 <= j < n && ms[..n][j].title == t;
        assert ms[j].title == t;
      }
      if TitleIn(ms, t) {
        var j :| 0 <= j < |ms| && ms[j].title == t;
        if j < n {
          assert ms[..n][j].title == t;
        }
      }
    }
  }

  /**
   * Starting from no entries, the entries are exactly the movies that are the
   * first with their title, in the order of the fetched movies.
   */
  lemma {:induction false} MergeIsFirstOccurrences(ms: seq<Movie>)
    ensures var e := AddMovies([], ms);
      var idx := FirstIndices(ms);
      && |e| == |idx|
      && forall k :: 0 <= k < |e| ==> e[k] == EntryFor(ms[idx[k]])
  {
    if ms != [] {
      var n := |ms| - 1;
      var init := ms[..n];
      MergeIsFirstOccurrences(init);
      MergeHasEveryTitle(init);
      var e0 := AddMovies([], init);
      var idx0 := FirstIndices(init);
      var e := AddMovies([], ms);
      var idx := FirstIndices(ms);
      if HasTitle(e0, ms[n].title) {
        var j :| 0 <= j < |init| && init[j].title == ms[n].title;
        assert ms[j].title == ms[n].title;
        assert !FirstWithTitle(ms, n);
        assert e == e0 && idx == idx0;
      } else {
        assert FirstWithTitle(ms, n) by {
          forall j | 0 <= j < n
            ensures ms[j].title != ms[n].title
          {
            assert init[j] == ms[j];
          }
        }
        assert e == e0 + [EntryFor(ms[n])] && idx == idx0 + [n];
      }
      forall k | 0 <= k < |e|
        ensures e[k] == EntryFor(ms[idx[k]])
      {
        if k < |e0| {
          assert e[k] == e0[k] && idx[k] == idx0[k];
          assert ms[idx0[k]] == init[idx0[k]];
        }
      }
    }
  }

  /** The merged entries have pairwise distinct titles. */
  lemma {:induction false} MergedTitlesAreDistinct(entries: seq<Fields>, ms: seq<Movie>)
    requires DistinctTitles(entries)
    ensures DistinctTitles(AddMovies(entries, ms))
  {
    if ms != [] {
      var n := |ms| - 1;
      MergedTitlesAreDistinct(entries, ms[..n]);
      var e0 := AddMovies(entries, ms[..n]);
      if !HasTitle(e0, ms[n].title) {
        var e := e0 + [EntryFor(ms[n])];
        forall i, j | 0 <= i < j < |e|
          ensures Get(e[i], "title") != Get(e[j], "title")
        {
          if j == |e0| {
            assert Get(e0[i], "title") != Text(ms[n].title);
          }
        }
      }
    }
  }

  /** Entries already present are kept, unchanged and in place; new ones only follow them. */
  lemma {:induction false} MergeKeepsEarlierEntries(entries: seq<Fields>, ms: seq<Movie>)
    ensures |entries| <= |AddMovies(entries, ms)|
    ensures AddMovies(entries, ms)[..|entries|] == entries
  {
    if ms != [] {
      MergeKeepsEarlierEntries(entries, ms[..|ms| - 1]);
    }
  }

  /**
   * A list that could not be fetched adds nothing, and the lists after it are
   * still fetched: the result is that of the configuration without it.
   */
  lemma FailedListAddsNothing(requests: seq<(string, string)>, q: (string, string), rest: seq<(string, string)>,
                              lists: (string, string) -> Option<seq<Movie>>)
    requires lists(q.0, q.1).None?
    ensures Fetched(requests + [q] + rest, lists) == Fetched(requests + rest, lists)
  {
    FetchedAppend(requests + [q], rest, lists);
    FetchedAppend(requests, rest, lists);
    assert (requests + [q])[..|requests|] == requests;
  }

  lemma {:induction false} FetchedAppend(a: seq<(string, string)>, b: seq<(string, string)>,
                                         lists: (string, string) -> Option<seq<Movie>>)
    ensures Fetched(a + b, lists) == Fetched(a, lists) + Fetched(b, lists)
    decreases |b|
  {
    if b == [] {
      assert a + b == a;
    } else {
      var n := |b| - 1;
      assert (a + b)[..|a + b| - 1] == a + b[..n];
      FetchedAppend(a, b[..n], lists);
    }
  }

  /** A valid configuration only ever requests lists from the choices of their type. */
  lemma ValidConfigRequestsChoices(config: Config)
    requires ConfigValid(config)
    ensures forall q :: q in Requests(config) ==> q.1 in Choices(q.0)
  {
    forall q | q in Requests(config)
      ensures q.1 in Choices(q.0)
    {
      var k :| 0 <= k < |config| && q.0 == config[k].0 && q.1 in config[k].1;
      var j :| 0 <= j < |config[k].1| && config[k].1[j] == q.1;
    }
  }
}
