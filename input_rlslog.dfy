/**
 * The `rlslog` input (modules/input_rlslog.py): it reads the release entries of
 * an rlslog.net page, keeps the ones with a downloadable link, picks up the IMDb
 * link, score and vote count, and adds one task entry per release.
 *
 * Fetching and parsing the HTML page are not modelled: a page is given as the
 * sequence of its entry blocks, each with what the parser finds in it. The
 * IMDb score is an integer number of tenths (7.5 is 75).
 */
module InputRlslog {
  import opened Wrappers
  import opened Text
  import opened Engine

  // ---------------------------------------------------------------------------
  // parse_imdb
  // ---------------------------------------------------------------------------

  /** The three regular expressions of `parse_imdb`. */
  datatype Pattern = DotScore | SlashScore | VoteCount

  /** `p` matches `s` at `i`. */
  predicate MatchesAt(p: Pattern, s: string, i: int) {
    match p
    case DotScore => DotScoreAt(s, i)
    case SlashScore => SlashScoreAt(s, i)
    case VoteCount => VotesAt(s, i)
  }

  /** The leftmost position at or after `i` where `p` matches (a regular-expression search). */
  function Search(s: string, i: nat, p: Pattern): (r: Option<nat>)
    requires i <= |s|
    ensures r.Some? ==> i <= r.value <= |s| && MatchesAt(p, s, r.value)
    decreases |s| - i
  {
    if MatchesAt(p, s, i) then Some(i) else if i == |s| then None else Search(s, i + 1, p)
  }

  /** `Search` finds nothing exactly when there is no match, and otherwise the leftmost one. */
  lemma {:induction false} SearchIsLeftmost(s: string, i: nat, p: Pattern)
    requires i <= |s|
    ensures Search(s, i, p).None? <==> forall k :: i <= k <= |s| ==> !MatchesAt(p, s, k)
    ensures Search(s, i, p).Some? ==> forall k :: i <= k < Search(s, i, p).value ==> !MatchesAt(p, s, k)
    decreases |s| - i
  {
    if !MatchesAt(p, s, i) && i < |s| {
      SearchIsLeftmost(s, i + 1, p);
    }
  }

  function DigitValue(c: char): int
    requires IsDigit(c)
  {
    c as int - '0' as int
  }

  /** `(\d\.\d)` matches at `i`. */
  predicate DotScoreAt(s: string, i: int) {
    0 <= i && i + 3 <= |s| && IsDigit(s[i]) && s[i + 1] == '.' && IsDigit(s[i + 2])
  }

  /** `(\d)\/10` matches at `i`. */
  predicate SlashScoreAt(s: string, i: int) {
    0 <= i && i + 4 <= |s| && IsDigit(s[i]) && s[i + 1] == '/' && s[i + 2] == '1' && s[i + 3] == '0'
  }

  /**
   * The score, in tenths: from the leftmost `d.d` when there is one, else from
   * the leftmost `d/10`, else none.
   */
  function Score(s: string): (r: Option<int>)
    ensures r.Some? ==> 0 <= r.value <= 99
  {
    match Search(s, 0, DotScore)
    case Some(i) => Some(10 * DigitValue(s[i]) + DigitValue(s[i + 2]))
    case None =>
      match Search(s, 0, SlashScore)
      case Some(i) => Some(10 * DigitValue(s[i]))
      case None => None
  }

  /** `s.replace(',', '')`. */
  function RemoveCommas(s: string): string {
    if s == [] then []
    else (if s[0] == ',' then [] else [s[0]]) + RemoveCommas(s[1..])
  }

  /** Removing commas keeps every other character and leaves no comma. */
  lemma {:induction false} RemoveCommasSpec(s: string)
    ensures ',' !in RemoveCommas(s)
    ensures forall c :: c in RemoveCommas(s) <==> c in s && c != ','
  {
    if s != [] {
      RemoveCommasSpec(s[1..]);
      assert s == [s[0]] + s[1..];
    }
  }

  /** The length of the run of digits starting at `i`. */
  function DigitRun(s: string, i: nat): (n: nat)
    requires i <= |s|
    ensures i + n <= |s|
    decreases |s| - i
  {
    if i < |s| && IsDigit(s[i]) then 1 + DigitRun(s, i + 1) else 0
  }

  /** The run is all digits and ends at the text's end or at a non-digit. */
  lemma {:induction false} DigitRunSpec(s: string, i: nat)
    requires i <= |s|
    ensures forall k :: i <= k < i + DigitRun(s, i) ==> IsDigit(s[k])
    ensures i + DigitRun(s, i) == |s| || !IsDigit(s[i + DigitRun(s, i)])
    decreases |s| - i
  {
    if i < |s| && IsDigit(s[i]) {
      DigitRunSpec(s, i + 1);
    }
  }

  /**
   * `\((\d*).votes\)` matches at `i` with `l` digits in the group: `(`, the
   * digits, one character other than a newline, `votes` in any letter case, `)`.
   */
  predicate VotesFit(s: string, i: nat, l: nat) {
    && i + l + 8 <= |s|
    && s[i] == '('
    && (forall k :: i + 1 <= k < i + 1 + l ==> IsDigit(s[k]))
    && s[i + 1 + l] != '\n'
    && IsVotesText(Lower(s[i + 2 + l..i + 7 + l]))
    && s[i + 7 + l] == ')'
  }

  /** `t == 'votes'`, compared character by character. */
  predicate IsVotesText(t: string) {
    |t| == 5 && t[0] == 'v' && t[1] == 'o' && t[2] == 't' && t[3] == 'e' && t[4] == 's'
  }

  /** The longest group length at most `l` that fits at `i` (`\d*` gives back digits one at a time). */
  function LongestFit(s: string, i: nat, l: nat): (r: Option<nat>)
    ensures r.Some? ==> r.value <= l && i + r.value + 8 <= |s|
  {
    if VotesFit(s, i, l) then Some(l) else if l == 0 then None else LongestFit(s, i, l - 1)
  }

  /** `LongestFit` finds no length exactly when none fits, and otherwise the longest one. */
  lemma {:induction false} LongestFitSpec(s: string, i: nat, l: nat)
    ensures LongestFit(s, i, l).None? <==> forall m :: 0 <= m <= l ==> !VotesFit(s, i, m)
    ensures LongestFit(s, i, l).Some? ==>
      VotesFit(s, i, LongestFit(s, i, l).value) && forall m :: LongestFit(s, i, l).value < m <= l ==> !VotesFit(s, i, m)
  {
    if !VotesFit(s, i, l) && l > 0 {
      LongestFitSpec(s, i, l - 1);
    }
  }

  /** The vote pattern matches at `i`, with the group as long as the digit run allows. */
  predicate VotesAt(s: string, i: int) {
    0 <= i < |s| && LongestFit(s, i, DigitRun(s, i + 1)).Some?
  }

  /** The vote count: the digits the leftmost match captures, after removing commas. */
  function Votes(s: string): Option<string> {
    VotesIn(RemoveCommas(s))
  }

  /** A vote count is a string of digits. */
  lemma VotesAreDigits(s: string)
    ensures Votes(s).Some? ==> AllDigits(Votes(s).value)
  {
    VotesInAreDigits(RemoveCommas(s));
  }

  lemma VotesInAreDigits(t: string)
    ensures VotesIn(t).Some? ==> AllDigits(VotesIn(t).value)
  {
    var found := Search(t, 0, VoteCount);
    if found.Some? {
      var i := found.value;
      LongestFitSpec(t, i, DigitRun(t, i + 1));
      FitGroupIsDigits(t, i, LongestFit(t, i, DigitRun(t, i + 1)).value);
    }
  }

  /** The group of a fitting vote pattern is all digits. */
  lemma FitGroupIsDigits(t: string, i: nat, l: nat)
    requires VotesFit(t, i, l)
    ensures AllDigits(t[i + 1..i + 1 + l])
  {
    var v := t[i + 1..i + 1 + l];
    forall k | 0 <= k < |v|
      ensures IsDigit(v[k])
    {
      assert v[k] == t[i + 1 + k];
    }
  }

  /** The digits the leftmost match captures in `t`. */
  function VotesIn(t: string): Option<string> {
    match Search(t, 0, VoteCount)
    case Some(i) =>
      var l := LongestFit(t, i, DigitRun(t, i + 1)).value;
      Some(t[i + 1..i + 1 + l])
    case None => None
  }

  /** `parse_imdb`: the score and the vote count of a piece of text. */
  function ParseImdb(s: string): (Option<int>, Option<string>) {
    (Score(s), Votes(s))
  }

  /** A `d.d` anywhere wins over any `d/10`, even an earlier one. */
  lemma DotScoreWins(s: string, i: nat)
    requires DotScoreAt(s, i)
    ensures Score(s).Some? && Search(s, 0, DotScore).Some?
    ensures var k := Search(s, 0, DotScore).value;
      k <= i && Score(s) == Some(10 * DigitValue(s[k]) + DigitValue(s[k + 2]))
  {
    SearchIsLeftmost(s, 0, DotScore);
    assert MatchesAt(DotScore, s, i);
  }

  /** Without `d.d`, a `d/10` gives whole points; with neither, there is no score. */
  lemma SlashScoreIsWhole(s: string)
    requires forall i :: 0 <= i <= |s| ==> !DotScoreAt(s, i)
    ensures Score(s).Some? ==> Score(s).value % 10 == 0
    ensures Score(s).None? <==> forall i :: 0 <= i <= |s| ==> !SlashScoreAt(s, i)
  {
    SearchIsLeftmost(s, 0, DotScore);
    SearchIsLeftmost(s, 0, SlashScore);
    assert forall i :: 0 <= i <= |s| ==> !MatchesAt(DotScore, s, i);
    assert forall i :: MatchesAt(SlashScore, s, i) <==> SlashScoreAt(s, i);
  }

  lemma {:induction false} NoCommasUnchanged(s: string)
    requires ',' !in s
    ensures RemoveCommas(s) == s
  {
    if s != [] {
      NoCommasUnchanged(s[1..]);
    }
  }

  /** Commas anywhere in the text, thousands separators included, do not change the vote count. */
  lemma VotesIgnoreCommas(s: string)
    ensures Votes(s) == Votes(RemoveCommas(s))
  {
    RemoveCommasSpec(s);
    NoCommasUnchanged(RemoveCommas(s));
  }

  predicate AllDigits(d: string) {
    forall k :: 0 <= k < |d| ==> IsDigit(d[k])
  }

  /** `(1234 votes)` gives the whole digit string. */
  lemma VotesOfCount(d: string)
    requires |d| >= 1 && AllDigits(d)
    ensures Votes("(" + d + " votes)") == Some(d)
  {
    var t := "(" + d + " votes)";
    var n := |d|;
    assert forall k :: 1 <= k < 1 + n ==> t[k] == d[k - 1];
    assert t[1 + n] == ' ' && t[n + 2] == 'v' && t[n + 3] == 'o' && t[n + 4] == 't' && t[n + 5] == 'e';
    assert t[n + 6] == 's' && t[n + 7] == ')';
    assert ',' !in t;
    NoCommasUnchanged(t);
    DigitRunSpec(t, 1);
    assert DigitRun(t, 1) == n;
    VotesWordAt(t, n + 2);
    assert VotesFit(t, 0, n);
    assert VotesAt(t, 0);
    VotesAtStart(t, n);
    DigitsAfterParen(d, " votes)", n);
    assert d[..n] == d;
  }

  /** `(123votes)`: with nothing between the digits and `votes`, `\d*` gives its last digit back to `.`. */
  lemma VotesBacktrack(d: string)
    requires |d| >= 1 && AllDigits(d)
    ensures Votes("(" + d + "votes)") == Some(d[..|d| - 1])
  {
    var t := "(" + d + "votes)";
    var n := |d|;
    assert forall k :: 1 <= k < 1 + n ==> t[k] == d[k - 1];
    assert t[n + 1] == 'v' && t[n + 2] == 'o' && t[n + 3] == 't' && t[n + 4] == 'e' && t[n + 5] == 's';
    assert t[n + 6] == ')';
    assert ',' !in t;
    NoCommasUnchanged(t);
    DigitRunSpec(t, 1);
    assert DigitRun(t, 1) == n;
    NoRoomForVotes(t, n);
    VotesWordAt(t, n + 1);
    assert VotesFit(t, 0, n - 1);
    GiveBackOneDigit(t, n);
    assert VotesAt(t, 0);
    VotesAtStart(t, n - 1);
    DigitsAfterParen(d, "votes)", n - 1);
  }

  /** With `o` right after the digit run there is no room for `.votes`. */
  lemma NoRoomForVotes(t: string, n: nat)
    requires n + 7 <= |t| && t[n + 2] == 'o'
    ensures !VotesFit(t, 0, n)
  {
    var w := t[n + 2..n + 7];
    assert w[0] == 'o';
  }

  /** When the whole run does not fit but one digit fewer does, that is the longest fit. */
  lemma GiveBackOneDigit(t: string, n: nat)
    requires n >= 1 && !VotesFit(t, 0, n) && VotesFit(t, 0, n - 1)
    ensures LongestFit(t, 0, n) == Some(n - 1)
  {
  }

  lemma DigitsAfterParen(d: string, rest: string, m: nat)
    requires m <= |d|
    ensures ("(" + d + rest)[1..1 + m] == d[..m]
  {
    assert ("(" + d + rest)[1..1 + m] == d[..m] by {
      forall k | 0 <= k < m
        ensures ("(" + d + rest)[1..1 + m][k] == d[..m][k]
      {
      }
    }
  }

  /** `votes` written in lower case at `i`. */
  lemma VotesWordAt(t: string, i: nat)
    requires i + 5 <= |t|
    requires t[i] == 'v' && t[i + 1] == 'o' && t[i + 2] == 't' && t[i + 3] == 'e' && t[i + 4] == 's'
    ensures IsVotesText(Lower(t[i..i + 5]))
  {
    var w := t[i..i + 5];
    assert w[0] == 'v' && w[1] == 'o' && w[2] == 't' && w[3] == 'e' && w[4] == 's';
  }

  /** A match at the very start of the text is the leftmost one. */
  lemma VotesAtStart(t: string, l: nat)
    requires VotesAt(t, 0) && LongestFit(t, 0, DigitRun(t, 1)) == Some(l)
    ensures VotesIn(t) == Some(t[1..1 + l])
  {
    assert Search(t, 0, VoteCount) == Some(0);
  }

  // ---------------------------------------------------------------------------
  // parse_rlslog
  // ---------------------------------------------------------------------------

  /**
   * The title heading of an entry block: absent (the block is skipped),
   * without a link, with a link holding no single string, or the link's text.
   */
  datatype TitleHeading = NoHeading | NoTitleLink | NoLinkText | HeadingText(text: string)

  /**
   * The node two after a link (`link.next.next`): absent, a node holding no
   * single string, or its string.
   */
  datatype Following = NoNode | NoString | FollowingText(text: string)

  /**
   * A link of an entry body: its text (`None` when the tag holds no single
   * string), its `href` (`None` when the tag has none), the node two after it
   * (read for an IMDb link) and whether an entry with this url would be resolvable.
   */
  datatype RawLink = RawLink(name: Option<string>, href: Option<string>, following: Following, resolvable: bool)

  /**
   * An entry block of the page: its title heading, whether it has an entry
   * body, the string after its `imdb rating:` label (`None` without one), and
   * the body's links in order.
   */
  datatype RawEntry = RawEntry(title: TitleHeading, hasBody: bool, rating: Option<string>, links: seq<RawLink>)

  /** The keys of a release, named by `FieldName`. */
  datatype Key = Title | Url | ImdbUrl | ImdbScore | ImdbVotes

  /** The entry field a key is copied into. */
  function FieldName(k: Key): string {
    match k
    case Title => "title"
    case Url => "url"
    case ImdbUrl => "imdb_url"
    case ImdbScore => "imdb_score"
    case ImdbVotes => "imdb_votes"
  }

  type Release = map<Key, Value>

  /** The parsed score and votes stored in a release; a missing one is stored as `None`. */
  function WithImdb(r: Release, text: string): (r': Release)
    ensures forall k :: k in r' <==> k in r || k == ImdbScore || k == ImdbVotes
    ensures forall k :: k in r && k != ImdbScore && k != ImdbVotes ==> r'[k] == r[k]
  {
    WithParsed(r, ParseImdb(text))
  }

  function WithParsed(r: Release, parsed: (Option<int>, Option<string>)): (r': Release)
    ensures forall k :: k in r' <==> k in r || k == ImdbScore || k == ImdbVotes
    ensures forall k :: k in r && k != ImdbScore && k != ImdbVotes ==> r'[k] == r[k]
  {
    r[ImdbScore := if parsed.0.Some? then Int(parsed.0.value) else Null]
     [ImdbVotes := if parsed.1.Some? then Text(parsed.1.value) else Null]
  }

  /** `t == 'imdb'`, compared character by character. */
  predicate IsImdbText(t: string) {
    |t| == 4 && t[0] == 'i' && t[1] == 'm' && t[2] == 'd' && t[3] == 'b'
  }

  /** A link whose text, stripped and lower-cased, is `imdb`. */
  predicate IsImdbLink(link: RawLink) {
    link.name.Some? && IsImdbText(Lower(Strip(link.name.value)))
  }

  /**
   * The exception reading a link raises: a named link without `href` raises
   * KeyError, and an IMDb link with no node two after it raises AttributeError
   * on `.string`. A link without text is skipped before either is read.
   */
  function LinkError(link: RawLink): Option<PyError> {
    if link.name.None? then None
    else if link.href.None? then Some(KeyError("href"))
    else if IsImdbLink(link) && link.following.NoNode? then Some(AttributeError("string"))
    else None
  }

  /**
   * An IMDb link gives `imdb_url`; its following text is parsed only when
   * neither score nor votes is set.
   */
  function ImdbStep(r: Release, link: RawLink): (r': Release)
    requires link.href.Some?
    ensures ImdbUrl in r' && r'[ImdbUrl] == Text(link.href.value)
    ensures forall k :: k in r ==> k in r'
    ensures forall k :: k != ImdbUrl && k != ImdbScore && k != ImdbVotes ==> (k in r' <==> k in r)
    ensures forall k :: k in r && k != ImdbUrl && k != ImdbScore && k != ImdbVotes ==> r'[k] == r[k]
    ensures ImdbScore in r || ImdbVotes in r ==> r' == r[ImdbUrl := Text(link.href.value)]
  {
    var withUrl := r[ImdbUrl := Text(link.href.value)];
    if ImdbScore !in withUrl && ImdbVotes !in withUrl && link.following.FollowingText?
    then WithImdb(withUrl, link.following.text) else withUrl
  }

  /**
   * One link that raises nothing: the IMDb step for an IMDb link, and a
   * resolvable link becomes the `url`. A link without text (or, never reached
   * here, without `href`) leaves the release alone.
   */
  function LinkStep(r: Release, link: RawLink): (r': Release)
    ensures UrlIsText(r) ==> UrlIsText(r')
  {
    if link.name.None? || link.href.None? then r
    else
      var r1 := if IsImdbLink(link) then ImdbStep(r, link) else r;
      if link.resolvable then r1[Url := Text(link.href.value)] else r1
  }

  /** One link as the source reads it: its exception, or its step. */
  function LinkOutcome(r: Release, link: RawLink): Result<Release, PyError> {
    if LinkError(link).Some? then Err(LinkError(link).value) else Ok(LinkStep(r, link))
  }

  /** A link never removes a key, and never changes the title. */
  lemma LinkStepKeeps(r: Release, link: RawLink)
    ensures forall k :: k in r ==> k in LinkStep(r, link)
    ensures Title in r ==> LinkStep(r, link)[Title] == r[Title]
  {
  }

  /** A named, resolvable link sets the url to its `href`; any other link leaves the url alone. */
  lemma LinkStepUrl(r: Release, link: RawLink)
    ensures Url in LinkStep(r, link) <==> Url in r || GivesUrl(link)
    ensures GivesUrl(link) ==> LinkStep(r, link)[Url] == Text(link.href.value)
    ensures !GivesUrl(link) && Url in r ==> LinkStep(r, link)[Url] == r[Url]
  {
  }

  /** A url, when a release has one, is a link's text. */
  predicate UrlIsText(r: Release) {
    Url in r ==> r[Url].Text?
  }

  /** The steps of the body's links, when none of them raises. */
  function LinkSteps(r: Release, links: seq<RawLink>): (r': Release)
    ensures UrlIsText(r) ==> UrlIsText(r')
  {
    if links == [] then r else LinkStep(LinkSteps(r, links[..|links| - 1]), links[|links| - 1])
  }

  /**
   * The loop over the body's links as the source runs it: the first link that
   * raises ends it with its exception.
   */
  function LinkLoop(r: Release, links: seq<RawLink>): Result<Release, PyError> {
    if links == [] then Ok(r)
    else
      var n := |links| - 1;
      match LinkLoop(r, links[..n])
      case Err(e) => Err(e)
      case Ok(r0) => LinkOutcome(r0, links[n])
  }

  /** `links[k]` is the first link that raises. */
  predicate FirstRaisingLink(links: seq<RawLink>, k: int) {
    0 <= k < |links| && LinkError(links[k]).Some? && forall j :: 0 <= j < k ==> LinkError(links[j]).None?
  }

  /**
   * The links raise nothing exactly when no single link raises, and they then
   * give `LinkSteps`; otherwise the exception is that of the first raising link.
   */
  lemma LinkLoopOutcome(r: Release, links: seq<RawLink>)
    ensures LinkLoop(r, links).Ok? <==> forall k :: 0 <= k < |links| ==> LinkError(links[k]).None?
    ensures LinkLoop(r, links).Ok? ==> LinkLoop(r, links).value == LinkSteps(r, links)
    ensures LinkLoop(r, links).Err? ==>
      exists k :: FirstRaisingLink(links, k) && LinkLoop(r, links).error == LinkError(links[k]).value
  {
    LinkLoopOkExactly(r, links);
    LinkLoopFirstError(r, links);
  }

  lemma {:induction false} LinkLoopOkExactly(r: Release, links: seq<RawLink>)
    ensures LinkLoop(r, links).Ok? <==> forall k :: 0 <= k < |links| ==> LinkError(links[k]).None?
    ensures LinkLoop(r, links).Ok? ==> LinkLoop(r, links).value == LinkSteps(r, links)
  {
    if links != [] {
      var n := |links| - 1;
      LinkLoopOkExactly(r, links[..n]);
      assert forall k :: 0 <= k < n ==> links[..n][k] == links[k];
    }
  }

  lemma {:induction false} LinkLoopFirstError(r: Release, links: seq<RawLink>)
    ensures LinkLoop(r, links).Err? ==>
      exists k :: FirstRaisingLink(links, k) && LinkLoop(r, links).error == LinkError(links[k]).value
  {
    if links != [] {
      var n := |links| - 1;
      var init := links[..n];
      LinkLoopFirstError(r, init);
      LinkLoopOkExactly(r, init);
      if LinkLoop(r, init).Err? {
        var k :| FirstRaisingLink(init, k) && LinkLoop(r, init).error == LinkError(init[k]).value;
        assert init[k] == links[k];
        assert forall j :: 0 <= j < k ==> init[j] == links[j];
        assert FirstRaisingLink(links, k);
      } else if LinkError(links[n]).Some? {
        assert forall j :: 0 <= j < n ==> init[j] == links[j];
        assert FirstRaisingLink(links, n);
      }
    }
  }

  /** Once a prefix of the links has raised, the rest are never read. */
  lemma {:induction false} LinkLoopStopsAtError(r: Release, links: seq<RawLink>, i: nat)
    requires i <= |links| && LinkLoop(r, links[..i]).Err?
    ensures LinkLoop(r, links) == LinkLoop(r, links[..i])
  {
    if i < |links| {
      var n := |links| - 1;
      assert links[..n][..i] == links[..i];
      LinkLoopStopsAtError(r, links[..n], i);
    } else {
      assert links[..i] == links;
    }
  }

  /** The release of an entry block before its links are read. */
  function Heading(raw: RawEntry): (r: Release)
    requires raw.title.HeadingText?
    ensures Title in r && Url !in r
  {
    var r := map[Title := Text(Strip(raw.title.text))];
    if raw.rating.Some? then WithImdb(r, raw.rating.value) else r
  }

  /**
   * The release of an entry block, `None` when it is skipped or rejected for
   * want of a url, or the exception reading it raises: AttributeError for a
   * heading without its link or the link's text (read before the body is
   * looked for), or the first raising link's exception.
   */
  function ReleaseOf(raw: RawEntry): (r: Result<Option<Release>, PyError>)
    ensures r.Ok? && r.value.Some? ==> Url in r.value.value && r.value.value[Url].Text? && Title in r.value.value
  {
    match raw.title
    case NoHeading => Ok(None)
    case NoTitleLink => Err(AttributeError("string"))
    case NoLinkText => Err(AttributeError("strip"))
    case HeadingText(_) =>
      if !raw.hasBody then Ok(None)
      else
        match LinkLoop(Heading(raw), raw.links)
        case Err(e) => Err(e)
        case Ok(r) =>
          LinkLoopOutcome(Heading(raw), raw.links);
          LinkStepsKeepTitle(Heading(raw), raw.links);
          if Url in r then Ok(Some(r)) else Ok(None)
  }

  /**
   * Reading a block raises exactly when its heading lacks the link or the link
   * text, or when it has a readable heading and a body and one of its links
   * raises.
   */
  lemma BlockRaises(raw: RawEntry)
    ensures ReleaseOf(raw).Err? <==>
      || raw.title.NoTitleLink? || raw.title.NoLinkText?
      || (raw.title.HeadingText? && raw.hasBody && exists k :: 0 <= k < |raw.links| && LinkError(raw.links[k]).Some?)
  {
    if raw.title.HeadingText? && raw.hasBody {
      LinkLoopOutcome(Heading(raw), raw.links);
    }
  }

  lemma {:induction false} LinkStepsKeepTitle(r: Release, links: seq<RawLink>)
    ensures forall k :: k in r ==> k in LinkSteps(r, links)
    ensures Title in r ==> LinkSteps(r, links)[Title] == r[Title]
  {
    if links != [] {
      LinkStepsKeepTitle(r, links[..|links| - 1]);
      LinkStepKeeps(LinkSteps(r, links[..|links| - 1]), links[|links| - 1]);
    }
  }

  /**
   * The releases of a page, in page order; the first block whose reading
   * raises ends the page with its exception.
   */
  function Releases(raws: seq<RawEntry>): (rs: Result<seq<Release>, PyError>)
    ensures rs.Ok? ==> forall k :: 0 <= k < |rs.value| ==> Url in rs.value[k] && rs.value[k][Url].Text?
    ensures rs.Ok? ==> |rs.value| <= |raws|
  {
    if raws == [] then Ok([])
    else
      var n := |raws| - 1;
      match Releases(raws[..n])
      case Err(e) => Err(e)
      case Ok(rs) =>
        match ReleaseOf(raws[n])
        case Err(e) => Err(e)
        case Ok(r) => Ok(rs + if r.Some? then [r.value] else [])
  }

  /** `raws[k]` is the first block whose reading raises. */
  predicate FirstRaisingBlock(raws: seq<RawEntry>, k: int) {
    0 <= k < |raws| && ReleaseOf(raws[k]).Err? && forall j :: 0 <= j < k ==> ReleaseOf(raws[j]).Ok?
  }

  /**
   * A page gives its releases exactly when no block raises; otherwise the
   * whole page raises the first raising block's exception.
   */
  lemma ReleasesOutcome(raws: seq<RawEntry>)
    ensures Releases(raws).Ok? <==> forall k :: 0 <= k < |raws| ==> ReleaseOf(raws[k]).Ok?
    ensures Releases(raws).Err? ==>
      exists k :: FirstRaisingBlock(raws, k) && Releases(raws).error == ReleaseOf(raws[k]).error
  {
    ReleasesOkExactly(raws);
    ReleasesFirstError(raws);
  }

  lemma {:induction false} ReleasesOkExactly(raws: seq<RawEntry>)
    ensures Releases(raws).Ok? <==> forall k :: 0 <= k < |raws| ==> ReleaseOf(raws[k]).Ok?
  {
    if raws != [] {
      var n := |raws| - 1;
      ReleasesOkExactly(raws[..n]);
      assert forall k :: 0 <= k < n ==> raws[..n][k] == raws[k];
    }
  }

  lemma {:induction false} ReleasesFirstError(raws: seq<RawEntry>)
    ensures Releases(raws).Err? ==>
      exists k :: FirstRaisingBlock(raws, k) && Releases(raws).error == ReleaseOf(raws[k]).error
  {
    if raws != [] {
      var n := |raws| - 1;
      var init := raws[..n];
      ReleasesFirstError(init);
      ReleasesOkExactly(init);
      if Releases(init).Err? {
        var k :| FirstRaisingBlock(init, k) && Releases(init).error == ReleaseOf(init[k]).error;
        assert init[k] == raws[k];
        assert forall j :: 0 <= j < k ==> init[j] == raws[j];
        assert FirstRaisingBlock(raws, k);
      } else if ReleaseOf(raws[n]).Err? {
        assert forall j :: 0 <= j < n ==> init[j] == raws[j];
        assert FirstRaisingBlock(raws, n);
      }
    }
  }

  /** Once a prefix of the page has raised, the remaining blocks are never read. */
  lemma {:induction false} ReleasesStopAtError(raws: seq<RawEntry>, i: nat)
    requires i <= |raws| && Releases(raws[..i]).Err?
    ensures Releases(raws) == Releases(raws[..i])
  {
    if i < |raws| {
      var n := |raws| - 1;
      assert raws[..n][..i] == raws[..i];
      ReleasesStopAtError(raws[..n], i);
    } else {
      assert raws[..i] == raws;
    }
  }

  /** A link's url is read only from a named, resolvable link with an `href`. */
  predicate GivesUrl(link: RawLink) {
    link.name.Some? && link.href.Some? && link.resolvable
  }

  /**
   * A block with a title and a body is kept exactly when one of its links
   * gives a url, and the url is the `href` of the last such link.
   */
  lemma {:induction false} UrlIsLastResolvableLink(r: Release, links: seq<RawLink>)
    requires Url !in r
    ensures Url in LinkSteps(r, links) <==> HasUrlLink(links)
    ensures Url in LinkSteps(r, links) ==>
      exists k :: LastUrlLink(links, k) && LinkSteps(r, links)[Url] == Text(links[k].href.value)
  {
    if links != [] {
      var n := |links| - 1;
      UrlIsLastResolvableLink(r, links[..n]);
      LinkStepsSnoc(r, links, n);
      assert links[..n + 1] == links;
      var r0 := LinkSteps(r, links[..n]);
      LinkStepUrl(r0, links[n]);
      if GivesUrl(links[n]) {
        assert LastUrlLink(links, n);
      } else {
        UrlLinksOfPrefix(links);
        if Url in r0 {
          var k :| LastUrlLink(links[..n], k) && r0[Url] == Text(links[..n][k].href.value);
          assert LastUrlLink(links, k);
        }
      }
    }
  }

  /** One of `links` gives a url. */
  predicate HasUrlLink(links: seq<RawLink>) {
    exists k :: 0 <= k < |links| && GivesUrl(links[k])
  }

  /** `links[k]` is the last link that gives a url. */
  predicate LastUrlLink(links: seq<RawLink>, k: int) {
    0 <= k < |links| && GivesUrl(links[k]) && forall j :: k < j < |links| ==> !GivesUrl(links[j])
  }

  /** A last link that gives no url changes neither which link is last nor whether there is one. */
  lemma UrlLinksOfPrefix(links: seq<RawLink>)
    requires links != [] && !GivesUrl(links[|links| - 1])
    ensures HasUrlLink(links) <==> HasUrlLink(links[..|links| - 1])
    ensures forall k :: LastUrlLink(links[..|links| - 1], k) ==> LastUrlLink(links, k)
    ensures forall k :: 0 <= k < |links| - 1 ==> links[..|links| - 1][k] == links[k]
  {
    var n := |links| - 1;
    if HasUrlLink(links) {
      var k :| 0 <= k < |links| && GivesUrl(links[k]);
      assert links[..n][k] == links[k];
    }
  }


  /**
   * Once a score or a vote count is set (from the rating label or an earlier
   * IMDb link), later IMDb links never change either of them.
   */
  lemma {:induction false} ScoreIsParsedOnce(r: Release, links: seq<RawLink>)
    requires ImdbScore in r || ImdbVotes in r
    ensures ScoreKept(r, LinkSteps(r, links))
  {
    if links != [] {
      var n := |links| - 1;
      ScoreIsParsedOnce(r, links[..n]);
      ScoreIsParsedOnceStep(LinkSteps(r, links[..n]), links[n]);
    }
  }

  /** `after` has the score and the vote count of `r`, present or absent alike. */
  predicate ScoreKept(r: Release, after: Release) {
    && (ImdbScore in r <==> ImdbScore in after)
    && (ImdbVotes in r <==> ImdbVotes in after)
    && (ImdbScore in r ==> after[ImdbScore] == r[ImdbScore])
    && (ImdbVotes in r ==> after[ImdbVotes] == r[ImdbVotes])
  }

  lemma ScoreIsParsedOnceStep(r: Release, link: RawLink)
    requires ImdbScore in r || ImdbVotes in r
    ensures ScoreKept(r, LinkStep(r, link))
  {
    if link.name.Some? && link.href.Some? {
      var r1 := if IsImdbLink(link) then ImdbStep(r, link) else r;
      ScoreKeptByUpdates(r, r1, link);
      UrlUpdateKeepsScore(r, r1, link.href.value, link.resolvable);
    }
  }

  lemma ScoreKeptByUpdates(r: Release, r1: Release, link: RawLink)
    requires ImdbScore in r || ImdbVotes in r
    requires link.href.Some?
    requires r1 == if IsImdbLink(link) then ImdbStep(r, link) else r
    ensures ScoreKept(r, r1)
  {
  }

  lemma UrlUpdateKeepsScore(r: Release, r1: Release, href: string, resolvable: bool)
    requires ScoreKept(r, r1)
    ensures ScoreKept(r, if resolvable then r1[Url := Text(href)] else r1)
  {
  }

  /** `parse_rlslog`: the loop over the page's entry blocks; a raising block ends it. */
  method ParseRlslog(raws: seq<RawEntry>) returns (releases: Result<seq<Release>, PyError>)
    ensures releases == Releases(raws)
  {
    var found: seq<Release> := [];
    var i := 0;
    while i < |raws|
      invariant 0 <= i <= |raws|
      invariant Releases(raws[..i]) == Ok(found)
    {
      assert raws[..i + 1][..i] == raws[..i];
      var release := ParseEntry(raws[i]);
      if release.Err? {
        ReleasesStopAtError(raws, i + 1);
        return Err(release.error);
      }
      var kept := if release.value.Some? then [release.value.value] else [];
      assert raws[..i + 1][i] == raws[i];
      found := found + kept;
      i := i + 1;
    }
    assert raws[..i] == raws;
    return Ok(found);
  }

  /** The body of the loop for one entry block, with its loop over links. */
  method ParseEntry(raw: RawEntry) returns (release: Result<Option<Release>, PyError>)
    ensures release == ReleaseOf(raw)
  {
    if raw.title.NoHeading? {
      return Ok(None);
    }
    if raw.title.NoTitleLink? {
      return Err(AttributeError("string"));
    }
    if raw.title.NoLinkText? {
      return Err(AttributeError("strip"));
    }
    if !raw.hasBody {
      return Ok(None);
    }
    var r := map[Title := Text(Strip(raw.title.text))];
    if raw.rating.Some? {
      r := WithImdb(r, raw.rating.value);
    }
    var read := ReadLinks(r, raw.links);
    if read.Err? {
      return Err(read.error);
    }
    LinkLoopOutcome(r, raw.links);
    LinkStepsKeepTitle(r, raw.links);
    if Url in read.value {
      return Ok(Some(read.value));
    }
    return Ok(None);
  }

  /** The loop over the body's links; a raising link ends it. */
  method ReadLinks(r0: Release, links: seq<RawLink>) returns (r: Result<Release, PyError>)
    ensures r == LinkLoop(r0, links)
  {
    var release := r0;
    var k := 0;
    while k < |links|
      invariant 0 <= k <= |links|
      invariant LinkLoop(r0, links[..k]) == Ok(release)
    {
      assert links[..k + 1][..k] == links[..k];
      var step := ReadLink(release, links[k]);
      if step.Err? {
        LinkLoopStopsAtError(r0, links, k + 1);
        return step;
      }
      release := step.value;
      k := k + 1;
    }
    assert links[..k] == links;
    return Ok(release);
  }

  lemma LinkStepsSnoc(r: Release, links: seq<RawLink>, k: nat)
    requires k < |links|
    ensures LinkSteps(r, links[..k + 1]) == LinkStep(LinkSteps(r, links[..k]), links[k])
  {
    assert links[..k + 1][..k] == links[..k];
  }

  /** The body of the loop over links, for one link. */
  method ReadLink(r0: Release, link: RawLink) returns (r: Result<Release, PyError>)
    ensures r == LinkOutcome(r0, link)
  {
    if link.name.None? {
      return Ok(r0);
    }
    if link.href.None? {
      return Err(KeyError("href"));
    }
    var release := r0;
    if IsImdbLink(link) {
      var imdb := ReadImdbLink(r0, link);
      if imdb.Err? {
        return imdb;
      }
      release := imdb.value;
    }
    if link.resolvable {
      release := release[Url := Text(link.href.value)];
    }
    return Ok(release);
  }

  /**
   * An IMDb link: `imdb_url`, then the node two after the link is read (and
   * raises when there is none); its text is parsed when neither score nor
   * votes is set.
   */
  method ReadImdbLink(r0: Release, link: RawLink) returns (r: Result<Release, PyError>)
    requires link.href.Some?
    ensures r == if link.following.NoNode? then Err(AttributeError("string")) else Ok(ImdbStep(r0, link))
  {
    var release := r0[ImdbUrl := Text(link.href.value)];
    if link.following.NoNode? {
      return Err(AttributeError("string"));
    }
    if ImdbScore !in release && ImdbVotes !in release && link.following.FollowingText? {
      release := WithImdb(release, link.following.text);
    }
    return Ok(release);
  }

  // ---------------------------------------------------------------------------
  // run
  // ---------------------------------------------------------------------------

  /** The keys `run` copies from a release into its entry, in copy order. */
  const CopiedFields: seq<Key> := [Title, Url, ImdbUrl, ImdbScore, ImdbVotes]

  /** The entry fields after `apply_field` has run for each of `keys` in turn. */
  function CopiedUpTo(r: Release, keys: seq<Key>): Fields {
    if keys == [] then map[]
    else
      var f := CopiedUpTo(r, keys[..|keys| - 1]);
      var k := keys[|keys| - 1];
      if k in r && r[k] != Null then f[FieldName(k) := r[k]] else f
  }

  lemma FieldNameInjective(k: Key, k': Key)
    ensures FieldName(k) == FieldName(k') ==> k == k'
  {
    if k != k' {
      assert FieldName(k)[0] != FieldName(k')[0] || |FieldName(k)| != |FieldName(k')|
        || FieldName(k)[5] != FieldName(k')[5];
    }
  }

  lemma {:induction false} CopiedUpToFields(r: Release, keys: seq<Key>)
    ensures forall k :: FieldName(k) in CopiedUpTo(r, keys) <==> k in keys && k in r && r[k] != Null
    ensures forall k :: FieldName(k) in CopiedUpTo(r, keys) ==> CopiedUpTo(r, keys)[FieldName(k)] == r[k]
    ensures forall n :: n in CopiedUpTo(r, keys) ==> exists k :: FieldName(k) == n
  {
    if keys != [] {
      var init := keys[..|keys| - 1];
      CopiedUpToFields(r, init);
      forall k, k'
        ensures FieldName(k) == FieldName(k') ==> k == k'
      {
        FieldNameInjective(k, k');
      }
      assert keys == init + [keys[|keys| - 1]];
    }
  }

  /**
   * The entry fields of a release: exactly the keys it has with a value other
   * than `None`, under their field names, and nothing else.
   */
  function Copied(r: Release): (f: Fields)
    ensures forall k :: FieldName(k) in f <==> k in r && r[k] != Null
    ensures forall k :: FieldName(k) in f ==> f[FieldName(k)] == r[k]
    ensures forall n :: n in f ==> exists k :: FieldName(k) == n
  {
    CopiedUpToFields(r, CopiedFields);
    assert forall k :: k in CopiedFields by {
      assert CopiedFields[0] == Title && CopiedFields[1] == Url && CopiedFields[2] == ImdbUrl;
      assert CopiedFields[3] == ImdbScore && CopiedFields[4] == ImdbVotes;
    }
    CopiedUpTo(r, CopiedFields)
  }

  /** Every entry made from a release has its url, as text, and no `None` value. */
  lemma EntriesHaveUrl(raws: seq<RawEntry>, k: nat)
    requires Releases(raws).Ok? && k < |Releases(raws).value|
    ensures var f := Copied(Releases(raws).value[k]);
      "url" in f && f["url"].Text? && forall n :: n in f ==> f[n] != Null
  {
    var f := Copied(Releases(raws).value[k]);
    assert FieldName(Url) == "url";
    forall n | n in f
      ensures f[n] != Null
    {
      var key :| FieldName(key) == n;
    }
  }

  /** `apply_field`: copy one field when the release has it with a value other than `None`. */
  method ApplyField(dFrom: Release, dTo: Entry, f: Key)
    modifies dTo
    ensures dTo.mark == old(dTo.mark)
    ensures dTo.fields == if f in dFrom && dFrom[f] != Null then old(dTo.fields)[FieldName(f) := dFrom[f]] else old(dTo.fields)
  {
    if f in dFrom {
      if dFrom[f] == Null {
        return;
      }
      dTo.fields := dTo.fields[FieldName(f) := dFrom[f]];
    }
  }

  /** A new entry for one release, filled by `apply_field` for each copied key. */
  method EntryOf(release: Release) returns (entry: Entry)
    ensures fresh(entry)
    ensures entry.fields == Copied(release) && entry.mark == Mark(Undecided, "")
  {
    entry := new Entry(map[]);
    var i := 0;
    while i < |CopiedFields|
      invariant 0 <= i <= |CopiedFields|
      invariant entry.mark == Mark(Undecided, "")
      invariant entry.fields == CopiedUpTo(release, CopiedFields[..i])
    {
      ApplyField(release, entry, CopiedFields[i]);
      assert CopiedFields[..i + 1][..i] == CopiedFields[..i];
      i := i + 1;
    }
    assert CopiedFields[..i] == CopiedFields;
  }

  /** An undecided entry holding the copied fields of a release. */
  predicate NewEntryOf(e: Entry, r: Release)
    reads e
  {
    e.fields == Copied(r) && e.mark == Mark(Undecided, "")
  }

  const SoupMissing := "Module rlslog requires BeautifulSoup. Please install it from http://www.crummy.com/software/BeautifulSoup/ or from your distribution repository."

  /**
   * How fetching the page failed: an HTTPError, URLError or BadStatusLine,
   * which `run` turns into a `Warning` with the given message, or any other
   * exception, which `run` lets through as it is.
   */
  datatype FetchFailure = Converted(message: string) | Uncaught(error: PyError)

  /**
   * `run`: without BeautifulSoup it raises; a page that cannot be fetched
   * raises a warning or the fetch's own exception; a block whose reading raises
   * ends `run` with that exception; otherwise one new undecided entry per
   * release is appended to the task's entries, in release order.
   */
  method Run(task: Task, soupPresent: bool, page: Result<seq<RawEntry>, FetchFailure>) returns (err: Option<PyError>)
    modifies task`allEntries
    ensures !soupPresent ==> err == Some(Exception(SoupMissing)) && task.allEntries == old(task.allEntries)
    ensures soupPresent && page.Err? ==> task.allEntries == old(task.allEntries)
    ensures soupPresent && page.Err? && page.error.Converted? ==> err == Some(Warning(page.error.message))
    ensures soupPresent && page.Err? && page.error.Uncaught? ==> err == Some(page.error.error)
    ensures soupPresent && page.Ok? && Releases(page.value).Err? ==>
      err == Some(Releases(page.value).error) && task.allEntries == old(task.allEntries)
    ensures soupPresent && page.Ok? && Releases(page.value).Ok? ==>
      var releases := Releases(page.value).value;
      && err == None
      && |task.allEntries| == |old(task.allEntries)| + |releases|
      && task.allEntries[..|old(task.allEntries)|] == old(task.allEntries)
      && forall k :: 0 <= k < |releases| ==> NewEntryOf(task.allEntries[|old(task.allEntries)| + k], releases[k])
  {
    if !soupPresent {
      return Some(Exception(SoupMissing));
    }
    if page.Err? {
      match page.error
      case Converted(message) => return Some(Warning(message));
      case Uncaught(e) => return Some(e);
    }
    var releases := ParseRlslog(page.value);
    if releases.Err? {
      return Some(releases.error);
    }
    AddEntries(task, releases.value);
    return None;
  }

  /** The loop of `run` that appends one new entry per release. */
  method AddEntries(task: Task, releases: seq<Release>)
    modifies task`allEntries
    ensures |task.allEntries| == |old(task.allEntries)| + |releases|
    ensures task.allEntries[..|old(task.allEntries)|] == old(task.allEntries)
    ensures forall k :: 0 <= k < |releases| ==>
      fresh(task.allEntries[|old(task.allEntries)| + k])
      && NewEntryOf(task.allEntries[|old(task.allEntries)| + k], releases[k])
  {
    ghost var created: seq<Entry> := [];
    var i := 0;
    while i < |releases|
      invariant 0 <= i <= |releases| && |created| == i
      invariant task.allEntries == old(task.allEntries) + created
      invariant forall k :: 0 <= k < i ==> fresh(created[k]) && NewEntryOf(created[k], releases[k])
    {
      var entry := EntryOf(releases[i]);
      task.allEntries := task.allEntries + [entry];
      created := created + [entry];
      i := i + 1;
    }
    forall k | 0 <= k < |releases|
      ensures task.allEntries[|old(task.allEntries)| + k] == created[k]
    {
    }
  }
}
