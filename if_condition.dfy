/**
 * The `if` plugin (flexget/plugins/filter/if_condition.py): configuration items
 * pair a condition with an action. At process start every item is sorted into
 * the phases its action runs in; at each of those phases the entries whose
 * condition holds are selected, and either receive accept, reject or fail
 * directly, or are handed, as a derived task holding the very same entry
 * objects, to the handlers of other plugins.
 *
 * Python's `eval` is not modelled: a condition is evaluated by an `Evaluator`,
 * a function parameter that returns a value or raises. Only the textual ban in
 * front of it and the handling of its outcome are modelled.
 */
module IfCondition {
  import opened Wrappers
  import opened Text
  import opened Engine

  // ---------------------------------------------------------------------------
  // The banned forms: `__`, `try\s*:` and `lambda`
  // ---------------------------------------------------------------------------

  /** `\s*:` matches at the start of `s` (ASCII whitespace, then a colon). */
  predicate SpacesThenColon(s: string)
    decreases |s|
  {
    s != [] && (s[0] == ':' || (IsReSpace(s[0]) && SpacesThenColon(s[1..])))
  }

  /** One of the alternatives of `__|try\s*:|lambda` matches at the start of `s`. */
  predicate BannedAt(s: string) {
    StartsWith(s, "__") || StartsWith(s, "lambda") || (StartsWith(s, "try") && SpacesThenColon(s[3..]))
  }

  /** `re.search(r'__|try\s*:|lambda', s)` finds a match: a banned form starts somewhere in `s`. */
  predicate ContainsBanned(s: string)
    decreases |s|
  {
    BannedAt(s) || (s != [] && ContainsBanned(s[1..]))
  }

  /** `ContainsBanned` searches every position of the text. */
  lemma {:induction false} ContainsBannedSearches(s: string)
    ensures ContainsBanned(s) <==> exists i :: 0 <= i <= |s| && BannedAt(s[i..])
    decreases |s|
  {
    if s != [] {
      ContainsBannedSearches(s[1..]);
      if BannedAt(s) {
        assert s[0..] == s;
      }
      if ContainsBanned(s[1..]) {
        var i :| 0 <= i <= |s[1..]| && BannedAt(s[1..][i..]);
        assert s[1..][i..] == s[i + 1..];
      }
      if i :| 0 <= i <= |s| && BannedAt(s[i..]) {
        if i > 0 {
          assert s[i..] == s[1..][i - 1..];
          assert 0 <= i - 1 <= |s[1..]| && BannedAt(s[1..][i - 1..]);
        } else {
          assert s[i..] == s;
        }
      }
    } else {
      assert s[0..] == s;
    }
  }

  /**
   * The reject pattern of the key validator, `.*?(__|try\s*:|lambda)`, matches
   * at the start of the key: `.` does not cross a line break, so a banned form
   * must start on the key's first line.
   */
  predicate RejectMatch(s: string)
    decreases |s|
  {
    BannedAt(s) || (s != [] && s[0] != '\n' && RejectMatch(s[1..]))
  }

  /** The accept pattern `.` matches at the start of the key: it is not empty and does not start with a line break. */
  predicate AcceptMatch(s: string) {
    s != [] && s[0] != '\n'
  }

  /** A condition key the validator lets through. */
  predicate KeyValid(k: string) {
    !RejectMatch(k) && AcceptMatch(k)
  }

  /** Every key the validator rejects is one `safer_eval` would refuse as well. */
  lemma {:induction false} RejectedKeyIsBanned(k: string)
    requires RejectMatch(k)
    ensures ContainsBanned(k)
    decreases |k|
  {
    if !BannedAt(k) {
      RejectedKeyIsBanned(k[1..]);
    }
  }

  /** On a key without line breaks the validator and `safer_eval` agree exactly. */
  lemma {:induction false} SingleLineKeysAgree(k: string)
    requires '\n' !in k
    ensures RejectMatch(k) <==> ContainsBanned(k)
    decreases |k|
  {
    if k != [] {
      assert k[0] in k;
      assert forall c :: c in k[1..] ==> c in k;
      SingleLineKeysAgree(k[1..]);
    }
  }

  /**
   * The reject pattern cannot look past the first line break: if no banned form
   * starts at or before the break at position `n`, the pattern does not match.
   */
  lemma {:induction false} NoRejectBeforeBreak(k: string, n: nat)
    requires n < |k| && k[n] == '\n' && '\n' !in k[..n]
    requires forall i :: 0 <= i <= n ==> !BannedAt(k[i..])
    ensures !RejectMatch(k)
    decreases n
  {
    assert k[0..] == k;
    if n > 0 {
      assert k[0] in k[..n];
      var t := k[1..];
      assert t[..n - 1] == k[1..n];
      assert forall c :: c in k[1..n] ==> c in k[..n];
      forall i | 0 <= i <= n - 1
        ensures !BannedAt(t[i..])
      {
        assert t[i..] == k[i + 1..];
      }
      NoRejectBeforeBreak(t, n - 1);
    }
  }

  /**
   * A key whose first line holds no banned form, but whose later lines do,
   * passes the validator (`.` does not cross a line break) and is still refused
   * when it is evaluated. The first line must not be empty, since the accept
   * pattern refuses a leading line break; a `try` on the first line whose
   * `\s*:` runs across the break counts as a banned form of the first line.
   */
  lemma {:induction false} MultiLineKeyPassesValidation(first: string, rest: string)
    requires first != [] && '\n' !in first
    requires forall i :: 0 <= i <= |first| ==> !BannedAt((first + "\n" + rest)[i..])
    requires ContainsBanned(rest)
    ensures KeyValid(first + "\n" + rest) && ContainsBanned(first + "\n" + rest)
  {
    var k := first + "\n" + rest;
    var n := |first|;
    assert k[..n] == first && k[n] == '\n';
    NoRejectBeforeBreak(k, n);
    assert k[0] == first[0] && first[0] in first;
    ContainsBannedSearches(rest);
    var i :| 0 <= i <= |rest| && BannedAt(rest[i..]);
    assert k[n + 1 + i..] == rest[i..];
    ContainsBannedSearches(k);
  }

  /** The key `x\n__` is one such key, so the validator and `safer_eval` are not equivalent. */
  lemma ValidatorWeakerThanEval()
    ensures KeyValid("x\n__") && ContainsBanned("x\n__")
  {
    var k := "x\n__";
    assert "x" + "\n" + "__" == k;
    assert k[0..][..2][0] != "__"[0] && k[0..][..3][0] != "try"[0];
    assert k[1..][..2][0] != "__"[0] && k[1..][..3][0] != "try"[0];
    assert BannedAt("__");
    MultiLineKeyPassesValidation("x", "__");
  }

  // ---------------------------------------------------------------------------
  // Configuration items and the validator
  // ---------------------------------------------------------------------------

  /** The action of an item: a status call named by a string, or nested plugins with their configurations. */
  datatype Action =
    | Simple(name: string)
    | Nested(plugins: seq<(string, Value)>)

  /** One configuration item: a condition and its action (the item's first key/value pair). */
  datatype Item = Item(requirement: string, action: Action)

  /** The status call `entry_actions` maps a string action to. */
  function VerbNamed(name: string): (r: Option<Verb>)
    ensures r.Some? <==> name in ["accept", "reject", "fail"]
    ensures r == Some(Accept) <==> name == "accept"
    ensures r == Some(Reject) <==> name == "reject"
    ensures r == Some(Fail) <==> name == "fail"
  {
    if name == "accept" then Some(Accept)
    else if name == "reject" then Some(Reject)
    else if name == "fail" then Some(Fail)
    else None
  }

  /** A plugin may be named in a nested action: API version above 1, a validator, and no input handler. */
  predicate ActionAllowed(info: PluginInfo) {
    info.apiVer > 1 && info.hasValidator && HandlerFor(info.handlers, "input").None?
  }

  /** The keys the nested-action dictionary accepts: the names of the allowed plugins. */
  function AllowedNames(plugins: map<string, PluginInfo>): (r: set<string>)
    ensures forall n :: n in r <==> exists key :: key in plugins && ActionAllowed(plugins[key]) && plugins[key].name == n
  {
    set key | key in plugins && ActionAllowed(plugins[key]) :: plugins[key].name
  }

  /**
   * The validator: a valid key, and either one of the three status names or a
   * dictionary whose keys are allowed plugin names. The configuration each
   * nested plugin receives is checked by that plugin's own validator, which is
   * not part of this model.
   */
  predicate ItemValid(item: Item, plugins: map<string, PluginInfo>) {
    && KeyValid(item.requirement)
    && match item.action
       case Simple(name) => VerbNamed(name).Some?
       case Nested(ps) => forall k :: 0 <= k < |ps| ==> ps[k].0 in AllowedNames(plugins)
  }

  predicate ConfigValid(config: seq<Item>, plugins: map<string, PluginInfo>) {
    forall k :: 0 <= k < |config| ==> ItemValid(config[k], plugins)
  }

  /** Each plugin is registered under its own name. */
  predicate NamesAgree(plugins: map<string, PluginInfo>) {
    forall n :: n in plugins ==> plugins[n].name == n
  }

  // ---------------------------------------------------------------------------
  // Evaluating a condition: `safer_eval` and `check_condition`
  // ---------------------------------------------------------------------------

  datatype EvalError = NameError(name: string) | ValueError(message: string) | OtherError

  /** What evaluating a statement does: it returns a value or raises. */
  datatype Outcome = Returned(value: Value) | Raised(error: EvalError)

  /** Python's `eval(statement, {'__builtins__': None}, locals)`, as a parameter. */
  type Evaluator = (string, Fields) -> Outcome

  const BanMessage := "`__`, lambda or try blocks not allowed in if statements."

  /** The builtins `safer_eval` makes visible to a statement. */
  const AllowedBuiltins: seq<string> := ["True", "False", "str", "unicode", "int", "float", "len", "any", "all", "sorted"]

  /** The value `safer_eval` stores under a builtin's name. */
  function BuiltinValue(name: string): Value {
    if name == "True" then Bool(true) else if name == "False" then Bool(false) else Callable(name)
  }

  /** `locals` after `safer_eval` has stored the allowed builtins in it. */
  function WithBuiltins(locals: Fields): (r: Fields)
    ensures r.Keys == locals.Keys + (set n | n in AllowedBuiltins)
    ensures forall n :: n in AllowedBuiltins ==> r[n] == BuiltinValue(n)
    ensures forall n :: n in locals && n !in AllowedBuiltins ==> r[n] == locals[n]
  {
    map n | n in locals.Keys + (set b | b in AllowedBuiltins) :: if n in AllowedBuiltins then BuiltinValue(n) else locals[n]
  }

  /** `safer_eval`: a statement with a banned form raises before anything is evaluated. */
  function SaferEval(statement: string, locals: Fields, eval: Evaluator): (r: Outcome)
    ensures ContainsBanned(statement) ==> r == Raised(ValueError(BanMessage))
    ensures !ContainsBanned(statement) ==> r == eval(statement, WithBuiltins(locals))
  {
    if ContainsBanned(statement) then Raised(ValueError(BanMessage))
    else eval(statement, WithBuiltins(locals))
  }

  /** The namespace `check_condition` evaluates in: the entry's fields and three helpers. */
  function EvalLocals(fields: Fields, now: int): (r: Fields)
    ensures r.Keys == fields.Keys + {"has_field", "timedelta", "now"}
    ensures r["now"] == Date(now)
    ensures forall n :: n in fields && n !in {"has_field", "timedelta", "now"} ==> r[n] == fields[n]
  {
    fields["has_field" := Callable("has_field")]["timedelta" := Callable("timedelta")]["now" := Date(now)]
  }

  /**
   * `check_condition`: the value the statement returns, or `None` when it
   * raises (a missing field, the ban, or any other error).
   */
  function CheckCondition(requirement: string, fields: Fields, eval: Evaluator, now: int): (r: Value)
    ensures SaferEval(requirement, EvalLocals(fields, now), eval).Raised? ==> r == Null
    ensures SaferEval(requirement, EvalLocals(fields, now), eval).Returned? ==>
      r == SaferEval(requirement, EvalLocals(fields, now), eval).value
  {
    match SaferEval(requirement, EvalLocals(fields, now), eval)
    case Returned(v) => v
    case Raised(_) => Null
  }

  /** An entry passes a condition when `check_condition` returns a truthy value. */
  predicate Passes(requirement: string, fields: Fields, eval: Evaluator, now: int) {
    Truthy(CheckCondition(requirement, fields, eval, now))
  }

  /** A statement with a banned form selects no entry, whatever the evaluator would have done. */
  lemma BannedNeverPasses(requirement: string, fields: Fields, eval: Evaluator, now: int)
    requires ContainsBanned(requirement)
    ensures !Passes(requirement, fields, eval, now)
  {
  }

  /** An evaluation that raises selects no entry. */
  lemma RaisingNeverPasses(requirement: string, fields: Fields, eval: Evaluator, now: int)
    requires eval(requirement, WithBuiltins(EvalLocals(fields, now))).Raised?
    ensures !Passes(requirement, fields, eval, now)
  {
  }

  // ---------------------------------------------------------------------------
  // Bucketing at process start
  // ---------------------------------------------------------------------------

  /** The phase dictionary of one task (a `defaultdict(list)`), and the exception that stopped filling it, if any. */
  datatype Buckets = Buckets(phases: map<string, seq<Item>>, error: Option<PyError>)

  /** `phase_dict[phase].append(item)`. */
  function Append(phases: map<string, seq<Item>>, phase: string, item: Item): (r: map<string, seq<Item>>)
    ensures r.Keys == phases.Keys + {phase}
    ensures BucketOf(r, phase) == BucketOf(phases, phase) + [item]
    ensures forall p :: p != phase ==> BucketOf(r, p) == BucketOf(phases, p)
  {
    phases[phase := BucketOf(phases, phase) + [item]]
  }

  /** Reading a `defaultdict(list)`: a missing phase holds the empty list. */
  function BucketOf(phases: map<string, seq<Item>>, phase: string): (r: seq<Item>)
    ensures phase in phases ==> r == phases[phase]
    ensures phase !in phases ==> r == []
  {
    if phase in phases then phases[phase] else []
  }

  /**
   * The loop over one nested plugin's handlers: the item goes into the bucket of
   * every phase but `process_start`, whose handler runs at once and whose
   * `TypeError` is swallowed while any other exception stops the bucketing.
   */
  function BucketHandlers(phases: map<string, seq<Item>>, handlers: seq<(string, Handler)>, item: Item): Buckets
  {
    if handlers == [] then Buckets(phases, None)
    else
      var r := BucketHandlers(phases, handlers[..|handlers| - 1], item);
      var (phase, h) := handlers[|handlers| - 1];
      if r.error.Some? then r
      else if phase == "process_start" then
        if h.Raises? && h.error != TypeError then Buckets(r.phases, Some(h.error)) else r
      else Buckets(Append(r.phases, phase, item), None)
  }

  /** The loop over a nested action's plugins: an unknown plugin name stops the bucketing. */
  function BucketPlugins(phases: map<string, seq<Item>>, ps: seq<(string, Value)>, plugins: map<string, PluginInfo>, item: Item): Buckets
  {
    if ps == [] then Buckets(phases, None)
    else
      var r := BucketPlugins(phases, ps[..|ps| - 1], plugins, item);
      if r.error.Some? then r
      else match PluginByName(plugins, ps[|ps| - 1].0)
        case Err(e) => Buckets(r.phases, Some(e))
        case Ok(info) => BucketHandlers(r.phases, info.handlers, item)
  }

  /** One item: a string action goes into the `filter` bucket, a nested action wherever its plugins have handlers. */
  function BucketItem(phases: map<string, seq<Item>>, item: Item, plugins: map<string, PluginInfo>): Buckets {
    match item.action
    case Simple(_) => Buckets(Append(phases, "filter", item), None)
    case Nested(ps) => BucketPlugins(phases, ps, plugins, item)
  }

  /** `on_process_start` over the whole configuration, stopping at the first exception. */
  function BucketItems(phases: map<string, seq<Item>>, config: seq<Item>, plugins: map<string, PluginInfo>): Buckets
  {
    if config == [] then Buckets(phases, None)
    else
      var r := BucketItems(phases, config[..|config| - 1], plugins);
      if r.error.Some? then r else BucketItem(r.phases, config[|config| - 1], plugins)
  }

  // The reference definition of the buckets: how many times each item lands in each phase.

  /** One copy of `item` per handler of `phase` (none for `process_start`). */
  function HandlerCopies(handlers: seq<(string, Handler)>, phase: string, item: Item): seq<Item>
  {
    if handlers == [] then []
    else
      HandlerCopies(handlers[..|handlers| - 1], phase, item)
      + (if handlers[|handlers| - 1].0 == phase && phase != "process_start" then [item] else [])
  }

  /** The copies of `item` that the plugins of a nested action put into `phase`. */
  function PluginCopies(ps: seq<(string, Value)>, plugins: map<string, PluginInfo>, phase: string, item: Item): seq<Item>
  {
    if ps == [] then []
    else
      var n := ps[|ps| - 1].0;
      PluginCopies(ps[..|ps| - 1], plugins, phase, item)
      + (if n in plugins then HandlerCopies(plugins[n].handlers, phase, item) else [])
  }

  function ItemCopies(item: Item, plugins: map<string, PluginInfo>, phase: string): seq<Item> {
    match item.action
    case Simple(_) => if phase == "filter" then [item] else []
    case Nested(ps) => PluginCopies(ps, plugins, phase, item)
  }

  /** The bucket of `phase` after a configuration is sorted without error. */
  function Expected(config: seq<Item>, plugins: map<string, PluginInfo>, phase: string): seq<Item>
  {
    if config == [] then []
    else Expected(config[..|config| - 1], plugins, phase) + ItemCopies(config[|config| - 1], plugins, phase)
  }

  /**
   * For a plugin whose handlers name each phase once, the item lands in a phase
   * exactly once when the plugin handles that phase (and it is not
   * `process_start`), and otherwise not at all.
   */
  lemma {:induction false} OneCopyPerHandledPhase(handlers: seq<(string, Handler)>, phase: string, item: Item)
    requires DistinctPhases(handlers)
    ensures HandlerCopies(handlers, phase, item)
      == if HandlerFor(handlers, phase).Some? && phase != "process_start" then [item] else []
  {
    if handlers != [] {
      var n := |handlers| - 1;
      var init := handlers[..n];
      assert forall k :: 0 <= k < n ==> init[k] == handlers[k];
      assert DistinctPhases(init);
      OneCopyPerHandledPhase(init, phase, item);
      if handlers[n].0 == phase {
        assert HandlerFor(init, phase).None?;
      } else if HandlerFor(handlers, phase).Some? {
        var k :| 0 <= k < |handlers| && handlers[k].0 == phase;
        assert HandlerFor(init, phase).Some?;
      }
    }
  }

  lemma {:induction false} BucketHandlersAppends(phases: map<string, seq<Item>>, handlers: seq<(string, Handler)>, item: Item, phase: string)
    ensures var r := BucketHandlers(phases, handlers, item);
      r.error.None? ==> BucketOf(r.phases, phase) == BucketOf(phases, phase) + HandlerCopies(handlers, phase, item)
    ensures BucketHandlers(phases, handlers, item).error != Some(TypeError)
  {
    if handlers != [] {
      var init := handlers[..|handlers| - 1];
      BucketHandlersAppends(phases, init, item, phase);
      var r0 := BucketHandlers(phases, init, item);
      if r0.error.None? && handlers[|handlers| - 1].0 != "process_start" {
        assert BucketOf(Append(r0.phases, handlers[|handlers| - 1].0, item), phase)
          == BucketOf(r0.phases, phase) + (if handlers[|handlers| - 1].0 == phase then [item] else []);
      }
    }
  }

  lemma {:induction false} BucketPluginsAppends(phases: map<string, seq<Item>>, ps: seq<(string, Value)>, plugins: map<string, PluginInfo>, item: Item, phase: string)
    ensures var r := BucketPlugins(phases, ps, plugins, item);
      r.error.None? ==> BucketOf(r.phases, phase) == BucketOf(phases, phase) + PluginCopies(ps, plugins, phase, item)
    ensures BucketPlugins(phases, ps, plugins, item).error != Some(TypeError)
  {
    if ps != [] {
      var init := ps[..|ps| - 1];
      BucketPluginsAppends(phases, init, plugins, item, phase);
      var r0 := BucketPlugins(phases, init, plugins, item);
      var n := ps[|ps| - 1].0;
      if r0.error.None? && n in plugins {
        BucketHandlersAppends(r0.phases, plugins[n].handlers, item, phase);
      }
    }
  }

  /**
   * When sorting finishes without an exception, every bucket holds exactly the
   * reference copies, in configuration order; a `TypeError` from a nested
   * `process_start` handler never stops the sorting.
   */
  lemma {:induction false} BucketsMatchExpected(config: seq<Item>, plugins: map<string, PluginInfo>, phase: string)
    ensures var r := BucketItems(map[], config, plugins);
      r.error.None? ==> BucketOf(r.phases, phase) == Expected(config, plugins, phase)
    ensures BucketItems(map[], config, plugins).error != Some(TypeError)
  {
    if config != [] {
      var init := config[..|config| - 1];
      var item := config[|config| - 1];
      BucketsMatchExpected(init, plugins, phase);
      var r0 := BucketItems(map[], init, plugins);
      if r0.error.None? && item.action.Nested? {
        BucketPluginsAppends(r0.phases, item.action.plugins, plugins, item, phase);
      }
    }
  }

  lemma {:induction false} NoProcessStartCopies(config: seq<Item>, plugins: map<string, PluginInfo>)
    ensures Expected(config, plugins, "process_start") == []
  {
    if config != [] {
      NoProcessStartCopies(config[..|config| - 1], plugins);
      var item := config[|config| - 1];
      if item.action.Nested? {
        NoProcessStartPluginCopies(item.action.plugins, plugins, item);
      }
    }
  }

  lemma {:induction false} NoProcessStartPluginCopies(ps: seq<(string, Value)>, plugins: map<string, PluginInfo>, item: Item)
    ensures PluginCopies(ps, plugins, "process_start", item) == []
  {
    if ps != [] {
      NoProcessStartPluginCopies(ps[..|ps| - 1], plugins, item);
      var n := ps[|ps| - 1].0;
      if n in plugins {
        NoProcessStartHandlerCopies(plugins[n].handlers, item);
      }
    }
  }

  lemma {:induction false} NoProcessStartHandlerCopies(handlers: seq<(string, Handler)>, item: Item)
    ensures HandlerCopies(handlers, "process_start", item) == []
  {
    if handlers != [] {
      NoProcessStartHandlerCopies(handlers[..|handlers| - 1], item);
    }
  }

  /** Nothing is ever put into a `process_start` bucket. */
  lemma ProcessStartBucketStaysEmpty(config: seq<Item>, plugins: map<string, PluginInfo>)
    ensures var r := BucketItems(map[], config, plugins);
      r.error.None? ==> BucketOf(r.phases, "process_start") == []
  {
    BucketsMatchExpected(config, plugins, "process_start");
    NoProcessStartCopies(config, plugins);
  }

  /** Every copy of an item in a phase other than `filter` comes from a nested action. */
  lemma {:induction false} SimpleItemsOnlyFilter(config: seq<Item>, plugins: map<string, PluginInfo>, phase: string)
    requires phase != "filter"
    ensures forall k :: 0 <= k < |Expected(config, plugins, phase)| ==> Expected(config, plugins, phase)[k].action.Nested?
  {
    if config != [] {
      SimpleItemsOnlyFilter(config[..|config| - 1], plugins, phase);
      var item := config[|config| - 1];
      if item.action.Nested? {
        CopiesAreItem(item.action.plugins, plugins, phase, item);
      }
    }
  }

  lemma {:induction false} CopiesAreItem(ps: seq<(string, Value)>, plugins: map<string, PluginInfo>, phase: string, item: Item)
    ensures forall k :: 0 <= k < |PluginCopies(ps, plugins, phase, item)| ==> PluginCopies(ps, plugins, phase, item)[k] == item
  {
    if ps != [] {
      CopiesAreItem(ps[..|ps| - 1], plugins, phase, item);
      var n := ps[|ps| - 1].0;
      if n in plugins {
        HandlerCopiesAreItem(plugins[n].handlers, phase, item);
      }
    }
  }

  lemma {:induction false} HandlerCopiesAreItem(handlers: seq<(string, Handler)>, phase: string, item: Item)
    ensures forall k :: 0 <= k < |HandlerCopies(handlers, phase, item)| ==> HandlerCopies(handlers, phase, item)[k] == item
  {
    if handlers != [] {
      HandlerCopiesAreItem(handlers[..|handlers| - 1], phase, item);
    }
  }

  /** `e` is raised by a `process_start` handler of one of the plugins of `ps`. */
  ghost predicate RaisedAtStart(ps: seq<(string, Value)>, plugins: map<string, PluginInfo>, e: PyError) {
    exists k, j ::
      && 0 <= k < |ps| && ps[k].0 in plugins && 0 <= j < |plugins[ps[k].0].handlers|
      && plugins[ps[k].0].handlers[j] == ("process_start", Raises(e))
  }

  /**
   * In a valid configuration, when plugins are registered under their own
   * names, every nested plugin name resolves: the only exception that can stop
   * the sorting of a nested action is one raised by a `process_start` handler
   * of one of its plugins.
   */
  lemma {:induction false} ValidPluginsResolve(phases: map<string, seq<Item>>, ps: seq<(string, Value)>, plugins: map<string, PluginInfo>, item: Item)
    requires NamesAgree(plugins)
    requires forall k :: 0 <= k < |ps| ==> ps[k].0 in AllowedNames(plugins)
    ensures forall e :: BucketPlugins(phases, ps, plugins, item).error == Some(e) ==>
      RaisedAtStart(ps, plugins, e)
  {
    if ps != [] {
      var init := ps[..|ps| - 1];
      var last := |ps| - 1;
      ValidPluginsResolve(phases, init, plugins, item);
      var n := ps[last].0;
      assert n in AllowedNames(plugins);
      var key :| key in plugins && ActionAllowed(plugins[key]) && plugins[key].name == n;
      assert n in plugins;
      var r0 := BucketPlugins(phases, init, plugins, item);
      if r0.error.None? {
        HandlerErrorsAreRaised(r0.phases, plugins[n].handlers, item);
        forall e | BucketPlugins(phases, ps, plugins, item).error == Some(e)
          ensures RaisedAtStart(ps, plugins, e)
        {
          var j :| 0 <= j < |plugins[n].handlers| && plugins[n].handlers[j] == ("process_start", Raises(e));
          assert ps[last].0 == n && plugins[ps[last].0].handlers[j] == ("process_start", Raises(e));
        }
      } else {
        forall e | BucketPlugins(phases, ps, plugins, item).error == Some(e)
          ensures RaisedAtStart(ps, plugins, e)
        {
          assert RaisedAtStart(init, plugins, e);
          var k, j :| 0 <= k < |init| && init[k].0 in plugins && 0 <= j < |plugins[init[k].0].handlers|
            && plugins[init[k].0].handlers[j] == ("process_start", Raises(e));
          assert init[k] == ps[k];
        }
      }
    }
  }

  lemma {:induction false} HandlerErrorsAreRaised(phases: map<string, seq<Item>>, handlers: seq<(string, Handler)>, item: Item)
    ensures forall e :: BucketHandlers(phases, handlers, item).error == Some(e) ==>
      exists k :: 0 <= k < |handlers| && handlers[k] == ("process_start", Raises(e))
  {
    if handlers != [] {
      HandlerErrorsAreRaised(phases, handlers[..|handlers| - 1], item);
    }
  }

  // ---------------------------------------------------------------------------
  // Dispatch at a phase: the reference definition of `handle_phase`
  // ---------------------------------------------------------------------------

  /** The phases `__getattr__` provides no handler for. */
  const EntryPhases: seq<string> := ["accept", "reject", "fail", "input"]

  /** The reason a string action passes to the status call. */
  function MatchedReason(requirement: string): string {
    "Matched requirement: " + requirement
  }

  /** Positions into a list of `n` entries, strictly increasing. */
  predicate SelIndices(sel: seq<nat>, n: nat) {
    && (forall k :: 0 <= k < |sel| ==> sel[k] < n)
    && (forall j, k :: 0 <= j < k < |sel| ==> sel[j] < sel[k])
  }

  /** Whether each entry passes the condition, in list order. */
  function Conditions(requirement: string, fields: seq<Fields>, eval: Evaluator, now: int): (r: seq<bool>)
    ensures |r| == |fields|
    ensures forall i :: 0 <= i < |fields| ==> r[i] == Passes(requirement, fields[i], eval, now)
  {
    seq(|fields|, i requires 0 <= i < |fields| => Passes(requirement, fields[i], eval, now))
  }

  /**
   * The positions of the entries `handle_phase` selects, in list order: entries
   * of `task.entries` (neither rejected nor failed) whose condition passed.
   */
  function Selected(marks: seq<Mark>, passes: seq<bool>): (r: seq<nat>)
    requires |passes| == |marks|
    ensures SelIndices(r, |marks|)
    ensures forall i :: i in r <==> 0 <= i < |marks| && InView(marks[i]) && passes[i]
    decreases |marks|
  {
    if marks == [] then []
    else
      var n := |marks| - 1;
      var r := Selected(marks[..n], passes[..n]);
      if InView(marks[n]) && passes[n] then r + [n] else r
  }

  /** `Selected` over one more entry. */
  lemma SelectedSnoc(marks: seq<Mark>, passes: seq<bool>, i: nat)
    requires |passes| == |marks| && i < |marks|
    ensures Selected(marks[..i + 1], passes[..i + 1])
      == if InView(marks[i]) && passes[i] then Selected(marks[..i], passes[..i]) + [i] else Selected(marks[..i], passes[..i])
  {
    assert marks[..i + 1][..i] == marks[..i] && passes[..i + 1][..i] == passes[..i];
  }

  /** The entries at the selected positions (`passed_entries`). */
  function Pick(es: seq<Entry>, sel: seq<nat>): (r: seq<Entry>)
    requires SelIndices(sel, |es|)
    ensures |r| == |sel| && forall k :: 0 <= k < |sel| ==> r[k] == es[sel[k]]
  {
    seq(|sel|, k requires 0 <= k < |sel| => es[sel[k]])
  }

  /**
   * What is done to one selected entry: a status call with a reason, or a
   * nested plugin's handler deciding the call from the entry's fields, its
   * status and the plugin's configuration.
   */
  datatype Step =
    | Call(verb: Verb, reason: string)
    | RunHandler(decide: (Fields, Status, Value) -> Option<(Verb, string)>, config: Value)

  function StepMark(step: Step, fields: Fields, m: Mark): Mark {
    match step
    case Call(v, reason) => Applied(m, v, reason)
    case RunHandler(decide, config) =>
      match decide(fields, m.status, config)
      case None => m
      case Some((v, reason)) => Applied(m, v, reason)
  }

  /** The marks after `step` is done to the selected entries, and to no other. */
  function Update(marks: seq<Mark>, fields: seq<Fields>, sel: seq<nat>, step: Step): (r: seq<Mark>)
    requires |fields| == |marks|
    ensures |r| == |marks|
    ensures forall i :: 0 <= i < |marks| ==> r[i] == if i in sel then StepMark(step, fields[i], marks[i]) else marks[i]
  {
    seq(|marks|, i requires 0 <= i < |marks| => if i in sel then StepMark(step, fields[i], marks[i]) else marks[i])
  }

  /** The outcome of the nested plugins of one action: the marks, the plugins whose handler was called, and the exception. */
  datatype NestedResult = NestedResult(marks: seq<Mark>, invoked: seq<string>, error: Option<PyError>)

  /**
   * The loop over a nested action's plugins: each is looked up by name, its
   * handler for the phase is called on the derived task, and the first
   * exception (an unknown plugin, a missing handler, or one the handler raises)
   * propagates.
   */
  function NestedRun(marks: seq<Mark>, fields: seq<Fields>, sel: seq<nat>, ps: seq<(string, Value)>, plugins: map<string, PluginInfo>, phase: string): (r: NestedResult)
    requires |fields| == |marks|
    ensures |r.marks| == |marks|
  {
    if ps == [] then NestedResult(marks, [], None)
    else NestedStep(NestedRun(marks, fields, sel, ps[..|ps| - 1], plugins, phase), fields, sel, ps[|ps| - 1], plugins, phase)
  }

  /** One nested plugin, after the ones before it left `r`. */
  function NestedStep(r: NestedResult, fields: seq<Fields>, sel: seq<nat>, p: (string, Value), plugins: map<string, PluginInfo>, phase: string): (r': NestedResult)
    requires |fields| == |r.marks|
    ensures |r'.marks| == |r.marks|
  {
    var (name, config) := p;
    if r.error.Some? then r
    else match PluginByName(plugins, name)
      case Err(e) => NestedResult(r.marks, r.invoked, Some(e))
      case Ok(info) =>
        match HandlerFor(info.handlers, phase)
        case None => NestedResult(r.marks, r.invoked, Some(KeyError(phase)))
        case Some(Raises(e)) => NestedResult(r.marks, r.invoked + [name], Some(e))
        case Some(Verdicts(decide)) =>
          NestedResult(Update(r.marks, fields, sel, RunHandler(decide, config)), r.invoked + [name], None)
  }

  /**
   * The outcome of some items at a phase: the marks, the selections of the
   * derived tasks, the nested plugins called, and the exception that stopped
   * the phase.
   */
  datatype PhaseRun = PhaseRun(marks: seq<Mark>, derived: seq<seq<nat>>, invoked: seq<string>, error: Option<PyError>)

  /** One item: nothing when no entry is selected; otherwise its string action or its nested plugins. */
  function ItemRun(marks: seq<Mark>, fields: seq<Fields>, item: Item, plugins: map<string, PluginInfo>, phase: string, eval: Evaluator, now: int): (r: PhaseRun)
    requires |fields| == |marks|
    ensures |r.marks| == |marks|
  {
    ItemRunOn(marks, fields, item, plugins, phase, Selected(marks, Conditions(item.requirement, fields, eval, now)))
  }

  /** One item, once its selection `sel` is known. */
  function ItemRunOn(marks: seq<Mark>, fields: seq<Fields>, item: Item, plugins: map<string, PluginInfo>, phase: string, sel: seq<nat>): (r: PhaseRun)
    requires |fields| == |marks|
    ensures |r.marks| == |marks|
  {
    if sel == [] then PhaseRun(marks, [], [], None)
    else match item.action
      case Simple(name) =>
        (match VerbNamed(name)
         case None => PhaseRun(marks, [], [], Some(KeyError(name)))
         case Some(v) => PhaseRun(Update(marks, fields, sel, Call(v, MatchedReason(item.requirement))), [], [], None))
      case Nested(ps) =>
        var r := NestedRun(marks, fields, sel, ps, plugins, phase);
        PhaseRun(r.marks, [sel], r.invoked, r.error)
  }

  /** The items of a bucket, in order, stopping at the first exception. */
  function PhaseItems(marks: seq<Mark>, fields: seq<Fields>, items: seq<Item>, plugins: map<string, PluginInfo>, phase: string, eval: Evaluator, now: int): (r: PhaseRun)
    requires |fields| == |marks|
    ensures |r.marks| == |marks|
  {
    if items == [] then PhaseRun(marks, [], [], None)
    else
      var r := PhaseItems(marks, fields, items[..|items| - 1], plugins, phase, eval, now);
      if r.error.Some? then r
      else
        var s := ItemRun(r.marks, fields, items[|items| - 1], plugins, phase, eval, now);
        PhaseRun(s.marks, r.derived + s.derived, r.invoked + s.invoked, s.error)
  }

  /** One more item of the bucket: its run follows the runs of the items before it. */
  lemma PhaseItemsSnoc(marks: seq<Mark>, fields: seq<Fields>, items: seq<Item>, plugins: map<string, PluginInfo>, phase: string,
                       eval: Evaluator, now: int, i: nat, before: PhaseRun, r: PhaseRun)
    requires |fields| == |marks| && i < |items|
    requires before == PhaseItems(marks, fields, items[..i], plugins, phase, eval, now) && before.error.None?
    requires r == ItemRun(before.marks, fields, items[i], plugins, phase, eval, now)
    ensures PhaseItems(marks, fields, items[..i + 1], plugins, phase, eval, now)
      == PhaseRun(r.marks, before.derived + r.derived, before.invoked + r.invoked, r.error)
  {
    assert items[..i + 1][..i] == items[..i];
  }

  /** Once an item has raised, the remaining items of the bucket are not run. */
  lemma {:induction false} PhaseStopsAt(marks: seq<Mark>, fields: seq<Fields>, items: seq<Item>, plugins: map<string, PluginInfo>, phase: string, eval: Evaluator, now: int, i: nat)
    requires |fields| == |marks| && i <= |items|
    requires PhaseItems(marks, fields, items[..i], plugins, phase, eval, now).error.Some?
    ensures PhaseItems(marks, fields, items, plugins, phase, eval, now) == PhaseItems(marks, fields, items[..i], plugins, phase, eval, now)
    decreases |items| - i
  {
    if i < |items| {
      assert items[..i + 1][..i] == items[..i];
      PhaseStopsAt(marks, fields, items, plugins, phase, eval, now, i + 1);
    } else {
      assert items[..i] == items;
    }
  }

  // ---------------------------------------------------------------------------
  // Properties of the dispatch
  // ---------------------------------------------------------------------------

  /** The nested plugins of an action change no entry outside the selection. */
  lemma {:induction false} NestedKeepsUnselected(marks: seq<Mark>, fields: seq<Fields>, sel: seq<nat>, ps: seq<(string, Value)>, plugins: map<string, PluginInfo>, phase: string)
    requires |fields| == |marks|
    ensures forall i :: 0 <= i < |marks| && i !in sel ==> NestedRun(marks, fields, sel, ps, plugins, phase).marks[i] == marks[i]
  {
    if ps != [] {
      NestedKeepsUnselected(marks, fields, sel, ps[..|ps| - 1], plugins, phase);
    }
  }

  /**
   * The nested plugins are called in action order, each at most once, and all
   * of them when none raises.
   */
  lemma {:induction false} NestedCallsInOrder(marks: seq<Mark>, fields: seq<Fields>, sel: seq<nat>, ps: seq<(string, Value)>, plugins: map<string, PluginInfo>, phase: string)
    requires |fields| == |marks|
    ensures var r := NestedRun(marks, fields, sel, ps, plugins, phase);
      && |r.invoked| <= |ps|
      && (forall k :: 0 <= k < |r.invoked| ==> r.invoked[k] == ps[k].0)
      && (r.error.None? ==> |r.invoked| == |ps|)
  {
    if ps != [] {
      var init := ps[..|ps| - 1];
      NestedCallsInOrder(marks, fields, sel, init, plugins, phase);
      var r0 := NestedRun(marks, fields, sel, init, plugins, phase);
      assert forall k :: 0 <= k < |init| ==> init[k] == ps[k];
      if r0.error.Some? {
        assert |r0.invoked| <= |init|;
      }
    }
  }

  /** An entry that does not pass an item's condition, or is no longer in `task.entries`, is left as it was. */
  lemma UnselectedUntouched(marks: seq<Mark>, fields: seq<Fields>, item: Item, plugins: map<string, PluginInfo>, phase: string, eval: Evaluator, now: int, i: nat)
    requires |fields| == |marks| && i < |marks|
    requires !InView(marks[i]) || !Passes(item.requirement, fields[i], eval, now)
    ensures ItemRun(marks, fields, item, plugins, phase, eval, now).marks[i] == marks[i]
  {
    var sel := Selected(marks, Conditions(item.requirement, fields, eval, now));
    assert i !in sel;
    if item.action.Nested? {
      NestedKeepsUnselected(marks, fields, sel, item.action.plugins, plugins, phase);
    }
  }

  /**
   * A string action naming a status call makes exactly that call, with the
   * reason `Matched requirement: <requirement>`, on exactly the selected
   * entries; it derives no task and raises nothing.
   */
  lemma StringActionExact(marks: seq<Mark>, fields: seq<Fields>, requirement: string, name: string, plugins: map<string, PluginInfo>, phase: string, eval: Evaluator, now: int)
    requires |fields| == |marks| && VerbNamed(name).Some?
    ensures var r := ItemRun(marks, fields, Item(requirement, Simple(name)), plugins, phase, eval, now);
      && r.error.None? && r.derived == [] && r.invoked == []
      && forall i :: 0 <= i < |marks| ==>
        r.marks[i] == if InView(marks[i]) && Passes(requirement, fields[i], eval, now)
                      then Applied(marks[i], VerbNamed(name).value, MatchedReason(requirement))
                      else marks[i]
  {
  }

  /** A string action that names no status call raises KeyError, and only when some entry is selected. */
  lemma UnknownStringActionRaises(marks: seq<Mark>, fields: seq<Fields>, requirement: string, name: string, plugins: map<string, PluginInfo>, phase: string, eval: Evaluator, now: int)
    requires |fields| == |marks| && VerbNamed(name).None?
    ensures var r := ItemRun(marks, fields, Item(requirement, Simple(name)), plugins, phase, eval, now);
      && r.marks == marks
      && r.derived == [] && r.invoked == []
      && (r.error == Some(KeyError(name)) <==> exists i :: 0 <= i < |marks| && InView(marks[i]) && Passes(requirement, fields[i], eval, now))
      && (r.error.None? || r.error == Some(KeyError(name)))
  {
    var sel := Selected(marks, Conditions(requirement, fields, eval, now));
    if sel != [] {
      assert sel[0] in sel;
    }
    if i :| 0 <= i < |marks| && InView(marks[i]) && Passes(requirement, fields[i], eval, now) {
      assert i in sel;
    }
  }

  /**
   * A nested plugin whose handler rejects every entry of the derived task
   * rejects exactly the selected entries of the parent task: the derived task
   * holds the parent's own entries.
   */
  lemma NestedRejectPropagates(marks: seq<Mark>, fields: seq<Fields>, requirement: string, name: string, config: Value, plugins: map<string, PluginInfo>, phase: string, eval: Evaluator, now: int, reason: string)
    requires |fields| == |marks|
    requires name in plugins
    requires var h := HandlerFor(plugins[name].handlers, phase);
      h.Some? && h.value.Verdicts? && forall f, st :: h.value.decide(f, st, config) == Some((Reject, reason))
    ensures var r := ItemRun(marks, fields, Item(requirement, Nested([(name, config)])), plugins, phase, eval, now);
      && r.error.None?
      && forall i :: 0 <= i < |marks| ==>
        r.marks[i] == if InView(marks[i]) && Passes(requirement, fields[i], eval, now) then Mark(Rejected, reason) else marks[i]
  {
    var ps := [(name, config)];
    assert ps[..0] == [];
    var sel := Selected(marks, Conditions(requirement, fields, eval, now));
    var decide := HandlerFor(plugins[name].handlers, phase).value.decide;
    assert NestedRun(marks, fields, sel, ps, plugins, phase)
      == NestedResult(Update(marks, fields, sel, RunHandler(decide, config)), [name], None);
  }

  /** A valid configuration's string actions never raise. */
  lemma ValidStringActionNeverRaises(marks: seq<Mark>, fields: seq<Fields>, item: Item, plugins: map<string, PluginInfo>, phase: string, eval: Evaluator, now: int)
    requires |fields| == |marks| && ItemValid(item, plugins) && item.action.Simple?
    ensures ItemRun(marks, fields, item, plugins, phase, eval, now).error.None?
  {
  }

  /**
   * Over a whole phase, an entry that is already rejected or failed is never
   * touched again, and neither is an entry that passes none of the bucket's
   * conditions.
   */
  lemma {:induction false} PhaseKeepsUnmatched(marks: seq<Mark>, fields: seq<Fields>, items: seq<Item>, plugins: map<string, PluginInfo>, phase: string, eval: Evaluator, now: int, i: nat)
    requires |fields| == |marks| && i < |marks|
    requires !InView(marks[i]) || forall k :: 0 <= k < |items| ==> !Passes(items[k].requirement, fields[i], eval, now)
    ensures PhaseItems(marks, fields, items, plugins, phase, eval, now).marks[i] == marks[i]
  {
    if items != [] {
      var init := items[..|items| - 1];
      assert forall k :: 0 <= k < |init| ==> init[k] == items[k];
      PhaseKeepsUnmatched(marks, fields, init, plugins, phase, eval, now, i);
      var r0 := PhaseItems(marks, fields, init, plugins, phase, eval, now);
      if r0.error.None? {
        UnselectedUntouched(r0.marks, fields, items[|items| - 1], plugins, phase, eval, now, i);
      }
    }
  }

  // ---------------------------------------------------------------------------
  // Dispatch at a phase: the steps of `handle_phase` on entry objects
  // ---------------------------------------------------------------------------

  /** The list comprehension that collects `passed_entries`, as positions into the entry list. */
  method SelectEntries(es: seq<Entry>, requirement: string, eval: Evaluator, now: int) returns (sel: seq<nat>)
    ensures sel == Selected(Marks(es), Conditions(requirement, FieldsOf(es), eval, now))
  {
    ghost var passes := Conditions(requirement, FieldsOf(es), eval, now);
    ghost var marks := Marks(es);
    sel := [];
    var i := 0;
    while i < |es|
      invariant 0 <= i <= |es|
      invariant sel == Selected(marks[..i], passes[..i])
    {
      SelectedSnoc(marks, passes, i);
      var e := es[i];
      var pass := Passes(requirement, e.fields, eval, now);
      assert e.mark == marks[i] && pass == passes[i];
      if InView(e.mark) && pass {
        sel := sel + [i];
      }
      i := i + 1;
    }
    assert passes[..i] == passes && marks[..i] == marks;
  }

  /** `step` done to each entry of a list of distinct entries, in order. */
  method ApplyToEach(es: seq<Entry>, step: Step)
    requires DistinctEntries(es)
    modifies es
    ensures forall i :: 0 <= i < |es| ==>
      es[i].fields == old(es[i].fields) && es[i].mark == StepMark(step, old(es[i].fields), old(es[i].mark))
  {
    var j := 0;
    while j < |es|
      invariant 0 <= j <= |es|
      invariant forall i :: 0 <= i < |es| ==> es[i].fields == old(es[i].fields)
      invariant forall i :: 0 <= i < j ==> es[i].mark == StepMark(step, old(es[i].fields), old(es[i].mark))
      invariant forall i :: j <= i < |es| ==> es[i].mark == old(es[i].mark)
    {
      var e := es[j];
      match step {
        case Call(v, reason) =>
          e.Act(v, reason);
        case RunHandler(decide, config) =>
          var d := decide(e.fields, e.mark.status, config);
          if d.Some? {
            e.Act(d.value.0, d.value.1);
          }
      }
      j := j + 1;
    }
  }

  /**
   * `step` done to the entries of `passed`, which are the task's entries at the
   * selected positions: seen from the task, exactly the selected entries change.
   */
  method ActOnSelected(es: seq<Entry>, sel: seq<nat>, passed: seq<Entry>, step: Step, ghost m0: seq<Mark>, ghost f0: seq<Fields>)
    requires DistinctEntries(es) && SelIndices(sel, |es|) && passed == Pick(es, sel)
    requires m0 == Marks(es) && f0 == FieldsOf(es)
    modifies es
    ensures FieldsOf(es) == f0
    ensures Marks(es) == Update(m0, f0, sel, step)
  {
    assert DistinctEntries(passed) by {
      forall j, k | 0 <= j < k < |passed|
        ensures passed[j] != passed[k]
      {
        assert sel[j] < sel[k];
      }
    }
    ApplyToEach(passed, step);
    forall i | 0 <= i < |es|
      ensures es[i].fields == f0[i]
      ensures es[i].mark == Update(m0, f0, sel, step)[i]
    {
      if i in sel {
        var k :| 0 <= k < |sel| && sel[k] == i;
        assert passed[k] == es[i];
      } else {
        forall k | 0 <= k < |passed|
          ensures passed[k] != es[i]
        {
          assert sel[k] != i;
        }
      }
    }
  }

  /** The `try` block over a nested action's plugins, each handler called on the derived task. */
  method RunNested(es: seq<Entry>, sel: seq<nat>, fake: Task, ps: seq<(string, Value)>, plugins: map<string, PluginInfo>, phase: string,
                   ghost m0: seq<Mark>, ghost f0: seq<Fields>)
    returns (err: Option<PyError>, invoked: seq<string>)
    requires DistinctEntries(es) && SelIndices(sel, |es|) && fake.allEntries == Pick(es, sel)
    requires m0 == Marks(es) && f0 == FieldsOf(es)
    modifies es
    ensures FieldsOf(es) == f0
    ensures Marks(es) == NestedRun(m0, f0, sel, ps, plugins, phase).marks
    ensures err == NestedRun(m0, f0, sel, ps, plugins, phase).error
    ensures invoked == NestedRun(m0, f0, sel, ps, plugins, phase).invoked
  {
    invoked := [];
    var j := 0;
    ghost var run := NestedRun(m0, f0, sel, [], plugins, phase);
    while j < |ps|
      invariant 0 <= j <= |ps| && fake.allEntries == Pick(es, sel)
      invariant FieldsOf(es) == f0
      invariant run == NestedRun(m0, f0, sel, ps[..j], plugins, phase)
      invariant run.error.None? && Marks(es) == run.marks && invoked == run.invoked
    {
      assert ps[..j + 1][..j] == ps[..j];
      var (name, config) := ps[j];
      var found := PluginByName(plugins, name);
      if found.Err? {
        err := Some(found.error);
        NestedStopsAt(m0, f0, sel, ps, plugins, phase, j + 1);
        return;
      }
      var handler := HandlerFor(found.value.handlers, phase);
      if handler.None? {
        err := Some(KeyError(phase));
        NestedStopsAt(m0, f0, sel, ps, plugins, phase, j + 1);
        return;
      }
      invoked := invoked + [name];
      match handler.value {
        case Raises(e) =>
          err := Some(e);
          NestedStopsAt(m0, f0, sel, ps, plugins, phase, j + 1);
          return;
        case Verdicts(decide) =>
          ActOnSelected(es, sel, fake.allEntries, RunHandler(decide, config), run.marks, f0);
      }
      run := NestedStep(run, f0, sel, ps[j], plugins, phase);
      j := j + 1;
    }
    assert ps[..j] == ps;
    err := None;
  }

  lemma {:induction false} NestedStopsAt(marks: seq<Mark>, fields: seq<Fields>, sel: seq<nat>, ps: seq<(string, Value)>, plugins: map<string, PluginInfo>, phase: string, j: nat)
    requires |fields| == |marks| && j <= |ps|
    requires NestedRun(marks, fields, sel, ps[..j], plugins, phase).error.Some?
    ensures NestedRun(marks, fields, sel, ps, plugins, phase) == NestedRun(marks, fields, sel, ps[..j], plugins, phase)
    decreases |ps| - j
  {
    if j < |ps| {
      assert ps[..j + 1][..j] == ps[..j];
      NestedStopsAt(marks, fields, sel, ps, plugins, phase, j + 1);
    } else {
      assert ps[..j] == ps;
    }
  }

  class FilterIf {
    /** `self.task_phases`: for each task name, the items bucketed per phase. */
    var taskPhases: map<string, map<string, seq<Item>>>

    constructor ()
      ensures taskPhases == map[]
    {
      taskPhases := map[];
    }

    /** `on_process_start`: the phase dictionary is stored first and filled in place, so an exception leaves it partly filled. */
    method OnProcessStart(task: Task, config: seq<Item>, plugins: map<string, PluginInfo>) returns (err: Option<PyError>)
      modifies this
      ensures var r := BucketItems(map[], config, plugins);
        taskPhases == old(taskPhases)[task.name := r.phases] && err == r.error
    {
      var r := BucketConfig(config, plugins);
      taskPhases := taskPhases[task.name := r.phases];
      err := r.error;
    }

    /**
     * `__getattr__`: the phase whose handler method is named `item`, the first
     * in `phase_methods` order that is not `accept`, `reject`, `fail` or
     * `input`; `None` stands for the AttributeError raised otherwise.
     */
    method GetAttr(phaseMethods: seq<(string, string)>, item: string) returns (phase: Option<string>)
      ensures phase.None? <==> forall k :: 0 <= k < |phaseMethods| ==> !Provides(phaseMethods[k], item)
      ensures phase.Some? ==> exists k ::
        && 0 <= k < |phaseMethods| && phaseMethods[k] == (phase.value, item)
        && Provides(phaseMethods[k], item) && forall j :: 0 <= j < k ==> !Provides(phaseMethods[j], item)
    {
      var k := 0;
      while k < |phaseMethods|
        invariant 0 <= k <= |phaseMethods|
        invariant forall j :: 0 <= j < k ==> !Provides(phaseMethods[j], item)
      {
        var (p, m) := phaseMethods[k];
        if item == m && p !in EntryPhases {
          return Some(p);
        }
        k := k + 1;
      }
      return None;
    }

    /** The body of the loop over the bucket: one item, on the task's own entries. */
    method RunItem(task: Task, item: Item, plugins: map<string, PluginInfo>, phase: string, eval: Evaluator, now: int,
                   ghost m0: seq<Mark>, ghost f0: seq<Fields>)
      returns (err: Option<PyError>, derived: seq<Task>, invoked: seq<string>, sel: seq<nat>)
      requires task.Valid()
      requires m0 == Marks(task.allEntries) && f0 == FieldsOf(task.allEntries)
      modifies task.allEntries
      ensures sel == Selected(m0, Conditions(item.requirement, f0, eval, now))
      ensures FieldsOf(task.allEntries) == f0
      ensures Marks(task.allEntries) == ItemRunOn(m0, f0, item, plugins, phase, sel).marks
      ensures err == ItemRunOn(m0, f0, item, plugins, phase, sel).error
      ensures invoked == ItemRunOn(m0, f0, item, plugins, phase, sel).invoked
      ensures DerivedTasks(derived, task, ItemRunOn(m0, f0, item, plugins, phase, sel).derived)
    {
      var es := task.allEntries;
      derived, invoked := [], [];
      sel := SelectEntries(es, item.requirement, eval, now);
      ghost var want := ItemRunOn(m0, f0, item, plugins, phase, sel);
      if sel == [] {
        assert want == PhaseRun(m0, [], [], None);
        return None, [], [], sel;
      }
      var passed := Pick(es, sel);
      match item.action {
        case Simple(name) =>
          var verb := VerbNamed(name);
          if verb.None? {
            assert want == PhaseRun(m0, [], [], Some(KeyError(name)));
            return Some(KeyError(name)), [], [], sel;
          }
          var step := Call(verb.value, MatchedReason(item.requirement));
          assert want == PhaseRun(Update(m0, f0, sel, step), [], [], None);
          ActOnSelected(es, sel, passed, step, m0, f0);
          err := None;
        case Nested(ps) =>
          ghost var nested := NestedRun(m0, f0, sel, ps, plugins, phase);
          assert want == PhaseRun(nested.marks, [sel], nested.invoked, nested.error);
          err, derived, invoked := NestedAction(task, sel, passed, ps, plugins, phase, m0, f0);
      }
    }

    /** A nested action: the derived task over `passed_entries`, and its plugins run on it. */
    method NestedAction(task: Task, sel: seq<nat>, passed: seq<Entry>, ps: seq<(string, Value)>, plugins: map<string, PluginInfo>, phase: string,
                        ghost m0: seq<Mark>, ghost f0: seq<Fields>)
      returns (err: Option<PyError>, derived: seq<Task>, invoked: seq<string>)
      requires task.Valid() && SelIndices(sel, |task.allEntries|) && passed == Pick(task.allEntries, sel)
      requires m0 == Marks(task.allEntries) && f0 == FieldsOf(task.allEntries)
      modifies task.allEntries
      ensures FieldsOf(task.allEntries) == f0
      ensures Marks(task.allEntries) == NestedRun(m0, f0, sel, ps, plugins, phase).marks
      ensures err == NestedRun(m0, f0, sel, ps, plugins, phase).error
      ensures invoked == NestedRun(m0, f0, sel, ps, plugins, phase).invoked
      ensures DerivedTasks(derived, task, [sel])
    {
      var es := task.allEntries;
      var fake := new Task(task.name, passed, task.session);
      derived := [fake];
      err, invoked := RunNested(es, sel, fake, ps, plugins, phase, m0, f0);
      DerivedOne(fake, task, sel);
    }

    /**
     * `handle_phase` for `phase`: runs the items bucketed for the task in
     * order. Each derived task holds exactly the selected entry objects and
     * shares the task's name and session; status calls made through it land on
     * the task's own entries. A task without a phase dictionary is left alone.
     */
    method HandlePhase(phase: string, task: Task, plugins: map<string, PluginInfo>, eval: Evaluator, now: int)
      returns (err: Option<PyError>, derived: seq<Task>, invoked: seq<string>)
      requires task.Valid()
      modifies task.allEntries
      ensures FieldsOf(task.allEntries) == old(FieldsOf(task.allEntries))
      ensures task.name !in taskPhases ==>
        err == None && derived == [] && invoked == [] && Marks(task.allEntries) == old(Marks(task.allEntries))
      ensures task.name in taskPhases ==>
        var run := PhaseItems(old(Marks(task.allEntries)), old(FieldsOf(task.allEntries)), BucketOf(taskPhases[task.name], phase), plugins, phase, eval, now);
        && Marks(task.allEntries) == run.marks && err == run.error && invoked == run.invoked
        && DerivedTasks(derived, task, run.derived)
    {
      derived, invoked := [], [];
      if task.name !in taskPhases {
        return None, [], [];
      }
      var items := BucketOf(taskPhases[task.name], phase);
      err, derived, invoked := RunBucket(task, items, plugins, phase, eval, now, Marks(task.allEntries), FieldsOf(task.allEntries));
    }

    /** The loop of `handle_phase` over the items of one bucket, stopping at the first exception. */
    method RunBucket(task: Task, items: seq<Item>, plugins: map<string, PluginInfo>, phase: string, eval: Evaluator, now: int,
                     ghost m0: seq<Mark>, ghost f0: seq<Fields>)
      returns (err: Option<PyError>, derived: seq<Task>, invoked: seq<string>)
      requires task.Valid()
      requires m0 == Marks(task.allEntries) && f0 == FieldsOf(task.allEntries)
      modifies task.allEntries
      ensures FieldsOf(task.allEntries) == f0
      ensures Marks(task.allEntries) == PhaseItems(m0, f0, items, plugins, phase, eval, now).marks
      ensures err == PhaseItems(m0, f0, items, plugins, phase, eval, now).error
      ensures invoked == PhaseItems(m0, f0, items, plugins, phase, eval, now).invoked
      ensures DerivedTasks(derived, task, PhaseItems(m0, f0, items, plugins, phase, eval, now).derived)
    {
      derived, invoked := [], [];
      var es := task.allEntries;
      assert items[..0] == [];
      ghost var run := PhaseRun(m0, [], [], None);
      var i := 0;
      while i < |items|
        invariant 0 <= i <= |items| && es == task.allEntries
        invariant FieldsOf(es) == f0
        invariant run == PhaseItems(m0, f0, items[..i], plugins, phase, eval, now)
        invariant run.error.None? && Marks(es) == run.marks && invoked == run.invoked
        invariant DerivedTasks(derived, task, run.derived)
      {
        var item := items[i];
        var more, names, sel;
        err, more, names, sel := RunItem(task, item, plugins, phase, eval, now, run.marks, f0);
        ghost var r := ItemRun(run.marks, f0, item, plugins, phase, eval, now);
        PhaseItemsSnoc(m0, f0, items, plugins, phase, eval, now, i, run, r);
        DerivedTasksAppend(derived, more, task, run.derived, r.derived);
        derived, invoked := derived + more, invoked + names;
        run := PhaseRun(r.marks, run.derived + r.derived, run.invoked + r.invoked, r.error);
        if err.Some? {
          PhaseStopsAt(m0, f0, items, plugins, phase, eval, now, i + 1);
          return;
        }
        i := i + 1;
      }
      assert items[..i] == items;
      err := None;
    }
  }

  lemma DerivedTasksAppend(a: seq<Task>, b: seq<Task>, task: Task, sa: seq<seq<nat>>, sb: seq<seq<nat>>)
    requires DerivedTasks(a, task, sa) && DerivedTasks(b, task, sb)
    ensures DerivedTasks(a + b, task, sa + sb)
  {
    forall k | 0 <= k < |a + b|
      ensures (a + b)[k] == if k < |a| then a[k] else b[k - |a|]
      ensures (sa + sb)[k] == if k < |a| then sa[k] else sb[k - |a|]
    {
    }
  }

  /** `phase_methods` entry `pm` provides a handler named `item`. */
  predicate Provides(pm: (string, string), item: string) {
    pm.1 == item && pm.0 !in EntryPhases
  }

  /** The tasks `handle_phase` derived, one per nested action that selected entries. */
  ghost predicate DerivedTasks(derived: seq<Task>, task: Task, selections: seq<seq<nat>>)
    reads derived, task
  {
    && |derived| == |selections|
    && forall k :: 0 <= k < |derived| ==>
      && derived[k].name == task.name && derived[k].session == task.session
      && |derived[k].allEntries| == |selections[k]|
      && forall j :: 0 <= j < |selections[k]| ==>
        selections[k][j] < |task.allEntries| && derived[k].allEntries[j] == task.allEntries[selections[k][j]]
  }

  /** A task derived for the selection `sel` of the task's entries. */
  lemma DerivedOne(fake: Task, task: Task, sel: seq<nat>)
    requires fake.name == task.name && fake.session == task.session
    requires SelIndices(sel, |task.allEntries|) && fake.allEntries == Pick(task.allEntries, sel)
    ensures DerivedTasks([fake], task, [sel])
  {
  }

  /** The loop of `on_process_start`: every item in order, stopping at the first exception. */
  method BucketConfig(config: seq<Item>, plugins: map<string, PluginInfo>) returns (r: Buckets)
    ensures r == BucketItems(map[], config, plugins)
  {
    r := Buckets(map[], None);
    var i := 0;
    while i < |config|
      invariant 0 <= i <= |config|
      invariant r.error.None? && r == BucketItems(map[], config[..i], plugins)
    {
      var item := config[i];
      ItemsSnoc(config, plugins, i);
      match item.action {
        case Simple(_) =>
          r := Buckets(Append(r.phases, "filter", item), None);
        case Nested(ps) =>
          r := SortNested(r.phases, ps, plugins, item);
      }
      if r.error.Some? {
        ItemsStopAt(config, plugins, i + 1);
        return;
      }
      i := i + 1;
    }
    assert config[..i] == config;
  }

  /** The loop over a nested action's plugins, and over each plugin's handlers. */
  method SortNested(phases: map<string, seq<Item>>, ps: seq<(string, Value)>, plugins: map<string, PluginInfo>, item: Item) returns (r: Buckets)
    ensures r == BucketPlugins(phases, ps, plugins, item)
  {
    r := Buckets(phases, None);
    var j := 0;
    while j < |ps|
      invariant 0 <= j <= |ps|
      invariant r == BucketPlugins(phases, ps[..j], plugins, item)
      invariant r.error.None?
    {
      assert ps[..j + 1][..j] == ps[..j];
      var (name, _) := ps[j];
      var found := PluginByName(plugins, name);
      if found.Err? {
        r := Buckets(r.phases, Some(found.error));
        StopsAt(phases, ps, plugins, item, j + 1);
        return;
      }
      r := SortHandlers(r.phases, found.value.handlers, item);
      if r.error.Some? {
        StopsAt(phases, ps, plugins, item, j + 1);
        return;
      }
      j := j + 1;
    }
    assert ps[..j] == ps;
  }

  /** The loop over one plugin's handlers: a copy of the item for each phase it handles. */
  method SortHandlers(phases: map<string, seq<Item>>, handlers: seq<(string, Handler)>, item: Item) returns (cur: Buckets)
    ensures cur == BucketHandlers(phases, handlers, item)
  {
    cur := Buckets(phases, None);
    var k := 0;
    while k < |handlers|
      invariant 0 <= k <= |handlers|
      invariant cur == BucketHandlers(phases, handlers[..k], item)
      invariant cur.error.None?
    {
      assert handlers[..k + 1][..k] == handlers[..k];
      var (phase, h) := handlers[k];
      if phase == "process_start" {
        if h.Raises? && h.error != TypeError {
          cur := Buckets(cur.phases, Some(h.error));
          HandlersStopAt(phases, handlers, item, k + 1);
          return;
        }
      } else {
        cur := Buckets(Append(cur.phases, phase, item), None);
      }
      k := k + 1;
    }
    assert handlers[..k] == handlers;
  }

  /** One more item of the configuration: the loop body applied to the buckets so far. */
  lemma ItemsSnoc(config: seq<Item>, plugins: map<string, PluginInfo>, i: nat)
    requires i < |config|
    requires BucketItems(map[], config[..i], plugins).error.None?
    ensures BucketItems(map[], config[..i + 1], plugins)
      == BucketItem(BucketItems(map[], config[..i], plugins).phases, config[i], plugins)
  {
    assert config[..i + 1][..i] == config[..i];
  }

  /** Once the item loop has stopped with an exception, the remaining items change nothing. */
  lemma {:induction false} ItemsStopAt(config: seq<Item>, plugins: map<string, PluginInfo>, i: nat)
    requires i <= |config|
    requires BucketItems(map[], config[..i], plugins).error.Some?
    ensures BucketItems(map[], config, plugins) == BucketItems(map[], config[..i], plugins)
    decreases |config| - i
  {
    if i < |config| {
      assert config[..i + 1][..i] == config[..i];
      ItemsStopAt(config, plugins, i + 1);
    } else {
      assert config[..i] == config;
    }
  }

  /** Once the plugin loop has stopped with an exception, the remaining plugins change nothing. */
  lemma {:induction false} StopsAt(phases: map<string, seq<Item>>, ps: seq<(string, Value)>, plugins: map<string, PluginInfo>, item: Item, j: nat)
    requires j <= |ps|
    requires BucketPlugins(phases, ps[..j], plugins, item).error.Some?
    ensures BucketPlugins(phases, ps, plugins, item) == BucketPlugins(phases, ps[..j], plugins, item)
    decreases |ps| - j
  {
    if j < |ps| {
      assert ps[..j + 1][..j] == ps[..j];
      StopsAt(phases, ps, plugins, item, j + 1);
    } else {
      assert ps[..j] == ps;
    }
  }

  /** Once the handler loop has stopped with an exception, the remaining handlers change nothing. */
  lemma {:induction false} HandlersStopAt(phases: map<string, seq<Item>>, handlers: seq<(string, Handler)>, item: Item, k: nat)
    requires k <= |handlers|
    requires BucketHandlers(phases, handlers[..k], item).error.Some?
    ensures BucketHandlers(phases, handlers, item) == BucketHandlers(phases, handlers[..k], item)
    decreases |handlers| - k
  {
    if k < |handlers| {
      assert handlers[..k + 1][..k] == handlers[..k];
      HandlersStopAt(phases, handlers, item, k + 1);
    } else {
      assert handlers[..k] == handlers;
    }
  }
}
