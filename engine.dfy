/**
 * The part of the task engine the plugins call: entries (field maps with an
 * accept/reject/fail status), tasks (a name, an entry list and a session), the
 * persistence session, and the plugin registry. The engine's own code lives in
 * flexget/task.py, flexget/plugin.py and flexget/entry.py, which are not part of
 * this model; only the interface the plugins use is modelled here.
 */
module Engine {
  import opened Wrappers
  import opened Text

  /** A field value of an entry or of a configuration (Python's dynamic values). */
  datatype Value =
    | Null
    | Bool(b: bool)
    | Int(i: int)
    | Text(s: string)
    | TextList(items: seq<string>)
    | Date(t: int)
    | Callable(name: string)

  /** Python truthiness of a value. */
  predicate Truthy(v: Value) {
    match v
    case Null => false
    case Bool(b) => b
    case Int(i) => i != 0
    case Text(s) => s != ""
    case TextList(l) => l != []
    case Date(_) => true
    case Callable(_) => true
  }

  /** `d.get(key)`: the value stored under `key`, or `None`. */
  function Get(d: map<string, Value>, key: string): (r: Value)
    ensures key !in d ==> r == Null
    ensures key in d ==> r == d[key]
  {
    if key in d then d[key] else Null
  }

  type Fields = map<string, Value>

  datatype Status = Undecided | Accepted | Rejected | Failed

  /** The three status calls an entry offers. */
  datatype Verb = Accept | Reject | Fail

  /** An entry's status together with the reason given by the call that set it. */
  datatype Mark = Mark(status: Status, reason: string)

  /**
   * The status change one call makes: accepting never overrides a rejection or a
   * failure (and leaves an already accepted entry as it is), while reject and fail
   * always take effect.
   */
  function Applied(m: Mark, v: Verb, reason: string): (r: Mark)
    ensures v == Accept ==> r.status == (if m.status == Undecided then Accepted else m.status)
    ensures v == Reject ==> r.status == Rejected
    ensures v == Fail ==> r.status == Failed
    ensures r == m || r.reason == reason
  {
    match v
    case Accept => if m.status == Undecided then Mark(Accepted, reason) else m
    case Reject => Mark(Rejected, reason)
    case Fail => Mark(Failed, reason)
  }

  /** An entry is in `task.entries` unless it has been rejected or failed. */
  predicate InView(m: Mark) {
    m.status == Undecided || m.status == Accepted
  }

  /** One discovered item flowing through a task: a field map and its status. */
  class Entry {
    var fields: Fields
    var mark: Mark

    constructor (fields: Fields)
      ensures this.fields == fields && mark == Mark(Undecided, "")
    {
      this.fields := fields;
      mark := Mark(Undecided, "");
    }

    /** `entry.accept(reason)`, `entry.reject(reason)` or `entry.fail(reason)`. */
    method Act(v: Verb, reason: string)
      modifies this
      ensures fields == old(fields)
      ensures mark == Applied(old(mark), v, reason)
    {
      mark := Applied(mark, v, reason);
    }
  }

  /** The marks of a list of entries, index by index. */
  ghost function Marks(es: seq<Entry>): (r: seq<Mark>)
    reads es
    ensures |r| == |es|
    ensures forall i :: 0 <= i < |es| ==> r[i] == es[i].mark
  {
    seq(|es|, i reads es requires 0 <= i < |es| => es[i].mark)
  }

  /** The field maps of a list of entries, index by index. */
  ghost function FieldsOf(es: seq<Entry>): (r: seq<Fields>)
    reads es
    ensures |r| == |es|
    ensures forall i :: 0 <= i < |es| ==> r[i] == es[i].fields
  {
    seq(|es|, i reads es requires 0 <= i < |es| => es[i].fields)
  }

  /** No entry object occurs twice in the list. */
  ghost predicate DistinctEntries(es: seq<Entry>) {
    forall i, j :: 0 <= i < j < |es| ==> es[i] != es[j]
  }

  /** The accepted entries of a list, in list order (`task.accepted`). */
  function AcceptedOf(es: seq<Entry>): (r: seq<Entry>)
    reads es
    ensures |r| <= |es|
    ensures forall i :: 0 <= i < |r| ==> r[i] in es && r[i].mark.status == Accepted
    ensures forall i :: 0 <= i < |es| && es[i].mark.status == Accepted ==> es[i] in r
    ensures DistinctEntries(es) ==> DistinctEntries(r)
  {
    if es == [] then []
    else
      var rest := AcceptedOf(es[1..]);
      if es[0].mark.status == Accepted then [es[0]] + rest else rest
  }

  /** One row of the `make_rss` table. */
  datatype RssRow = RssRow(id: int, title: Value, description: Value, link: Value, file: string, published: int)

  /** One row of the `pogcal_shows` table. */
  datatype ShowRow = ShowRow(id: int, name: string)

  /**
   * The persistence session, in memory: the rows of the two tables the plugins
   * use, and the next free primary key of `make_rss`.
   */
  class Session {
    var rssRows: seq<RssRow>
    var shows: seq<ShowRow>
    var nextId: int

    constructor ()
      ensures rssRows == [] && shows == [] && nextId == 0
    {
      rssRows, shows, nextId := [], [], 0;
    }
  }

  /** A task run: its configuration name, its entry list and its session. */
  class Task {
    const name: string
    var allEntries: seq<Entry>
    var session: Session

    constructor (name: string, entries: seq<Entry>, session: Session)
      ensures this.name == name && allEntries == entries && this.session == session
    {
      this.name := name;
      allEntries := entries;
      this.session := session;
    }

    ghost predicate Valid()
      reads this
    {
      DistinctEntries(allEntries)
    }
  }

  /** An exception a plugin or the engine can raise. */
  datatype PyError =
    | TypeError
    | AttributeError(attribute: string)
    | KeyError(key: string)
    | UnknownPlugin(name: string)
    | PluginError(message: string)
    | PluginWarning(message: string)
    | Warning(message: string)
    | Exception(message: string)

  /**
   * A phase handler of a plugin. A handler affects a task only through the
   * accept/reject/fail calls it makes on the task's entries, or by raising: it is
   * modelled by the call it makes on each entry (decided from the entry's fields,
   * its status and the plugin's configuration), or by the exception it raises.
   */
  datatype Handler =
    | Verdicts(decide: (Fields, Status, Value) -> Option<(Verb, string)>)
    | Raises(error: PyError)

  /** A registration record: name, API version, builtin flag, validator and phase handlers in declaration order. */
  datatype PluginInfo = PluginInfo(
    name: string,
    apiVer: int,
    builtin: bool,
    hasValidator: bool,
    handlers: seq<(string, Handler)>)

  /**
   * The handlers of a plugin name each phase at most once, as the keys of the
   * `phase_handlers` dictionary do.
   */
  predicate DistinctPhases(handlers: seq<(string, Handler)>) {
    forall j, k :: 0 <= j < k < |handlers| ==> handlers[j].0 != handlers[k].0
  }

  /** The handler a plugin declares for `phase` (`plugin.phase_handlers[phase]`). */
  function HandlerFor(handlers: seq<(string, Handler)>, phase: string): (r: Option<Handler>)
    ensures r.None? <==> forall k :: 0 <= k < |handlers| ==> handlers[k].0 != phase
  {
    if handlers == [] then None
    else if handlers[0].0 == phase then Some(handlers[0].1)
    else HandlerFor(handlers[1..], phase)
  }

  /** `get_plugin_by_name(name)`: fails explicitly for an unknown name. */
  function PluginByName(plugins: map<string, PluginInfo>, name: string): (r: Result<PluginInfo, PyError>)
    ensures r.Ok? <==> name in plugins
    ensures r.Ok? ==> r.value == plugins[name]
    ensures r.Err? ==> r.error == UnknownPlugin(name)
  {
    if name in plugins then Ok(plugins[name]) else Err(UnknownPlugin(name))
  }

  /** The process-wide plugin registry (`plugin.plugins`) and its iteration order. */
  class Registry {
    var plugins: map<string, PluginInfo>
    var order: seq<string>

    ghost predicate Valid()
      reads this
    {
      && NoRepeats(order)
      && (forall n :: n in order <==> n in plugins)
    }
  }
}
