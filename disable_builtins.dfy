/**
 * The `disable_builtins` plugin (flexget/plugins/module_disable_builtins.py):
 * at feed start it clears the `builtin` flag of every builtin plugin (or of the
 * ones its list configuration names) and records each name it clears; at feed
 * exit it sets the flag again for every recorded name and empties the record.
 */
module DisableBuiltins {
  import opened Engine
  import opened Text

  /**
   * Whether `feed_start` disables the plugin registered under `n`: it must be
   * builtin, and with a list configuration its `info.name` must be listed.
   */
  predicate Disables(plugins: map<string, PluginInfo>, config: Value, n: string) {
    && n in plugins
    && plugins[n].builtin
    && (config.TextList? ==> plugins[n].name in config.items)
  }

  /** The names `feed_start` disables and records, in registry iteration order. */
  function ToDisable(order: seq<string>, plugins: map<string, PluginInfo>, config: Value): seq<string> {
    if order == [] then []
    else
      var last := order[|order| - 1];
      ToDisable(order[..|order| - 1], plugins, config) + (if Disables(plugins, config, last) then [last] else [])
  }

  /** Exactly the names that `Disables` selects are recorded. */
  lemma {:induction false} ToDisableSelects(order: seq<string>, plugins: map<string, PluginInfo>, config: Value)
    ensures forall n :: n in ToDisable(order, plugins, config) <==> n in order && Disables(plugins, config, n)
  {
    if order != [] {
      var init := order[..|order| - 1];
      ToDisableSelects(init, plugins, config);
      assert order == init + [order[|order| - 1]];
    }
  }

  /** When the registry order has no repetition, neither does the record. */
  lemma {:induction false} ToDisableDistinct(order: seq<string>, plugins: map<string, PluginInfo>, config: Value)
    requires NoRepeats(order)
    ensures NoRepeats(ToDisable(order, plugins, config))
  {
    if order != [] {
      var init := order[..|order| - 1];
      var last := order[|order| - 1];
      assert order == init + [last];
      ToDisableDistinct(init, plugins, config);
      ToDisableSelects(init, plugins, config);
      assert last !in init;
      var r0 := ToDisable(init, plugins, config);
      if Disables(plugins, config, last) {
        assert ToDisable(order, plugins, config) == r0 + [last];
        forall k | 0 <= k < |r0|
          ensures r0[k] != last
        {
          assert r0[k] in r0;
        }
      } else {
        assert ToDisable(order, plugins, config) == r0;
      }
    }
  }

  /** One step of the `feed_start` loop: the record grows by the visited name exactly when it is disabled. */
  lemma StepOfToDisable(order: seq<string>, i: nat, plugins: map<string, PluginInfo>, config: Value)
    requires i < |order|
    requires NoRepeats(order)
    ensures order[i] !in ToDisable(order[..i], plugins, config)
    ensures ToDisable(order[..i + 1], plugins, config)
            == ToDisable(order[..i], plugins, config) + (if Disables(plugins, config, order[i]) then [order[i]] else [])
  {
    assert order[..i + 1][..i] == order[..i];
    ToDisableSelects(order[..i], plugins, config);
  }

  /** The registry with the `builtin` flag of every name in `names` cleared. */
  function Cleared(plugins: map<string, PluginInfo>, names: seq<string>): map<string, PluginInfo> {
    map n | n in plugins :: if n in names then plugins[n].(builtin := false) else plugins[n]
  }

  /** The registry with the `builtin` flag of every name in `names` set. */
  function Restored(plugins: map<string, PluginInfo>, names: seq<string>): map<string, PluginInfo> {
    map n | n in plugins :: if n in names then plugins[n].(builtin := true) else plugins[n]
  }

  class PluginDisableBuiltins {
    /** The names this instance has disabled and not yet restored (`self.disabled`). */
    var disabled: seq<string>

    constructor ()
      ensures disabled == []
    {
      disabled := [];
    }

    /** `feed_start`: clear the flags and record each cleared name. */
    method FeedStart(config: Value, registry: Registry)
      requires registry.Valid()
      modifies this, registry
      ensures registry.Valid() && registry.order == old(registry.order)
      ensures registry.plugins == Cleared(old(registry.plugins), ToDisable(registry.order, old(registry.plugins), config))
      ensures disabled == old(disabled) + ToDisable(registry.order, old(registry.plugins), config)
    {
      var before := registry.plugins;
      var order := registry.order;
      var plugins, found := before, [];
      var i := 0;
      assert order[..0] == [];
      while i < |order|
        invariant 0 <= i <= |order|
        invariant unchanged(this, registry)
        invariant found == ToDisable(order[..i], before, config)
        invariant plugins == Cleared(before, found)
      {
        var name := order[i];
        FeedStartStep(before, order, i, config, found, plugins);
        var info := plugins[name];
        if info.builtin && (!config.TextList? || info.name in config.items) {
          plugins := plugins[name := info.(builtin := false)];
          found := found + [name];
        }
        i := i + 1;
      }
      assert order[..i] == order;
      CleanedKeepsKeys(before, found);
      registry.plugins, disabled := plugins, disabled + found;
    }

    /** `feed_exit`: set the flag of every recorded name again and empty the record. */
    method FeedExit(registry: Registry)
      requires registry.Valid()
      requires forall n :: n in disabled ==> n in registry.plugins
      modifies this, registry
      ensures registry.Valid() && registry.order == old(registry.order)
      ensures registry.plugins == Restored(old(registry.plugins), old(disabled))
      ensures disabled == []
    {
      ghost var before := registry.plugins;
      var i := 0;
      while i < |disabled|
        invariant 0 <= i <= |disabled| && disabled == old(disabled)
        invariant registry.order == old(registry.order)
        invariant registry.plugins.Keys == before.Keys
        invariant registry.plugins == Restored(before, disabled[..i])
      {
        var name := disabled[i];
        assert disabled[..i + 1] == disabled[..i] + [name];
        RestoreOne(before, disabled[..i], name);
        registry.plugins := registry.plugins[name := registry.plugins[name].(builtin := true)];
        i := i + 1;
      }
      assert disabled[..i] == disabled;
      disabled := [];
    }
  }

  /** What one iteration of the `feed_start` loop does to the registry and to the record. */
  lemma FeedStartStep(before: map<string, PluginInfo>, order: seq<string>, i: nat, config: Value,
                      found: seq<string>, current: map<string, PluginInfo>)
    requires i < |order| && NoRepeats(order) && (forall n :: n in order <==> n in before)
    requires found == ToDisable(order[..i], before, config)
    requires current == Cleared(before, found)
    ensures order[i] in current && current[order[i]] == before[order[i]]
    ensures Disables(before, config, order[i]) ==>
      && ToDisable(order[..i + 1], before, config) == found + [order[i]]
      && Cleared(before, found + [order[i]]) == current[order[i] := before[order[i]].(builtin := false)]
    ensures !Disables(before, config, order[i]) ==> ToDisable(order[..i + 1], before, config) == found
  {
    StepOfToDisable(order, i, before, config);
    if Disables(before, config, order[i]) {
      ClearOne(before, found, order[i]);
    }
  }

  /** Clearing flags keeps the registry's names. */
  lemma CleanedKeepsKeys(plugins: map<string, PluginInfo>, names: seq<string>)
    ensures Cleared(plugins, names).Keys == plugins.Keys
  {
  }

  lemma ClearOne(plugins: map<string, PluginInfo>, names: seq<string>, n: string)
    requires n in plugins
    ensures Cleared(plugins, names + [n]) == Cleared(plugins, names)[n := plugins[n].(builtin := false)]
  {
  }

  lemma RestoreOne(plugins: map<string, PluginInfo>, names: seq<string>, n: string)
    requires n in plugins
    ensures Restored(plugins, names + [n]) == Restored(plugins, names)[n := plugins[n].(builtin := true)]
  {
  }

  /**
   * A plugin that is not builtin is never disabled or recorded, and a plugin
   * missing from a list configuration keeps its flag.
   */
  lemma {:induction false} OnlyBuiltinsAreTouched(order: seq<string>, plugins: map<string, PluginInfo>, config: Value, n: string)
    requires n in plugins
    requires !plugins[n].builtin || (config.TextList? && plugins[n].name !in config.items)
    ensures n !in ToDisable(order, plugins, config)
    ensures Cleared(plugins, ToDisable(order, plugins, config))[n] == plugins[n]
  {
    ToDisableSelects(order, plugins, config);
  }

  /**
   * With a configuration that is not a list, every builtin plugin in the
   * registry ends up disabled and recorded.
   */
  lemma {:induction false} NonListDisablesEveryBuiltin(order: seq<string>, plugins: map<string, PluginInfo>, config: Value, n: string)
    requires forall m :: m in order <==> m in plugins
    requires !config.TextList?
    requires n in plugins && plugins[n].builtin
    ensures n in ToDisable(order, plugins, config)
    ensures !Cleared(plugins, ToDisable(order, plugins, config))[n].builtin
  {
    ToDisableSelects(order, plugins, config);
  }

  /**
   * `feed_start` followed by `feed_exit`, starting from an empty record,
   * gives every plugin back the flag it had before.
   */
  lemma {:induction false} StartThenExitRestores(order: seq<string>, plugins: map<string, PluginInfo>, config: Value)
    ensures Restored(Cleared(plugins, ToDisable(order, plugins, config)), [] + ToDisable(order, plugins, config)) == plugins
  {
    var d := ToDisable(order, plugins, config);
    ToDisableSelects(order, plugins, config);
    assert [] + d == d;
    var after := Restored(Cleared(plugins, d), d);
    forall n | n in plugins
      ensures after[n] == plugins[n]
    {
      if n in d {
        assert plugins[n].builtin;
      }
    }
  }
}
