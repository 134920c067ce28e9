/**
 * Post-processing of the command line (flexget/options.py): the checks for
 * mutually exclusive flags after parsing, the implied `learn` flag, and the
 * callback behind `--debug` and `--debug-all`. The option declarations and
 * optparse itself are not modelled: the values optparse produces are the input.
 */
module Options {
  import opened Wrappers

  const TestLearnMessage := "--test and --learn are mutually exclusive"
  const TestResetMessage := "--test and --reset are mutually exclusive"

  /** The option values `parse_args` and the debug callback read and write. */
  class OptionValues {
    var test: bool
    var learn: bool
    var reset: bool
    /** `--migrate FILE`; `None` when not given. */
    var migrate: Option<string>
    /** `--debug` and `--debug-all` store 1; 0 stands for "not given". */
    var debug: int
    var debugAll: int
    var loglevel: string

    /** The values optparse produces when no option is given. */
    constructor Defaults()
      ensures !test && !learn && !reset && migrate == None
      ensures debug == 0 && debugAll == 0 && loglevel == "info"
    {
      test, learn, reset, migrate := false, false, false, None;
      debug, debugAll, loglevel := 0, 0, "info";
    }
  }

  /** `options.migrate` is truthy: given, and not the empty string. */
  predicate MigrateGiven(migrate: Option<string>) {
    migrate.Some? && migrate.value != ""
  }

  /** The error `parse_args` reports for a combination of flags, checked in source order. */
  function Conflict(test: bool, learn: bool, reset: bool): (r: Option<string>)
    ensures r.Some? <==> test && (learn || reset)
    ensures r.Some? ==> r.value == (if learn then TestLearnMessage else TestResetMessage)
  {
    if test && learn then Some(TestLearnMessage)
    else if test && reset then Some(TestResetMessage)
    else None
  }

  /** The `learn` flag after `parse_args`: forced on by a reset outside unit-test mode, or by a migration. */
  function ImpliedLearn(learn: bool, reset: bool, migrate: Option<string>, unitTest: bool): bool {
    if (reset && !unitTest) || MigrateGiven(migrate) then true else learn
  }

  class OptionParser {
    const unitTest: bool

    constructor (unitTest: bool)
      ensures this.unitTest == unitTest
    {
      this.unitTest := unitTest;
    }

    /**
     * `parse_args`: `values` holds what optparse parsed from the command line. In
     * unit-test mode the command line is replaced by `flexget --reset`, whose
     * parse is the defaults with `reset` on. A conflict is reported (optparse's
     * `error` exits) before `learn` is adjusted.
     */
    method ParseArgs(values: OptionValues) returns (err: Option<string>)
      modifies values
      ensures var test := if unitTest then false else old(values.test);
              var learn := if unitTest then false else old(values.learn);
              var reset := if unitTest then true else old(values.reset);
              var migrate := if unitTest then None else old(values.migrate);
              && err == Conflict(test, learn, reset)
              && values.test == test && values.reset == reset && values.migrate == migrate
              && values.learn == (if err.Some? then learn else ImpliedLearn(learn, reset, migrate, unitTest))
      ensures values.debug == (if unitTest then 0 else old(values.debug))
      ensures values.debugAll == (if unitTest then 0 else old(values.debugAll))
      ensures values.loglevel == (if unitTest then "info" else old(values.loglevel))
    {
      if unitTest {
        values.test, values.learn, values.reset, values.migrate := false, false, true, None;
        values.debug, values.debugAll, values.loglevel := 0, 0, "info";
      }
      if values.test && values.learn {
        return Some(TestLearnMessage);
      }
      if values.test && values.reset {
        return Some(TestResetMessage);
      }
      if (values.reset && !unitTest) || (values.migrate.Some? && values.migrate.value != "") {
        values.learn := true;
      }
      return None;
    }
  }

  datatype DebugOption = DebugFlag | DebugAllFlag

  /** `_debug_callback`: `--debug` and `--debug-all` set their flag and the log level. */
  method DebugCallback(option: DebugOption, values: OptionValues)
    modifies values
    ensures option == DebugFlag ==>
      values.debug == 1 && values.loglevel == "debug" && values.debugAll == old(values.debugAll)
    ensures option == DebugAllFlag ==>
      values.debugAll == 1 && values.debug == 1 && values.loglevel == "debugall"
    ensures values.test == old(values.test) && values.learn == old(values.learn)
    ensures values.reset == old(values.reset) && values.migrate == old(values.migrate)
  {
    match option
    case DebugFlag =>
      values.debug := 1;
      values.loglevel := "debug";
    case DebugAllFlag =>
      values.debugAll := 1;
      values.debug := 1;
      values.loglevel := "debugall";
  }

  /**
   * After `parse_args` without a conflict, `learn` is on exactly when it was
   * given, or a reset outside unit-test mode or a migration forces it.
   */
  lemma LearnAfterParse(learn: bool, reset: bool, migrate: Option<string>, unitTest: bool)
    ensures ImpliedLearn(learn, reset, migrate, unitTest) <==> learn || (reset && !unitTest) || MigrateGiven(migrate)
  {
  }

  /**
   * The implication is applied after the conflict checks: `--test` with
   * `--migrate` is accepted, and then both `test` and `learn` are on.
   */
  lemma TestWithMigrateIsAcceptedAndLearns(migrate: Option<string>, unitTest: bool)
    requires MigrateGiven(migrate)
    ensures Conflict(true, false, false) == None
    ensures ImpliedLearn(false, false, migrate, unitTest)
  {
  }

  /** In unit-test mode the forced `--reset` neither conflicts nor turns `learn` on. */
  lemma UnitTestResetDoesNotLearn()
    ensures Conflict(false, false, true) == None
    ensures !ImpliedLearn(false, true, None, true)
  {
  }
}
