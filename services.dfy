/**
 * The service manager of polvon: the unit state enumerations, the service
 * record, the parser for the supervisor's unit listing, and the
 * classification of what each supervisor command returned.
 *
 * Running a command is not modelled. An `Executor` stands for the operating
 * system: for each command vector it gives what `subprocess.run` produced,
 * the way the unit tests replace `subprocess.run` by a mock.
 */
module Services {
  import opened Wrappers
  import opened Strings

  /** `ServiceState`: the active state of a unit. */
  datatype ActiveState = Active | Inactive | Failed | Activating | Deactivating | Unknown

  /** The string value of each `ServiceState` member. */
  function ActiveValue(s: ActiveState): string {
    match s
    case Active => "active"
    case Inactive => "inactive"
    case Failed => "failed"
    case Activating => "activating"
    case Deactivating => "deactivating"
    case Unknown => "unknown"
  }

  /** `ServiceLoadState`: whether the supervisor found and parsed the unit. */
  datatype LoadState = Loaded | NotFound | Error | Masked | Unknown

  /** The string value of each `ServiceLoadState` member. */
  function LoadValue(s: LoadState): string {
    match s
    case Loaded => "loaded"
    case NotFound => "not-found"
    case Error => "error"
    case Masked => "masked"
    case Unknown => "unknown"
  }

  /**
   * `_parse_active_state`: the member whose value is the lower-cased input,
   * and `Unknown` when no member has that value (never an error).
   */
  function ParseActiveState(raw: string): (s: ActiveState)
    ensures forall m :: ActiveValue(m) == Lower(raw) ==> s == m
    ensures s == ActiveState.Unknown || ActiveValue(s) == Lower(raw)
  {
    var v := Lower(raw);
    if v == "active" then Active
    else if v == "inactive" then Inactive
    else if v == "failed" then Failed
    else if v == "activating" then Activating
    else if v == "deactivating" then Deactivating
    else ActiveState.Unknown
  }

  /**
   * `_parse_load_state`: the member whose value is the lower-cased input,
   * and `Unknown` when no member has that value (never an error).
   */
  function ParseLoadState(raw: string): (s: LoadState)
    ensures forall m :: LoadValue(m) == Lower(raw) ==> s == m
    ensures s == LoadState.Unknown || LoadValue(s) == Lower(raw)
  {
    var v := Lower(raw);
    if v == "loaded" then Loaded
    else if v == "not-found" then NotFound
    else if v == "error" then Error
    else if v == "masked" then Masked
    else LoadState.Unknown
  }

  /** Parsing a state's own value gives that state back. */
  lemma ActiveStateRoundTrip(s: ActiveState)
    ensures ParseActiveState(ActiveValue(s)) == s
  {
    LowerIdempotent(ActiveValue(s));
  }

  /** Parsing a load state's own value gives that load state back. */
  lemma LoadStateRoundTrip(s: LoadState)
    ensures ParseLoadState(LoadValue(s)) == s
  {
    LowerIdempotent(LoadValue(s));
  }

  /** The state lookups ignore the case of their input. */
  lemma StateLookupIgnoresCase(raw: string)
    ensures ParseActiveState(Lower(raw)) == ParseActiveState(raw)
    ensures ParseLoadState(Lower(raw)) == ParseLoadState(raw)
  {
    LowerIdempotent(raw);
  }

  /**
   * `Service`: one unit as listed. The description is optional because the
   * search filter also accepts records built without one.
   */
  datatype Service = Service(
    name: string,
    loadState: LoadState,
    activeState: ActiveState,
    subState: string,
    description: Option<string>,
    enabled: bool)

  /** What `subprocess.run` did with a command vector. */
  datatype ProcessOutcome =
    | Exited(returncode: int, stdout: string, stderr: string)
    | TimedOut
    | Raised(message: string)

  /** The `(returncode, stdout, stderr)` triple of `_run_command`. */
  datatype CommandResult = CommandResult(returncode: int, stdout: string, stderr: string)

  /** The operating system, seen as the outcome of each command vector. */
  type Executor = seq<string> -> ProcessOutcome

  /** The `(success, message)` pair of the control operations. */
  datatype Reply = Reply(success: bool, message: string)

  /** The stderr that `_run_command` reports for a command that ran past its time limit. */
  const TimeoutMessage := "Command timed out"

  /** The number of log lines `get_service_logs` asks for by default. */
  const DefaultLogLines := 50

  /** The arguments of `list-units`; `--all` is added when inactive units are wanted. */
  function ListArgs(showAll: bool): (args: seq<string>)
    ensures |args| == if showAll then 6 else 5
    ensures args[..5] == ["list-units", "--type=service", "--no-pager", "--plain", "--no-legend"]
    ensures "--all" in args <==> showAll
  {
    ["list-units", "--type=service", "--no-pager", "--plain", "--no-legend"] + (if showAll then ["--all"] else [])
  }

  /**
   * The record for one line of the listing, or `None` for a blank line and
   * for a line with fewer than five whitespace-separated fields. The first
   * four fields are the name, load state, active state and sub-state; the
   * description is the rest of the line, inner whitespace included.
   */
  function ParseLine(line: string, enabledOf: string -> bool): (r: Option<Service>)
    ensures r.Some? <==> |Words(line)| >= 5
    ensures r.Some? ==> var words := Words(line);
      && r.value.name == words[0]
      && r.value.loadState == ParseLoadState(words[1])
      && r.value.activeState == ParseActiveState(words[2])
      && r.value.subState == words[3]
      && r.value.enabled == enabledOf(words[0])
    ensures r.Some? ==> r.value.description.Some? && var d := r.value.description.value;
      && d != [] && !IsSpace(d[0])
      && |d| <= |line| && d == line[|line| - |d|..]
      && Words(d) == Words(line)[4..]
  {
    StripEmptyIffBlank(line);
    SplitFieldsAreWords(line, 4);
    if Strip(line) == [] then
      BlankHasNoWords(line);
      None
    else
      var parts := SplitFields(line, 4);
      if |parts| >= 5 then
        LastFieldIsSuffix(line, 4);
        LastFieldWords(line, 4);
        Some(Service(
          name := parts[0],
          loadState := ParseLoadState(parts[1]),
          activeState := ParseActiveState(parts[2]),
          subState := parts[3],
          description := Some(parts[4]),
          enabled := enabledOf(parts[0])))
      else
        None
  }

  /** The records a line contributes: one when it has at least five fields, none otherwise. */
  function Accepted(line: string, enabledOf: string -> bool): (r: seq<Service>)
    ensures |r| <= 1
    ensures r == [] <==> |Words(line)| < 5
  {
    match ParseLine(line, enabledOf)
    case Some(s) => [s]
    case None => []
  }

  /** The records of a line, in the steps `list_services` takes to build them. */
  lemma AcceptedFromFields(line: string, enabledOf: string -> bool)
    ensures Strip(line) == [] ==> Accepted(line, enabledOf) == []
    ensures Strip(line) != [] ==> var parts := SplitFields(line, 4);
      Accepted(line, enabledOf) == if |parts| < 5 then [] else
        [Service(parts[0], ParseLoadState(parts[1]), ParseActiveState(parts[2]), parts[3], Some(parts[4]), enabledOf(parts[0]))]
  {
  }

  /** A record as the listing produces it: a non-empty name without whitespace, a description, and the oracle's enabled flag. */
  predicate WellFormed(s: Service, enabledOf: string -> bool) {
    IsToken(s.name) && s.description.Some? && s.enabled == enabledOf(s.name)
  }

  /**
   * The records of a sequence of listing lines, one per accepted line, in
   * the order of the lines.
   */
  function ParseLines(lines: seq<string>, enabledOf: string -> bool): (services: seq<Service>)
    ensures |services| <= |lines|
    ensures forall k :: 0 <= k < |services| ==> WellFormed(services[k], enabledOf)
  {
    if lines == [] then []
    else
      Accepted(lines[0], enabledOf) + ParseLines(lines[1..], enabledOf)
  }

  /** Parsing distributes over the concatenation of listings. */
  lemma {:induction false} ParseLinesAppend(a: seq<string>, b: seq<string>, enabledOf: string -> bool)
    ensures ParseLines(a + b, enabledOf) == ParseLines(a, enabledOf) + ParseLines(b, enabledOf)
  {
    if a != [] {
      assert (a + b)[1..] == a[1..] + b;
      ParseLinesAppend(a[1..], b, enabledOf);
    } else {
      assert a + b == b;
    }
  }

  /** The records of a listing that ends in `line` are those before it followed by its own. */
  lemma {:induction false} ParseLinesSnoc(lines: seq<string>, line: string, enabledOf: string -> bool)
    ensures ParseLines(lines + [line], enabledOf) == ParseLines(lines, enabledOf) + Accepted(line, enabledOf)
  {
    ParseLinesAppend(lines, [line], enabledOf);
    assert ParseLines([line], enabledOf) == Accepted(line, enabledOf) + ParseLines([], enabledOf);
  }

  /** Reading one more line of a listing appends that line's record, if any. */
  lemma ParseLinesPrefix(lines: seq<string>, i: int, enabledOf: string -> bool)
    requires 0 <= i < |lines|
    ensures ParseLines(lines[..i + 1], enabledOf) == ParseLines(lines[..i], enabledOf) + Accepted(lines[i], enabledOf)
  {
    assert lines[..i + 1] == lines[..i] + [lines[i]];
    ParseLinesSnoc(lines[..i], lines[i], enabledOf);
  }

  /**
   * Each line contributes its own records at its own position, whatever the
   * lines around it are: a line that yields no record is dropped and does not
   * stop the lines after it from being parsed.
   */
  lemma {:induction false} LineInContext(before: seq<string>, line: string, after: seq<string>, enabledOf: string -> bool)
    ensures ParseLines(before + [line] + after, enabledOf)
      == ParseLines(before, enabledOf) + Accepted(line, enabledOf) + ParseLines(after, enabledOf)
  {
    ParseLinesAppend(before + [line], after, enabledOf);
    ParseLinesSnoc(before, line, enabledOf);
  }

  /** The lines of the listing: the whole output stripped, then split at newlines. */
  function ListingLines(stdout: string): (lines: seq<string>)
    ensures |lines| >= 1
    ensures forall k :: 0 <= k < |lines| ==> '\n' !in lines[k]
    ensures Join(lines, '\n') == Strip(stdout)
  {
    JoinSplit(Strip(stdout), '\n');
    Split(Strip(stdout), '\n')
  }

  /** The state values are single words. */
  lemma StateValuesAreTokens(load: LoadState, active: ActiveState)
    ensures IsToken(LoadValue(load)) && IsToken(ActiveValue(active))
  {
  }

  /** The line `list-units` prints for a record: the four fields and the description, separated by spaces. */
  function ListingLine(s: Service): string
    requires s.description.Some?
  {
    s.name + (" " + (LoadValue(s.loadState) + (" " + (ActiveValue(s.activeState) + (" " + (s.subState + (" " + s.description.value)))))))
  }

  /**
   * A record whose name and sub-state are single words and whose
   * description starts with a non-whitespace character is parsed back from
   * its listing line.
   */
  lemma ParseLineRoundTrip(s: Service, enabledOf: string -> bool)
    requires IsToken(s.name) && IsToken(s.subState)
    requires s.description.Some? && s.description.value != [] && !IsSpace(s.description.value[0])
    requires s.enabled == enabledOf(s.name)
    ensures ParseLine(ListingLine(s), enabledOf) == Some(s)
  {
    var line := ListingLine(s);
    StateValuesAreTokens(s.loadState, s.activeState);
    FiveFieldsRoundTrip(s.name, LoadValue(s.loadState), ActiveValue(s.activeState), s.subState, s.description.value);
    LoadStateRoundTrip(s.loadState);
    ActiveStateRoundTrip(s.activeState);
    assert line[0] == s.name[0];
    StripEmptyIffBlank(line);
    AcceptedFromFields(line, enabledOf);
  }

  /** A listing line whose description has no line break has none. */
  lemma ListingLineLacksNewline(s: Service)
    requires IsToken(s.name) && IsToken(s.subState)
    requires s.description.Some? && '\n' !in s.description.value
    ensures '\n' !in ListingLine(s)
  {
    StateValuesAreTokens(s.loadState, s.activeState);
    TokenLacksSpace(s.name, '\n');
    TokenLacksSpace(LoadValue(s.loadState), '\n');
    TokenLacksSpace(ActiveValue(s.activeState), '\n');
    TokenLacksSpace(s.subState, '\n');
  }

  /**
   * A listing of one such line, as `list-units` prints it with its final
   * newline, yields exactly that record.
   */
  lemma SingleLineListing(s: Service, stderr: string, enabledOf: string -> bool)
    requires IsToken(s.name) && IsToken(s.subState)
    requires s.description.Some? && s.description.value != []
    requires !IsSpace(s.description.value[0]) && !IsSpace(s.description.value[|s.description.value| - 1])
    requires '\n' !in s.description.value
    requires s.enabled == enabledOf(s.name)
    ensures Listing(CommandResult(0, ListingLine(s) + "\n", stderr), enabledOf) == [s]
  {
    var line := ListingLine(s);
    ParseLineRoundTrip(s, enabledOf);
    StripTrailingNewline(line);
    ListingLineLacksNewline(s);
    assert ListingLines(line + "\n") == Split(line, '\n') == [line];
    assert ParseLines([line], enabledOf) == Accepted(line, enabledOf) + ParseLines([], enabledOf);
  }

  /** `list_services` on the result of its `list-units` command. */
  function Listing(result: CommandResult, enabledOf: string -> bool): (services: seq<Service>)
    ensures result.returncode != 0 ==> services == []
    ensures |services| <= |ListingLines(result.stdout)|
    ensures forall k :: 0 <= k < |services| ==> WellFormed(services[k], enabledOf)
  {
    if result.returncode != 0 then [] else ParseLines(ListingLines(result.stdout), enabledOf)
  }

  /** `is_enabled` on the result of its `is-enabled` command. */
  function IsEnabledReply(result: CommandResult): (enabled: bool)
    ensures enabled ==> result.returncode == 0
    ensures result.returncode == 0 && result.stdout == "enabled\n" ==> enabled
    ensures result.stdout == "disabled\n" ==> !enabled
  {
    StripTrailingNewline("enabled");
    assert "enabled" + "\n" == "enabled\n";
    StripTrailingNewline("disabled");
    result.returncode == 0 && Strip(result.stdout) == "enabled"
  }

  /** The systemctl verb of each control operation. */
  datatype Verb = Start | Stop | Restart | Enable | Disable

  function VerbArg(v: Verb): string {
    match v
    case Start => "start"
    case Stop => "stop"
    case Restart => "restart"
    case Enable => "enable"
    case Disable => "disable"
  }

  function PastTense(v: Verb): string {
    match v
    case Start => "started"
    case Stop => "stopped"
    case Restart => "restarted"
    case Enable => "enabled"
    case Disable => "disabled"
  }

  /** The message of a failed control operation whose stderr was empty. */
  function FallbackMessage(v: Verb): string {
    "Failed to " + VerbArg(v) + " service"
  }

  function SuccessMessage(v: Verb, name: string): string {
    "Service " + name + " " + PastTense(v) + " successfully"
  }

  /** The message of a failed command: its stderr, or the fixed text when stderr is empty. */
  function FailureMessage(stderr: string, fallback: string): string {
    if stderr != "" then stderr else fallback
  }

  /** Each verb's past tense is a single word, and different verbs have different ones. */
  lemma PastTenseIsWord(v1: Verb, v2: Verb)
    ensures IsToken(PastTense(v1))
    ensures PastTense(v1) == PastTense(v2) ==> v1 == v2
  {
  }

  /**
   * The success message names the operation and the unit unambiguously:
   * two operations that report the same message had the same verb and unit.
   */
  lemma SuccessMessageIdentifiesAction(v1: Verb, n1: string, v2: Verb, n2: string)
    requires SuccessMessage(v1, n1) == SuccessMessage(v2, n2)
    ensures v1 == v2 && n1 == n2
  {
    var p1, p2 := PastTense(v1), PastTense(v2);
    var x1, x2 := n1 + " " + p1, n2 + " " + p2;
    assert "Service " + x1 + " successfully" == "Service " + x2 + " successfully" by {
      SuccessMessageShape(v1, n1);
      SuccessMessageShape(v2, n2);
    }
    SameAffixes("Service ", x1, x2, " successfully");
    PastTenseIsWord(v1, v2);
    PastTenseIsWord(v2, v1);
    LastWordDetermined(n1, p1, n2, p2);
  }

  lemma SuccessMessageShape(v: Verb, name: string)
    ensures SuccessMessage(v, name) == "Service " + (name + " " + PastTense(v)) + " successfully"
  {
  }

  /** The success message names the unit first and ends with the verb's past tense and "successfully". */
  lemma SuccessMessageReportsVerb(v: Verb, name: string)
    ensures StartsWith(SuccessMessage(v, name), "Service " + name)
    ensures Contains(SuccessMessage(v, name), PastTense(v) + " successfully")
  {
    assert SuccessMessage(v, name) == ("Service " + name + " ") + (PastTense(v) + " successfully");
    ContainsTail("Service " + name + " ", PastTense(v) + " successfully");
  }

  /** Strings equal after the same prefix and suffix are added are equal. */
  lemma SameAffixes(prefix: string, x: string, y: string, suffix: string)
    requires prefix + x + suffix == prefix + y + suffix
    ensures x == y
  {
    var m := prefix + x + suffix;
    assert x == m[|prefix|..|m| - |suffix|];
  }

  /** A string that ends in a space and a word determines that word and what precedes the space. */
  lemma LastWordDetermined(n1: string, p1: string, n2: string, p2: string)
    requires IsToken(p1) && IsToken(p2)
    requires n1 + " " + p1 == n2 + " " + p2
    ensures n1 == n2 && p1 == p2
  {
    var x := n1 + " " + p1;
    assert |p1| == |p2| by {
      assert forall i :: 0 <= i < |p1| ==> x[|x| - |p1| + i] == p1[i];
      assert forall i :: 0 <= i < |p2| ==> x[|x| - |p2| + i] == p2[i];
      assert x[|x| - |p1| - 1] == ' ' && x[|x| - |p2| - 1] == ' ';
    }
    assert p1 == x[|x| - |p1|..] == p2;
    assert n1 == x[..|n1|] == n2;
  }

  /** The failure message of a control operation is never empty. */
  lemma FailureMessageNonEmpty(stderr: string, v: Verb)
    ensures FailureMessage(stderr, FallbackMessage(v)) != ""
  {
  }

  /** `ServiceManager`: issues supervisor commands, optionally through `sudo`, and interprets their results. */
  class ServiceManager {
    const useSudo: bool

    constructor (useSudo: bool)
      ensures this.useSudo == useSudo
    {
      this.useSudo := useSudo;
    }

    /** The command vector `_run_command` runs: `systemctl` and the arguments, behind `sudo` when asked. */
    function Command(args: seq<string>): (cmd: seq<string>)
      ensures |cmd| == |args| + (if useSudo then 2 else 1)
      ensures cmd[|cmd| - |args|..] == args && cmd[|cmd| - |args| - 1] == "systemctl"
      ensures useSudo <==> cmd[0] == "sudo"
    {
      (if useSudo then ["sudo"] else []) + ["systemctl"] + args
    }

    /**
     * `_run_command`: the triple of a command that ran, and a failure triple
     * with return code 1 and empty stdout for one that timed out or could
     * not be run.
     */
    function RunCommand(args: seq<string>, exec: Executor): (r: CommandResult)
      ensures exec(Command(args)).Exited? ==>
        r == CommandResult(exec(Command(args)).returncode, exec(Command(args)).stdout, exec(Command(args)).stderr)
      ensures !exec(Command(args)).Exited? ==> r.returncode == 1 && r.stdout == ""
      ensures exec(Command(args)).TimedOut? ==> r.stderr == TimeoutMessage
      ensures exec(Command(args)).Raised? ==> r.stderr == exec(Command(args)).message
    {
      match exec(Command(args))
      case Exited(code, out, err) => CommandResult(code, out, err)
      case TimedOut => CommandResult(1, "", TimeoutMessage)
      case Raised(message) => CommandResult(1, "", message)
    }

    /**
     * `is_enabled`: true exactly when `is-enabled` ran, exited 0 and printed
     * `enabled` (surrounding whitespace ignored).
     */
    function IsEnabled(name: string, exec: Executor): (enabled: bool)
      ensures enabled <==>
        && exec(Command(["is-enabled", name])).Exited?
        && exec(Command(["is-enabled", name])).returncode == 0
        && Strip(exec(Command(["is-enabled", name])).stdout) == "enabled"
    {
      IsEnabledReply(RunCommand(["is-enabled", name], exec))
    }

    /** `is_enabled` as the lookup the listing consults for each accepted line. */
    function EnabledLookup(exec: Executor): string -> bool {
      (name: string) => IsEnabled(name, exec)
    }

    /** What `list_services(show_all)` returns. */
    function ListingOf(showAll: bool, exec: Executor): (services: seq<Service>)
      ensures !exec(Command(ListArgs(showAll))).Exited? ==> services == []
      ensures RunCommand(ListArgs(showAll), exec).returncode != 0 ==> services == []
      ensures forall k :: 0 <= k < |services| ==> IsToken(services[k].name) && services[k].enabled == IsEnabled(services[k].name, exec)
    {
      Listing(RunCommand(ListArgs(showAll), exec), EnabledLookup(exec))
    }

    /** The `is-enabled` commands issued for a list of records, in order. */
    function EnabledQueries(services: seq<Service>): (queries: seq<seq<string>>)
      ensures |queries| == |services|
      ensures forall k :: 0 <= k < |services| ==> queries[k] == Command(["is-enabled", services[k].name])
    {
      if services == [] then []
      else EnabledQueries(services[..|services| - 1]) + [Command(["is-enabled", services[|services| - 1].name])]
    }

    /**
     * `list_services`: runs `list-units`, and on success parses each line of
     * its output, asking `is-enabled` once for each accepted line. Besides
     * the records it returns the command vectors it ran, in order.
     */
    method ListServices(showAll: bool, exec: Executor) returns (services: seq<Service>, issued: seq<seq<string>>)
      ensures services == ListingOf(showAll, exec)
      ensures RunCommand(ListArgs(showAll), exec).returncode != 0 ==> services == []
      ensures issued == [Command(ListArgs(showAll))] + EnabledQueries(services)
    {
      var args := ListArgs(showAll);
      var result := RunCommand(args, exec);
      if result.returncode != 0 {
        return [], [Command(args)];
      }
      var queries;
      services, queries := ParseListing(ListingLines(result.stdout), exec);
      issued := [Command(args)] + queries;
    }

    /** The `is-enabled` queries of two lists of records, one after the other. */
    lemma {:induction false} EnabledQueriesAppend(a: seq<Service>, b: seq<Service>)
      ensures EnabledQueries(a + b) == EnabledQueries(a) + EnabledQueries(b)
    {
      var lhs, rhs := EnabledQueries(a + b), EnabledQueries(a) + EnabledQueries(b);
      assert |lhs| == |rhs|;
      forall k | 0 <= k < |lhs|
        ensures lhs[k] == rhs[k]
      {
        if k < |a| {
          assert (a + b)[k] == a[k];
        } else {
          assert (a + b)[k] == b[k - |a|];
        }
      }
    }

    /**
     * One turn of the loop of `list_services`: a line that splits into five
     * fields becomes a record, after one `is-enabled` query for its unit.
     */
    method ParseListingLine(line: string, exec: Executor) returns (accepted: seq<Service>, queries: seq<seq<string>>)
      ensures accepted == Accepted(line, EnabledLookup(exec))
      ensures queries == EnabledQueries(accepted)
    {
      AcceptedFromFields(line, EnabledLookup(exec));
      accepted, queries := [], [];
      if Strip(line) != [] {
        var parts := SplitFields(line, 4);
        if |parts| >= 5 {
          var name := parts[0];
          var enabled := IsEnabled(name, exec);
          queries := [Command(["is-enabled", name])];
          accepted := [Service(name, ParseLoadState(parts[1]), ParseActiveState(parts[2]), parts[3], Some(parts[4]), enabled)];
        }
      }
    }

    /** The loop of `list_services` over the lines of the listing. */
    method ParseListing(lines: seq<string>, exec: Executor) returns (services: seq<Service>, queries: seq<seq<string>>)
      ensures services == ParseLines(lines, EnabledLookup(exec))
      ensures queries == EnabledQueries(services)
    {
      ghost var enabledOf := EnabledLookup(exec);
      services, queries := [], [];
      var i := 0;
      while i < |lines|
        invariant 0 <= i <= |lines|
        invariant services == ParseLines(lines[..i], enabledOf)
        invariant queries == EnabledQueries(services)
      {
        ParseLinesPrefix(lines, i, enabledOf);
        var accepted, asked := ParseListingLine(lines[i], exec);
        EnabledQueriesAppend(services, accepted);
        services, queries := services + accepted, queries + asked;
        i := i + 1;
      }
      assert lines[..|lines|] == lines;
    }

    /**
     * `start_service`, `stop_service`, `restart_service`, `enable_service`
     * and `disable_service`: success exactly when the command exited 0; the
     * message then names the unit and the verb, and otherwise is the stderr,
     * or the verb's fixed text when stderr is empty.
     */
    function Control(verb: Verb, name: string, exec: Executor): (reply: Reply)
      ensures var outcome := exec(Command([VerbArg(verb), name]));
        reply.success <==> outcome.Exited? && outcome.returncode == 0
      ensures reply.success ==> reply.message == SuccessMessage(verb, name)
      ensures !reply.success ==>
        reply.message == FailureMessage(RunCommand([VerbArg(verb), name], exec).stderr, FallbackMessage(verb))
    {
      var result := RunCommand([VerbArg(verb), name], exec);
      if result.returncode == 0 then Reply(true, SuccessMessage(verb, name))
      else Reply(false, FailureMessage(result.stderr, FallbackMessage(verb)))
    }

    /** `reload_daemon`: the same contract as the control operations, with its own texts. */
    function ReloadDaemon(exec: Executor): (reply: Reply)
      ensures var outcome := exec(Command(["daemon-reload"]));
        reply.success <==> outcome.Exited? && outcome.returncode == 0
      ensures reply.success ==> reply.message == "Daemon reloaded successfully"
      ensures !reply.success ==>
        reply.message == FailureMessage(RunCommand(["daemon-reload"], exec).stderr, "Failed to reload daemon")
    {
      var result := RunCommand(["daemon-reload"], exec);
      if result.returncode == 0 then Reply(true, "Daemon reloaded successfully")
      else Reply(false, FailureMessage(result.stderr, "Failed to reload daemon"))
    }

    /**
     * `get_service_status`: absent when `status` returned more than 3 (the
     * codes 0 to 3 describe the unit's state), otherwise the output and the
     * unit's name.
     */
    function GetServiceStatus(name: string, exec: Executor): (info: Option<map<string, string>>)
      ensures info.None? <==> RunCommand(["status", name], exec).returncode > 3
      ensures info.Some? ==> info.value.Keys == {"output", "name"}
      ensures info.Some? ==> info.value["output"] == RunCommand(["status", name], exec).stdout
      ensures info.Some? ==> info.value["name"] == name
    {
      var result := RunCommand(["status", name], exec);
      if result.returncode > 3 then None
      else Some(map["output" := result.stdout, "name" := name])
    }

    /**
     * A `status` command that timed out or could not be run reads as
     * available with empty output: its failure triple has return code 1,
     * which is within the range 0 to 3 taken to describe the unit.
     */
    lemma StatusOfFailedRun(name: string, exec: Executor)
      requires !exec(Command(["status", name])).Exited?
      ensures GetServiceStatus(name, exec) == Some(map["output" := "", "name" := name])
    {
      var info := GetServiceStatus(name, exec);
      assert info.value.Keys == map["output" := "", "name" := name].Keys;
    }

    /** The `journalctl` command vector of `get_service_logs`; it does not go through `systemctl`. */
    function LogsCommand(name: string, lines: int): (cmd: seq<string>)
      ensures |cmd| == if useSudo then 7 else 6
      ensures useSudo <==> cmd[0] == "sudo"
      ensures cmd[|cmd| - 6..|cmd| - 3] == ["journalctl", "-u", name]
      ensures cmd[|cmd| - 3] == "-n" && cmd[|cmd| - 1] == "--no-pager"
    {
      (if useSudo then ["sudo"] else []) + ["journalctl", "-u", name, "-n", IntToString(lines), "--no-pager"]
    }

    /** The line count in the log command reads back as the number asked for. */
    lemma LogsCommandLineCount(name: string, lines: int)
      ensures var count := LogsCommand(name, lines)[|LogsCommand(name, lines)| - 2];
        ((count != [] && count[0] == '-' && IsDigits(count[1..])) || IsDigits(count)) && ParseInt(count) == lines
    {
      IntToStringRoundTrip(lines);
    }

    /**
     * `get_service_logs`: the output of the log command when it ran and
     * exited 0, and absent otherwise (a timeout or any other exception
     * included).
     */
    function GetServiceLogs(name: string, lines: int, exec: Executor): (logs: Option<string>)
      ensures var outcome := exec(LogsCommand(name, lines));
        logs.Some? <==> outcome.Exited? && outcome.returncode == 0
      ensures logs.Some? ==> logs.value == exec(LogsCommand(name, lines)).stdout
    {
      match exec(LogsCommand(name, lines))
      case Exited(code, out, _) => if code == 0 then Some(out) else None
      case _ => None
    }
  }
}
