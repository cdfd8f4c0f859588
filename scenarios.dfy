/**
 * The behaviour the repository's tests pin down, stated for the concrete
 * inputs those tests use.
 */
module Scenarios {
  import opened Wrappers
  import opened Strings
  import opened Services
  import opened Tui

  // ---------------------------------------------------------------------
  // `ServiceManager`
  // ---------------------------------------------------------------------

  /** `test_init`: a manager keeps the `use_sudo` flag it was built with. */
  method InitExample() returns (plain: ServiceManager, withSudo: ServiceManager)
    ensures !plain.useSudo && withSudo.useSudo
  {
    plain := new ServiceManager(false);
    withSudo := new ServiceManager(true);
  }

  /** The line of the listing test is the listing line of an active, loaded unit. */
  lemma TestUnitLine(unit: Service, stdout: string)
    requires unit == Service("test.service", Loaded, Active, "running", Some("Test Service"), true)
    requires stdout == "test.service loaded active running Test Service\n"
    ensures ListingLine(unit) + "\n" == stdout
  {
  }

  /** `test_list_services_success`: the one listed line becomes one active record named `test.service`. */
  lemma ListingOfOneActiveUnit(stdout: string, enabledOf: string -> bool)
    requires stdout == "test.service loaded active running Test Service\n"
    requires forall name :: enabledOf(name)
    ensures var services := Listing(CommandResult(0, stdout, ""), enabledOf);
      |services| == 1 && services[0].name == "test.service" && services[0].activeState == Active
  {
    var unit := Service("test.service", Loaded, Active, "running", Some("Test Service"), true);
    TestUnitLine(unit, stdout);
    assert Listing(CommandResult(0, ListingLine(unit) + "\n", ""), enabledOf) == [unit] by {
      assert IsToken(unit.name) && IsToken(unit.subState);
      SingleLineListing(unit, "", enabledOf);
    }
  }

  /** `test_parse_load_state`: known values map to their member, anything else to `UNKNOWN`. */
  lemma LoadStateExamples()
    ensures ParseLoadState("loaded") == Loaded
    ensures ParseLoadState("not-found") == NotFound
    ensures ParseLoadState("invalid") == LoadState.Unknown
  {
    LoadStateRoundTrip(Loaded);
    LoadStateRoundTrip(NotFound);
    assert Lower("invalid")[0] == 'i';
  }

  /** `test_parse_active_state`: likewise for the active state. */
  lemma ActiveStateExamples()
    ensures ParseActiveState("active") == Active
    ensures ParseActiveState("inactive") == Inactive
    ensures ParseActiveState("failed") == Failed
    ensures ParseActiveState("invalid") == ActiveState.Unknown
  {
    ActiveStateRoundTrip(Active);
    ActiveStateRoundTrip(Inactive);
    ActiveStateRoundTrip(Failed);
    assert Lower("invalid")[0] == 'i' && Lower("invalid")[2] == 'v';
  }

  /** `test_is_enabled_true` and `test_is_enabled_false`. */
  lemma IsEnabledExamples(manager: ServiceManager, exec: Executor, other: Executor)
    requires exec(manager.Command(["is-enabled", "test.service"])) == Exited(0, "enabled\n", "")
    requires other(manager.Command(["is-enabled", "test.service"])) == Exited(1, "disabled\n", "")
    ensures manager.IsEnabled("test.service", exec)
    ensures !manager.IsEnabled("test.service", other)
  {
    StripTrailingNewline("enabled");
  }

  /** `test_start_service_success` and the other verbs' success tests. */
  lemma ControlSuccessExample(manager: ServiceManager, verb: Verb, exec: Executor)
    requires exec(manager.Command([VerbArg(verb), "test.service"])) == Exited(0, "", "")
    ensures manager.Control(verb, "test.service", exec).success
    ensures Contains(manager.Control(verb, "test.service", exec).message, PastTense(verb) + " successfully")
  {
    SuccessMessageReportsVerb(verb, "test.service");
  }

  /** `test_start_service_failure`: the reply fails and carries the command's error text. */
  lemma StartFailureExample(manager: ServiceManager, exec: Executor)
    requires exec(manager.Command(["start", "test.service"])) == Exited(1, "", "Failed to start test.service")
    ensures !manager.Control(Start, "test.service", exec).success
    ensures manager.Control(Start, "test.service", exec).message == "Failed to start test.service"
    ensures StartsWith(manager.Control(Start, "test.service", exec).message, "Failed")
  {
  }

  /** `test_command_timeout`: a timed-out command reads as return code 1, no output, and "timed out". */
  lemma TimeoutExample(manager: ServiceManager, exec: Executor)
    requires exec(manager.Command(["status", "test.service"])) == TimedOut
    ensures manager.RunCommand(["status", "test.service"], exec) == CommandResult(1, "", "Command timed out")
    ensures OccursAt(manager.RunCommand(["status", "test.service"], exec).stderr, "timed out", 8)
  {
  }

  // ---------------------------------------------------------------------
  // The search filter of `PolvonApp`
  // ---------------------------------------------------------------------

  const NginxUnit := Service("nginx.service", Loaded, Active, "running", Some("A high performance web server"), true)
  const ApacheUnit := Service("apache2.service", Loaded, Inactive, "dead", Some("The Apache HTTP Server"), false)
  const SshUnit := Service("ssh.service", Loaded, Active, "running", Some("OpenSSH server daemon"), true)
  const MysqlUnit := Service("mysql.service", Loaded, Failed, "failed", Some("MySQL Database Server"), true)

  /** The four units of the search tests. */
  function SearchUnits(): seq<Service> {
    [NginxUnit, ApacheUnit, SshUnit, MysqlUnit]
  }

  /** Filtering four records is deciding each of them in turn. */
  lemma MatchingFour(a: Service, b: Service, c: Service, d: Service, query: string)
    ensures Matching([a, b, c, d], query)
      == (if Matches(a, query) then [a] else []) + (if Matches(b, query) then [b] else [])
       + (if Matches(c, query) then [c] else []) + (if Matches(d, query) then [d] else [])
  {
    var ka, kb, kc, kd := Matching([a], query), Matching([b], query), Matching([c], query), Matching([d], query);
    assert [a, b, c, d] == [a] + [b] + [c] + [d];
    MatchingAppend([a] + [b] + [c], [d], query);
    MatchingAppend([a] + [b], [c], query);
    MatchingAppend([a], [b], query);
    assert Matching([a, b, c, d], query) == ka + kb + kc + kd;
    MatchingOne(a, query);
    MatchingOne(b, query);
    MatchingOne(c, query);
    MatchingOne(d, query);
  }

  /** A record matches no query holding a letter absent, in either case, from its name and description. */
  lemma MissingLetterNoMatch(s: Service, query: string, c: char)
    requires 'a' <= c <= 'z' && c in query
    requires c !in s.name && (c as int - 32) as char !in s.name
    requires s.description.Some?
    requires c !in s.description.value && (c as int - 32) as char !in s.description.value
    ensures !Matches(s, query)
  {
    LowerLacks(s.name, c);
    MissingCharNotContained(Lower(s.name), query, c);
    LowerLacks(s.description.value, c);
    MissingCharNotContained(Lower(s.description.value), query, c);
  }

  /** The nginx unit matches "nginx" through its name. */
  lemma NginxMatchesByName()
    ensures Matches(NginxUnit, "nginx")
  {
    assert Lower(NginxUnit.name)[..5] == "nginx";
  }

  /** The letters "g" and "x" occur in neither case in the apache unit's name or description. */
  lemma ApacheText(t: string, c: char)
    requires t == "apache2.service" || t == "The Apache HTTP Server"
    requires c == 'g' || c == 'x'
    ensures c !in t && (c as int - 32) as char !in t
  {
  }

  /** The apache unit matches no query holding one of those letters. */
  lemma ApacheLacks(query: string, c: char)
    requires (c == 'g' || c == 'x') && c in query
    ensures !Matches(ApacheUnit, query)
  {
    ApacheText(ApacheUnit.name, c);
    ApacheText(ApacheUnit.description.value, c);
    MissingLetterNoMatch(ApacheUnit, query, c);
  }

  /** The letters "g" and "t" occur in neither case in the ssh unit's name or description. */
  lemma SshText(t: string, c: char)
    requires t == "ssh.service" || t == "OpenSSH server daemon"
    requires c == 'g' || c == 't'
    ensures c !in t && (c as int - 32) as char !in t
  {
  }

  /** The ssh unit matches no query holding one of those letters. */
  lemma SshLacks(query: string, c: char)
    requires (c == 'g' || c == 't') && c in query
    ensures !Matches(SshUnit, query)
  {
    SshText(SshUnit.name, c);
    SshText(SshUnit.description.value, c);
    MissingLetterNoMatch(SshUnit, query, c);
  }

  /** The letters "g", "x" and "p" occur in neither case in the mysql unit's name or description. */
  lemma MysqlText(t: string, c: char)
    requires t == "mysql.service" || t == "MySQL Database Server"
    requires c == 'g' || c == 'x' || c == 'p'
    ensures c !in t && (c as int - 32) as char !in t
  {
  }

  /** The mysql unit matches no query holding one of those letters. */
  lemma MysqlLacks(query: string, c: char)
    requires (c == 'g' || c == 'x' || c == 'p') && c in query
    ensures !Matches(MysqlUnit, query)
  {
    MysqlText(MysqlUnit.name, c);
    MysqlText(MysqlUnit.description.value, c);
    MissingLetterNoMatch(MysqlUnit, query, c);
  }

  /** The letter "t" occurs in neither case in the nginx unit's name or description. */
  lemma NginxText(t: string, c: char)
    requires t == "nginx.service" || t == "A high performance web server"
    requires c == 't'
    ensures c !in t && (c as int - 32) as char !in t
  {
  }

  /** The nginx unit matches no query holding that letter. */
  lemma NginxLacks(query: string, c: char)
    requires c == 't' && c in query
    ensures !Matches(NginxUnit, query)
  {
    NginxText(NginxUnit.name, c);
    NginxText(NginxUnit.description.value, c);
    MissingLetterNoMatch(NginxUnit, query, c);
  }

  /** `test_filter_services_by_name`: "nginx" keeps only the nginx unit. */
  lemma SearchByName()
    ensures FilterView(SearchUnits(), "nginx") == [NginxUnit]
  {
    assert Lower("nginx") == "nginx";
    NginxMatchesByName();
    ApacheLacks("nginx", 'g');
    SshLacks("nginx", 'g');
    MysqlLacks("nginx", 'g');
    MatchingFour(NginxUnit, ApacheUnit, SshUnit, MysqlUnit, "nginx");
  }

  /** `test_filter_services_case_insensitive`: "NGINX" selects what "nginx" does. */
  lemma SearchIgnoresCase()
    ensures FilterView(SearchUnits(), "NGINX") == [NginxUnit]
  {
    assert Lower("NGINX") == Lower("nginx");
    FilterViewIgnoresCase(SearchUnits(), "NGINX", "nginx");
    SearchByName();
  }

  /** The nginx unit's description contains "server", in some letter case. */
  lemma NginxMentionsServer()
    ensures Matches(NginxUnit, "server")
  {
    OccursContains(Lower(NginxUnit.description.value), "server", 23);
  }

  /** The apache unit's description contains "server", in some letter case. */
  lemma ApacheMentionsServer()
    ensures Matches(ApacheUnit, "server")
  {
    OccursContains(Lower(ApacheUnit.description.value), "server", 16);
  }

  /** The ssh unit's description contains "server", in some letter case. */
  lemma SshMentionsServer()
    ensures Matches(SshUnit, "server")
  {
    OccursContains(Lower(SshUnit.description.value), "server", 8);
  }

  /** The mysql unit's description contains "server", in some letter case. */
  lemma MysqlMentionsServer()
    ensures Matches(MysqlUnit, "server")
  {
    OccursContains(Lower(MysqlUnit.description.value), "server", 15);
  }

  /** `test_filter_services_by_description`: "server" keeps all four units. */
  lemma SearchByDescription()
    ensures FilterView(SearchUnits(), "server") == SearchUnits()
  {
    assert Lower("server") == "server";
    NginxMentionsServer();
    ApacheMentionsServer();
    SshMentionsServer();
    MysqlMentionsServer();
    MatchingFour(NginxUnit, ApacheUnit, SshUnit, MysqlUnit, "server");
  }

  /** `test_filter_services_no_match`: "nonexistent" keeps nothing. */
  lemma SearchWithoutMatch()
    ensures FilterView(SearchUnits(), "nonexistent") == []
  {
    assert Lower("nonexistent") == "nonexistent";
    NginxLacks("nonexistent", 't');
    ApacheLacks("nonexistent", 'x');
    SshLacks("nonexistent", 't');
    MysqlLacks("nonexistent", 'x');
    MatchingFour(NginxUnit, ApacheUnit, SshUnit, MysqlUnit, "nonexistent");
  }

  /** The Apache unit's description mentions HTTP. */
  lemma ApacheMentionsHttp()
    ensures Matches(ApacheUnit, "http")
  {
    OccursContains(Lower(ApacheUnit.description.value), "http", 11);
  }

  /** `test_filter_services_multiple_matches`: "http" keeps only the Apache unit. */
  lemma SearchHttp()
    ensures FilterView(SearchUnits(), "http") == [ApacheUnit]
  {
    assert Lower("http") == "http";
    ApacheMentionsHttp();
    NginxLacks("http", 't');
    SshLacks("http", 't');
    MysqlLacks("http", 'p');
    MatchingFour(NginxUnit, ApacheUnit, SshUnit, MysqlUnit, "http");
  }

  /**
   * A record matches no query whose second letter occurs, in either case,
   * nowhere in its name and only at index `k` of its description, where it
   * does not follow the query's first letter.
   */
  lemma SecondLetterOnceNoMatch(s: Service, query: string, k: int)
    requires |query| >= 2 && 'a' <= query[1] <= 'z'
    requires query[1] !in s.name && (query[1] as int - 32) as char !in s.name
    requires s.description.Some? && 0 <= k < |s.description.value|
    requires var d, c, upper := s.description.value, query[1], (query[1] as int - 32) as char;
      c !in d[..k] && upper !in d[..k] && c !in d[k + 1..] && upper !in d[k + 1..]
    requires k == 0 || LowerChar(s.description.value[k - 1]) != query[0]
    ensures !Matches(s, query)
  {
    var d, c := s.description.value, query[1];
    LowerLacks(s.name, c);
    MissingCharNotContained(Lower(s.name), query, c);
    LowerSlice(d, 0, k);
    LowerLacks(d[..k], c);
    LowerSlice(d, k + 1, |d|);
    assert d[k + 1..|d|] == d[k + 1..];
    LowerLacks(d[k + 1..], c);
    SecondCharOnlyAt(Lower(d), query, k);
  }

  /** Neither "p" nor "P" occurs in the nginx unit's name. */
  lemma NginxNameLacksP(name: string)
    requires name == "nginx.service"
    ensures 'p' !in name && 'P' !in name
  {
  }

  /** The nginx unit's description holds "p" or "P" only at index 7, after a space. */
  lemma NginxDescriptionP(d: string)
    requires d == "A high performance web server"
    ensures 'p' !in d[..7] && 'P' !in d[..7] && d[6] == ' '
    ensures 'p' !in d[8..] && 'P' !in d[8..]
  {
    var head, tail := d[..7], d[8..];
    assert head == "A high ";
    assert tail == "erformance web server";
  }

  /** The nginx unit does not contain "ap": its one "p" follows a space. */
  lemma NginxLacksAp(query: string)
    requires |query| >= 2 && query[0] == 'a' && query[1] == 'p'
    ensures !Matches(NginxUnit, query)
  {
    NginxNameLacksP(NginxUnit.name);
    NginxDescriptionP(NginxUnit.description.value);
    SecondLetterOnceNoMatch(NginxUnit, query, 7);
  }

  /** Neither "p" nor "P" occurs in the ssh unit's name. */
  lemma SshNameLacksP(name: string)
    requires name == "ssh.service"
    ensures 'p' !in name && 'P' !in name
  {
  }

  /** The ssh unit's description holds "p" or "P" only at index 1, after an "O". */
  lemma SshDescriptionP(d: string)
    requires d == "OpenSSH server daemon"
    ensures 'p' !in d[..1] && 'P' !in d[..1] && d[0] == 'O'
    ensures 'p' !in d[2..] && 'P' !in d[2..]
  {
    var tail := d[2..];
    assert tail == "enSSH server daemon";
  }

  /** The ssh unit does not contain "ap": its one "p" follows an "O". */
  lemma SshLacksAp(query: string)
    requires |query| >= 2 && query[0] == 'a' && query[1] == 'p'
    ensures !Matches(SshUnit, query)
  {
    SshNameLacksP(SshUnit.name);
    SshDescriptionP(SshUnit.description.value);
    SecondLetterOnceNoMatch(SshUnit, query, 1);
  }

  /** The Apache unit's name starts with "apach". */
  lemma ApacheMatchesByName()
    ensures Matches(ApacheUnit, "apach")
  {
    assert Lower(ApacheUnit.name)[..5] == "apach";
  }

  /** `test_filter_services_partial_match`: "apach" keeps only the Apache unit. */
  lemma SearchPartialName()
    ensures FilterView(SearchUnits(), "apach") == [ApacheUnit]
  {
    assert Lower("apach") == "apach";
    NginxLacksAp("apach");
    ApacheMatchesByName();
    SshLacksAp("apach");
    MysqlLacks("apach", 'p');
    MatchingFour(NginxUnit, ApacheUnit, SshUnit, MysqlUnit, "apach");
  }

  /** `test_filter_services_with_none_description`: a unit without a description is found by its name. */
  lemma SearchWithoutDescription()
    ensures var unit := Service("test.service", Loaded, Active, "running", None, true);
      FilterView([unit], "test") == [unit]
  {
    var unit := Service("test.service", Loaded, Active, "running", None, true);
    assert Lower("test") == "test";
    assert Lower(unit.name)[..4] == "test";
    assert Matches(unit, "test");
    assert [unit][1..] == [];
  }

  /** `test_filter_services_empty_query`: an empty query keeps the listing as it is. */
  lemma SearchEmptyQuery()
    ensures FilterView(SearchUnits(), "") == SearchUnits()
  {
  }

  /** The information bar over the four units: two active, one failed. */
  lemma InfoBarOfSearchUnits()
    ensures InfoBarOf(SearchUnits(), SearchUnits(), "", false) == InfoBar(4, 2, 1, "active services", None)
  {
    var units := SearchUnits();
    assert units[1..][1..][1..][1..] == [];
    assert CountState(units, Active) == 2;
    assert CountState(units, Failed) == 1;
  }

  /** The nginx unit's listing line parses back to the nginx record, its description kept with its inner spaces. */
  lemma NginxLineParses(enabledOf: string -> bool)
    requires enabledOf("nginx.service")
    ensures ParseLine(ListingLine(NginxUnit), enabledOf) == Some(NginxUnit)
  {
    assert IsToken(NginxUnit.name) && IsToken(NginxUnit.subState);
    ParseLineRoundTrip(NginxUnit, enabledOf);
  }
}
