/** `main`: argument processing, the file listing, the early exits with
    statuses 1, 2 and 3, then the worker pool feeding the aggregator, whose
    status becomes the process status.

    The listing of `*.json` files in the source directory is a parameter
    (`listJson`), as is the interleaving of the workers and the outcome of each
    upload (`schedule`). */
module Solrload {
  import opened Wrappers
  import opened Args
  import opened Pool
  import opened Aggregator

  /** Early exit statuses: bad arguments or link, listing failed, no JSON files. */
  const ExitArgs := 1
  const ExitGlob := 2
  const ExitNoFiles := 3

  /** How a run ends: the exit status, the message printed before an early exit
      ("" when the uploads were dispatched), and the per-file lines. */
  datatype Outcome =
    | Exit(code: int, diagnostic: string, reports: seq<Report>)
    | Running // the schedule ends before every worker has returned

  type Lister = string -> Result<seq<string>, string>

  /** Everything after `parceArgs` has returned: each early exit prints its
      message and reports on no file; once the uploads are dispatched, the
      program prints no message of its own and ends with the aggregator's
      status, 0 or 20, when every worker has returned. */
  function Launch(p: Result<Params, ArgError>, listJson: Lister, schedule: seq<Step>): (o: Outcome)
    ensures p.Failure? ==> o == Exit(ExitArgs, ErrorText(p.error) + "\n", [])
    ensures p.Success? && listJson(p.value.srcDir).Failure? ==>
              o == Exit(ExitGlob, listJson(p.value.srcDir).error + "\n", [])
    ensures p.Success? && listJson(p.value.srcDir) == Success([]) ==>
              o == Exit(ExitNoFiles, "No JSON files in " + p.value.srcDir + "\n", [])
    ensures p.Success? && listJson(p.value.srcDir).Success? && |listJson(p.value.srcDir).value| > 0 ==>
              (o.Exit? <==> AllExited(Run(Start(listJson(p.value.srcDir).value, p.value.nQueries), schedule)))
              && (o.Exit? ==> o.diagnostic == "" && (o.code == StatusOk || o.code == StatusUploadFailed))
  {
    match p
    case Failure(e) => Exit(ExitArgs, ErrorText(e) + "\n", [])
    case Success(params) =>
      match listJson(params.srcDir)
      case Failure(e) => Exit(ExitGlob, e + "\n", [])
      case Success(files) =>
        if |files| == 0 then Exit(ExitNoFiles, "No JSON files in " + params.srcDir + "\n", [])
        else
          var s := Run(Start(files, params.nQueries), schedule);
          if !AllExited(s) then Running
          else
            var st := Aggregate(s.sent, |files|);
            Exit(st.code, "", st.reports)
  }

  /** The program as written: status 1 exactly when the command line is
      rejected or the link does not match, whatever number of parallel
      queries is asked for; any run that ends, ends with 0, 1, 2, 3 or 20. */
  function MainAsWritten(parsed: Result<CommandLine, string>, env: Env, listJson: Lister, schedule: seq<Step>): (o: Outcome)
    ensures o.Exit? && o.code == ExitArgs <==> parsed.Failure? || !Link.IsValidLink(parsed.value.collLink)
    ensures o.Exit? ==> o.code in {StatusOk, ExitArgs, ExitGlob, ExitNoFiles, StatusUploadFailed}
  {
    Launch(ParseArgs(parsed, env), listJson, schedule)
  }

  /** The program with at least one parallel query required: it behaves as
      written whenever the arguments are rejected anyway or ask for a worker,
      and otherwise exits with status 1 before listing any file. */
  function Main(parsed: Result<CommandLine, string>, env: Env, listJson: Lister, schedule: seq<Step>): (o: Outcome)
    ensures ParseArgs(parsed, env).Failure? || ParseArgs(parsed, env).value.nQueries >= 1 ==>
              o == MainAsWritten(parsed, env, listJson, schedule)
    ensures ParseArgs(parsed, env).Success? && ParseArgs(parsed, env).value.nQueries < 1 ==>
              o == Exit(ExitArgs, ErrorText(NoWorkers(ParseArgs(parsed, env).value.nQueries)) + "\n", [])
  {
    Launch(ParseArgsChecked(parsed, env), listJson, schedule)
  }

  // ---------------------------------------------------------------------------
  // Exit statuses.
  // ---------------------------------------------------------------------------

  /** The program as written: the early exits, checked in order, are 1 when
      the arguments or the link are rejected, 2 when listing fails, 3 when no
      file is found; none of them reports on any file.  Every finished run ends
      with 0, 1, 2, 3 or 20. */
  lemma ExitCodesAsWritten(parsed: Result<CommandLine, string>, env: Env, listJson: Lister, schedule: seq<Step>)
    ensures
      var o := MainAsWritten(parsed, env, listJson, schedule);
      var p := ParseArgs(parsed, env);
      && (o.Exit? && o.code == ExitArgs <==> p.Failure?)
      && (o.Exit? && o.code == ExitGlob <==> p.Success? && listJson(p.value.srcDir).Failure?)
      && (o.Exit? && o.code == ExitNoFiles <==>
            p.Success? && listJson(p.value.srcDir).Success? && listJson(p.value.srcDir).value == [])
      && (o.Exit? && o.code in {ExitArgs, ExitGlob, ExitNoFiles} ==> o.reports == [])
      && (o.Exit? ==> o.code in {StatusOk, ExitArgs, ExitGlob, ExitNoFiles, StatusUploadFailed})
  {
  }

  /** The corrected program: the same early exits, where status 1 now also
      covers fewer than one parallel query. */
  lemma ExitCodes(parsed: Result<CommandLine, string>, env: Env, listJson: Lister, schedule: seq<Step>)
    ensures
      var o := Main(parsed, env, listJson, schedule);
      var p := ParseArgsChecked(parsed, env);
      && (o.Exit? && o.code == ExitArgs <==> p.Failure?)
      && (o.Exit? && o.code == ExitGlob <==> p.Success? && listJson(p.value.srcDir).Failure?)
      && (o.Exit? && o.code == ExitNoFiles <==>
            p.Success? && listJson(p.value.srcDir).Success? && listJson(p.value.srcDir).value == [])
      && (o.Exit? && o.code in {ExitArgs, ExitGlob, ExitNoFiles} ==> o.reports == [])
      && (o.Exit? ==> o.code in {StatusOk, ExitArgs, ExitGlob, ExitNoFiles, StatusUploadFailed})
  {
    var p := ParseArgsChecked(parsed, env);
    if p.Success? && listJson(p.value.srcDir).Success? && |listJson(p.value.srcDir).value| > 0 {
      var files := listJson(p.value.srcDir).value;
      var s := Run(Start(files, p.value.nQueries), schedule);
      AggregateMeaning(s.sent, |files|);
    }
  }

  /** A finished run of at least one worker reports on every file found: one
      line per file, naming the files found (each as often as it was found),
      with status 20 exactly when some line is an error line and 0 exactly when
      every line is a progress line. */
  lemma FinishedRunReportsEveryFile(files: seq<string>, nQueries: int, schedule: seq<Step>)
    requires nQueries >= 1 && AllExited(Run(Start(files, nQueries), schedule))
    ensures
      var st := Aggregate(Run(Start(files, nQueries), schedule).sent, |files|);
      && |st.reports| == |files|
      && multiset(ReportFiles(st.reports)) == multiset(files)
      && (st.code == StatusUploadFailed <==> exists i :: 0 <= i < |st.reports| && st.reports[i].Failed?)
      && (st.code == StatusOk <==> forall i :: 0 <= i < |st.reports| ==> st.reports[i].Uploaded?)
  {
    var s := Run(Start(files, nQueries), schedule);
    OneMessagePerFile(files, nQueries, schedule);
    ReportsMirrorMessages(s.sent, |files|);
  }

  /** The program as written, asked for at least one parallel query: once the
      uploads are dispatched and every worker has returned, the run reports on
      every file found, as `FinishedRunReportsEveryFile` states. */
  lemma DispatchReportsEveryFile(parsed: Result<CommandLine, string>, env: Env, listJson: Lister, schedule: seq<Step>)
    requires ParseArgs(parsed, env).Success? && ParseArgs(parsed, env).value.nQueries >= 1
    requires listJson(ParseArgs(parsed, env).value.srcDir).Success?
    requires MainAsWritten(parsed, env, listJson, schedule).Exit?
    ensures
      var files := listJson(ParseArgs(parsed, env).value.srcDir).value;
      var o := MainAsWritten(parsed, env, listJson, schedule);
      |files| > 0 ==>
        && o.diagnostic == ""
        && |o.reports| == |files|
        && multiset(ReportFiles(o.reports)) == multiset(files)
        && (o.code == StatusUploadFailed <==> exists i :: 0 <= i < |o.reports| && o.reports[i].Failed?)
        && (o.code == StatusOk <==> forall i :: 0 <= i < |o.reports| ==> o.reports[i].Uploaded?)
  {
    var p := ParseArgs(parsed, env).value;
    var files := listJson(p.srcDir).value;
    if |files| > 0 {
      FinishedRunReportsEveryFile(files, p.nQueries, schedule);
    }
  }

  /** The corrected program: exit status 0 means that files were found and every one of them was uploaded. */
  lemma StatusZeroMeansAllUploaded(parsed: Result<CommandLine, string>, env: Env, listJson: Lister, schedule: seq<Step>)
    requires Main(parsed, env, listJson, schedule).Exit? && Main(parsed, env, listJson, schedule).code == StatusOk
    ensures ParseArgsChecked(parsed, env).Success?
    ensures
      var o := Main(parsed, env, listJson, schedule);
      var found := listJson(ParseArgsChecked(parsed, env).value.srcDir);
      && found.Success? && |found.value| > 0
      && multiset(ReportFiles(o.reports)) == multiset(found.value)
      && forall i :: 0 <= i < |o.reports| ==> o.reports[i].Uploaded?
  {
    var p := ParseArgsChecked(parsed, env).value;
    var files := listJson(p.srcDir).value;
    FinishedRunReportsEveryFile(files, p.nQueries, schedule);
  }

  // ---------------------------------------------------------------------------
  // The program as written: no worker, yet status 0.
  // ---------------------------------------------------------------------------

  /** With `--nqueries 0` (or a negative count) no worker starts; the program
      waits for nobody, prints nothing and exits with status 0 although files
      were found and none was uploaded. */
  lemma AsWrittenNoWorkersExitsZero(parsed: Result<CommandLine, string>, env: Env, listJson: Lister, schedule: seq<Step>)
    requires ParseArgs(parsed, env).Success? && ParseArgs(parsed, env).value.nQueries <= 0
    requires listJson(ParseArgs(parsed, env).value.srcDir).Success?
    requires |listJson(ParseArgs(parsed, env).value.srcDir).value| > 0
    ensures MainAsWritten(parsed, env, listJson, schedule) == Exit(StatusOk, "", [])
  {
    var p := ParseArgs(parsed, env).value;
    var files := listJson(p.srcDir).value;
    NoWorkerNoMessage(Start(files, p.nQueries), schedule);
  }

  lemma {:induction false} NoWorkerNoMessage(s: State, schedule: seq<Step>)
    requires |s.workers| == 0
    ensures Run(s, schedule) == s
    decreases |schedule|
  {
    if |schedule| > 0 {
      NoWorkerNoMessage(Apply(s, schedule[0]), schedule[1..]);
    }
  }

  /** The parts of `http://localhost:8983/solr/films`. */
  const ExampleParts := Link.LinkParts(false, "localhost:8983", "films", false)

  const ExampleLink := Link.Render(ExampleParts)

  lemma ExampleLinkText()
    ensures ExampleLink == "http://localhost:8983/solr/films"
  {
    ExampleTailText();
    ExampleSchemeText();
  }

  /** The scheme and separator in front of the example link's authority. */
  lemma ExampleSchemeText()
    ensures "http" + ("://" + "localhost:8983/solr/films") == "http://localhost:8983/solr/films"
  {
    ExampleSeparatorText();
  }

  lemma ExampleSeparatorText()
    ensures "://" + "localhost:8983/solr/films" == "://localhost:8983/solr/films"
  {
  }

  /** The part of the example link after the scheme. */
  lemma ExampleTailText()
    ensures ExampleParts.authority + ("/solr/" + (ExampleParts.collection + Link.Slash(ExampleParts.trailingSlash)))
            == "localhost:8983/solr/films"
  {
    assert "films" + "" == "films";
    assert "/solr/" + "films" == "/solr/films";
    assert "localhost:8983" + "/solr/films" == "localhost:8983/solr/films";
  }

  lemma ExampleLinkValid()
    ensures Link.IsValidLink(ExampleLink)
  {
    ExampleAuthority();
    assert Link.OneOrMore("films", Link.IsCollectionChar);
    Link.CheckComplete(ExampleParts);
  }

  lemma ExampleAuthority()
    ensures Link.HostWithPort("localhost:8983")
  {
    var a := "localhost:8983";
    assert a[..9] == "localhost" && a[10..] == "8983";
    assert a[9] == ':';
    assert Link.OneOrMore("localhost", Link.IsHostChar);
    assert Link.OneOrMore("8983", Link.IsDigit);
  }

  /** A concrete instance: a valid link, `-n 0`, one JSON file found. */
  lemma AsWrittenExample(schedule: seq<Step>)
    ensures
      var cmd := CommandLine(ExampleLink, Some(0), None, false, None, None, None);
      MainAsWritten(Success(cmd), map[], _ => Success(["films.json"]), schedule) == Exit(StatusOk, "", [])
  {
    ExampleLinkValid();
    var cmd := CommandLine(ExampleLink, Some(0), None, false, None, None, None);
    AsWrittenNoWorkersExitsZero(Success(cmd), map[], _ => Success(["films.json"]), schedule);
  }

  /** The same command line is rejected with status 1 once at least one query is required. */
  lemma CorrectedExample(schedule: seq<Step>)
    ensures
      var cmd := CommandLine(ExampleLink, Some(0), None, false, None, None, None);
      Main(Success(cmd), map[], _ => Success(["films.json"]), schedule).code == ExitArgs
  {
    AsWrittenExample(schedule);
  }
}
