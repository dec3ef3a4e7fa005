/** Where the log lines come from: the journal of the `cost-web-app` unit when the
    host is Linux and `journalctl` succeeds, a fixed sample otherwise
    (LogController.readLogsFromSystem and LogController.getLocalLogs). */
module LogSource {
  import opened Wrappers
  import opened Decimal

  /** What spawning `journalctl -u cost-web-app -n <maxLines> --no-pager --no-hostname`
      amounts to, as seen by the controller: the host is not Linux, the process
      exited with a code after printing some lines, or starting or reading it threw. */
  datatype SourceOutcome = NotLinux | Exited(code: int, captured: seq<string>) | Threw

  /** The exception getLocalLogs can raise: ArrayList.subList with `toIndex < fromIndex`. */
  datatype Fault = SubListRange(fromIndex: int, toIndex: int)

  /** The JDK's message for that exception ("fromIndex(0) > toIndex(-1)"). */
  function FaultMessage(f: Fault): string {
    "fromIndex(" + IntString(f.fromIndex) + ") > toIndex(" + IntString(f.toIndex) + ")"
  }

  /** Number of lines in the local sample. */
  const SampleLength: nat := 7

  const RequestLinePrefix: string :=
    "DEBUG --- [cost-web-app] [http-nio-8080-exec-1] com.cost.app.controller.LogController : Log request received for "
  const RequestLineSuffix: string := " lines"

  /** The sixth sample line, which reports the requested count. */
  function RequestLine(maxLines: int): string {
    RequestLinePrefix + IntString(maxLines) + RequestLineSuffix
  }

  const StartingLine: string :=
    "INFO  --- [cost-web-app] [main] com.cost.app.CostWebAppApplication : Starting CostWebAppApplication"
  const TomcatLine: string :=
    "INFO  --- [cost-web-app] [main] o.s.b.w.embedded.tomcat.TomcatWebServer : Tomcat started on port(s): 8080 (http)"
  const StartedLine: string :=
    "INFO  --- [cost-web-app] [main] com.cost.app.CostWebAppApplication : Started CostWebAppApplication"
  const ServletInitLine: string :=
    "INFO  --- [cost-web-app] [http-nio-8080-exec-1] o.a.c.c.C.[Tomcat].[localhost].[/] : Initializing Spring DispatcherServlet 'dispatcherServlet'"
  const ServletReadyLine: string :=
    "INFO  --- [cost-web-app] [http-nio-8080-exec-1] o.a.c.c.C.[Tomcat].[localhost].[/] : Completed initialization in 1 ms"
  const LocalNoticeLine: string :=
    "INFO  --- [cost-web-app] [main] com.cost.app.controller.LogController : 로컬 개발 환경에서 실행 중입니다. journalctl을 사용할 수 없습니다."

  /** The seven sample lines getLocalLogs builds before truncating. */
  function SampleLines(maxLines: int): (lines: seq<string>)
    ensures |lines| == SampleLength
    ensures lines[5] == RequestLinePrefix + IntString(maxLines) + RequestLineSuffix
    ensures lines[..5] == [StartingLine, TomcatLine, StartedLine, ServletInitLine, ServletReadyLine]
    ensures lines[6] == LocalNoticeLine
  {
    [StartingLine, TomcatLine, StartedLine, ServletInitLine, ServletReadyLine,
     RequestLine(maxLines), LocalNoticeLine]
  }

  function Min(a: int, b: int): int {
    if a <= b then a else b
  }

  /** getLocalLogs: the first min(7, maxLines) sample lines; a negative count makes
      `subList(0, maxLines)` throw. */
  function LocalLogs(maxLines: int): (r: Result<seq<string>, Fault>)
    ensures r.Failure? <==> maxLines < 0
    ensures r.Failure? ==> r.error == SubListRange(0, maxLines)
    ensures r.Success? ==> |r.value| == Min(SampleLength, maxLines)
    ensures r.Success? ==> r.value <= SampleLines(maxLines)
  {
    var all := SampleLines(maxLines);
    var count := Min(|all|, maxLines);
    if count < 0 then Failure(SubListRange(0, count)) else Success(all[..count])
  }

  /** readLogsFromSystem. Off Linux the sample is used directly (a throw from it is not
      caught there); on a non-zero exit or a throw from the process the captured output
      is dropped for the sample; on exit code 0 the captured lines are returned as they
      are, without truncation to `maxLines`. */
  function ReadLogs(source: SourceOutcome, maxLines: int): (r: Result<seq<string>, Fault>)
    ensures source.Exited? && source.code == 0 ==> r == Success(source.captured)
    ensures !(source.Exited? && source.code == 0) ==>
              (r.Failure? <==> maxLines < 0) &&
              (r.Success? ==> |r.value| <= SampleLength && r.value <= SampleLines(maxLines))
  {
    match source
    case NotLinux => LocalLogs(maxLines)
    case Exited(code, captured) =>
      // a throw from the call at the non-zero exit is caught by the handler, which calls
      // getLocalLogs again with the same count and lets that throw escape
      if code != 0 then LocalLogs(maxLines) else Success(captured)
    case Threw => LocalLogs(maxLines)
  }

  /** Every path other than a clean exit ends in the same fallback. */
  lemma FallbackIgnoresCapturedOutput(code: int, captured: seq<string>, maxLines: int)
    requires code != 0
    ensures ReadLogs(Exited(code, captured), maxLines) == ReadLogs(NotLinux, maxLines)
    ensures ReadLogs(Threw, maxLines) == ReadLogs(NotLinux, maxLines)
    ensures ReadLogs(NotLinux, maxLines) == LocalLogs(maxLines)
  {
  }

  /** A zero count gives no lines; seven or more give the whole sample, unpadded. */
  lemma LocalLogsBounds(maxLines: int)
    ensures maxLines == 0 ==> LocalLogs(maxLines) == Success([])
    ensures maxLines >= SampleLength ==> LocalLogs(maxLines) == Success(SampleLines(maxLines))
    ensures 0 <= maxLines < SampleLength ==>
              LocalLogs(maxLines) == Success(SampleLines(maxLines)[..maxLines])
  {
    var all := SampleLines(maxLines);
    assert all[..|all|] == all;
  }

  /** The count is written into the sixth line and can be read back from it. */
  lemma RequestLineReportsCount(maxLines: int)
    ensures var line := RequestLine(maxLines);
            |RequestLinePrefix| + |RequestLineSuffix| <= |line| &&
            line[..|RequestLinePrefix|] == RequestLinePrefix &&
            ParseInt(line[|RequestLinePrefix|..|line| - |RequestLineSuffix|]) == Some(maxLines)
  {
    var line := RequestLine(maxLines);
    assert line[|RequestLinePrefix|..|line| - |RequestLineSuffix|] == IntString(maxLines);
    ParseIntString(maxLines);
  }

  /** Two counts of six or more give sample outputs that differ exactly in the sixth line. */
  lemma LocalLogsDifferOnlyInRequestLine(a: int, b: int)
    requires a >= 6 && b >= 6
    ensures LocalLogs(a).Success? && LocalLogs(b).Success?
    ensures forall i :: 0 <= i < 5 ==> LocalLogs(a).value[i] == LocalLogs(b).value[i]
    ensures LocalLogs(a).value[5] == LocalLogs(b).value[5] <==> a == b
  {
    if RequestLine(a) == RequestLine(b) {
      var la := RequestLine(a);
      var lb := RequestLine(b);
      assert IntString(a) == la[|RequestLinePrefix|..|la| - |RequestLineSuffix|];
      assert IntString(b) == lb[|RequestLinePrefix|..|lb| - |RequestLineSuffix|];
      IntStringInjective(a, b);
    }
  }
}
