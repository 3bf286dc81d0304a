/** The discovery report of a server: what a handful of shell probes run
    over SSH say about its system, its resources and its running services,
    each probe's answer shaped into one field of the report. */
module Discovery {
  import opened Wrappers
  import opened Text
  import opened Models

  datatype SystemInfo = SystemInfo(osRelease: string, kernelVersion: string, hostname: string, uptime: string)

  datatype Resources = Resources(cpuUsage: string, memoryUsage: string, diskUsage: string)

  datatype RunningService = RunningService(name: string, status: string)

  datatype DiscoveryReport = DiscoveryReport(
    systemInfo: SystemInfo,
    resources: Resources,
    services: seq<RunningService>,
    timestamp: string)

  /** The probes, run as shell commands on the server. */
  const OsReleaseProbe: string := "cat /etc/os-release | grep PRETTY_NAME | cut -d= -f2 | tr -d '\"'"
  const KernelProbe: string := "uname -r"
  const HostnameProbe: string := "hostname"
  const UptimeProbe: string := "uptime -p"
  const LoadProbe: string := "cat /proc/loadavg | awk '{print $1, $2, $3}'"
  const MemoryProbe: string := "free -h | grep Mem | awk '{print $3 \" / \" $2}'"
  const DiskProbe: string := "df -h / | tail -n 1 | awk '{print $3 \" / \" $2 \" (\" $5 \")\"}'"
  const ServicesProbe: string :=
    "systemctl list-units --type=service --state=running --no-pager --plain | head -n 15 | awk '{print $1}'"

  const Unknown: string := "Unknown"
  const LoadLabel: string := "Load Avg: "
  const ServiceSuffix: string := ".service"
  const Running: string := "running"

  /** A probe's output, or "Unknown" when it failed. */
  function OrUnknown(result: Result<string, string>): string {
    if result.Ok? then result.value else Unknown
  }

  /** A field of the report: the trimmed output of its probe, "Unknown"
      when the probe failed. */
  function Field(result: Result<string, string>): (r: string)
    ensures result.Ok? ==> r == Trim(result.value)
    ensures result.Err? ==> r == Unknown
  {
    assert Trimmed(Unknown);
    TrimOfTrimmed(Unknown);
    Trim(OrUnknown(result))
  }

  /** The lines for which `keep` holds, in order: `Iterator::filter`. */
  function Filter(lines: seq<string>, keep: string -> bool): (r: seq<string>)
    ensures |r| <= |lines|
    decreases |lines|
  {
    if lines == [] then []
    else if keep(lines[0]) then [lines[0]] + Filter(lines[1..], keep)
    else Filter(lines[1..], keep)
  }

  lemma ConsSplit<T>(a: seq<T>, b: seq<T>)
    requires a != []
    ensures (a + b)[0] == a[0] && (a + b)[1..] == a[1..] + b
  {
  }

  /** Filtering lines placed one after another filters each part. */
  lemma {:induction false} FilterAppend(a: seq<string>, b: seq<string>, keep: string -> bool)
    ensures Filter(a + b, keep) == Filter(a, keep) + Filter(b, keep)
    decreases |a|
  {
    if a == [] {
      assert a + b == b;
    } else {
      ConsSplit(a, b);
      FilterAppend(a[1..], b, keep);
    }
  }

  /** The position of the line a kept line is. */
  lemma {:induction false} FilterSource(lines: seq<string>, keep: string -> bool, i: nat) returns (j: nat)
    requires i < |Filter(lines, keep)|
    ensures j < |lines| && keep(lines[j]) && Filter(lines, keep)[i] == lines[j]
    decreases |lines|
  {
    var rest := Filter(lines[1..], keep);
    if keep(lines[0]) && i == 0 {
      j := 0;
    } else {
      var i' := if keep(lines[0]) then i - 1 else i;
      assert Filter(lines, keep)[i] == rest[i'];
      var k := FilterSource(lines[1..], keep, i');
      assert lines[1..][k] == lines[k + 1];
      j := k + 1;
    }
  }

  lemma FilterOne(line: string, keep: string -> bool)
    ensures Filter([line], keep) == if keep(line) then [line] else []
  {
    assert [line][1..] == [];
  }

  /** Every line for which `keep` holds is kept. */
  lemma {:induction false} FilterKeeps(lines: seq<string>, keep: string -> bool, j: nat)
    requires j < |lines| && keep(lines[j])
    ensures lines[j] in Filter(lines, keep)
    decreases |lines|
  {
    if j > 0 {
      assert lines[1..][j - 1] == lines[j];
      FilterKeeps(lines[1..], keep, j - 1);
    }
  }

  /** A line the services probe lists as a service. */
  predicate IsServiceLine(line: string) {
    Contains(line, ServiceSuffix)
  }

  function AsService(line: string): RunningService {
    RunningService(Trim(line), Running)
  }

  /** The services among the lines of the services probe: the lines that
      mention ".service", in order, each trimmed and marked running. */
  function ServiceLines(lines: seq<string>): (r: seq<RunningService>)
    ensures |r| <= |lines|
    ensures forall i :: 0 <= i < |r| ==> r[i].status == Running && Trimmed(r[i].name)
  {
    var kept := Filter(lines, IsServiceLine);
    seq(|kept|, i requires 0 <= i < |kept| => AsService(kept[i]))
  }

  /** The services of the lines of some text placed one after another are
      the services of the first lines followed by those of the rest: the
      filter keeps the lines' order. */
  lemma ServiceLinesAppend(a: seq<string>, b: seq<string>)
    ensures ServiceLines(a + b) == ServiceLines(a) + ServiceLines(b)
  {
    FilterAppend(a, b, IsServiceLine);
    var ka := Filter(a, IsServiceLine);
    var kb := Filter(b, IsServiceLine);
    var r := ServiceLines(a + b);
    assert |r| == |ka| + |kb|;
    forall i | 0 <= i < |r| ensures r[i] == (ServiceLines(a) + ServiceLines(b))[i] {
      if i < |ka| {
        assert (ka + kb)[i] == ka[i];
      } else {
        assert (ka + kb)[i] == kb[i - |ka|];
      }
    }
  }

  /** One line is one service exactly when it mentions ".service". */
  lemma ServiceLinesOne(line: string)
    ensures IsServiceLine(line) ==> ServiceLines([line]) == [RunningService(Trim(line), Running)]
    ensures !IsServiceLine(line) ==> ServiceLines([line]) == []
  {
    FilterOne(line, IsServiceLine);
    var r := ServiceLines([line]);
    if IsServiceLine(line) {
      assert |r| == 1 && r[0] == AsService(line);
    } else {
      assert |r| == 0;
    }
  }

  /** Every service listed comes from a line that mentions ".service". */
  lemma ServicesComeFromLines(lines: seq<string>, i: nat)
    requires i < |ServiceLines(lines)|
    ensures exists j :: 0 <= j < |lines| && IsServiceLine(lines[j]) && ServiceLines(lines)[i].name == Trim(lines[j])
  {
    var j := FilterSource(lines, IsServiceLine, i);
  }

  /** Every line that mentions ".service" is listed, trimmed. */
  lemma EveryServiceLineListed(lines: seq<string>, j: nat)
    requires j < |lines| && IsServiceLine(lines[j])
    ensures RunningService(Trim(lines[j]), Running) in ServiceLines(lines)
  {
    FilterKeeps(lines, IsServiceLine, j);
    var kept := Filter(lines, IsServiceLine);
    var k :| 0 <= k < |kept| && kept[k] == lines[j];
    assert ServiceLines(lines)[k] == RunningService(Trim(lines[j]), Running);
  }

  /** `Discovery::run`: each probe is asked once; a failed probe leaves
      "Unknown" in its field, or no services; the timestamp is the time the
      report was assembled. */
  function Run(server: ManagedServer, probe: (ManagedServer, string) -> Result<string, string>, now: string)
    : (r: Result<DiscoveryReport, string>)
    ensures r.Ok?
    ensures r.value.timestamp == now
  {
    var systemInfo := SystemInfo(
      Field(probe(server, OsReleaseProbe)),
      Field(probe(server, KernelProbe)),
      Field(probe(server, HostnameProbe)),
      Field(probe(server, UptimeProbe)));
    var resources := Resources(
      LoadLabel + Trim(OrUnknown(probe(server, LoadProbe))),
      Field(probe(server, MemoryProbe)),
      Field(probe(server, DiskProbe)));
    var raw := if probe(server, ServicesProbe).Ok? then probe(server, ServicesProbe).value else "";
    Ok(DiscoveryReport(systemInfo, resources, ServiceLines(Lines(raw)), now))
  }

  /** The report's fields are the trimmed outputs of their probes, in the
      order system, resources; the load average carries its label, and the
      services are those of the lines of the services probe's output, and
      none when that probe fails. */
  lemma RunFields(server: ManagedServer, probe: (ManagedServer, string) -> Result<string, string>, now: string)
    ensures var rep := Run(server, probe, now).value;
      rep.systemInfo.osRelease == Field(probe(server, OsReleaseProbe))
      && rep.systemInfo.kernelVersion == Field(probe(server, KernelProbe))
      && rep.systemInfo.hostname == Field(probe(server, HostnameProbe))
      && rep.systemInfo.uptime == Field(probe(server, UptimeProbe))
      && rep.resources.cpuUsage == LoadLabel + Field(probe(server, LoadProbe))
      && rep.resources.memoryUsage == Field(probe(server, MemoryProbe))
      && rep.resources.diskUsage == Field(probe(server, DiskProbe))
    ensures var rep := Run(server, probe, now).value;
      probe(server, ServicesProbe).Ok? ==> rep.services == ServiceLines(Lines(probe(server, ServicesProbe).value))
    ensures probe(server, ServicesProbe).Err? ==> Run(server, probe, now).value.services == []
  {
    var load := probe(server, LoadProbe);
    assert Trim(OrUnknown(load)) == Field(load);
    assert Lines("") == [];
  }

  /** A server that answers no probe yields a report of unknowns with no
      services. */
  lemma AllProbesFail(server: ManagedServer, probe: (ManagedServer, string) -> Result<string, string>, now: string)
    requires forall cmd :: probe(server, cmd).Err?
    ensures Run(server, probe, now) == Ok(DiscoveryReport(
      SystemInfo(Unknown, Unknown, Unknown, Unknown),
      Resources(LoadLabel + Unknown, Unknown, Unknown),
      [], now))
  {
    RunFields(server, probe, now);
    assert probe(server, ServicesProbe).Err?;
    assert Lines("") == [];
  }
}
