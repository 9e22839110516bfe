/** One instance of a cluster: what it last reported, and how many syncs have failed since. */
module InstanceHealth {
  import opened Wrappers

  datatype Status = Healthy | Draining | Unhealthy | Standby | OtherStatus(code: int)
  datatype Role = TemplateBuilder | Orchestrator | OtherRole(code: int)
  datatype Machine = Machine(cpuArchitecture: string, cpuFamily: string, cpuModel: string)

  predicate Compatible(m: Machine, other: Machine) {
    m.cpuArchitecture == other.cpuArchitecture && m.cpuFamily == other.cpuFamily && m.cpuModel == other.cpuModel
  }

  /** One answer to a sync call; a failed call has none. */
  datatype Report = Report(serviceId: string, status: Status, roles: seq<Role>, machine: Machine)

  /** What discovery says about an instance. */
  datatype Item = Item(uniqueIdentifier: string, nodeID: string, instanceID: string)

  const MAX_SYNC_FAILURES: nat := 3

  /** What the rest of the system reads off an instance. */
  datatype Info = Info(serviceInstanceID: string, status: Status, roles: seq<Role>, machine: Machine,
                       isBuilder: bool, isOrchestrator: bool, syncFailCount: nat)

  /** The effect of one sync. */
  function Synced(i: Info, r: Option<Report>): Info {
    match r
    case None =>
      i.(syncFailCount := i.syncFailCount + 1,
         status := if i.syncFailCount + 1 >= MAX_SYNC_FAILURES then Unhealthy else i.status)
    case Some(report) =>
      Info(report.serviceId, report.status, report.roles, report.machine,
           TemplateBuilder in report.roles, Orchestrator in report.roles, 0)
  }

  /** The info of an instance created on the report `first`, after further sync results. */
  function InfoAfter(first: Report, results: seq<Option<Report>>): Info
    decreases |results|
  {
    if results == [] then
      Info(first.serviceId, first.status, first.roles, first.machine, TemplateBuilder in first.roles, Orchestrator in first.roles, 0)
    else Synced(InfoAfter(first, results[..|results| - 1]), results[|results| - 1])
  }

  /** The last n results, and no more, are failures. */
  ghost predicate TrailingFailures(results: seq<Option<Report>>, n: nat) {
    && n <= |results|
    && (forall i :: |results| - n <= i < |results| ==> results[i].None?)
    && (n < |results| ==> results[|results| - 1 - n].Some?)
  }

  /** The report before the last n results. */
  function ReportBefore(first: Report, results: seq<Option<Report>>, n: nat): Report
    requires n <= |results| && (n < |results| ==> results[|results| - 1 - n].Some?)
  {
    if n == |results| then first else results[|results| - 1 - n].value
  }

  /**
   After any sync results: the counter is the number of trailing failures; the status is
   Unhealthy from the third of them on, and until then the last one reported; identity, roles,
   machine and flags are always those of the last report.
   */
  lemma {:induction false} InfoMeaning(first: Report, results: seq<Option<Report>>)
    ensures var i := InfoAfter(first, results);
            && TrailingFailures(results, i.syncFailCount)
            && var last := ReportBefore(first, results, i.syncFailCount);
               && i.status == (if i.syncFailCount >= 3 then Unhealthy else last.status)
               && i.serviceInstanceID == last.serviceId && i.roles == last.roles && i.machine == last.machine
               && (i.isBuilder <==> TemplateBuilder in last.roles)
               && (i.isOrchestrator <==> Orchestrator in last.roles)
    decreases |results|
  {
    if results != [] { InfoMeaning(first, results[..|results| - 1]); }
  }

  /** Three failures in a row make any instance unhealthy, and one successful sync brings back what it reports. */
  lemma ThreeFailuresAndOneReport(first: Report, results: seq<Option<Report>>, report: Report)
    ensures InfoAfter(first, results + [None, None, None]).status == Unhealthy
    ensures InfoAfter(first, results + [None, None, None] + [Some(report)]) == InfoAfter(report, [])
  {
    var one, two, three := results + [None], results + [None, None], results + [None, None, None];
    assert one[..|results|] == results && two[..|one|] == one && three[..|two|] == two;
    assert InfoAfter(first, one).syncFailCount >= 1;
    assert InfoAfter(first, two).syncFailCount >= 2;
    assert (three + [Some(report)])[..|three|] == three;
  }

  predicate AvailableBuilder(i: Info, expected: Machine) {
    i.status == Healthy && i.isBuilder && (expected.cpuModel != "" ==> Compatible(expected, i.machine))
  }

  /** An instance is offered for a build exactly while fewer than three syncs have failed since a report of a healthy, compatible builder. */
  lemma AvailableIff(first: Report, results: seq<Option<Report>>, expected: Machine)
    ensures AvailableBuilder(InfoAfter(first, results), expected)
            <==> exists n: nat :: n < 3 && TrailingFailures(results, n)
                                  && var last := ReportBefore(first, results, n);
                                     && last.status == Healthy && TemplateBuilder in last.roles
                                     && (expected.cpuModel != "" ==>
                                           && expected.cpuArchitecture == last.machine.cpuArchitecture
                                           && expected.cpuFamily == last.machine.cpuFamily
                                           && expected.cpuModel == last.machine.cpuModel)
  {
    InfoMeaning(first, results);
    var m := InfoAfter(first, results).syncFailCount;
    forall n: nat | TrailingFailures(results, n)
      ensures n == m
    {
      var lastOf := (k: nat) => k < |results| && results[|results| - 1 - k].Some?;
      assert (n < |results| ==> lastOf(n)) && (m < |results| ==> lastOf(m));
    }
  }

  class Instance {
    const uniqueIdentifier: string
    const nodeID: string
    var serviceInstanceID: string
    var status: Status
    var machine: Machine
    var roles: seq<Role>
    var isBuilder: bool
    var isOrchestrator: bool
    var syncFailCount: nat

    /** An instance as it is before its first sync. */
    constructor (item: Item)
      ensures uniqueIdentifier == item.uniqueIdentifier && nodeID == item.nodeID
      ensures View() == Info(item.instanceID, Healthy, [], Machine("", "", ""), false, false, 0)
    {
      uniqueIdentifier, nodeID, serviceInstanceID := item.uniqueIdentifier, item.nodeID, item.instanceID;
      status, machine, roles, isBuilder, isOrchestrator, syncFailCount := Healthy, Machine("", "", ""), [], false, false, 0;
    }

    ghost function View(): Info
      reads this
    {
      Info(serviceInstanceID, status, roles, machine, isBuilder, isOrchestrator, syncFailCount)
    }

    method Sync(answer: Option<Report>) returns (ok: bool)
      modifies this
      ensures View() == Synced(old(View()), answer)
      ensures ok == answer.Some?
    {
      if answer.None? {
        syncFailCount := syncFailCount + 1;
        if syncFailCount >= MAX_SYNC_FAILURES { status := Unhealthy; }
        return false;
      }
      var report := answer.value;
      syncFailCount := 0;
      status, roles, machine := report.status, report.roles, report.machine;
      serviceInstanceID := report.serviceId;
      isBuilder, isOrchestrator := TemplateBuilder in roles, Orchestrator in roles;
      return true;
    }

    method GetInfo() returns (i: Info)
      ensures i == View()
    {
      i := Info(serviceInstanceID, status, roles, machine, isBuilder, isOrchestrator, syncFailCount);
    }
  }

  /** Creation: an instance is only handed out after a first successful sync, so its status and roles are never the defaults. */
  method NewInstance(item: Item, answer: Option<Report>) returns (r: Option<Instance>)
    ensures r.Some? <==> answer.Some?
    ensures r.Some? ==> fresh(r.value) && r.value.uniqueIdentifier == item.uniqueIdentifier && r.value.nodeID == item.nodeID
                        && r.value.View() == InfoAfter(answer.value, [])
  {
    var i := new Instance(item);
    var ok := i.Sync(answer);
    r := if ok then Some(i) else None;
  }
}
