/**
 The promotion as the object that its callbacks update: libnet_BecomeDC_state. Each callback is
 proved to do what the transition of `BecomeDc` says.
 */
module BecomeDcClient {
  import opened Common
  import opened BecomeDc

  /** libnet_BecomeDC_Partition, which a pull changes through a pointer. */
  class PartitionState {
    const part: Part
    var cursor: HighWaterMark
    var sourceGuid: nat
    var invocationId: nat

    constructor (part: Part)
      ensures this.part == part && Value() == ZERO_PARTITION
    {
      this.part := part;
      cursor := HighWaterMark(0, 0, 0);
      sourceGuid := 0;
      invocationId := 0;
    }

    function Value(): Partition
      reads this
    {
      Partition(cursor, sourceGuid, invocationId)
    }
  }

  class Client {
    const callbacks: Callbacks
    const schemaPart: PartitionState
    const configPart: PartitionState
    const domainPart: PartitionState
    var phase: Phase
    var computerUac: nat
    var serverDn: Option<string>
    var destGuid: nat
    var v8: bool
    ghost var trace: seq<Effect>

    /** The three partitions are three objects. */
    ghost predicate Valid() {
      schemaPart.part == Schema && configPart.part == Config && domainPart.part == Domain
    }

    ghost function View(): (s: State)
      reads this, schemaPart, configPart, domainPart
      ensures s.callbacks == callbacks && s.trace == trace
    {
      State(phase, callbacks, computerUac, serverDn, destGuid, v8,
            schemaPart.Value(), configPart.Value(), domainPart.Value(), trace)
    }

    /** libnet_BecomeDC_send */
    constructor (callbacks: Callbacks)
      ensures Valid() && View() == Start(callbacks)
      ensures fresh(schemaPart) && fresh(configPart) && fresh(domainPart)
    {
      this.callbacks := callbacks;
      schemaPart := new PartitionState(Schema);
      configPart := new PartitionState(Config);
      domainPart := new PartitionState(Domain);
      phase := AwaitCldap;
      computerUac := 0;
      serverDn := None;
      destGuid := 0;
      v8 := false;
      trace := [];
    }

    /** composite_error */
    method Error(status: Status)
      modifies this`phase
      ensures View() == Fail(old(View()), status)
    {
      phase := if status == Ok then Panicked else Failed(status);
    }

    /** composite_is_ok */
    method IsOk(status: Status) returns (ok: bool)
      modifies this`phase
      ensures ok <==> status == Ok
      ensures View() == if ok then old(View()) else Fail(old(View()), status)
    {
      ok := status == Ok;
      if !ok {
        Error(status);
      }
    }

    method PartitionOf(p: Part) returns (partition: PartitionState)
      requires Valid()
      ensures partition == match p { case Schema => schemaPart case Config => configPart case Domain => domainPart }
      ensures partition.part == p && partition.Value() == PartOf(View(), p)
    {
      match p {
        case Schema => partition := schemaPart;
        case Config => partition := configPart;
        case Domain => partition := domainPart;
      }
    }

    // ---------- The first LDAP session ----------

    method CldapRecv(r: Reply)
      requires Valid() && r.CldapReply?
      modifies this
      ensures View() == OnCldap(old(View()), r)
    {
      var ok := IsOk(r.status);
      if ok {
        ConnectLdap1(r);
      }
    }

    /** becomeDC_connect_ldap1 */
    method ConnectLdap1(r: Reply)
      requires Valid() && r.CldapReply? && r.status == Ok
      modifies this
      ensures View() == OnCldap(old(View()), r)
    {
      var status := Lookups(r.ldap1.lookups);
      var ok := IsOk(status);
      if ok {
        CheckAndContinue(r);
      }
    }

    /** The part of becomeDC_connect_ldap1 after the lookups. */
    method CheckAndContinue(r: Reply)
      requires Valid() && r.CldapReply? && r.status == Ok && FirstError(r.ldap1.lookups, LOOKUPS) == Ok
      modifies this
      ensures View() == OnCldap(old(View()), r)
    {
      var status := RunCheckOptions(r.ldap1.checkOptions);
      var ok := IsOk(status);
      if !ok {
        return;
      }
      ComputerObject(r.ldap1);
    }

    method ComputerObject(a: Ldap1)
      requires Valid()
      modifies this
      ensures View() == OnComputer(old(View()), a)
    {
      var ok := IsOk(a.computerUac.status);
      if ok {
        computerUac := a.computerUac.value;
        ServerObject(a);
      }
    }

    /** The lookups, up to the first that fails. */
    method Lookups(answers: Lookup -> Status) returns (status: Status)
      ensures status == FirstError(answers, LOOKUPS)
    {
      status := answers(Connect);
      if status != Ok { return; }
      status := answers(Rootdse);
      if status != Ok { return; }
      status := answers(CrossrefVersion);
      if status != Ok { return; }
      status := answers(DomainVersion);
      FirstErrorAfter(answers, [Connect, Rootdse, CrossrefVersion],
                      [DomainVersion, SchemaVersion, W2k3Revision, InfrastructureFsmo, RidManagerFsmo, SiteObject]);
      if status != Ok { return; }
      status := answers(SchemaVersion);
      if status != Ok { return; }
      status := answers(W2k3Revision);
      FirstErrorAfter(answers, [DomainVersion, SchemaVersion],
                      [W2k3Revision, InfrastructureFsmo, RidManagerFsmo, SiteObject]);
      if status != Ok { return; }
      status := answers(InfrastructureFsmo);
      if status != Ok { return; }
      status := answers(RidManagerFsmo);
      FirstErrorAfter(answers, [W2k3Revision, InfrastructureFsmo], [RidManagerFsmo, SiteObject]);
      if status != Ok { return; }
      status := answers(SiteObject);
    }

    /** becomeDC_check_options */
    method RunCheckOptions(answer: Status) returns (status: Status)
      modifies this`trace
      ensures status == (if callbacks.checkOptions then answer else Ok)
      ensures View() == if callbacks.checkOptions then Log(old(View()), CheckOptions(answer)) else old(View())
    {
      if !callbacks.checkOptions {
        return Ok;
      }
      status := answer;
      trace := trace + [CheckOptions(answer)];
    }

    method ServerObject(a: Ldap1)
      requires Valid()
      modifies this
      ensures View() == OnServerObject(old(View()), a)
    {
      var ok := IsOk(a.serverObject1.status);
      if !ok {
        return;
      }
      serverDn := a.serverObject1.value;
      if serverDn.None? {
        ok := IsOk(a.serverObject2.status);
        if !ok {
          return;
        }
        serverDn := a.serverObject2.value;
      }
      if serverDn.None? {
        trace := trace + [ServerAdd(a.add)];
        ok := IsOk(a.add);
        if !ok {
          return;
        }
        serverDn := Some(a.targetDn);
      }
      ServerObjectModify(a);
    }

    /** becomeDC_ldap1_server_object_modify, and the connect after it */
    method ServerObjectModify(a: Ldap1)
      requires Valid()
      modifies this
      ensures View() == OnServerModify(old(View()), a)
    {
      trace := trace + [ServerModify(false, a.modifyAdd)];
      var status := a.modifyAdd;
      if status == AttributeOrValueExists {
        trace := trace + [ServerModify(true, a.modifyReplace)];
        status := a.modifyReplace;
      }
      var ok := IsOk(status);
      if ok {
        phase := AwaitConnect1;
      }
    }

    // ---------- The DRSUAPI connections ----------

    /** The connect callbacks of the three connections. */
    method ConnectRecv(r: Reply)
      requires Valid() && r.ConnectReply? && Expects(View(), r)
      modifies this
      ensures View() == OnConnect(old(View()), r)
    {
      var ok := IsOk(r.status);
      if !ok {
        return;
      }
      ok := IsOk(r.sessionKey);
      if !ok {
        return;
      }
      if phase == AwaitConnect1 {
        phase := AwaitBind1;
      } else if phase == AwaitConnect2 {
        phase := AwaitBind2;
      } else {
        PullPartitionSend(schemaPart);
      }
    }

    /** The bind callbacks of the first two connections. */
    method BindRecv(r: Reply)
      requires Valid() && r.BindReply? && Expects(View(), r)
      modifies this
      ensures View() == OnBind(old(View()), r)
    {
      var ok := IsOk(r.rpc);
      if !ok {
        return;
      }
      ok := IsOk(r.result);
      if !ok {
        return;
      }
      if phase == AwaitBind1 {
        trace := trace + [AddEntry(NtdsDn(View()))];
        phase := AwaitAddEntry;
        return;
      }
      v8 := r.v8;
      ok := IsOk(r.binding);
      if ok {
        phase := AwaitConnect3;
      }
    }

    method AddEntryRecv(r: Reply)
      requires Valid() && r.AddEntryReply?
      modifies this
      ensures View() == OnAddEntry(old(View()), r)
    {
      var ok := IsOk(r.rpc);
      if !ok {
        return;
      }
      ok := IsOk(r.result);
      if !ok {
        return;
      }
      if r.level == 3 {
        if r.count != 1 {
          AddEntryFailed3(r);
          return;
        }
        destGuid := r.guid;
      } else if r.level == 2 {
        if r.count != 1 {
          Error(r.ctr2Status);
          return;
        }
        destGuid := r.guid;
      } else {
        Error(InvalidNetworkResponse);
        return;
      }
      var status := RunPrepareDb(r.prepareDb);
      ok := IsOk(status);
      if !ok {
        return;
      }
      ok := IsOk(r.binding);
      if ok {
        phase := AwaitConnect2;
      }
    }

    /** A level 3 reply that did not create one object: its most detailed status is the error. */
    method AddEntryFailed3(r: Reply)
      requires r.AddEntryReply? && r.level == 3 && r.count != 1
      modifies this`phase
      ensures AddEntryError(r).Some? && View() == Fail(old(View()), AddEntryError(r).value)
    {
      if r.ctr3.level != 1 {
        Error(InvalidNetworkResponse);
        return;
      }
      if !r.ctr3.hasError {
        Error(InvalidNetworkResponse);
        return;
      }
      var status := r.ctr3.status;
      if !r.ctr3.hasInfo {
        Error(status);
        return;
      }
      match r.ctr3.infoLevel {
        case 1 => status := r.ctr3.detail;
        case 4 => status := r.ctr3.detail;
        case 5 => status := r.ctr3.detail;
        case 6 => status := r.ctr3.detail;
        case 7 => status := r.ctr3.detail;
        case _ =>
      }
      Error(status);
    }

    /** becomeDC_prepare_db */
    method RunPrepareDb(answer: Status) returns (status: Status)
      modifies this`trace
      ensures status == (if callbacks.prepareDb then answer else Ok)
      ensures View() == if callbacks.prepareDb then Log(old(View()), PrepareDb(answer)) else old(View())
    {
      if !callbacks.prepareDb {
        return Ok;
      }
      status := answer;
      trace := trace + [PrepareDb(answer)];
    }

    // ---------- The pulls ----------

    method PullPartitionSend(partition: PartitionState)
      requires Valid() && partition in {schemaPart, configPart, domainPart}
      modifies this`trace, this`phase
      ensures View() == SendPull(old(View()), partition.part)
    {
      trace := trace + [Pull(partition.part, v8, partition.cursor, partition.invocationId)];
      phase := AwaitPull(partition.part);
    }

    /** becomeDC_drsuapi_pull_partition_recv: of the partitions, only the given one changes. */
    method PullPartitionRecv(partition: PartitionState, r: Reply) returns (status: Status)
      requires Valid() && partition in {schemaPart, configPart, domainPart} && r.PullReply?
      modifies this`trace, partition
      ensures Valid()
      ensures var good := r.result == Ok && KnownLevel(r);
        && View() == (if good then Accept(old(View()), partition.part, r) else old(View()))
        && status == (if r.result != Ok then r.result
                      else if !KnownLevel(r) then BadNetResp
                      else if StoresChunks(callbacks, partition.part) then r.store
                      else Ok)
    {
      if r.result != Ok {
        return r.result;
      }
      if !KnownLevel(r) {
        return BadNetResp;
      }
      partition.cursor := r.answer.cursor;
      partition.sourceGuid := r.answer.sourceGuid;
      partition.invocationId := r.answer.invocationId;
      trace := trace + [Received(partition.part, r.answer, r.objects)];
      if !StoresChunks(callbacks, partition.part) {
        return Ok;
      }
      status := r.store;
      trace := trace + [Chunk(partition.part, r.answer, r.objects, r.store)];
    }

    /** The pull callbacks of the three partitions. */
    method PullRecv(r: Reply)
      requires Valid() && r.PullReply? && phase.AwaitPull?
      modifies this, schemaPart, configPart, domainPart
      ensures View() == OnPull(old(View()), r)
    {
      ghost var before := View();
      var p := phase.part;
      var ok := IsOk(r.rpc);
      if !ok {
        return;
      }
      var partition := PartitionOf(p);
      var status := PullPartitionRecv(partition, r);
      if status != Ok {
        Error(status);
        return;
      }
      assert View() == Accept(before, p, r) && partition.cursor == r.answer.cursor;
      PullMore(partition, r);
    }

    /** The part of the pull callbacks after the reply was accepted. */
    method PullMore(partition: PartitionState, r: Reply)
      requires Valid() && partition in {schemaPart, configPart, domainPart} && r.PullReply?
      requires partition.cursor == r.answer.cursor
      modifies this
      ensures View() == AfterAccept(old(View()), partition.part, r)
    {
      if partition.cursor.tmpHighestUsn > partition.cursor.highestUsn {
        PullPartitionSend(partition);
        return;
      }
      match partition.part {
        case Schema => PullPartitionSend(configPart);
        case Config => ConnectLdap2(r.ldap2);
        case Domain => UpdateRefsSend(Schema);
      }
    }

    /** becomeDC_connect_ldap2 */
    method ConnectLdap2(a: Ldap2)
      requires Valid()
      modifies this
      ensures View() == OnLdap2(old(View()), a)
    {
      var ok := IsOk(a.connect);
      if !ok {
        return;
      }
      if computerUac != UF_DC {
        trace := trace + [ComputerModify(a.computer)];
        ok := IsOk(a.computer);
        if !ok {
          return;
        }
        computerUac := UF_DC;
      }
      MoveComputer(a);
    }

    /** becomeDC_ldap2_move_computer, and the domain pull after it */
    method MoveComputer(a: Ldap2)
      requires Valid()
      modifies this
      ensures View() == OnMove(old(View()), a)
    {
      var ok := IsOk(a.container);
      if !ok {
        return;
      }
      if !a.inPlace {
        trace := trace + [ComputerMove(a.rename)];
        ok := IsOk(a.rename);
        if !ok {
          return;
        }
      }
      PullPartitionSend(domainPart);
    }

    // ---------- The references ----------

    method UpdateRefsSend(p: Part)
      modifies this`trace, this`phase
      ensures View() == SendRefs(old(View()), p)
    {
      trace := trace + [UpdateRefs(p, destGuid)];
      phase := AwaitRefs(p);
    }

    /** The callbacks of the three reference updates. */
    method UpdateRefsRecv(r: Reply)
      requires Valid() && r.RefsReply? && phase.AwaitRefs?
      modifies this
      ensures View() == OnRefs(old(View()), r)
    {
      var p := phase.ofPart;
      var ok := IsOk(r.rpc);
      if !ok {
        return;
      }
      ok := IsOk(r.result);
      if !ok {
        return;
      }
      match p {
        case Schema => UpdateRefsSend(Config);
        case Config => UpdateRefsSend(Domain);
        case Domain =>
          trace := trace + [Finished];
          phase := Done;
      }
    }

    /** The callback of the outstanding request. */
    method Recv(r: Reply)
      requires Valid() && Expects(View(), r)
      modifies this, schemaPart, configPart, domainPart
      ensures View() == Step(old(View()), r)
    {
      match r {
        case CldapReply(_, _) => CldapRecv(r);
        case ConnectReply(_, _) => ConnectRecv(r);
        case BindReply(_, _, _, _) => BindRecv(r);
        case AddEntryReply(_, _, _, _, _, _, _, _, _) => AddEntryRecv(r);
        case PullReply(_, _, _, _, _, _, _, _, _) => PullRecv(r);
        case RefsReply(_, _) => UpdateRefsRecv(r);
      }
    }

    /** The event loop: the replies are handled as they come in. */
    method Wait(rs: seq<Reply>)
      requires Valid() && Answers(View(), rs)
      modifies this, schemaPart, configPart, domainPart
      ensures View() == Run(old(View()), rs)
    {
      var i := 0;
      while i < |rs|
        invariant 0 <= i <= |rs|
        invariant Answers(View(), rs[i..])
        invariant Run(View(), rs[i..]) == Run(old(View()), rs)
      {
        assert rs[i..][1..] == rs[i + 1..];
        Recv(rs[i]);
        i := i + 1;
      }
    }
  }

  lemma {:induction false} FirstErrorAfter(answers: Lookup -> Status, done: seq<Lookup>, rest: seq<Lookup>)
    requires forall i :: 0 <= i < |done| ==> answers(done[i]) == Ok
    ensures FirstError(answers, done + rest) == FirstError(answers, rest)
  {
    if done != [] {
      assert (done + rest)[1..] == done[1..] + rest;
      FirstErrorAfter(answers, done[1..], rest);
    } else {
      assert done + rest == rest;
    }
  }
}
