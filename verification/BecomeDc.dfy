/**
 The promotion of a server to domain controller: an asynchronous client that sends one request
 at a time and continues in the callback of its reply. `Step` is what one callback does, as a
 function; the object whose callbacks do it in place is in `BecomeDcClient`.
 */
module BecomeDc {
  import opened Common

  /** A status code. Only two LDAP results are told apart from other errors. */
  datatype Status = Ok | AttributeOrValueExists | InvalidNetworkResponse | BadNetResp | Other(code: nat)

  /** What an LDAP search answers: a status, and a value when it is Ok. */
  datatype Answer<T> = Answer(status: Status, value: T)

  /** The lookups of the first LDAP session, in their order. */
  datatype Lookup =
    | Connect | Rootdse | CrossrefVersion | DomainVersion | SchemaVersion
    | W2k3Revision | InfrastructureFsmo | RidManagerFsmo | SiteObject

  const LOOKUPS := [Connect, Rootdse, CrossrefVersion, DomainVersion, SchemaVersion,
                    W2k3Revision, InfrastructureFsmo, RidManagerFsmo, SiteObject]

  const UF_DC: nat := 0x00082000 // UF_SERVER_TRUST_ACCOUNT | UF_TRUSTED_FOR_DELEGATION

  datatype Part = Schema | Config | Domain

  datatype HighWaterMark = HighWaterMark(tmpHighestUsn: nat, reservedUsn: nat, highestUsn: nat)

  /** A replicated object, with the update sequence number of its last change. */
  datatype Object = Object(usn: nat, name: string)

  /** libnet_BecomeDC_Partition: the cursor and the identity of the source. */
  datatype Partition = Partition(cursor: HighWaterMark, sourceGuid: nat, invocationId: nat)

  const ZERO_PARTITION := Partition(HighWaterMark(0, 0, 0), 0, 0)

  /** Which callbacks the caller supplied. */
  datatype Callbacks = Callbacks(checkOptions: bool, prepareDb: bool, schemaChunk: bool, configChunk: bool, domainChunk: bool)

  function StoresChunks(cb: Callbacks, p: Part): bool {
    match p case Schema => cb.schemaChunk case Config => cb.configChunk case Domain => cb.domainChunk
  }

  /** The reply that is waited for, or how the promotion ended. A protocol error that carries an
      Ok status trips the assertion of composite_error. */
  datatype Phase =
    | AwaitCldap | AwaitConnect1 | AwaitBind1 | AwaitAddEntry | AwaitConnect2 | AwaitBind2 | AwaitConnect3
    | AwaitPull(part: Part) | AwaitRefs(ofPart: Part) | Done | Failed(status: Status) | Panicked

  /** What the promotion does to the outside world, and what it accepts from it. */
  datatype Effect =
    | CheckOptions(status: Status)
    | ServerAdd(status: Status)
    | ServerModify(replace: bool, status: Status)
    | AddEntry(ntdsDn: string)
    | PrepareDb(status: Status)
    | Pull(part: Part, v8: bool, cursor: HighWaterMark, invocationId: nat)
    | Received(part: Part, answer: Partition, objects: seq<Object>)
    | Chunk(part: Part, answer: Partition, objects: seq<Object>, status: Status)
    | ComputerModify(status: Status)
    | ComputerMove(status: Status)
    | UpdateRefs(part: Part, destGuid: nat)
    | Finished

  datatype State = State(
    phase: Phase, callbacks: Callbacks,
    computerUac: nat, serverDn: Option<string>, destGuid: nat, v8: bool,
    schema: Partition, config: Partition, domain: Partition,
    trace: seq<Effect>)

  /** The error part of a level 3 DsAddEntry reply. */
  datatype Ctr3 = Ctr3(level: nat, hasError: bool, status: Status, hasInfo: bool, infoLevel: nat, detail: Status)

  datatype Ldap1 = Ldap1(
    lookups: Lookup -> Status, checkOptions: Status, computerUac: Answer<nat>,
    serverObject1: Answer<Option<string>>, serverObject2: Answer<Option<string>>, targetDn: string,
    add: Status, modifyAdd: Status, modifyReplace: Status)

  datatype Ldap2 = Ldap2(connect: Status, computer: Status, container: Status, inPlace: bool, rename: Status)

  datatype Reply =
    | CldapReply(status: Status, ldap1: Ldap1)
    | ConnectReply(status: Status, sessionKey: Status)
    | BindReply(rpc: Status, result: Status, v8: bool, binding: Status)
    | AddEntryReply(rpc: Status, result: Status, level: nat, count: nat, ctr3: Ctr3, ctr2Status: Status,
                    guid: nat, prepareDb: Status, binding: Status)
    | PullReply(rpc: Status, result: Status, level: nat, ctr7Level: nat, mszip: bool,
                answer: Partition, objects: seq<Object>, store: Status, ldap2: Ldap2)
    | RefsReply(rpc: Status, result: Status)

  // ---------- One callback ----------

  function PartOf(s: State, p: Part): Partition {
    match p case Schema => s.schema case Config => s.config case Domain => s.domain
  }

  function SetPart(s: State, p: Part, v: Partition): (s': State)
    ensures s'.callbacks == s.callbacks && s.trace <= s'.trace
  {
    match p
    case Schema => s.(schema := v)
    case Config => s.(config := v)
    case Domain => s.(domain := v)
  }

  function Log(s: State, e: Effect): (s': State)
    ensures s'.callbacks == s.callbacks && s.trace <= s'.trace
  {
    s.(trace := s.trace + [e])
  }

  /** composite_error */
  function Fail(s: State, status: Status): (s': State)
    ensures s'.callbacks == s.callbacks && s.trace <= s'.trace
  {
    s.(phase := if status == Ok then Panicked else Failed(status))
  }

  predicate Active(s: State) {
    !s.phase.Done? && !s.phase.Failed? && !s.phase.Panicked?
  }

  function FirstError(answers: Lookup -> Status, lookups: seq<Lookup>): Status {
    if lookups == [] then Ok
    else if answers(lookups[0]) != Ok then answers(lookups[0])
    else FirstError(answers, lookups[1..])
  }

  function NtdsDn(s: State): string {
    "CN=NTDS Settings," + (if s.serverDn.Some? then s.serverDn.value else "(null)")
  }

  /** becomeDC_recv_cldap and the synchronous session that follows it. */
  function OnCldap(s: State, r: Reply): (s': State)
    requires r.CldapReply?
    ensures s'.callbacks == s.callbacks && s.trace <= s'.trace
  {
    var lookup := FirstError(r.ldap1.lookups, LOOKUPS);
    if r.status != Ok then Fail(s, r.status)
    else if lookup != Ok then Fail(s, lookup)
    else
      var s1 := if s.callbacks.checkOptions then Log(s, CheckOptions(r.ldap1.checkOptions)) else s;
      if s.callbacks.checkOptions && r.ldap1.checkOptions != Ok then Fail(s1, r.ldap1.checkOptions)
      else OnComputer(s1, r.ldap1)
  }

  /** The computer object. */
  function OnComputer(s: State, a: Ldap1): (s': State)
    ensures s'.callbacks == s.callbacks && s.trace <= s'.trace
  {
    if a.computerUac.status != Ok then Fail(s, a.computerUac.status)
    else OnServerObject(s.(computerUac := a.computerUac.value), a)
  }

  /** The two lookups of the server object, and its creation when both find nothing. */
  function OnServerObject(s: State, a: Ldap1): (s': State)
    ensures s'.callbacks == s.callbacks && s.trace <= s'.trace
  {
    if a.serverObject1.status != Ok then Fail(s, a.serverObject1.status)
    else
      var s1 := s.(serverDn := a.serverObject1.value);
      if s1.serverDn.Some? then OnServerModify(s1, a)
      else if a.serverObject2.status != Ok then Fail(s1, a.serverObject2.status)
      else
        var s2 := s1.(serverDn := a.serverObject2.value);
        if s2.serverDn.Some? then OnServerModify(s2, a)
        else
          var s3 := Log(s2, ServerAdd(a.add));
          if a.add != Ok then Fail(s3, a.add) else OnServerModify(s3.(serverDn := Some(a.targetDn)), a)
  }

  function OnServerModify(s: State, a: Ldap1): (s': State)
    ensures s'.callbacks == s.callbacks && s.trace <= s'.trace
  {
    var s1 := Log(s, ServerModify(false, a.modifyAdd));
    if a.modifyAdd == Ok then s1.(phase := AwaitConnect1)
    else if a.modifyAdd != AttributeOrValueExists then Fail(s1, a.modifyAdd)
    else
      var s2 := Log(s1, ServerModify(true, a.modifyReplace));
      if a.modifyReplace != Ok then Fail(s2, a.modifyReplace) else s2.(phase := AwaitConnect1)
  }

  /** The three connect callbacks. */
  function OnConnect(s: State, r: Reply): (s': State)
    requires r.ConnectReply?
    ensures s'.callbacks == s.callbacks && s.trace <= s'.trace
  {
    if r.status != Ok then Fail(s, r.status)
    else if r.sessionKey != Ok then Fail(s, r.sessionKey)
    else match s.phase
      case AwaitConnect1 => s.(phase := AwaitBind1)
      case AwaitConnect2 => s.(phase := AwaitBind2)
      case _ => SendPull(s, Schema)
  }

  /** The two bind callbacks. */
  function OnBind(s: State, r: Reply): (s': State)
    requires r.BindReply?
    ensures s'.callbacks == s.callbacks && s.trace <= s'.trace
  {
    if r.rpc != Ok then Fail(s, r.rpc)
    else if r.result != Ok then Fail(s, r.result)
    else if s.phase == AwaitBind1 then Log(s, AddEntry(NtdsDn(s))).(phase := AwaitAddEntry)
    else if r.binding != Ok then Fail(s.(v8 := r.v8), r.binding)
    else s.(v8 := r.v8, phase := AwaitConnect3)
  }

  /** What is wrong with a DsAddEntry reply that did not create exactly one object; Ok itself
      can come out, as the server's own error status. */
  function AddEntryError(r: Reply): Option<Status>
    requires r.AddEntryReply?
  {
    if r.level == 3 then
      if r.count == 1 then None
      else if r.ctr3.level != 1 || !r.ctr3.hasError then Some(InvalidNetworkResponse)
      else if !r.ctr3.hasInfo then Some(r.ctr3.status)
      else Some(if r.ctr3.infoLevel in {1, 4, 5, 6, 7} then r.ctr3.detail else r.ctr3.status)
    else if r.level == 2 then (if r.count == 1 then None else Some(r.ctr2Status))
    else Some(InvalidNetworkResponse)
  }

  /** becomeDC_drsuapi1_add_entry_recv */
  function OnAddEntry(s: State, r: Reply): (s': State)
    requires r.AddEntryReply?
    ensures s'.callbacks == s.callbacks && s.trace <= s'.trace
  {
    if r.rpc != Ok then Fail(s, r.rpc)
    else if r.result != Ok then Fail(s, r.result)
    else if AddEntryError(r).Some? then Fail(s, AddEntryError(r).value)
    else
      var s1 := s.(destGuid := r.guid);
      var s2 := if s.callbacks.prepareDb then Log(s1, PrepareDb(r.prepareDb)) else s1;
      if s.callbacks.prepareDb && r.prepareDb != Ok then Fail(s2, r.prepareDb)
      else if r.binding != Ok then Fail(s2, r.binding)
      else s2.(phase := AwaitConnect2)
  }

  /** becomeDC_drsuapi_pull_partition_send */
  function SendPull(s: State, p: Part): (s': State)
    ensures s'.callbacks == s.callbacks && s.trace <= s'.trace
  {
    Log(s, Pull(p, s.v8, PartOf(s, p).cursor, PartOf(s, p).invocationId)).(phase := AwaitPull(p))
  }

  predicate KnownLevel(r: Reply)
    requires r.PullReply?
  {
    r.level in {1, 2, 6} || (r.level == 7 && r.ctr7Level == 6 && r.mszip)
  }

  /** becomeDC_drsuapi_pull_partition_recv: the reply is accepted, and stored if the caller
      stores chunks. */
  function Accept(s: State, p: Part, r: Reply): (s': State)
    requires r.PullReply?
    ensures s'.callbacks == s.callbacks && s.trace <= s'.trace
  {
    var s1 := Log(SetPart(s, p, r.answer), Received(p, r.answer, r.objects));
    if StoresChunks(s.callbacks, p) then Log(s1, Chunk(p, r.answer, r.objects, r.store)) else s1
  }

  /** The three pull callbacks. */
  function OnPull(s: State, r: Reply): (s': State)
    requires r.PullReply? && s.phase.AwaitPull?
    ensures s'.callbacks == s.callbacks && s.trace <= s'.trace
  {
    var p := s.phase.part;
    if r.rpc != Ok then Fail(s, r.rpc)
    else if r.result != Ok then Fail(s, r.result)
    else if !KnownLevel(r) then Fail(s, BadNetResp)
    else
      var s1 := Accept(s, p, r);
      if StoresChunks(s.callbacks, p) && r.store != Ok then Fail(s1, r.store)
      else AfterAccept(s1, p, r)
  }

  /** The partition is pulled until its cursor has caught up; then comes what is next. */
  function AfterAccept(s: State, p: Part, r: Reply): (s': State)
    requires r.PullReply?
    ensures s'.callbacks == s.callbacks && s.trace <= s'.trace
  {
    if r.answer.cursor.tmpHighestUsn > r.answer.cursor.highestUsn then SendPull(s, p)
    else match p
      case Schema => SendPull(s, Config)
      case Config => OnLdap2(s, r.ldap2)
      case Domain => SendRefs(s, Schema)
  }

  /** becomeDC_connect_ldap2 */
  function OnLdap2(s: State, a: Ldap2): (s': State)
    ensures s'.callbacks == s.callbacks && s.trace <= s'.trace
  {
    if a.connect != Ok then Fail(s, a.connect)
    else
      var s1 := if s.computerUac == UF_DC then s else Log(s, ComputerModify(a.computer));
      if s.computerUac != UF_DC && a.computer != Ok then Fail(s1, a.computer)
      else OnMove(s1.(computerUac := UF_DC), a)
  }

  function OnMove(s: State, a: Ldap2): (s': State)
    ensures s'.callbacks == s.callbacks && s.trace <= s'.trace
  {
    if a.container != Ok then Fail(s, a.container)
    else if a.inPlace then SendPull(s, Domain)
    else
      var s1 := Log(s, ComputerMove(a.rename));
      if a.rename != Ok then Fail(s1, a.rename) else SendPull(s1, Domain)
  }

  /** becomeDC_drsuapi_update_refs_send */
  function SendRefs(s: State, p: Part): (s': State)
    ensures s'.callbacks == s.callbacks && s.trace <= s'.trace
  {
    Log(s, UpdateRefs(p, s.destGuid)).(phase := AwaitRefs(p))
  }

  /** The three update-refs callbacks; the last one completes the promotion. */
  function OnRefs(s: State, r: Reply): (s': State)
    requires r.RefsReply? && s.phase.AwaitRefs?
    ensures s'.callbacks == s.callbacks && s.trace <= s'.trace
  {
    if r.rpc != Ok then Fail(s, r.rpc)
    else if r.result != Ok then Fail(s, r.result)
    else match s.phase.ofPart
      case Schema => SendRefs(s, Config)
      case Config => SendRefs(s, Domain)
      case Domain => Log(s, Finished).(phase := Done)
  }

  /** The reply that the outstanding request asks for. */
  predicate Expects(s: State, r: Reply) {
    match s.phase
    case AwaitCldap => r.CldapReply?
    case AwaitConnect1 | AwaitConnect2 | AwaitConnect3 => r.ConnectReply?
    case AwaitBind1 | AwaitBind2 => r.BindReply?
    case AwaitAddEntry => r.AddEntryReply?
    case AwaitPull(_) => r.PullReply?
    case AwaitRefs(_) => r.RefsReply?
    case _ => false
  }

  function Step(s: State, r: Reply): (s': State)
    requires Expects(s, r)
    ensures s'.callbacks == s.callbacks && s.trace <= s'.trace
  {
    match s.phase
    case AwaitCldap => OnCldap(s, r)
    case AwaitConnect1 | AwaitConnect2 | AwaitConnect3 => OnConnect(s, r)
    case AwaitBind1 | AwaitBind2 => OnBind(s, r)
    case AwaitAddEntry => OnAddEntry(s, r)
    case AwaitPull(_) => OnPull(s, r)
    case _ => OnRefs(s, r)
  }

  /** libnet_BecomeDC_send */
  function Start(callbacks: Callbacks): State {
    State(AwaitCldap, callbacks, 0, None, 0, false, ZERO_PARTITION, ZERO_PARTITION, ZERO_PARTITION, [])
  }

  /** Replies that come in answer to the requests, up to the end of the promotion. */
  predicate Answers(s: State, rs: seq<Reply>)
    decreases |rs|
  {
    rs == [] || (Expects(s, rs[0]) && Answers(Step(s, rs[0]), rs[1..]))
  }

  function Run(s: State, rs: seq<Reply>): State
    requires Answers(s, rs)
    decreases |rs|
  {
    if rs == [] then s else Run(Step(s, rs[0]), rs[1..])
  }
}
