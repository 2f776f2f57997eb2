/**
 What the pulls of the promotion deliver, from a source that holds a log of changes ordered by
 update sequence number (section 4.1.10 of MS-DRSR).
 */
module Replication {
  import opened Common
  import opened BecomeDc
  import opened Promotion

  /** A partition's log: sequence numbers are positive and increase. */
  predicate IsLog(log: seq<Object>) {
    log == [] || (0 < log[0].usn && (|log| > 1 ==> log[0].usn < log[1].usn) && IsLog(log[1..]))
  }

  lemma {:induction false} LogSorted(log: seq<Object>, i: nat)
    requires IsLog(log) && i < |log|
    ensures 0 < log[0].usn <= log[i].usn
  {
    if i > 0 {
      LogSorted(log[1..], i - 1);
    }
  }

  /** The changes up to a sequence number. */
  function Through(log: seq<Object>, usn: nat): (r: seq<Object>)
    ensures r <= log
  {
    if log == [] || log[0].usn > usn then [] else [log[0]] + Through(log[1..], usn)
  }

  predicate Accepted(r: Reply) {
    r.PullReply? && r.rpc == Ok && r.result == Ok && KnownLevel(r)
  }

  /** How a source answers a pull at `cursor`: it continues from there, omits nothing, makes
      progress, and says that it is up to date only when nothing is left. */
  predicate Serves(log: seq<Object>, cursor: HighWaterMark, r: Reply) {
    && r.PullReply?
    && Through(log, r.answer.cursor.tmpHighestUsn) == Through(log, cursor.tmpHighestUsn) + r.objects
    && (r.answer.cursor.tmpHighestUsn <= r.answer.cursor.highestUsn ==>
          Through(log, r.answer.cursor.tmpHighestUsn) == log)
    && (r.objects != [] || r.answer.cursor.tmpHighestUsn <= r.answer.cursor.highestUsn)
  }

  /** Up to where such a page reaches, and the sequence number there. */
  function PageEnd(log: seq<Object>, cursor: HighWaterMark, n: nat): (to: nat)
    ensures |Through(log, cursor.tmpHighestUsn)| <= to <= |log|
  {
    Min(|Through(log, cursor.tmpHighestUsn)| + n, |log|)
  }

  function PageUsn(log: seq<Object>, cursor: HighWaterMark, to: nat): nat
    requires to <= |log|
  {
    if to <= |Through(log, cursor.tmpHighestUsn)| then cursor.tmpHighestUsn else log[to - 1].usn
  }

  /** A source that answers with the next `n` changes, in a reply of the given level. */
  function Page(log: seq<Object>, cursor: HighWaterMark, n: nat, level: nat): (r: Reply) {
    var from := |Through(log, cursor.tmpHighestUsn)|;
    var to := PageEnd(log, cursor, n);
    var usn := PageUsn(log, cursor, to);
    PullReply(Ok, Ok, level, 6, true, Partition(HighWaterMark(usn, 0, if to == |log| then usn else 0), 0, 0), log[from..to],
              Ok, Ldap2(Ok, Ok, Ok, true, Ok))
  }

  lemma {:induction false} ThroughAt(log: seq<Object>, i: nat)
    requires IsLog(log) && 0 < i <= |log|
    ensures Through(log, log[i - 1].usn) == log[..i]
  {
    LogSorted(log, i - 1);
    if i > 1 {
      ThroughAt(log[1..], i - 1);
      assert log[..i] == [log[0]] + log[1..][..i - 1];
    } else if |log| > 1 {
      assert Through(log[1..], log[0].usn) == [] by { assert log[1..][0].usn > log[0].usn; }
    }
  }

  lemma SliceOn<T>(s: seq<T>, head: seq<T>, j: nat)
    requires head <= s && |head| <= j <= |s|
    ensures s[..j] == head + s[|head|..j]
  {
  }

  lemma PageThrough(log: seq<Object>, cursor: HighWaterMark, to: nat)
    requires IsLog(log) && |Through(log, cursor.tmpHighestUsn)| <= to <= |log|
    ensures Through(log, PageUsn(log, cursor, to)) == log[..to]
  {
    var done := Through(log, cursor.tmpHighestUsn);
    if to > |done| {
      assert PageUsn(log, cursor, to) == log[to - 1].usn;
      ThroughAt(log, to);
    } else {
      assert log[..to] == done;
    }
  }

  /** Whatever its page size, and in each level of reply, such a source keeps what is asked of a source. */
  lemma PageServes(log: seq<Object>, cursor: HighWaterMark, n: nat, level: nat)
    requires IsLog(log) && n > 0 && (level == 1 || level == 2 || level == 6 || level == 7)
    ensures Serves(log, cursor, Page(log, cursor, n, level)) && Accepted(Page(log, cursor, n, level))
  {
    var to := PageEnd(log, cursor, n);
    PageThrough(log, cursor, to);
    SliceOn(log, Through(log, cursor.tmpHighestUsn), to);
    if to == |log| {
      assert log[..to] == log;
    } else {
      LogSorted(log, to - 1);
    }
  }

  /** The logs of the three partitions. */
  type Logs = Part -> seq<Object>

  /** The pulls among the replies are answered from the logs. */
  predicate FromLogs(logs: Logs, s: State, rs: seq<Reply>)
    requires Answers(s, rs)
    decreases |rs|
  {
    rs == [] ||
    ((s.phase.AwaitPull? ==> Serves(logs(s.phase.part), PartOf(s, s.phase.part).cursor, rs[0]))
     && FromLogs(logs, Step(s, rs[0]), rs[1..]))
  }

  /** The objects accepted for a partition, in order. */
  function Delivered(t: seq<Effect>, p: Part): seq<Object> {
    if t == [] then []
    else
      var e := t[|t| - 1];
      Delivered(t[..|t| - 1], p) + (if e.Received? && e.part == p then e.objects else [])
  }

  /** The objects handed to the caller's store for a partition, in order. */
  function Stored(t: seq<Effect>, p: Part): seq<Object> {
    if t == [] then []
    else
      var e := t[|t| - 1];
      Stored(t[..|t| - 1], p) + (if e.Chunk? && e.part == p then e.objects else [])
  }

  // ---------- What one step may do to the phase ----------

  predicate Stopped(phase: Phase) {
    phase.Failed? || phase.Panicked?
  }

  /** The phase after a phase. */
  function Next(phase: Phase): Phase {
    match phase
    case AwaitCldap => AwaitConnect1
    case AwaitConnect1 => AwaitBind1
    case AwaitBind1 => AwaitAddEntry
    case AwaitAddEntry => AwaitConnect2
    case AwaitConnect2 => AwaitBind2
    case AwaitBind2 => AwaitConnect3
    case AwaitConnect3 => AwaitPull(Schema)
    case AwaitPull(p) =>
      (match p case Schema => AwaitPull(Config) case Config => AwaitPull(Domain) case Domain => AwaitRefs(Schema))
    case AwaitRefs(p) =>
      (match p case Schema => AwaitRefs(Config) case Config => AwaitRefs(Domain) case Domain => Done)
    case _ => phase
  }

  predicate Goes(phase: Phase, phase': Phase) {
    Stopped(phase') || phase' == Next(phase)
  }

  lemma ServerModifyGoes(s: State, a: Ldap1)
    ensures Goes(AwaitCldap, OnServerModify(s, a).phase)
  {
  }

  lemma ServerObjectGoes(s: State, a: Ldap1)
    ensures Goes(AwaitCldap, OnServerObject(s, a).phase)
  {
    var s1 := s.(serverDn := a.serverObject1.value);
    var s2 := s1.(serverDn := a.serverObject2.value);
    if a.serverObject1.status != Ok {
    } else if s1.serverDn.Some? {
      ServerModifyGoes(s1, a);
    } else if a.serverObject2.status != Ok {
    } else if s2.serverDn.Some? {
      ServerModifyGoes(s2, a);
    } else if a.add == Ok {
      ServerModifyGoes(Log(s2, ServerAdd(a.add)).(serverDn := Some(a.targetDn)), a);
    }
  }

  lemma CldapGoes(s: State, r: Reply)
    requires r.CldapReply?
    ensures Goes(AwaitCldap, OnCldap(s, r).phase)
  {
    var s1 := if s.callbacks.checkOptions then Log(s, CheckOptions(r.ldap1.checkOptions)) else s;
    if r.status != Ok {
    } else if FirstError(r.ldap1.lookups, LOOKUPS) != Ok {
    } else if s.callbacks.checkOptions && r.ldap1.checkOptions != Ok {
    } else if r.ldap1.computerUac.status == Ok {
      ServerObjectGoes(s1.(computerUac := r.ldap1.computerUac.value), r.ldap1);
    }
  }

  lemma MoveGoes(s: State, a: Ldap2)
    ensures Goes(AwaitPull(Config), OnMove(s, a).phase)
  {
  }

  lemma Ldap2Goes(s: State, a: Ldap2)
    ensures Goes(AwaitPull(Config), OnLdap2(s, a).phase)
  {
    var s1 := if s.computerUac == UF_DC then s else Log(s, ComputerModify(a.computer));
    if a.connect != Ok {
    } else if s.computerUac != UF_DC && a.computer != Ok {
    } else {
      MoveGoes(s1.(computerUac := UF_DC), a);
    }
  }

  predicate Behind(r: Reply)
    requires r.PullReply?
  {
    r.answer.cursor.tmpHighestUsn > r.answer.cursor.highestUsn
  }

  lemma AfterAcceptGoes(s: State, p: Part, r: Reply)
    requires r.PullReply?
    ensures if Behind(r) then AfterAccept(s, p, r).phase == AwaitPull(p)
            else Goes(AwaitPull(p), AfterAccept(s, p, r).phase)
  {
    if !Behind(r) && p == Config {
      Ldap2Goes(s, r.ldap2);
    }
  }

  /** A step that accepts no pull reply goes on to the next phase, or ends the promotion. */
  lemma StepGoes(s: State, r: Reply)
    requires Expects(s, r) && !s.phase.AwaitPull?
    ensures Goes(s.phase, Step(s, r).phase)
  {
    match s.phase {
      case AwaitCldap => CldapGoes(s, r);
      case _ =>
    }
  }

  // ---------- Delivered is what the cursor says ----------

  /** Nothing is received, stored or forgotten for a partition between two states. */
  predicate Quiet(s: State, s': State, p: Part) {
    && Delivered(s'.trace, p) == Delivered(s.trace, p)
    && Stored(s'.trace, p) == Stored(s.trace, p)
    && PartOf(s', p) == PartOf(s, p)
  }

  lemma QuietLog(s: State, e: Effect, p: Part)
    requires !e.Received? && !e.Chunk?
    ensures Quiet(s, Log(s, e), p)
  {
    Snoc(s.trace, e);
  }

  lemma CldapQuiet(s: State, r: Reply, p: Part)
    requires r.CldapReply?
    ensures Quiet(s, OnCldap(s, r), p)
  {
    var s1 := if s.callbacks.checkOptions then Log(s, CheckOptions(r.ldap1.checkOptions)) else s;
    QuietLog(s, CheckOptions(r.ldap1.checkOptions), p);
    if r.status != Ok {
    } else if FirstError(r.ldap1.lookups, LOOKUPS) != Ok {
    } else if s.callbacks.checkOptions && r.ldap1.checkOptions != Ok {
    } else if r.ldap1.computerUac.status == Ok {
      ServerObjectQuiet(s1.(computerUac := r.ldap1.computerUac.value), r.ldap1, p);
    }
  }

  lemma ServerObjectQuiet(s: State, a: Ldap1, p: Part)
    ensures Quiet(s, OnServerObject(s, a), p)
  {
    var s1 := s.(serverDn := a.serverObject1.value);
    var s2 := s1.(serverDn := a.serverObject2.value);
    if a.serverObject1.status != Ok {
    } else if s1.serverDn.Some? {
      ServerModifyQuiet(s1, a, p);
    } else if a.serverObject2.status != Ok {
    } else if s2.serverDn.Some? {
      ServerModifyQuiet(s2, a, p);
    } else {
      QuietLog(s2, ServerAdd(a.add), p);
      if a.add == Ok {
        ServerModifyQuiet(Log(s2, ServerAdd(a.add)).(serverDn := Some(a.targetDn)), a, p);
      }
    }
  }

  lemma ServerModifyQuiet(s: State, a: Ldap1, p: Part)
    ensures Quiet(s, OnServerModify(s, a), p)
  {
    var s1 := Log(s, ServerModify(false, a.modifyAdd));
    QuietLog(s, ServerModify(false, a.modifyAdd), p);
    QuietLog(s1, ServerModify(true, a.modifyReplace), p);
  }

  lemma SendPullQuiet(s: State, q: Part, p: Part)
    ensures Quiet(s, SendPull(s, q), p)
  {
    QuietLog(s, Pull(q, s.v8, PartOf(s, q).cursor, PartOf(s, q).invocationId), p);
  }

  lemma SendRefsQuiet(s: State, q: Part, p: Part)
    ensures Quiet(s, SendRefs(s, q), p)
  {
    QuietLog(s, UpdateRefs(q, s.destGuid), p);
  }

  lemma Ldap2Quiet(s: State, a: Ldap2, p: Part)
    ensures Quiet(s, OnLdap2(s, a), p)
  {
    var s1 := if s.computerUac == UF_DC then s else Log(s, ComputerModify(a.computer));
    QuietLog(s, ComputerModify(a.computer), p);
    if a.connect != Ok {
    } else if s.computerUac != UF_DC && a.computer != Ok {
    } else {
      MoveQuiet(s1.(computerUac := UF_DC), a, p);
    }
  }

  lemma MoveQuiet(s: State, a: Ldap2, p: Part)
    ensures Quiet(s, OnMove(s, a), p)
  {
    if a.container != Ok {
    } else if a.inPlace {
      SendPullQuiet(s, Domain, p);
    } else {
      QuietLog(s, ComputerMove(a.rename), p);
      SendPullQuiet(Log(s, ComputerMove(a.rename)), Domain, p);
    }
  }

  lemma AfterAcceptQuiet(s: State, q: Part, r: Reply, p: Part)
    requires r.PullReply?
    ensures Quiet(s, AfterAccept(s, q, r), p)
  {
    if Behind(r) {
      SendPullQuiet(s, q, p);
    } else {
      match q {
        case Schema => SendPullQuiet(s, Config, p);
        case Config => Ldap2Quiet(s, r.ldap2, p);
        case Domain => SendRefsQuiet(s, Schema, p);
      }
    }
  }

  lemma ConnectQuiet(s: State, r: Reply, p: Part)
    requires r.ConnectReply?
    ensures Quiet(s, OnConnect(s, r), p)
  {
    if r.status != Ok {
    } else if r.sessionKey != Ok {
    } else if s.phase != AwaitConnect1 && s.phase != AwaitConnect2 {
      SendPullQuiet(s, Schema, p);
    }
  }

  lemma BindQuiet(s: State, r: Reply, p: Part)
    requires r.BindReply?
    ensures Quiet(s, OnBind(s, r), p)
  {
    if r.rpc != Ok {
    } else if r.result != Ok {
    } else if s.phase == AwaitBind1 {
      QuietLog(s, AddEntry(NtdsDn(s)), p);
    }
  }

  lemma AddEntryQuiet(s: State, r: Reply, p: Part)
    requires r.AddEntryReply?
    ensures Quiet(s, OnAddEntry(s, r), p)
  {
    if r.rpc != Ok {
    } else if r.result != Ok {
    } else if AddEntryError(r).Some? {
    } else if s.callbacks.prepareDb {
      QuietLog(s.(destGuid := r.guid), PrepareDb(r.prepareDb), p);
    }
  }

  lemma RefsQuiet(s: State, r: Reply, p: Part)
    requires r.RefsReply? && s.phase.AwaitRefs?
    ensures Quiet(s, OnRefs(s, r), p)
  {
    if r.rpc != Ok {
    } else if r.result != Ok {
    } else if s.phase.ofPart == Domain {
      QuietLog(s, Finished, p);
    } else {
      SendRefsQuiet(s, if s.phase.ofPart == Schema then Config else Domain, p);
    }
  }

  /** Every step but the acceptance of a pull reply is quiet. */
  lemma StepQuiet(s: State, r: Reply, p: Part)
    requires Expects(s, r) && !s.phase.AwaitPull?
    ensures Quiet(s, Step(s, r), p)
  {
    match s.phase {
      case AwaitCldap => CldapQuiet(s, r, p);
      case AwaitConnect1 | AwaitConnect2 | AwaitConnect3 => ConnectQuiet(s, r, p);
      case AwaitBind1 | AwaitBind2 => BindQuiet(s, r, p);
      case AwaitAddEntry => AddEntryQuiet(s, r, p);
      case _ => RefsQuiet(s, r, p);
    }
  }

  lemma ReceiveDelivers(s: State, q: Part, r: Reply, p: Part)
    requires r.PullReply?
    ensures var s1 := Log(SetPart(s, q, r.answer), Received(q, r.answer, r.objects));
      && Delivered(s1.trace, p) == Delivered(s.trace, p) + (if p == q then r.objects else [])
      && Stored(s1.trace, p) == Stored(s.trace, p)
      && PartOf(s1, p) == if p == q then r.answer else PartOf(s, p)
  {
    Snoc(s.trace, Received(q, r.answer, r.objects));
    assert Stored(s.trace, p) + [] == Stored(s.trace, p);
  }

  lemma StoreDelivers(s: State, q: Part, r: Reply, p: Part)
    requires r.PullReply?
    ensures var s1 := Log(s, Chunk(q, r.answer, r.objects, r.store));
      && Delivered(s1.trace, p) == Delivered(s.trace, p)
      && Stored(s1.trace, p) == Stored(s.trace, p) + (if p == q then r.objects else [])
      && PartOf(s1, p) == PartOf(s, p)
  {
    Snoc(s.trace, Chunk(q, r.answer, r.objects, r.store));
    assert Delivered(s.trace, p) + [] == Delivered(s.trace, p);
  }

  /** What the acceptance of a pull reply adds. */
  lemma AcceptDelivers(s: State, q: Part, r: Reply, p: Part)
    requires r.PullReply?
    ensures var s1 := Accept(s, q, r);
      && Delivered(s1.trace, p) == Delivered(s.trace, p) + (if p == q then r.objects else [])
      && Stored(s1.trace, p) == Stored(s.trace, p) + (if p == q && StoresChunks(s.callbacks, p) then r.objects else [])
      && PartOf(s1, p) == if p == q then r.answer else PartOf(s, p)
  {
    ReceiveDelivers(s, q, r, p);
    if StoresChunks(s.callbacks, q) {
      StoreDelivers(Log(SetPart(s, q, r.answer), Received(q, r.answer, r.objects)), q, r, p);
    }
  }

  /** A partition whose pull is over. */
  predicate Past(phase: Phase, p: Part) {
    match phase
    case AwaitPull(q) => (q == Config && p == Schema) || (q == Domain && p != Domain)
    case AwaitRefs(_) => true
    case Done => true
    case _ => false
  }

  /** The objects delivered are those of the log up to the cursor, all of them once the pull is
      over, and the same objects were handed to the caller's store. */
  predicate Replicated(logs: Logs, s: State, p: Part) {
    && Delivered(s.trace, p) == Through(logs(p), PartOf(s, p).cursor.tmpHighestUsn)
    && (Past(s.phase, p) ==> Through(logs(p), PartOf(s, p).cursor.tmpHighestUsn) == logs(p))
    && Stored(s.trace, p) == (if StoresChunks(s.callbacks, p) then Delivered(s.trace, p) else [])
  }

  lemma GoesPast(phase: Phase, phase': Phase, p: Part)
    requires Goes(phase, phase')
    ensures Past(phase', p) ==> Past(phase, p) || phase == AwaitPull(p)
  {
  }

  /** What the acceptance of a reply and the request after it do to the partitions. */
  lemma PullStep(s: State, r: Reply, p: Part)
    requires s.phase.AwaitPull? && Accepted(r)
    ensures var s', q := OnPull(s, r), s.phase.part;
      && Delivered(s'.trace, p) == Delivered(s.trace, p) + (if p == q then r.objects else [])
      && Stored(s'.trace, p) == Stored(s.trace, p) + (if p == q && StoresChunks(s.callbacks, p) then r.objects else [])
      && PartOf(s', p) == (if p == q then r.answer else PartOf(s, p))
      && (Stopped(s'.phase) || s'.phase == if Behind(r) then s.phase else Next(s.phase))
  {
    var q := s.phase.part;
    AcceptDelivers(s, q, r, p);
    var s1 := Accept(s, q, r);
    if StoresChunks(s.callbacks, q) && r.store != Ok {
    } else {
      AfterAcceptQuiet(s1, q, r, p);
      AfterAcceptGoes(s1, q, r);
    }
  }

  /** A reply that is not accepted ends the promotion and changes nothing else. */
  lemma Unaccepted(s: State, r: Reply)
    requires s.phase.AwaitPull? && r.PullReply? && !Accepted(r)
    ensures Stopped(OnPull(s, r).phase) && OnPull(s, r) == s.(phase := OnPull(s, r).phase)
  {
  }

  lemma PullReplicates(logs: Logs, s: State, r: Reply, p: Part)
    requires s.phase.AwaitPull? && Serves(logs(s.phase.part), PartOf(s, s.phase.part).cursor, r)
    requires Replicated(logs, s, p)
    ensures Replicated(logs, OnPull(s, r), p)
  {
    var s' := OnPull(s, r);
    if !Accepted(r) {
      Unaccepted(s, r);
    } else {
      PullStep(s, r, p);
      AcceptReplicates(logs, s, s', r, p);
    }
  }

  /** The two sides of the invariant, before and after an accepted reply. */
  lemma AcceptReplicates(logs: Logs, s: State, s': State, r: Reply, p: Part)
    requires s.phase.AwaitPull? && Serves(logs(s.phase.part), PartOf(s, s.phase.part).cursor, r)
    requires Replicated(logs, s, p) && s'.callbacks == s.callbacks
    requires Delivered(s'.trace, p) == Delivered(s.trace, p) + (if p == s.phase.part then r.objects else [])
    requires Stored(s'.trace, p) ==
             Stored(s.trace, p) + (if p == s.phase.part && StoresChunks(s.callbacks, p) then r.objects else [])
    requires PartOf(s', p) == (if p == s.phase.part then r.answer else PartOf(s, p))
    requires Stopped(s'.phase) || s'.phase == if Behind(r) then s.phase else Next(s.phase)
    ensures Replicated(logs, s', p)
  {
    if p == s.phase.part {
      assert Delivered(s'.trace, p) == Through(logs(p), r.answer.cursor.tmpHighestUsn);
    } else {
      assert Delivered(s'.trace, p) == Delivered(s.trace, p) && Stored(s'.trace, p) == Stored(s.trace, p);
    }
  }

  lemma StepReplicates(logs: Logs, s: State, r: Reply, p: Part)
    requires Expects(s, r)
    requires s.phase.AwaitPull? ==> Serves(logs(s.phase.part), PartOf(s, s.phase.part).cursor, r)
    requires Replicated(logs, s, p)
    ensures Replicated(logs, Step(s, r), p)
  {
    if s.phase.AwaitPull? {
      PullReplicates(logs, s, r, p);
    } else {
      StepQuiet(s, r, p);
      StepGoes(s, r);
      GoesPast(s.phase, Step(s, r).phase, p);
    }
  }

  lemma {:induction false} RunReplicates(logs: Logs, s: State, rs: seq<Reply>, p: Part)
    requires Answers(s, rs) && FromLogs(logs, s, rs)
    requires Replicated(logs, s, p)
    ensures Replicated(logs, Run(s, rs), p) && Run(s, rs).callbacks == s.callbacks
    decreases |rs|
  {
    if rs != [] {
      StepReplicates(logs, s, rs[0], p);
      RunReplicates(logs, Step(s, rs[0]), rs[1..], p);
    }
  }

  /** Against sources that serve their logs: at every point of every run, what was delivered is
      a prefix of each log, handed to the caller's store object by object; and a promotion that
      is done has delivered all three logs completely. */
  lemma Completeness(callbacks: Callbacks, logs: Logs, rs: seq<Reply>, p: Part)
    requires IsLog(logs(p))
    requires Answers(Start(callbacks), rs) && FromLogs(logs, Start(callbacks), rs)
    ensures var s := Run(Start(callbacks), rs);
      && Delivered(s.trace, p) <= logs(p)
      && (s.phase == Done ==> Delivered(s.trace, p) == logs(p))
      && Stored(s.trace, p) == (if StoresChunks(callbacks, p) then Delivered(s.trace, p) else [])
  {
    assert Replicated(logs, Start(callbacks), p);
    RunReplicates(logs, Start(callbacks), rs, p);
  }

  // ---------- Termination ----------

  /** How many replies away the end is, not counting repeated pulls. */
  function Distance(phase: Phase): nat {
    match phase
    case AwaitCldap => 13
    case AwaitConnect1 => 12
    case AwaitBind1 => 11
    case AwaitAddEntry => 10
    case AwaitConnect2 => 9
    case AwaitBind2 => 8
    case AwaitConnect3 => 7
    case AwaitPull(p) => (match p case Schema => 6 case Config => 5 case Domain => 4)
    case AwaitRefs(p) => (match p case Schema => 3 case Config => 2 case Domain => 1)
    case _ => 0
  }

  /** How much of a log lies beyond the cursor. */
  function Left(logs: Logs, s: State, p: Part): nat {
    |logs(p)| - |Through(logs(p), PartOf(s, p).cursor.tmpHighestUsn)|
  }

  function Measure(logs: Logs, s: State): nat {
    Distance(s.phase) + Left(logs, s, Schema) + Left(logs, s, Config) + Left(logs, s, Domain)
  }

  lemma GoesNearer(phase: Phase, phase': Phase)
    requires Goes(phase, phase') && Distance(phase) > 0
    ensures Distance(phase') < Distance(phase)
  {
  }

  lemma PullLeft(logs: Logs, s: State, r: Reply, p: Part)
    requires s.phase.AwaitPull? && Serves(logs(s.phase.part), PartOf(s, s.phase.part).cursor, r) && Accepted(r)
    ensures Left(logs, OnPull(s, r), p) == Left(logs, s, p) - if p == s.phase.part then |r.objects| else 0
  {
    PullStep(s, r, p);
  }

  lemma PullProgress(logs: Logs, s: State, r: Reply)
    requires s.phase.AwaitPull? && Serves(logs(s.phase.part), PartOf(s, s.phase.part).cursor, r)
    ensures Measure(logs, OnPull(s, r)) < Measure(logs, s)
  {
    if Accepted(r) {
      PullLeft(logs, s, r, Schema);
      PullLeft(logs, s, r, Config);
      PullLeft(logs, s, r, Domain);
      PullStep(s, r, Schema);
      if OnPull(s, r).phase != s.phase {
        GoesNearer(s.phase, OnPull(s, r).phase);
      }
    } else {
      Unaccepted(s, r);
    }
  }

  lemma QuietLeft(logs: Logs, s: State, s': State, p: Part)
    requires Quiet(s, s', p)
    ensures Left(logs, s', p) == Left(logs, s, p)
  {
  }

  /** Every reply brings the promotion nearer to its end. */
  lemma StepProgress(logs: Logs, s: State, r: Reply)
    requires Expects(s, r)
    requires s.phase.AwaitPull? ==> Serves(logs(s.phase.part), PartOf(s, s.phase.part).cursor, r)
    ensures Measure(logs, Step(s, r)) < Measure(logs, s)
  {
    if s.phase.AwaitPull? {
      PullProgress(logs, s, r);
    } else {
      forall p ensures Left(logs, Step(s, r), p) == Left(logs, s, p) {
        StepQuiet(s, r, p);
        QuietLeft(logs, s, Step(s, r), p);
      }
      StepGoes(s, r);
      GoesNearer(s.phase, Step(s, r).phase);
    }
  }

  lemma {:induction false} RunMeasure(logs: Logs, s: State, rs: seq<Reply>)
    requires Answers(s, rs) && FromLogs(logs, s, rs)
    ensures Measure(logs, Run(s, rs)) + |rs| <= Measure(logs, s)
    decreases |rs|
  {
    if rs != [] {
      StepProgress(logs, s, rs[0]);
      RunMeasure(logs, Step(s, rs[0]), rs[1..]);
    }
  }

  /** Every phase that waits for a reply is some way from the end. */
  lemma MeasureActive(logs: Logs, s: State)
    ensures Measure(logs, s) == 0 ==> !Active(s)
  {
  }

  lemma MeasureStart(callbacks: Callbacks, logs: Logs)
    ensures Measure(logs, Start(callbacks)) <= 13 + |logs(Schema)| + |logs(Config)| + |logs(Domain)|
  {
  }

  /** A promotion against sources with finite logs ends: after at most thirteen replies and one
      for each object of the logs. */
  lemma Termination(callbacks: Callbacks, logs: Logs, rs: seq<Reply>)
    requires Answers(Start(callbacks), rs) && FromLogs(logs, Start(callbacks), rs)
    ensures |rs| <= 13 + |logs(Schema)| + |logs(Config)| + |logs(Domain)|
    ensures |rs| == 13 + |logs(Schema)| + |logs(Config)| + |logs(Domain)| ==> !Active(Run(Start(callbacks), rs))
  {
    RunMeasure(logs, Start(callbacks), rs);
    MeasureStart(callbacks, logs);
    MeasureActive(logs, Run(Start(callbacks), rs));
  }

  // ---------- A promotion can finish ----------

  const GOOD_LDAP1: Ldap1 :=
    Ldap1((l: Lookup) => Ok, Ok, Answer(Ok, 0), Answer(Ok, None), Answer(Ok, None), "CN=DC,CN=Servers", Ok, Ok, Ok)

  /** A reply without errors to the outstanding request. */
  function GoodReply(logs: Logs, s: State, n: nat, level: nat): Reply {
    match s.phase
    case AwaitCldap => CldapReply(Ok, GOOD_LDAP1)
    case AwaitConnect1 | AwaitConnect2 | AwaitConnect3 => ConnectReply(Ok, Ok)
    case AwaitBind1 | AwaitBind2 => BindReply(Ok, Ok, true, Ok)
    case AwaitAddEntry => AddEntryReply(Ok, Ok, 3, 1, Ctr3(0, false, Ok, false, 0, Ok), Ok, 1, Ok, Ok)
    case AwaitPull(p) => Page(logs(p), PartOf(s, p).cursor, n, level)
    case _ => RefsReply(Ok, Ok)
  }

  lemma GoodCldap(s: State)
    requires s.phase == AwaitCldap
    ensures OnCldap(s, CldapReply(Ok, GOOD_LDAP1)).phase == AwaitConnect1
  {
    FirstErrorNone(GOOD_LDAP1.lookups, LOOKUPS);
  }

  lemma {:induction false} FirstErrorNone(answers: Lookup -> Status, lookups: seq<Lookup>)
    requires forall l :: answers(l) == Ok
    ensures FirstError(answers, lookups) == Ok
  {
    if lookups != [] {
      FirstErrorNone(answers, lookups[1..]);
    }
  }

  lemma GoodPull(logs: Logs, s: State, n: nat, level: nat)
    requires s.phase.AwaitPull? && n > 0 && (forall p :: IsLog(logs(p)))
    requires level == 1 || level == 2 || level == 6 || level == 7
    ensures !Stopped(OnPull(s, GoodReply(logs, s, n, level)).phase)
  {
    var p, r := s.phase.part, GoodReply(logs, s, n, level);
    PageServes(logs(p), PartOf(s, p).cursor, n, level);
    var s1 := Accept(s, p, r);
    if !Behind(r) && p == Config {
      assert OnLdap2(s1, r.ldap2).phase == AwaitPull(Domain);
    }
  }

  lemma GoodStep(logs: Logs, s: State, n: nat, level: nat)
    requires Active(s) && n > 0 && (forall p :: IsLog(logs(p)))
    requires level == 1 || level == 2 || level == 6 || level == 7
    ensures Expects(s, GoodReply(logs, s, n, level)) && !Stopped(Step(s, GoodReply(logs, s, n, level)).phase)
  {
    match s.phase {
      case AwaitCldap => GoodCldap(s);
      case AwaitPull(_) => GoodPull(logs, s, n, level);
      case _ =>
    }
  }

  /** From every point before its end, a promotion can still be done, whatever the logs hold and
      whichever of the levels its source replies in. */
  lemma {:induction false} CanFinish(logs: Logs, s: State, n: nat, level: nat) returns (rs: seq<Reply>)
    requires Active(s) && n > 0 && (forall p :: IsLog(logs(p)))
    requires level == 1 || level == 2 || level == 6 || level == 7
    ensures Answers(s, rs) && FromLogs(logs, s, rs) && Run(s, rs).phase == Done
    decreases Measure(logs, s)
  {
    var r := GoodReply(logs, s, n, level);
    GoodStep(logs, s, n, level);
    if s.phase.AwaitPull? {
      PageServes(logs(s.phase.part), PartOf(s, s.phase.part).cursor, n, level);
    }
    StepProgress(logs, s, r);
    var rest: seq<Reply> := [];
    if Active(Step(s, r)) {
      rest := CanFinish(logs, Step(s, r), n, level);
    }
    rs := [r] + rest;
    assert rs[0] == r && rs[1..] == rest;
  }
}
