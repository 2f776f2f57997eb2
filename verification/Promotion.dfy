/**
 What every run of the promotion keeps: the order of its effects, and where its cursors go.
 */
module Promotion {
  import opened Common
  import opened BecomeDc

  /** The one order of the effects. */
  function Rank(e: Effect): nat {
    match e
    case CheckOptions(_) => 0
    case ServerAdd(_) => 1
    case ServerModify(replace, _) => if replace then 3 else 2
    case AddEntry(_) => 4
    case PrepareDb(_) => 5
    case Pull(p, _, _, _) => PullRank(p)
    case Received(p, _, _) => PullRank(p)
    case Chunk(p, _, _, _) => PullRank(p)
    case ComputerModify(_) => 8
    case ComputerMove(_) => 9
    case UpdateRefs(p, _) => RefsRank(p)
    case Finished => 14
  }

  function PullRank(p: Part): nat {
    match p case Schema => 6 case Config => 7 case Domain => 10
  }

  function RefsRank(p: Part): nat {
    match p case Schema => 11 case Config => 12 case Domain => 13
  }

  /** Effects of which there can be many of the same rank. */
  predicate Repeats(e: Effect) {
    e.Pull? || e.Received? || e.Chunk?
  }

  /** A step that ended the promotion. An add that finds a value there is retried as a replace. */
  predicate Bad(e: Effect) {
    match e
    case CheckOptions(st) => st != Ok
    case ServerAdd(st) => st != Ok
    case ServerModify(replace, st) => st != Ok && (replace || st != AttributeOrValueExists)
    case PrepareDb(st) => st != Ok
    case Chunk(_, _, _, st) => st != Ok
    case ComputerModify(st) => st != Ok
    case ComputerMove(st) => st != Ok
    case _ => false
  }

  /** Ranks that no promotion may skip. */
  predicate Mandatory(cb: Callbacks, rank: int) {
    if rank == 0 then cb.checkOptions else if rank == 5 then cb.prepareDb else rank in {2, 4, 6, 7, 10, 11, 12, 13}
  }

  /** No mandatory rank lies strictly between `a` and `b`. */
  predicate NothingSkipped(cb: Callbacks, a: int, b: int) {
    && !(a < 2 < b) && !(a < 4 < b) && !(a < 6 < b) && !(a < 7 < b)
    && !(a < 10 < b) && !(a < 11 < b) && !(a < 12 < b) && !(a < 13 < b)
    && (a < 0 < b ==> !cb.checkOptions) && (a < 5 < b ==> !cb.prepareDb)
  }

  /** The cursor and source identity that the last accepted reply for `p` carried. */
  function LastAnswer(t: seq<Effect>, p: Part): Partition {
    if t == [] then ZERO_PARTITION
    else
      var e := t[|t| - 1];
      if e.Received? && e.part == p then e.answer else LastAnswer(t[..|t| - 1], p)
  }

  /** An add that found a value there, and the replace that it is retried as. */
  predicate AwaitsRetry(e: Effect) {
    e == ServerModify(false, AttributeOrValueExists)
  }

  predicate IsRetry(e: Effect) {
    e.ServerModify? && e.replace
  }

  /** `e` may come right after `last`. */
  predicate Follows(cb: Callbacks, last: Effect, e: Effect) {
    && !Bad(last)
    && (if Rank(last) == Rank(e) then Repeats(last) && Repeats(e)
        else Rank(last) < Rank(e) && NothingSkipped(cb, Rank(last), Rank(e)))
    && (IsRetry(e) <==> AwaitsRetry(last))
    && (e.Received? ==> last.Pull? && last.part == e.part)
    && (e.Chunk? <==> last.Received? && StoresChunks(cb, last.part))
    && (e.Chunk? ==> last.part == e.part && last.answer == e.answer && last.objects == e.objects)
  }

  predicate MayFollow(cb: Callbacks, t: seq<Effect>, e: Effect) {
    && (if t == [] then NothingSkipped(cb, -1, Rank(e)) && !e.Received? && !e.Chunk? && !IsRetry(e) else Follows(cb, t[|t| - 1], e))
    && (e.Pull? ==> e.cursor == LastAnswer(t, e.part).cursor && e.invocationId == LastAnswer(t, e.part).invocationId)
  }

  predicate Legal(cb: Callbacks, t: seq<Effect>) {
    t == [] || (Legal(cb, t[..|t| - 1]) && MayFollow(cb, t[..|t| - 1], t[|t| - 1]))
  }

  /** The highest rank of the effects before a phase. */
  function Stage(phase: Phase): int {
    match phase
    case AwaitCldap => -1
    case AwaitConnect1 | AwaitBind1 => 3
    case AwaitAddEntry => 4
    case AwaitConnect2 | AwaitBind2 | AwaitConnect3 => 5
    case AwaitPull(p) => PullRank(p)
    case AwaitRefs(p) => RefsRank(p)
    case _ => 14
  }

  function Top(t: seq<Effect>): int {
    if t == [] then -1 else Rank(t[|t| - 1])
  }

  /** The effects went well, as far as `stage` and no further; and no accepted chunk waits to
      be stored. */
  predicate UpTo(cb: Callbacks, t: seq<Effect>, stage: int) {
    && Top(t) <= stage && NothingSkipped(cb, Top(t), stage + 1)
    && (t != [] ==> !Bad(t[|t| - 1]) && !AwaitsRetry(t[|t| - 1]))
    && (t != [] && t[|t| - 1].Received? ==> !StoresChunks(cb, t[|t| - 1].part))
  }

  predicate EndsWith(t: seq<Effect>, e: Effect) {
    t != [] && t[|t| - 1] == e
  }

  /** What holds even of a promotion that fails. */
  ghost predicate Sane(s: State) {
    && Legal(s.callbacks, s.trace) && !EndsWith(s.trace, Finished)
    && s.schema == LastAnswer(s.trace, Schema)
    && s.config == LastAnswer(s.trace, Config)
    && s.domain == LastAnswer(s.trace, Domain)
  }

  /** A promotion that has done everything up to `stage` and may go on. */
  ghost predicate Ready(s: State, stage: int) {
    Sane(s) && UpTo(s.callbacks, s.trace, stage)
  }

  ghost predicate Inv(s: State) {
    && (Active(s) ==> Ready(s, Stage(s.phase)))
    && (s.phase.AwaitPull? ==>
         s.trace != [] && s.trace[|s.trace| - 1].Pull? && s.trace[|s.trace| - 1].part == s.phase.part)
    && (if s.phase == Done then Legal(s.callbacks, s.trace) && EndsWith(s.trace, Finished) else Sane(s))
  }

  lemma Snoc<T>(t: seq<T>, e: T)
    ensures (t + [e])[..|t + [e]| - 1] == t && (t + [e])[|t + [e]| - 1] == e
  {
  }

  lemma LegalLog(s: State, e: Effect)
    requires Legal(s.callbacks, s.trace) && MayFollow(s.callbacks, s.trace, e)
    ensures Legal(s.callbacks, Log(s, e).trace) && EndsWith(Log(s, e).trace, e)
    ensures LastAnswer(Log(s, e).trace, Schema) ==
            if e.Received? && e.part == Schema then e.answer else LastAnswer(s.trace, Schema)
    ensures LastAnswer(Log(s, e).trace, Config) ==
            if e.Received? && e.part == Config then e.answer else LastAnswer(s.trace, Config)
    ensures LastAnswer(Log(s, e).trace, Domain) ==
            if e.Received? && e.part == Domain then e.answer else LastAnswer(s.trace, Domain)
  {
    Snoc(s.trace, e);
  }

  lemma FailKeeps(s: State, status: Status)
    requires Sane(s)
    ensures Inv(Fail(s, status))
  {
  }

  lemma ItsTurn(s: State, stage: int, e: Effect)
    requires Ready(s, stage) && stage < Rank(e) && !e.Received? && !e.Chunk? && !IsRetry(e)
    requires NothingSkipped(s.callbacks, stage, Rank(e))
    requires e.Pull? ==> e.cursor == PartOf(s, e.part).cursor && e.invocationId == PartOf(s, e.part).invocationId
    ensures MayFollow(s.callbacks, s.trace, e)
  {
  }

  /** An effect whose turn it is. */
  lemma Perform(s: State, stage: int, e: Effect)
    requires Ready(s, stage) && stage < Rank(e) && !e.Received? && !e.Chunk? && !IsRetry(e) && e != Finished
    requires NothingSkipped(s.callbacks, stage, Rank(e))
    requires e.Pull? ==> e.cursor == PartOf(s, e.part).cursor && e.invocationId == PartOf(s, e.part).invocationId
    ensures Sane(Log(s, e)) && (!Bad(e) && !AwaitsRetry(e) ==> Ready(Log(s, e), Rank(e)))
    ensures EndsWith(Log(s, e).trace, e)
  {
    ItsTurn(s, stage, e);
    LegalLog(s, e);
  }

  /** Stages can be raised over ranks that need not be reached. */
  lemma Raise(s: State, stage: int, stage': int)
    requires Ready(s, stage) && stage <= stage' && NothingSkipped(s.callbacks, stage, stage' + 1)
    ensures Ready(s, stage')
  {
  }

  lemma OnCldapKeeps(s: State, r: Reply)
    requires Inv(s) && s.phase == AwaitCldap && r.CldapReply?
    ensures Inv(OnCldap(s, r))
  {
    var a := r.ldap1;
    var check := CheckOptions(a.checkOptions);
    var s1 := if s.callbacks.checkOptions then Log(s, check) else s;
    if r.status != Ok {
      FailKeeps(s, r.status);
    } else if FirstError(a.lookups, LOOKUPS) != Ok {
      FailKeeps(s, FirstError(a.lookups, LOOKUPS));
    } else {
      if s.callbacks.checkOptions {
        Perform(s, -1, check);
      } else {
        Raise(s, -1, 0);
      }
      if s.callbacks.checkOptions && a.checkOptions != Ok {
        FailKeeps(s1, a.checkOptions);
      } else if a.computerUac.status != Ok {
        FailKeeps(s1, a.computerUac.status);
      } else {
        OnServerObjectKeeps(s1.(computerUac := a.computerUac.value), a);
      }
    }
  }

  lemma OnServerObjectKeeps(s: State, a: Ldap1)
    requires Ready(s, 0) && s.phase == AwaitCldap
    ensures Inv(OnServerObject(s, a))
  {
    var s1 := s.(serverDn := a.serverObject1.value);
    var s2 := s1.(serverDn := a.serverObject2.value);
    if a.serverObject1.status != Ok {
      FailKeeps(s, a.serverObject1.status);
    } else if s1.serverDn.Some? {
      Raise(s1, 0, 1);
      OnServerModifyKeeps(s1, a);
    } else if a.serverObject2.status != Ok {
      FailKeeps(s1, a.serverObject2.status);
    } else if s2.serverDn.Some? {
      Raise(s2, 0, 1);
      OnServerModifyKeeps(s2, a);
    } else {
      OnServerAddKeeps(s2, a);
    }
  }

  lemma OnServerAddKeeps(s: State, a: Ldap1)
    requires Ready(s, 0) && s.phase == AwaitCldap
    ensures var s1 := Log(s, ServerAdd(a.add));
      Inv(if a.add != Ok then Fail(s1, a.add) else OnServerModify(s1.(serverDn := Some(a.targetDn)), a))
  {
    Perform(s, 0, ServerAdd(a.add));
    var s1 := Log(s, ServerAdd(a.add));
    if a.add != Ok {
      FailKeeps(s1, a.add);
    } else {
      OnServerModifyKeeps(s1.(serverDn := Some(a.targetDn)), a);
    }
  }

  lemma OnServerModifyKeeps(s: State, a: Ldap1)
    requires Ready(s, 1) && s.phase == AwaitCldap
    ensures Inv(OnServerModify(s, a))
  {
    var e := ServerModify(false, a.modifyAdd);
    var s1 := Log(s, e);
    Perform(s, 1, e);
    if a.modifyAdd == Ok {
      Raise(s1, 2, 3);
    } else if a.modifyAdd != AttributeOrValueExists {
      FailKeeps(s1, a.modifyAdd);
    } else {
      OnServerReplaceKeeps(s1, a);
    }
  }

  lemma OnServerReplaceKeeps(s: State, a: Ldap1)
    requires Sane(s) && EndsWith(s.trace, ServerModify(false, AttributeOrValueExists)) && s.phase == AwaitCldap
    ensures var s1 := Log(s, ServerModify(true, a.modifyReplace));
      Inv(if a.modifyReplace != Ok then Fail(s1, a.modifyReplace) else s1.(phase := AwaitConnect1))
  {
    var s1 := Log(s, ServerModify(true, a.modifyReplace));
    LegalLog(s, ServerModify(true, a.modifyReplace));
    if a.modifyReplace != Ok {
      FailKeeps(s1, a.modifyReplace);
    }
  }

  lemma SendPullKeeps(s: State, p: Part, stage: int)
    requires Ready(s, stage) && stage < PullRank(p) && NothingSkipped(s.callbacks, stage, PullRank(p))
    ensures Inv(SendPull(s, p))
  {
    Perform(s, stage, Pull(p, s.v8, PartOf(s, p).cursor, PartOf(s, p).invocationId));
  }

  lemma OnConnectKeeps(s: State, r: Reply)
    requires Inv(s) && Expects(s, r) && r.ConnectReply?
    ensures Inv(OnConnect(s, r))
  {
    FailKeeps(s, r.status);
    FailKeeps(s, r.sessionKey);
    if s.phase == AwaitConnect3 {
      SendPullKeeps(s, Schema, 5);
    }
  }

  lemma OnBindKeeps(s: State, r: Reply)
    requires Inv(s) && Expects(s, r) && r.BindReply?
    ensures Inv(OnBind(s, r))
  {
    if r.rpc != Ok {
      FailKeeps(s, r.rpc);
    } else if r.result != Ok {
      FailKeeps(s, r.result);
    } else if s.phase == AwaitBind1 {
      Perform(s, 3, AddEntry(NtdsDn(s)));
    } else if r.binding != Ok {
      FailKeeps(s.(v8 := r.v8), r.binding);
    }
  }

  lemma OnAddEntryKeeps(s: State, r: Reply)
    requires Inv(s) && Expects(s, r) && r.AddEntryReply?
    ensures Inv(OnAddEntry(s, r))
  {
    if r.rpc != Ok {
      FailKeeps(s, r.rpc);
    } else if r.result != Ok {
      FailKeeps(s, r.result);
    } else if AddEntryError(r).Some? {
      FailKeeps(s, AddEntryError(r).value);
    } else {
      OnPrepareKeeps(s.(destGuid := r.guid), r);
    }
  }

  lemma OnPrepareKeeps(s: State, r: Reply)
    requires Ready(s, 4) && s.phase == AwaitAddEntry && r.AddEntryReply?
    ensures var s1 := if s.callbacks.prepareDb then Log(s, PrepareDb(r.prepareDb)) else s;
      Inv(if s.callbacks.prepareDb && r.prepareDb != Ok then Fail(s1, r.prepareDb)
          else if r.binding != Ok then Fail(s1, r.binding)
          else s1.(phase := AwaitConnect2))
  {
    var s1 := if s.callbacks.prepareDb then Log(s, PrepareDb(r.prepareDb)) else s;
    if s.callbacks.prepareDb {
      Perform(s, 4, PrepareDb(r.prepareDb));
    } else {
      Raise(s, 4, 5);
    }
    if s.callbacks.prepareDb && r.prepareDb != Ok {
      FailKeeps(s1, r.prepareDb);
    } else if r.binding != Ok {
      FailKeeps(s1, r.binding);
    }
  }

  lemma ReceiveKeeps(s: State, p: Part, e: Effect)
    requires Inv(s) && s.phase == AwaitPull(p) && e.Received? && e.part == p
    ensures var s1 := Log(SetPart(s, p, e.answer), e);
      Sane(s1) && EndsWith(s1.trace, e) && (!StoresChunks(s.callbacks, p) ==> Ready(s1, PullRank(p)))
  {
    LegalLog(s, e);
    assert Log(SetPart(s, p, e.answer), e).trace == Log(s, e).trace;
  }

  lemma StoreKeeps(s: State, e: Effect, chunk: Effect)
    requires Sane(s) && EndsWith(s.trace, e) && e.Received? && StoresChunks(s.callbacks, e.part)
    requires chunk.Chunk? && chunk.part == e.part && chunk.answer == e.answer && chunk.objects == e.objects
    ensures Sane(Log(s, chunk)) && EndsWith(Log(s, chunk).trace, chunk)
    ensures chunk.status == Ok ==> Ready(Log(s, chunk), PullRank(e.part))
  {
    LegalLog(s, chunk);
  }

  /** The last effect is the acceptance or the storing of a reply for `p`. */
  predicate EndsWithAnswer(t: seq<Effect>, p: Part) {
    t != [] && (t[|t| - 1].Received? || t[|t| - 1].Chunk?) && t[|t| - 1].part == p
  }

  lemma AcceptKeeps(s: State, p: Part, r: Reply)
    requires Inv(s) && s.phase == AwaitPull(p) && r.PullReply?
    ensures Sane(Accept(s, p, r)) && EndsWithAnswer(Accept(s, p, r).trace, p)
    ensures !StoresChunks(s.callbacks, p) || r.store == Ok ==> Ready(Accept(s, p, r), PullRank(p))
  {
    var e, chunk := Received(p, r.answer, r.objects), Chunk(p, r.answer, r.objects, r.store);
    var s1 := Log(SetPart(s, p, r.answer), e);
    ReceiveKeeps(s, p, e);
    if StoresChunks(s.callbacks, p) {
      StoreKeeps(s1, e, chunk);
      assert Accept(s, p, r) == Log(s1, chunk);
    } else {
      assert Accept(s, p, r) == s1;
    }
  }

  /** Asking for more of the same partition. */
  lemma SendPullAgain(s: State, p: Part)
    requires Ready(s, PullRank(p)) && EndsWithAnswer(s.trace, p)
    ensures Inv(SendPull(s, p))
  {
    LegalLog(s, Pull(p, s.v8, PartOf(s, p).cursor, PartOf(s, p).invocationId));
  }

  lemma OnPullKeeps(s: State, r: Reply)
    requires Inv(s) && s.phase.AwaitPull? && r.PullReply?
    ensures Inv(OnPull(s, r))
  {
    var p := s.phase.part;
    if r.rpc != Ok {
      FailKeeps(s, r.rpc);
    } else if r.result != Ok {
      FailKeeps(s, r.result);
    } else if !KnownLevel(r) {
      FailKeeps(s, BadNetResp);
    } else {
      var s1 := Accept(s, p, r);
      AcceptKeeps(s, p, r);
      if StoresChunks(s.callbacks, p) && r.store != Ok {
        FailKeeps(s1, r.store);
      } else {
        AfterAcceptKeeps(s1, p, r);
      }
    }
  }

  /** What follows an accepted reply. */
  lemma AfterAcceptKeeps(s: State, p: Part, r: Reply)
    requires Ready(s, PullRank(p)) && r.PullReply? && EndsWithAnswer(s.trace, p)
    ensures Inv(AfterAccept(s, p, r))
  {
    if r.answer.cursor.tmpHighestUsn > r.answer.cursor.highestUsn {
      SendPullAgain(s, p);
    } else {
      match p {
        case Schema => SendPullKeeps(s, Config, 6);
        case Config => OnLdap2Keeps(s, r.ldap2);
        case Domain => SendRefsKeeps(s, Schema);
      }
    }
  }

  lemma OnLdap2Keeps(s: State, a: Ldap2)
    requires Ready(s, 7)
    ensures Inv(OnLdap2(s, a))
  {
    FailKeeps(s, a.connect);
    var e := ComputerModify(a.computer);
    if s.computerUac == UF_DC {
      Raise(s, 7, 8);
      OnMoveKeeps(s.(computerUac := UF_DC), a);
    } else {
      Perform(s, 7, e);
      FailKeeps(Log(s, e), a.computer);
      if a.computer == Ok {
        OnMoveKeeps(Log(s, e).(computerUac := UF_DC), a);
      }
    }
  }

  lemma OnMoveKeeps(s: State, a: Ldap2)
    requires Ready(s, 8)
    ensures Inv(OnMove(s, a))
  {
    FailKeeps(s, a.container);
    SendPullKeeps(s, Domain, 8);
    var e := ComputerMove(a.rename);
    Perform(s, 8, e);
    FailKeeps(Log(s, e), a.rename);
    if a.rename == Ok {
      SendPullKeeps(Log(s, e), Domain, 9);
    }
  }

  lemma SendRefsKeeps(s: State, p: Part)
    requires Ready(s, RefsRank(p) - 1)
    ensures Inv(SendRefs(s, p))
  {
    Perform(s, RefsRank(p) - 1, UpdateRefs(p, s.destGuid));
  }

  lemma OnRefsKeeps(s: State, r: Reply)
    requires Inv(s) && s.phase.AwaitRefs? && r.RefsReply?
    ensures Inv(OnRefs(s, r))
  {
    FailKeeps(s, r.rpc);
    FailKeeps(s, r.result);
    match s.phase.ofPart {
      case Schema => SendRefsKeeps(s, Config);
      case Config => SendRefsKeeps(s, Domain);
      case Domain =>
        LegalLog(s, Finished);
    }
  }

  /** What every step of the protocol keeps. */
  lemma StepKeeps(s: State, r: Reply)
    requires Inv(s) && Expects(s, r)
    ensures Inv(Step(s, r))
  {
    match s.phase {
      case AwaitCldap => OnCldapKeeps(s, r);
      case AwaitConnect1 | AwaitConnect2 | AwaitConnect3 => OnConnectKeeps(s, r);
      case AwaitBind1 | AwaitBind2 => OnBindKeeps(s, r);
      case AwaitAddEntry => OnAddEntryKeeps(s, r);
      case AwaitPull(_) => OnPullKeeps(s, r);
      case _ => OnRefsKeeps(s, r);
    }
  }

  lemma {:induction false} RunKeeps(s: State, rs: seq<Reply>)
    requires Inv(s) && Answers(s, rs)
    ensures Inv(Run(s, rs)) && Run(s, rs).callbacks == s.callbacks
    decreases |rs|
  {
    if rs != [] {
      StepKeeps(s, rs[0]);
      RunKeeps(Step(s, rs[0]), rs[1..]);
    }
  }

  // ---------- Every run ----------

  lemma StartInv(callbacks: Callbacks)
    ensures Inv(Start(callbacks))
  {
  }

  /** Position `j` of a legal trace, seen from the whole. */
  lemma {:induction false} LegalAt(cb: Callbacks, t: seq<Effect>, j: nat)
    requires Legal(cb, t) && j < |t|
    ensures Legal(cb, t[..j]) && MayFollow(cb, t[..j], t[j])
  {
    var k := |t| - 1;
    if j < k {
      LegalAt(cb, t[..k], j);
      assert t[..k][..j] == t[..j];
    }
  }

  /** The effects of every legal trace come in one fixed order. */
  lemma {:induction false} LegalOrdered(cb: Callbacks, t: seq<Effect>, i: nat, j: nat)
    requires Legal(cb, t) && i < j < |t|
    ensures !Bad(t[i])
    ensures Rank(t[i]) < Rank(t[j]) || (Rank(t[i]) == Rank(t[j]) && Repeats(t[i]) && Repeats(t[j]))
    decreases j
  {
    LegalAt(cb, t, j);
    assert t[..j][j - 1] == t[j - 1];
    if i < j - 1 {
      LegalOrdered(cb, t, i, j - 1);
    }
  }

  /** Before an effect, everything of a lower rank that is mandatory was done. */
  lemma {:induction false} LegalComplete(cb: Callbacks, t: seq<Effect>, j: nat, rank: nat) returns (i: nat)
    requires Legal(cb, t) && j < |t| && Mandatory(cb, rank) && rank < Rank(t[j])
    ensures i < j && Rank(t[i]) == rank && !Bad(t[i])
    decreases j
  {
    LegalAt(cb, t, j);
    i := j - 1;
    assert t[..j][i] == t[i];
    if Rank(t[i]) != rank {
      i := LegalComplete(cb, t, j - 1, rank);
    }
    LegalOrdered(cb, t, i, j);
  }

  /** Every run, on any replies: its effects are in the one order, nothing follows a step that
      went wrong, and no effect comes before the mandatory effects of a lower rank. */
  lemma RunSafety(callbacks: Callbacks, rs: seq<Reply>)
    requires Answers(Start(callbacks), rs)
    ensures var t := Run(Start(callbacks), rs).trace;
      && (forall i :: 0 <= i < |t| - 1 ==> !Bad(t[i]))
      && (forall i, j :: 0 <= i < j < |t| ==>
            Rank(t[i]) < Rank(t[j]) || (Rank(t[i]) == Rank(t[j]) && Repeats(t[i]) && Repeats(t[j])))
      && (forall j, rank: nat :: 0 <= j < |t| && rank < Rank(t[j]) && Mandatory(callbacks, rank) ==>
            exists i :: 0 <= i < j && Rank(t[i]) == rank && !Bad(t[i]))
  {
    StartInv(callbacks);
    RunKeeps(Start(callbacks), rs);
    var t := Run(Start(callbacks), rs).trace;
    forall i | 0 <= i < |t| - 1 ensures !Bad(t[i]) {
      LegalOrdered(callbacks, t, i, |t| - 1);
    }
    forall i, j | 0 <= i < j < |t|
      ensures Rank(t[i]) < Rank(t[j]) || (Rank(t[i]) == Rank(t[j]) && Repeats(t[i]) && Repeats(t[j]))
    {
      LegalOrdered(callbacks, t, i, j);
    }
    forall j, rank: nat | 0 <= j < |t| && rank < Rank(t[j]) && Mandatory(callbacks, rank)
      ensures exists i :: 0 <= i < j && Rank(t[i]) == rank && !Bad(t[i])
    {
      var i := LegalComplete(callbacks, t, j, rank);
    }
  }

  /** A legal trace that contains Finished ends with it. */
  lemma FinishedIsLast(cb: Callbacks, t: seq<Effect>)
    requires Legal(cb, t) && Finished in t
    ensures EndsWith(t, Finished)
  {
    var j :| 0 <= j < |t| && t[j] == Finished;
    if j < |t| - 1 {
      LegalOrdered(cb, t, j, |t| - 1);
      RankBound(t[|t| - 1]);
      assert false;
    }
  }

  /** A legal trace that ends with Finished took every mandatory step, and none went wrong. */
  lemma FinishedIsComplete(cb: Callbacks, t: seq<Effect>)
    requires Legal(cb, t) && EndsWith(t, Finished)
    ensures forall i :: 0 <= i < |t| ==> !Bad(t[i])
    ensures forall rank: nat :: Mandatory(cb, rank) ==> exists i :: 0 <= i < |t| && Rank(t[i]) == rank
  {
    var k := |t| - 1;
    forall i | 0 <= i < |t| ensures !Bad(t[i]) {
      if i < k {
        LegalOrdered(cb, t, i, k);
      }
    }
    forall rank: nat | Mandatory(cb, rank) ensures exists i :: 0 <= i < |t| && Rank(t[i]) == rank {
      var i := LegalComplete(cb, t, k, rank);
    }
  }

  /** In every run a replace of the server reference follows an add that found a value, at once,
      and nothing else does. */
  lemma RunRetries(callbacks: Callbacks, rs: seq<Reply>, j: nat)
    requires Answers(Start(callbacks), rs) && j < |Run(Start(callbacks), rs).trace|
    ensures var t := Run(Start(callbacks), rs).trace;
      IsRetry(t[j]) <==> j > 0 && AwaitsRetry(t[j - 1])
  {
    StartInv(callbacks);
    RunKeeps(Start(callbacks), rs);
    var t := Run(Start(callbacks), rs).trace;
    LegalAt(callbacks, t, j);
    if j > 0 {
      assert t[..j][j - 1] == t[j - 1];
    }
  }

  /** The promotion is done if and only if Finished is among its effects, and then every
      mandatory step was taken and none went wrong. */
  lemma RunDone(callbacks: Callbacks, rs: seq<Reply>)
    requires Answers(Start(callbacks), rs)
    ensures var s := Run(Start(callbacks), rs);
      && (s.phase == Done <==> Finished in s.trace)
      && (s.phase == Done ==> forall i :: 0 <= i < |s.trace| ==> !Bad(s.trace[i]))
      && (s.phase == Done ==>
            forall rank: nat :: Mandatory(callbacks, rank) ==> exists i :: 0 <= i < |s.trace| && Rank(s.trace[i]) == rank)
  {
    StartInv(callbacks);
    RunKeeps(Start(callbacks), rs);
    var s := Run(Start(callbacks), rs);
    InvFinished(s);
    if s.phase == Done {
      FinishedIsComplete(callbacks, s.trace);
    }
  }

  lemma InvFinished(s: State)
    requires Inv(s)
    ensures Legal(s.callbacks, s.trace) && (s.phase == Done ==> EndsWith(s.trace, Finished))
    ensures s.phase == Done <==> Finished in s.trace
  {
    if Finished in s.trace {
      FinishedIsLast(s.callbacks, s.trace);
    }
  }

  lemma RankBound(e: Effect)
    ensures 0 <= Rank(e) <= 14 && (Rank(e) == 14 <==> e == Finished)
  {
  }

  /** Every pull of every run carries the cursor and source identity of the last accepted reply
      for its own partition, the zero cursor at first; and an accepted reply is handed to the
      caller at once, and once, when the caller stores that partition's chunks. */
  lemma RunCursors(callbacks: Callbacks, rs: seq<Reply>, j: nat)
    requires Answers(Start(callbacks), rs) && j < |Run(Start(callbacks), rs).trace|
    ensures var t := Run(Start(callbacks), rs).trace;
      && (t[j].Pull? ==>
            t[j].cursor == LastAnswer(t[..j], t[j].part).cursor
            && t[j].invocationId == LastAnswer(t[..j], t[j].part).invocationId)
      && (t[j].Received? ==> j > 0 && t[j - 1].Pull? && t[j - 1].part == t[j].part)
      && (t[j].Chunk? <==>
            j > 0 && t[j - 1].Received? &&
            match t[j - 1].part
            case Schema => callbacks.schemaChunk
            case Config => callbacks.configChunk
            case Domain => callbacks.domainChunk)
      && (t[j].Chunk? ==>
            t[j - 1].part == t[j].part && t[j - 1].answer == t[j].answer && t[j - 1].objects == t[j].objects)
  {
    StartInv(callbacks);
    RunKeeps(Start(callbacks), rs);
    var t := Run(Start(callbacks), rs).trace;
    LegalAt(callbacks, t, j);
    if j > 0 {
      assert t[..j][j - 1] == t[j - 1];
    }
  }

  lemma CldapNeverPanics(s: State, r: Reply)
    requires r.CldapReply? && !s.phase.Panicked?
    ensures OnCldap(s, r).phase != Panicked
  {
  }

  lemma PullNeverPanics(s: State, r: Reply)
    requires r.PullReply? && s.phase.AwaitPull?
    ensures OnPull(s, r).phase != Panicked
  {
  }

  lemma AddEntryPanics(s: State, r: Reply)
    requires r.AddEntryReply? && !s.phase.Panicked?
    ensures OnAddEntry(s, r).phase == Panicked <==> r.rpc == Ok && r.result == Ok && AddEntryError(r) == Some(Ok)
  {
  }

  /** A promotion stops in the assertion of composite_error exactly when a DsAddEntry reply that
      did not create one object reports success as its error. */
  lemma PanicIff(s: State, r: Reply)
    requires Expects(s, r)
    ensures Step(s, r).phase == Panicked <==>
      && r.AddEntryReply? && r.rpc == Ok && r.result == Ok && AddEntryError(r) == Some(Ok)
  {
    match s.phase {
      case AwaitCldap => CldapNeverPanics(s, r);
      case AwaitAddEntry => AddEntryPanics(s, r);
      case AwaitPull(_) => PullNeverPanics(s, r);
      case _ =>
    }
  }

  /** Such a reply: level 2, no object, and no error. */
  lemma PanicExample(s: State) returns (r: Reply)
    requires s.phase == AwaitAddEntry
    ensures Expects(s, r) && r.level == 2 && r.count == 0 && r.ctr2Status == Ok && Step(s, r).phase == Panicked
  {
    r := AddEntryReply(Ok, Ok, 2, 0, Ctr3(0, false, Ok, false, 0, Ok), Ok, 0, Ok, Ok);
    PanicIff(s, r);
  }
}
