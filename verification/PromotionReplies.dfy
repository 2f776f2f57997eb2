/**
 What each reply of a promotion must say for the promotion to go on, and what is done before it
 stops: every callback is a list of sub-steps, taken in order up to the first that fails.
 */
module PromotionReplies {
  import opened Common
  import opened BecomeDc
  import opened Replication

  // ---------- The sub-steps of a callback ----------

  /** Sub-steps in order: whether one succeeds, its error if it does not, and the effect that is
      noted either way. */
  datatype Plan = Goes | Try(ok: bool, status: Status, log: Option<Effect>, rest: Plan)

  function Check(status: Status, rest: Plan): Plan {
    Try(status == Ok, status, None, rest)
  }

  function Act(status: Status, e: Effect, rest: Plan): Plan {
    Try(status == Ok, status, Some(e), rest)
  }

  function Noted(t: seq<Effect>, log: Option<Effect>): seq<Effect> {
    match log case None => t case Some(e) => t + [e]
  }

  /** The trace after the sub-steps: the effects up to the first that fails. */
  function After(t: seq<Effect>, plan: Plan): seq<Effect>
    decreases plan
  {
    match plan
    case Goes => t
    case Try(ok, _, log, rest) => if ok then After(Noted(t, log), rest) else Noted(t, log)
  }

  /** The error of the first sub-step that fails. */
  function Failure(plan: Plan): Option<Status> {
    match plan
    case Goes => None
    case Try(ok, status, _, rest) => if ok then Failure(rest) else Some(status)
  }

  function LookupPlan(answers: Lookup -> Status, lookups: seq<Lookup>, rest: Plan): Plan {
    if lookups == [] then rest else Check(answers(lookups[0]), LookupPlan(answers, lookups[1..], rest))
  }

  /** The object is added only when neither lookup found one; a replace only retries an add that
      found a value. */
  function ServerPlan(a: Ldap1): Plan {
    Check(a.serverObject1.status,
          if a.serverObject1.value.Some? then ModifyPlan(a)
          else Check(a.serverObject2.status,
                     if a.serverObject2.value.Some? then ModifyPlan(a)
                     else Act(a.add, ServerAdd(a.add), ModifyPlan(a))))
  }

  function ModifyPlan(a: Ldap1): Plan {
    if a.modifyAdd == AttributeOrValueExists then
      Try(true, Ok, Some(ServerModify(false, AttributeOrValueExists)),
          Act(a.modifyReplace, ServerModify(true, a.modifyReplace), Goes))
    else Act(a.modifyAdd, ServerModify(false, a.modifyAdd), Goes)
  }

  function SessionPlan(cb: Callbacks, a: Ldap1): Plan {
    var rest := Check(a.computerUac.status, ServerPlan(a));
    LookupPlan(a.lookups, LOOKUPS, if cb.checkOptions then Act(a.checkOptions, CheckOptions(a.checkOptions), rest) else rest)
  }

  function AddEntryPlan(cb: Callbacks, r: Reply): Plan
    requires r.AddEntryReply?
  {
    var error, rest := AddEntryError(r), Check(r.binding, Goes);
    Try(error.None?, if error.Some? then error.value else Ok, None,
        if cb.prepareDb then Act(r.prepareDb, PrepareDb(r.prepareDb), rest) else rest)
  }

  function Ldap2Plan(uac: nat, a: Ldap2): Plan {
    var move := Check(a.container, if a.inPlace then Goes else Act(a.rename, ComputerMove(a.rename), Goes));
    Check(a.connect, if uac == UF_DC then move else Act(a.computer, ComputerModify(a.computer), move))
  }

  function PullPlan(s: State, p: Part, r: Reply): Plan
    requires r.PullReply?
  {
    var rest := if p == Config && !Behind(r) then Ldap2Plan(s.computerUac, r.ldap2) else Goes;
    Try(KnownLevel(r), BadNetResp, None,
        Try(true, Ok, Some(Received(p, r.answer, r.objects)),
            if StoresChunks(s.callbacks, p) then Act(r.store, Chunk(p, r.answer, r.objects, r.store), rest) else rest))
  }

  function PlanOf(s: State, r: Reply): Plan
    requires Expects(s, r)
  {
    match r
    case CldapReply(status, a) => Check(status, SessionPlan(s.callbacks, a))
    case ConnectReply(status, sessionKey) => Check(status, Check(sessionKey, Goes))
    case BindReply(rpc, result, _, binding) =>
      Check(rpc, Check(result, if s.phase == AwaitBind1 then Goes else Check(binding, Goes)))
    case AddEntryReply(rpc, result, _, _, _, _, _, _, _) => Check(rpc, Check(result, AddEntryPlan(s.callbacks, r)))
    case PullReply(rpc, result, _, _, _, _, _, _, _) => Check(rpc, Check(result, PullPlan(s, s.phase.part, r)))
    case RefsReply(rpc, result) => Check(rpc, Check(result, Goes))
  }

  /** The request that is sent, or the end that is declared, on the way into a phase. */
  function Request(s: State): Option<Effect> {
    match s.phase
    case AwaitAddEntry => Some(AddEntry(NtdsDn(s)))
    case AwaitPull(p) => Some(Pull(p, s.v8, PartOf(s, p).cursor, PartOf(s, p).invocationId))
    case AwaitRefs(p) => Some(UpdateRefs(p, s.destGuid))
    case Done => Some(Finished)
    case _ => None
  }

  /** `s'` comes of `plan` in a state with the trace `t`, when `next` is the phase to go on to. */
  predicate Follow(t: seq<Effect>, plan: Plan, next: Phase, s': State) {
    match Failure(plan)
    case None => s'.phase == next && !Stopped(next) && s'.trace == Noted(After(t, plan), Request(s'))
    case Some(status) => s'.phase == (if status == Ok then Panicked else Failed(status)) && s'.trace == After(t, plan)
  }

  // ---------- Every callback follows its plan ----------

  lemma Checked(t: seq<Effect>, status: Status, rest: Plan)
    ensures Failure(Check(status, rest)) == if status == Ok then Failure(rest) else Some(status)
    ensures After(t, Check(status, rest)) == if status == Ok then After(t, rest) else t
  {
  }

  lemma Acted(t: seq<Effect>, status: Status, e: Effect, rest: Plan)
    ensures Failure(Act(status, e, rest)) == if status == Ok then Failure(rest) else Some(status)
    ensures After(t, Act(status, e, rest)) == if status == Ok then After(t + [e], rest) else t + [e]
  {
  }

  lemma ModifyFollows(s: State, a: Ldap1)
    ensures Follow(s.trace, ModifyPlan(a), AwaitConnect1, OnServerModify(s, a))
  {
    var e, retry := ServerModify(false, a.modifyAdd), ServerModify(true, a.modifyReplace);
    if a.modifyAdd == AttributeOrValueExists {
      Acted(s.trace + [e], a.modifyReplace, retry, Goes);
    } else {
      Acted(s.trace, a.modifyAdd, e, Goes);
    }
  }

  lemma ServerFollows(s: State, a: Ldap1)
    ensures Follow(s.trace, ServerPlan(a), AwaitConnect1, OnServerObject(s, a))
  {
    var s1 := s.(serverDn := a.serverObject1.value);
    var s2 := s1.(serverDn := a.serverObject2.value);
    var create := if s2.serverDn.Some? then ModifyPlan(a) else Act(a.add, ServerAdd(a.add), ModifyPlan(a));
    Checked(s.trace, a.serverObject1.status, if s1.serverDn.Some? then ModifyPlan(a) else Check(a.serverObject2.status, create));
    if a.serverObject1.status != Ok {
    } else if s1.serverDn.Some? {
      ModifyFollows(s1, a);
    } else {
      Checked(s.trace, a.serverObject2.status, create);
      if a.serverObject2.status != Ok {
      } else if s2.serverDn.Some? {
        ModifyFollows(s2, a);
      } else {
        Acted(s.trace, a.add, ServerAdd(a.add), ModifyPlan(a));
        if a.add == Ok {
          ModifyFollows(Log(s2, ServerAdd(a.add)).(serverDn := Some(a.targetDn)), a);
        }
      }
    }
  }

  lemma {:induction false} LookupsFollow(answers: Lookup -> Status, lookups: seq<Lookup>, rest: Plan, t: seq<Effect>)
    ensures var plan, error := LookupPlan(answers, lookups, rest), FirstError(answers, lookups);
      && Failure(plan) == (if error == Ok then Failure(rest) else Some(error))
      && After(t, plan) == if error == Ok then After(t, rest) else t
  {
    if lookups != [] && answers(lookups[0]) == Ok {
      LookupsFollow(answers, lookups[1..], rest, t);
    }
  }

  lemma CldapFollows(s: State, r: Reply)
    requires r.CldapReply? && r.status == Ok
    ensures Follow(s.trace, SessionPlan(s.callbacks, r.ldap1), AwaitConnect1, OnCldap(s, r))
  {
    var a, rest := r.ldap1, Check(r.ldap1.computerUac.status, ServerPlan(r.ldap1));
    var e := CheckOptions(a.checkOptions);
    LookupsFollow(a.lookups, LOOKUPS, if s.callbacks.checkOptions then Act(a.checkOptions, e, rest) else rest, s.trace);
    var s1 := if s.callbacks.checkOptions then Log(s, e) else s;
    Acted(s.trace, a.checkOptions, e, rest);
    Checked(s1.trace, a.computerUac.status, ServerPlan(a));
    if FirstError(a.lookups, LOOKUPS) != Ok {
    } else if s.callbacks.checkOptions && a.checkOptions != Ok {
    } else if a.computerUac.status == Ok {
      ServerFollows(s1.(computerUac := a.computerUac.value), a);
    }
  }

  lemma ConnectFollows(s: State, r: Reply)
    requires r.ConnectReply? && Expects(s, r)
    ensures Follow(s.trace, PlanOf(s, r), Next(s.phase), OnConnect(s, r))
  {
    Checked(s.trace, r.status, Check(r.sessionKey, Goes));
  }

  lemma BindFollows(s: State, r: Reply)
    requires r.BindReply? && Expects(s, r)
    ensures Follow(s.trace, PlanOf(s, r), Next(s.phase), OnBind(s, r))
  {
    var rest := if s.phase == AwaitBind1 then Goes else Check(r.binding, Goes);
    Checked(s.trace, r.rpc, Check(r.result, rest));
    Checked(s.trace, r.result, rest);
  }

  lemma AddEntryFollows(s: State, r: Reply)
    requires r.AddEntryReply? && r.rpc == Ok && r.result == Ok
    ensures Follow(s.trace, AddEntryPlan(s.callbacks, r), AwaitConnect2, OnAddEntry(s, r))
  {
    var s1, e := s.(destGuid := r.guid), PrepareDb(r.prepareDb);
    var rest := Check(r.binding, Goes);
    if AddEntryError(r).Some? {
    } else if s.callbacks.prepareDb {
      Acted(s.trace, r.prepareDb, e, rest);
      Checked(s.trace + [e], r.binding, Goes);
    } else {
      Checked(s.trace, r.binding, Goes);
    }
  }

  lemma RefsFollow(s: State, r: Reply)
    requires r.RefsReply? && Expects(s, r)
    ensures Follow(s.trace, PlanOf(s, r), Next(s.phase), OnRefs(s, r))
  {
    Checked(s.trace, r.rpc, Check(r.result, Goes));
  }

  lemma MoveFollows(s: State, a: Ldap2)
    ensures var move := Check(a.container, if a.inPlace then Goes else Act(a.rename, ComputerMove(a.rename), Goes));
      Follow(s.trace, move, AwaitPull(Domain), OnMove(s, a))
  {
    var rename := if a.inPlace then Goes else Act(a.rename, ComputerMove(a.rename), Goes);
    Checked(s.trace, a.container, rename);
    Acted(s.trace, a.rename, ComputerMove(a.rename), Goes);
  }

  lemma Ldap2Follows(s: State, a: Ldap2)
    ensures Follow(s.trace, Ldap2Plan(s.computerUac, a), AwaitPull(Domain), OnLdap2(s, a))
  {
    var s1 := if s.computerUac == UF_DC then s else Log(s, ComputerModify(a.computer));
    var move := Check(a.container, if a.inPlace then Goes else Act(a.rename, ComputerMove(a.rename), Goes));
    Checked(s.trace, a.connect, if s.computerUac == UF_DC then move else Act(a.computer, ComputerModify(a.computer), move));
    Acted(s.trace, a.computer, ComputerModify(a.computer), move);
    if a.connect != Ok {
    } else if s.computerUac != UF_DC && a.computer != Ok {
    } else {
      MoveFollows(s1.(computerUac := UF_DC), a);
    }
  }

  lemma AfterAcceptFollows(s: State, p: Part, r: Reply)
    requires r.PullReply?
    ensures Follow(s.trace, if p == Config && !Behind(r) then Ldap2Plan(s.computerUac, r.ldap2) else Goes,
                   if Behind(r) then AwaitPull(p) else Next(AwaitPull(p)), AfterAccept(s, p, r))
  {
    if !Behind(r) && p == Config {
      Ldap2Follows(s, r.ldap2);
    }
  }

  lemma PullFollows(s: State, r: Reply)
    requires r.PullReply? && s.phase.AwaitPull? && r.rpc == Ok && r.result == Ok
    ensures Follow(s.trace, PullPlan(s, s.phase.part, r), if Behind(r) then s.phase else Next(s.phase), OnPull(s, r))
  {
    var p := s.phase.part;
    var s1 := Accept(s, p, r);
    var e, chunk := Received(p, r.answer, r.objects), Chunk(p, r.answer, r.objects, r.store);
    var rest := if p == Config && !Behind(r) then Ldap2Plan(s.computerUac, r.ldap2) else Goes;
    if !KnownLevel(r) {
    } else {
      var store := if StoresChunks(s.callbacks, p) then Act(r.store, chunk, rest) else rest;
      Acted(s.trace, Ok, e, store);
      Acted(s.trace + [e], r.store, chunk, rest);
    }
    if !KnownLevel(r) {
    } else if StoresChunks(s.callbacks, p) && r.store != Ok {
    } else {
      AfterAcceptFollows(s1, p, r);
    }
  }

  /** Every callback, on every reply: the sub-steps are taken in order. If all succeed, the next
      request is sent; the first that fails ends the promotion, and nothing is done after it. */
  lemma StepFollows(s: State, r: Reply)
    requires Expects(s, r)
    ensures Follow(s.trace, PlanOf(s, r), if r.PullReply? && Behind(r) then s.phase else Next(s.phase), Step(s, r))
  {
    match r {
      case CldapReply(status, a) =>
        Checked(s.trace, status, SessionPlan(s.callbacks, a));
        if status == Ok {
          CldapFollows(s, r);
        }
      case ConnectReply(_, _) => ConnectFollows(s, r);
      case BindReply(_, _, _, _) => BindFollows(s, r);
      case AddEntryReply(rpc, result, _, _, _, _, _, _, _) =>
        Checked(s.trace, rpc, Check(result, AddEntryPlan(s.callbacks, r)));
        Checked(s.trace, result, AddEntryPlan(s.callbacks, r));
        if rpc == Ok && result == Ok {
          AddEntryFollows(s, r);
        }
      case PullReply(rpc, result, _, _, _, _, _, _, _) =>
        Checked(s.trace, rpc, Check(result, PullPlan(s, s.phase.part, r)));
        Checked(s.trace, result, PullPlan(s, s.phase.part, r));
        if rpc == Ok && result == Ok {
          PullFollows(s, r);
        }
      case RefsReply(_, _) => RefsFollow(s, r);
    }
  }

  // ---------- What a reply must say ----------

  predicate GoodLdap1(cb: Callbacks, a: Ldap1) {
    && (forall l :: a.lookups(l) == Ok)
    && (cb.checkOptions ==> a.checkOptions == Ok)
    && a.computerUac.status == Ok && a.serverObject1.status == Ok
    && (a.serverObject1.value == None ==> a.serverObject2.status == Ok)
    && (a.serverObject1.value == None && a.serverObject2.value == None ==> a.add == Ok)
    && (a.modifyAdd == Ok || (a.modifyAdd == AttributeOrValueExists && a.modifyReplace == Ok))
  }

  predicate GoodLdap2(uac: nat, a: Ldap2) {
    && a.connect == Ok && (uac != UF_DC ==> a.computer == Ok)
    && a.container == Ok && (!a.inPlace ==> a.rename == Ok)
  }

  /** Everything that the reply, and what the callback does on it, report is a success. */
  predicate Good(s: State, r: Reply) {
    match r
    case CldapReply(status, a) => status == Ok && GoodLdap1(s.callbacks, a)
    case ConnectReply(status, sessionKey) => status == Ok && sessionKey == Ok
    case BindReply(rpc, result, _, binding) => rpc == Ok && result == Ok && (s.phase == AwaitBind2 ==> binding == Ok)
    case AddEntryReply(rpc, result, level, count, _, _, _, prepareDb, binding) =>
      && rpc == Ok && result == Ok && (level == 2 || level == 3) && count == 1
      && (s.callbacks.prepareDb ==> prepareDb == Ok) && binding == Ok
    case PullReply(rpc, result, level, ctr7Level, mszip, _, _, store, ldap2) =>
      && rpc == Ok && result == Ok
      && (level == 1 || level == 2 || level == 6 || (level == 7 && ctr7Level == 6 && mszip))
      && (s.phase.AwaitPull? && StoresChunks(s.callbacks, s.phase.part) ==> store == Ok)
      && (s.phase == AwaitPull(Config) && !Behind(r) ==> GoodLdap2(s.computerUac, ldap2))
    case RefsReply(rpc, result) => rpc == Ok && result == Ok
  }

  lemma {:induction false} LookupsGood(answers: Lookup -> Status, lookups: seq<Lookup>)
    ensures FirstError(answers, lookups) == Ok <==> forall l :: l in lookups ==> answers(l) == Ok
  {
    if lookups != [] {
      LookupsGood(answers, lookups[1..]);
    }
  }

  lemma AllLookups(l: Lookup)
    ensures l in LOOKUPS
  {
    match l {
      case Connect => assert LOOKUPS[0] == l;
      case Rootdse => assert LOOKUPS[1] == l;
      case CrossrefVersion => assert LOOKUPS[2] == l;
      case DomainVersion => assert LOOKUPS[3] == l;
      case SchemaVersion => assert LOOKUPS[4] == l;
      case W2k3Revision => assert LOOKUPS[5] == l;
      case InfrastructureFsmo => assert LOOKUPS[6] == l;
      case RidManagerFsmo => assert LOOKUPS[7] == l;
      case SiteObject => assert LOOKUPS[8] == l;
    }
  }

  lemma Ldap1Good(cb: Callbacks, a: Ldap1)
    ensures Failure(SessionPlan(cb, a)) == None <==> GoodLdap1(cb, a)
  {
    var rest := Check(a.computerUac.status, ServerPlan(a));
    ServerGood(a);
    Checked([], a.computerUac.status, ServerPlan(a));
    Acted([], a.checkOptions, CheckOptions(a.checkOptions), rest);
    LookupsFollow(a.lookups, LOOKUPS,
                  if cb.checkOptions then Act(a.checkOptions, CheckOptions(a.checkOptions), rest) else rest, []);
    LookupsGood(a.lookups, LOOKUPS);
    forall l ensures l in LOOKUPS {
      AllLookups(l);
    }
  }

  lemma ServerGood(a: Ldap1)
    ensures Failure(ServerPlan(a)) == None <==>
      && a.serverObject1.status == Ok
      && (a.serverObject1.value == None ==> a.serverObject2.status == Ok)
      && (a.serverObject1.value == None && a.serverObject2.value == None ==> a.add == Ok)
      && (a.modifyAdd == Ok || (a.modifyAdd == AttributeOrValueExists && a.modifyReplace == Ok))
  {
    Acted([], a.modifyReplace, ServerModify(true, a.modifyReplace), Goes);
    Acted([], a.add, ServerAdd(a.add), ModifyPlan(a));
    var create := if a.serverObject2.value.Some? then ModifyPlan(a) else Act(a.add, ServerAdd(a.add), ModifyPlan(a));
    Checked([], a.serverObject2.status, create);
  }

  lemma Ldap2Good(uac: nat, a: Ldap2)
    ensures Failure(Ldap2Plan(uac, a)) == None <==> GoodLdap2(uac, a)
  {
    var rename := Act(a.rename, ComputerMove(a.rename), Goes);
    var move := Check(a.container, if a.inPlace then Goes else rename);
    Checked([], a.container, if a.inPlace then Goes else rename);
    Acted([], a.computer, ComputerModify(a.computer), move);
  }

  lemma AddEntryGood(cb: Callbacks, r: Reply)
    requires r.AddEntryReply?
    ensures Failure(AddEntryPlan(cb, r)) == None <==>
      (r.level == 2 || r.level == 3) && r.count == 1 && (cb.prepareDb ==> r.prepareDb == Ok) && r.binding == Ok
  {
    Checked([], r.binding, Goes);
    Acted([], r.prepareDb, PrepareDb(r.prepareDb), Check(r.binding, Goes));
  }

  lemma PullGood(s: State, p: Part, r: Reply)
    requires r.PullReply?
    ensures Failure(PullPlan(s, p, r)) == None <==>
      && KnownLevel(r) && (StoresChunks(s.callbacks, p) ==> r.store == Ok)
      && (p == Config && !Behind(r) ==> GoodLdap2(s.computerUac, r.ldap2))
  {
    var e, chunk := Received(p, r.answer, r.objects), Chunk(p, r.answer, r.objects, r.store);
    var rest := if p == Config && !Behind(r) then Ldap2Plan(s.computerUac, r.ldap2) else Goes;
    Ldap2Good(s.computerUac, r.ldap2);
    Acted([], r.store, chunk, rest);
    Acted([], Ok, e, if StoresChunks(s.callbacks, p) then Act(r.store, chunk, rest) else rest);
  }

  /** A plan goes through exactly on a good reply. */
  lemma PlanGood(s: State, r: Reply)
    requires Expects(s, r)
    ensures Failure(PlanOf(s, r)) == None <==> Good(s, r)
  {
    match r {
      case CldapReply(_, a) => Ldap1Good(s.callbacks, a);
      case ConnectReply(status, sessionKey) => Checked([], status, Check(sessionKey, Goes));
      case BindReply(rpc, result, _, binding) =>
        var rest := if s.phase == AwaitBind1 then Goes else Check(binding, Goes);
        Checked([], rpc, Check(result, rest));
        Checked([], result, rest);
      case AddEntryReply(rpc, result, _, _, _, _, _, _, _) =>
        Checked([], rpc, Check(result, AddEntryPlan(s.callbacks, r)));
        AddEntryGood(s.callbacks, r);
      case PullReply(rpc, result, _, _, _, _, _, _, _) =>
        Checked([], rpc, Check(result, PullPlan(s, s.phase.part, r)));
        PullGood(s, s.phase.part, r);
      case RefsReply(rpc, result) => Checked([], rpc, Check(result, Goes));
    }
  }

  /** A reply ends the promotion exactly when something in it is not a success. */
  lemma StepGood(s: State, r: Reply)
    requires Expects(s, r)
    ensures Stopped(Step(s, r).phase) <==> !Good(s, r)
  {
    StepFollows(s, r);
    PlanGood(s, r);
  }

  /** A pull reply without an error is turned away, before anything of it is received, exactly if its
      level is none of 1, 2, 6 and compressed 6 in 7. */
  lemma BadLevelIff(s: State, r: Reply)
    requires s.phase.AwaitPull? && r.PullReply? && r.rpc == Ok && r.result == Ok
    ensures Step(s, r).phase == Failed(BadNetResp) && Step(s, r).trace == s.trace <==>
      r.level != 1 && r.level != 2 && r.level != 6 && !(r.level == 7 && r.ctr7Level == 6 && r.mszip)
  {
    if KnownLevel(r) {
      AcceptNotes(s, s.phase.part, r);
    }
  }

  lemma AcceptNotes(s: State, p: Part, r: Reply)
    requires r.PullReply?
    ensures |Accept(s, p, r).trace| > |s.trace|
  {
  }

  /** The error of a DsAddEntry reply of level 3 that did not create one object: of the detailed
      information if its level is one of 1, 4, 5, 6 and 7, else of the error itself. */
  lemma Level3Error(s: State, r: Reply)
    requires s.phase == AwaitAddEntry && r.AddEntryReply? && r.rpc == Ok && r.result == Ok && r.level == 3 && r.count != 1
    ensures var phase, e := Step(s, r).phase, r.ctr3;
      && (e.level != 1 || !e.hasError ==> phase == Failed(InvalidNetworkResponse))
      && (e.level == 1 && e.hasError && e.hasInfo && (e.infoLevel == 1 || 4 <= e.infoLevel <= 7) && e.detail != Ok ==>
            phase == Failed(e.detail))
      && (e.level == 1 && e.hasError && (!e.hasInfo || !(e.infoLevel == 1 || 4 <= e.infoLevel <= 7)) && e.status != Ok ==>
            phase == Failed(e.status))
  {
  }

  lemma OtherLevelsError(s: State, r: Reply)
    requires s.phase == AwaitAddEntry && r.AddEntryReply? && r.rpc == Ok && r.result == Ok
    ensures r.level != 2 && r.level != 3 ==> Step(s, r).phase == Failed(InvalidNetworkResponse)
    ensures r.level == 2 && r.count != 1 && r.ctr2Status != Ok ==> Step(s, r).phase == Failed(r.ctr2Status)
  {
  }

  // ---------- Every run ----------

  /** Every reply is good where it comes in. */
  predicate AllGood(s: State, rs: seq<Reply>)
    requires Answers(s, rs)
    decreases |rs|
  {
    rs == [] || (Good(s, rs[0]) && AllGood(Step(s, rs[0]), rs[1..]))
  }

  lemma {:induction false} AnswersPrefix(s: State, rs: seq<Reply>, i: nat)
    requires Answers(s, rs) && i <= |rs|
    ensures Answers(s, rs[..i])
    decreases i
  {
    if i > 0 {
      AnswersPrefix(Step(s, rs[0]), rs[1..], i - 1);
      assert rs[..i][1..] == rs[1..][..i - 1];
    }
  }

  /** A run has failed exactly if some reply was not good. */
  lemma {:induction false} RunGood(s: State, rs: seq<Reply>)
    requires Answers(s, rs) && !Stopped(s.phase)
    ensures Stopped(Run(s, rs).phase) <==> !AllGood(s, rs)
    decreases |rs|
  {
    if rs != [] {
      StepGood(s, rs[0]);
      if Stopped(Step(s, rs[0]).phase) {
        assert rs[1..] == [];
      } else {
        RunGood(Step(s, rs[0]), rs[1..]);
      }
    }
  }

  /** A good reply at each position of a run. */
  lemma {:induction false} GoodAt(s: State, rs: seq<Reply>, i: nat)
    requires Answers(s, rs) && AllGood(s, rs) && i < |rs|
    ensures Answers(s, rs[..i]) && Good(Run(s, rs[..i]), rs[i])
    decreases i
  {
    if i > 0 {
      GoodAt(Step(s, rs[0]), rs[1..], i - 1);
      assert rs[..i][1..] == rs[1..][..i - 1];
    }
  }

  /** Every reply of a run but the last was good where it came in. */
  lemma GoodBefore(s: State, rs: seq<Reply>, i: nat)
    requires Answers(s, rs) && !Stopped(s.phase) && i < |rs| - 1
    ensures Answers(s, rs[..i]) && Good(Run(s, rs[..i]), rs[i])
  {
    var k := |rs| - 1;
    RunLast(s, rs);
    RunGood(s, rs[..k]);
    GoodAt(s, rs[..k], i);
    assert rs[..k][..i] == rs[..i];
  }

  /** A run has failed exactly if its last reply was not good. */
  lemma GoodLast(s: State, rs: seq<Reply>)
    requires Answers(s, rs) && rs != []
    ensures var k := |rs| - 1;
      Answers(s, rs[..k]) && (Stopped(Run(s, rs).phase) <==> !Good(Run(s, rs[..k]), rs[k]))
  {
    var k := |rs| - 1;
    RunLast(s, rs);
    StepGood(Run(s, rs[..k]), rs[k]);
  }

  /** In every promotion that has not failed, every reply so far was good where it came in; and in
      one that has failed, every reply but the last, which was not. In particular composite_done
      is reached only if every reply was good. */
  lemma PromotionGood(callbacks: Callbacks, rs: seq<Reply>)
    requires Answers(Start(callbacks), rs)
    ensures var s := Start(callbacks);
      && (forall i :: 0 <= i < |rs| - 1 ==> Answers(s, rs[..i]) && Good(Run(s, rs[..i]), rs[i]))
      && (rs != [] ==>
            var k := |rs| - 1;
            Answers(s, rs[..k]) && (Stopped(Run(s, rs).phase) <==> !Good(Run(s, rs[..k]), rs[k])))
      && (Run(s, rs).phase == Done ==> rs != [])
  {
    var s := Start(callbacks);
    forall i | 0 <= i < |rs| - 1 ensures Answers(s, rs[..i]) && Good(Run(s, rs[..i]), rs[i]) {
      GoodBefore(s, rs, i);
    }
    if rs != [] {
      GoodLast(s, rs);
    }
  }

  lemma {:induction false} RunLast(s: State, rs: seq<Reply>)
    requires Answers(s, rs) && rs != []
    ensures var k := |rs| - 1;
      && Answers(s, rs[..k]) && Expects(Run(s, rs[..k]), rs[k])
      && Run(s, rs) == Step(Run(s, rs[..k]), rs[k])
    decreases |rs|
  {
    var k := |rs| - 1;
    AnswersPrefix(s, rs, k);
    if k > 0 {
      RunLast(Step(s, rs[0]), rs[1..]);
      assert rs[..k][1..] == rs[1..][..k - 1];
    }
  }

  /** The last reply of a failed promotion: what is noted of it are the effects of its sub-steps up
      to the one that failed. */
  lemma FailedLast(callbacks: Callbacks, rs: seq<Reply>)
    requires Answers(Start(callbacks), rs) && Stopped(Run(Start(callbacks), rs).phase)
    ensures rs != [] && Answers(Start(callbacks), rs[..|rs| - 1])
    ensures var s, r := Run(Start(callbacks), rs[..|rs| - 1]), rs[|rs| - 1];
      && Expects(s, r) && Failure(PlanOf(s, r)).Some?
      && Run(Start(callbacks), rs).trace == After(s.trace, PlanOf(s, r))
  {
    RunLast(Start(callbacks), rs);
    StepFollows(Run(Start(callbacks), rs[..|rs| - 1]), rs[|rs| - 1]);
  }
}
