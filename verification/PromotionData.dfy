/**
 Where the data in the requests of a promotion comes from.
 */
module PromotionData {
  import opened Common
  import opened BecomeDc
  import opened Replication

  /** The DN of the server object after the first LDAP session. */
  function ServerDnOf(a: Ldap1): string {
    if a.serverObject1.value.Some? then a.serverObject1.value.value
    else if a.serverObject2.value.Some? then a.serverObject2.value.value
    else a.targetDn
  }

  /** A request that carries nothing but what the state holds. */
  predicate Fits(e: Effect, s: State) {
    && !e.AddEntry? && (e.Pull? ==> e.v8 == s.v8) && (e.UpdateRefs? ==> e.destGuid == s.destGuid)
  }

  predicate Neutral(e: Effect) {
    !e.AddEntry? && !e.Pull? && !e.UpdateRefs? && !e.ComputerModify?
  }

  /** The account of the computer was made that of a domain controller, from effect `n` on. */
  predicate Modified(t: seq<Effect>, n: nat) {
    exists i :: n <= i < |t| && t[i] == ComputerModify(Ok)
  }

  /** The client knows the account control as it is in the directory. */
  predicate UacFollows(s: State, s': State) {
    s'.computerUac == if Modified(s'.trace, |s.trace|) then UF_DC else s.computerUac
  }

  predicate SameData(s: State, s': State) {
    s'.v8 == s.v8 && s'.destGuid == s.destGuid && s'.serverDn == s.serverDn
  }

  /** Between two states the data stays, and the new effects fit it. */
  predicate Smooth(s: State, s': State) {
    SameData(s, s') && s.trace <= s'.trace && UacFollows(s, s')
    && forall i :: |s.trace| <= i < |s'.trace| ==> Fits(s'.trace[i], s)
  }

  predicate NewsNeutral(s: State, s': State) {
    s.trace <= s'.trace && forall i :: |s.trace| <= i < |s'.trace| ==> Neutral(s'.trace[i])
  }

  lemma ModifiedThen(a: seq<Effect>, b: seq<Effect>, c: seq<Effect>)
    requires a <= b <= c
    ensures Modified(c, |a|) <==> Modified(b, |a|) || Modified(c, |b|)
  {
    if Modified(b, |a|) {
      var i :| |a| <= i < |b| && b[i] == ComputerModify(Ok);
      assert c[i] == ComputerModify(Ok);
    }
    if Modified(c, |a|) && !Modified(c, |b|) {
      var i :| |a| <= i < |c| && c[i] == ComputerModify(Ok);
      assert b[i] == ComputerModify(Ok);
    }
  }

  lemma SmoothThen(a: State, b: State, c: State)
    requires Smooth(a, b) && Smooth(b, c)
    ensures Smooth(a, c)
  {
    forall i | |a.trace| <= i < |c.trace| ensures Fits(c.trace[i], a) {
      if i < |b.trace| {
        assert c.trace[i] == b.trace[i];
      }
    }
    ModifiedThen(a.trace, b.trace, c.trace);
  }

  lemma NeutralThen(a: State, b: State, c: State)
    requires NewsNeutral(a, b) && NewsNeutral(b, c)
    ensures NewsNeutral(a, c)
  {
    forall i | |a.trace| <= i < |c.trace| ensures Neutral(c.trace[i]) {
      if i < |b.trace| {
        assert c.trace[i] == b.trace[i];
      }
    }
  }

  // ---------- The first LDAP session ----------

  lemma ServerModifyData(s: State, a: Ldap1)
    ensures NewsNeutral(s, OnServerModify(s, a)) && SameData(s, OnServerModify(s, a))
    ensures OnServerModify(s, a).computerUac == s.computerUac
  {
  }

  lemma ServerObjectData(s: State, a: Ldap1)
    ensures NewsNeutral(s, OnServerObject(s, a))
    ensures Stopped(OnServerObject(s, a).phase) || OnServerObject(s, a).serverDn == Some(ServerDnOf(a))
    ensures OnServerObject(s, a).computerUac == s.computerUac
  {
    var s1 := s.(serverDn := a.serverObject1.value);
    var s2 := s1.(serverDn := a.serverObject2.value);
    var s3 := Log(s2, ServerAdd(a.add));
    if a.serverObject1.status != Ok {
    } else if s1.serverDn.Some? {
      ServerModifyData(s1, a);
    } else if a.serverObject2.status != Ok {
    } else if s2.serverDn.Some? {
      ServerModifyData(s2, a);
    } else if a.add == Ok {
      ServerModifyData(s3.(serverDn := Some(a.targetDn)), a);
      NeutralThen(s, s3, OnServerModify(s3.(serverDn := Some(a.targetDn)), a));
    }
  }

  lemma CldapData(s: State, r: Reply)
    requires r.CldapReply?
    ensures NewsNeutral(s, OnCldap(s, r))
    ensures var s' := OnCldap(s, r);
      Stopped(s'.phase) || (s'.serverDn == Some(ServerDnOf(r.ldap1)) && s'.computerUac == r.ldap1.computerUac.value)
  {
    var s1 := if s.callbacks.checkOptions then Log(s, CheckOptions(r.ldap1.checkOptions)) else s;
    if r.status != Ok {
    } else if FirstError(r.ldap1.lookups, LOOKUPS) != Ok {
    } else if s.callbacks.checkOptions && r.ldap1.checkOptions != Ok {
    } else if r.ldap1.computerUac.status == Ok {
      var s2 := s1.(computerUac := r.ldap1.computerUac.value);
      ServerObjectData(s2, r.ldap1);
      NeutralThen(s, s2, OnServerObject(s2, r.ldap1));
    }
  }

  // ---------- The other callbacks ----------

  lemma ConnectSmooth(s: State, r: Reply)
    requires r.ConnectReply?
    ensures Smooth(s, OnConnect(s, r))
    ensures s.phase == AwaitConnect1 || s.phase == AwaitConnect2 ==> OnConnect(s, r).trace == s.trace
  {
  }

  lemma BindData(s: State, r: Reply)
    requires r.BindReply?
    ensures s.phase != AwaitBind1 ==> OnBind(s, r).trace == s.trace
    ensures s.phase != AwaitBind1 ==> Stopped(OnBind(s, r).phase) || OnBind(s, r).v8 == r.v8
    ensures s.phase == AwaitBind1 ==> SameData(s, OnBind(s, r))
    ensures s.phase == AwaitBind1 ==> OnBind(s, r).trace in {s.trace, s.trace + [AddEntry(NtdsDn(s))]}
    ensures OnBind(s, r).destGuid == s.destGuid && OnBind(s, r).serverDn == s.serverDn
    ensures OnBind(s, r).computerUac == s.computerUac
  {
  }

  lemma AddEntryData(s: State, r: Reply)
    requires r.AddEntryReply?
    ensures NewsNeutral(s, OnAddEntry(s, r))
    ensures Stopped(OnAddEntry(s, r).phase) || OnAddEntry(s, r).destGuid == r.guid
    ensures OnAddEntry(s, r).v8 == s.v8 && OnAddEntry(s, r).serverDn == s.serverDn
    ensures OnAddEntry(s, r).computerUac == s.computerUac
  {
  }

  lemma MoveSmooth(s: State, a: Ldap2)
    ensures Smooth(s, OnMove(s, a))
  {
    var s1 := Log(s, ComputerMove(a.rename));
    if a.container != Ok {
    } else if !a.inPlace && a.rename == Ok {
      SmoothThen(s, s1, SendPull(s1, Domain));
    }
  }

  lemma Ldap2Smooth(s: State, a: Ldap2)
    ensures Smooth(s, OnLdap2(s, a))
    ensures Stopped(OnLdap2(s, a).phase) || OnLdap2(s, a).computerUac == UF_DC
  {
    var s1 := if s.computerUac == UF_DC then s else Log(s, ComputerModify(a.computer));
    if a.connect != Ok {
    } else if s.computerUac != UF_DC && a.computer != Ok {
    } else {
      if s.computerUac != UF_DC {
        assert s1.trace[|s.trace|] == ComputerModify(Ok);
      }
      MoveSmooth(s1.(computerUac := UF_DC), a);
      SmoothThen(s, s1.(computerUac := UF_DC), OnMove(s1.(computerUac := UF_DC), a));
    }
  }

  lemma AfterAcceptSmooth(s: State, p: Part, r: Reply)
    requires r.PullReply?
    ensures Smooth(s, AfterAccept(s, p, r))
    ensures p == Config && !Behind(r) ==> Stopped(AfterAccept(s, p, r).phase) || AfterAccept(s, p, r).computerUac == UF_DC
  {
    if Behind(r) {
    } else if p == Config {
      Ldap2Smooth(s, r.ldap2);
    }
  }

  lemma AcceptSmooth(s: State, p: Part, r: Reply)
    requires r.PullReply?
    ensures Smooth(s, Accept(s, p, r))
  {
  }

  /** From the domain pull on, the account of the computer is that of a domain controller. */
  predicate Converted(s: State) {
    s.phase == AwaitPull(Domain) || s.phase.AwaitRefs? || s.phase == Done ==> s.computerUac == UF_DC
  }

  lemma PullSmooth(s: State, r: Reply)
    requires r.PullReply? && s.phase.AwaitPull? && Converted(s)
    ensures Smooth(s, OnPull(s, r)) && Converted(OnPull(s, r))
  {
    if !Accepted(r) {
      Unaccepted(s, r);
    } else {
      var p := s.phase.part;
      var s1 := Accept(s, p, r);
      AcceptSmooth(s, p, r);
      if !(StoresChunks(s.callbacks, p) && r.store != Ok) {
        AfterAcceptSmooth(s1, p, r);
        SmoothThen(s, s1, AfterAccept(s1, p, r));
        AfterAcceptGoes(s1, p, r);
      }
    }
  }

  lemma RefsSmooth(s: State, r: Reply)
    requires r.RefsReply? && s.phase.AwaitRefs?
    ensures Smooth(s, OnRefs(s, r))
  {
  }

  // ---------- Every run ----------

  /** An effect whose data comes from the replies `past`: the DN from the first LDAP session, the
      GUID from the fourth reply, the extension flag from the sixth. */
  predicate Sourced(e: Effect, past: seq<Reply>) {
    && (e.AddEntry? ==>
          |past| >= 3 && past[0].CldapReply? && e.ntdsDn == "CN=NTDS Settings," + ServerDnOf(past[0].ldap1))
    && (e.Pull? ==> |past| >= 7 && past[5].BindReply? && e.v8 == past[5].v8)
    && (e.UpdateRefs? ==> |past| >= 7 && past[3].AddEntryReply? && e.destGuid == past[3].guid)
  }

  predicate AllSourced(t: seq<Effect>, past: seq<Reply>) {
    forall i :: 0 <= i < |t| ==> Sourced(t[i], past)
  }

  /** The first seven replies come in a fixed order. */
  predicate InStep(s: State, past: seq<Reply>) {
    !Stopped(s.phase) ==> if |past| <= 7 then Distance(s.phase) == 13 - |past| else Distance(s.phase) <= 6
  }

  /** The data of the state, as far as the promotion has got. */
  predicate Held(s: State, past: seq<Reply>) {
    !Stopped(s.phase) ==>
      && (if |past| == 0 then !Modified(s.trace, 0) else
            && past[0].CldapReply? && s.serverDn == Some(ServerDnOf(past[0].ldap1))
            && s.computerUac == if Modified(s.trace, 0) then UF_DC else past[0].ldap1.computerUac.value)
      && (|past| >= 4 ==> past[3].AddEntryReply? && s.destGuid == past[3].guid)
      && (|past| >= 6 ==> past[5].BindReply? && s.v8 == past[5].v8)
  }

  predicate Known(s: State, past: seq<Reply>) {
    InStep(s, past) && Held(s, past) && Converted(s) && AllSourced(s.trace, past)
  }

  lemma SourcedOn(e: Effect, past: seq<Reply>, r: Reply)
    requires Sourced(e, past)
    ensures Sourced(e, past + [r])
  {
  }

  /** New effects that are sourced, after old ones that are. */
  lemma AllSourcedOn(t: seq<Effect>, t': seq<Effect>, past: seq<Reply>, r: Reply)
    requires AllSourced(t, past) && t <= t'
    requires forall i :: |t| <= i < |t'| ==> Sourced(t'[i], past + [r])
    ensures AllSourced(t', past + [r])
  {
    forall i | 0 <= i < |t'| ensures Sourced(t'[i], past + [r]) {
      if i < |t| {
        assert t'[i] == t[i];
        SourcedOn(t[i], past, r);
      }
    }
  }

  lemma InStepOn(s: State, past: seq<Reply>, r: Reply)
    requires InStep(s, past) && Expects(s, r)
    ensures InStep(Step(s, r), past + [r])
  {
    if s.phase.AwaitPull? {
      if Accepted(r) {
        PullStep(s, r, s.phase.part);
      } else {
        Unaccepted(s, r);
      }
    } else {
      StepGoes(s, r);
    }
  }

  lemma EarlyConverted(s: State)
    requires Stopped(s.phase) || Distance(s.phase) >= 6
    ensures Converted(s)
  {
  }

  lemma KnownByNews(s: State, past: seq<Reply>, r: Reply)
    requires Known(s, past) && Expects(s, r) && NewsNeutral(s, Step(s, r)) && Held(Step(s, r), past + [r])
    requires |past| < 7
    ensures Known(Step(s, r), past + [r])
  {
    InStepOn(s, past, r);
    EarlyConverted(Step(s, r));
    AllSourcedOn(s.trace, Step(s, r).trace, past, r);
  }

  /** The steps from the seventh on. */
  lemma KnownBySmooth(s: State, past: seq<Reply>, r: Reply)
    requires Known(s, past) && Expects(s, r) && |past| >= 6 && Smooth(s, Step(s, r)) && Converted(Step(s, r))
    ensures Known(Step(s, r), past + [r])
  {
    InStepOn(s, past, r);
    var s' := Step(s, r);
    ModifiedThen([], s.trace, s'.trace);
    forall i | |s.trace| <= i < |s'.trace| ensures Sourced(s'.trace[i], past + [r]) {
      assert Fits(s'.trace[i], s);
    }
    AllSourcedOn(s.trace, s'.trace, past, r);
  }

  lemma KnownByBind1(s: State, past: seq<Reply>, r: Reply)
    requires Known(s, past) && Expects(s, r) && s.phase == AwaitBind1
    ensures Known(Step(s, r), past + [r])
  {
    BindData(s, r);
    InStepOn(s, past, r);
    AllSourcedOn(s.trace, Step(s, r).trace, past, r);
  }

  lemma KnownByCldap(s: State, past: seq<Reply>, r: Reply)
    requires Known(s, past) && Expects(s, r) && s.phase == AwaitCldap
    ensures Known(Step(s, r), past + [r])
  {
    CldapData(s, r);
    KnownByNews(s, past, r);
  }

  lemma KnownByBind2(s: State, past: seq<Reply>, r: Reply)
    requires Known(s, past) && Expects(s, r) && s.phase == AwaitBind2
    ensures Known(Step(s, r), past + [r])
  {
    BindData(s, r);
    KnownByNews(s, past, r);
  }

  lemma KnownByAddEntry(s: State, past: seq<Reply>, r: Reply)
    requires Known(s, past) && Expects(s, r) && s.phase == AwaitAddEntry
    ensures Known(Step(s, r), past + [r])
  {
    AddEntryData(s, r);
    KnownByNews(s, past, r);
  }

  lemma StepKnown(s: State, past: seq<Reply>, r: Reply)
    requires Known(s, past) && Expects(s, r)
    ensures Known(Step(s, r), past + [r])
  {
    match s.phase {
      case AwaitCldap =>
        KnownByCldap(s, past, r);
      case AwaitConnect1 | AwaitConnect2 =>
        ConnectSmooth(s, r);
        KnownByNews(s, past, r);
      case AwaitConnect3 =>
        ConnectSmooth(s, r);
        KnownBySmooth(s, past, r);
      case AwaitBind1 =>
        KnownByBind1(s, past, r);
      case AwaitBind2 =>
        KnownByBind2(s, past, r);
      case AwaitAddEntry =>
        KnownByAddEntry(s, past, r);
      case AwaitPull(_) =>
        PullSmooth(s, r);
        KnownBySmooth(s, past, r);
      case AwaitRefs(_) =>
        RefsSmooth(s, r);
        KnownBySmooth(s, past, r);
    }
  }

  lemma {:induction false} RunKnown(s: State, past: seq<Reply>, rs: seq<Reply>)
    requires Known(s, past) && Answers(s, rs)
    ensures Known(Run(s, rs), past + rs)
    decreases |rs|
  {
    if rs == [] {
      assert past + rs == past;
    } else {
      StepKnown(s, past, rs[0]);
      RunKnown(Step(s, rs[0]), past + [rs[0]], rs[1..]);
      assert past + [rs[0]] + rs[1..] == past + rs;
    }
  }

  /** A promotion that is done has made the computer's account that of a domain controller,
      unless it was one already. */
  lemma RunConverts(callbacks: Callbacks, rs: seq<Reply>)
    requires Answers(Start(callbacks), rs) && Run(Start(callbacks), rs).phase == Done
    ensures rs != [] && rs[0].CldapReply?
    ensures ComputerModify(Ok) in Run(Start(callbacks), rs).trace || rs[0].ldap1.computerUac.value == 0x2000 + 0x80000
  {
    RunKnown(Start(callbacks), [], rs);
    assert [] + rs == rs;
    DoneConverted(Run(Start(callbacks), rs), rs);
  }

  lemma DoneConverted(s: State, past: seq<Reply>)
    requires Known(s, past) && s.phase == Done
    ensures past != [] && past[0].CldapReply?
    ensures ComputerModify(Ok) in s.trace || past[0].ldap1.computerUac.value == UF_DC
  {
  }

  /** In every run: the entry is added below the server object of the first LDAP session; every
      pull uses the request level that the second bind negotiated; and every reference update
      names the object that the added entry became. */
  lemma RunSourced(callbacks: Callbacks, rs: seq<Reply>)
    requires Answers(Start(callbacks), rs)
    ensures AllSourced(Run(Start(callbacks), rs).trace, rs)
  {
    RunKnown(Start(callbacks), [], rs);
    assert [] + rs == rs;
  }
}
