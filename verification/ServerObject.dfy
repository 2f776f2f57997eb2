/**
 The server object of the computer that becomes a domain controller: found under its own name,
 found through the back link of the computer, or created; and made to refer to the computer.
 The directory maps a DN to its single-valued serverReference; serverReferenceBL is the inverse
 of that attribute. Every request can fail.
 */
module ServerObject {
  import opened Common
  import opened BecomeDc

  type Objects = map<string, Option<string>>

  const NO_SUCH_OBJECT := Other(32)
  const ENTRY_ALREADY_EXISTS := Other(68)
  const OBJECT_NAME_COLLISION := Other(0xC0000035)

  datatype Operation = Search1 | Search2 | AddObject | ModifyAdd | ModifyReplace

  /** The error that the network or the server gives to an operation, Ok if none. */
  type Faults = Operation -> Status

  const NO_FAULTS: Faults := (op: Operation) => Ok

  datatype Outcome = Outcome(status: Status, serverDn: Option<string>, objects: Objects)

  predicate BackLink(d: Objects, computer: string, dn: string) {
    dn in d && d[dn] == Some(computer)
  }

  /** A value of the computer's serverReferenceBL, if it has any. */
  predicate LinkOf(d: Objects, computer: string, link: Option<string>) {
    match link
    case Some(dn) => BackLink(d, computer, dn)
    case None => forall dn :: dn in d ==> !BackLink(d, computer, dn)
  }

  // ---------- The directory ----------

  function AfterAdd(d: Objects, dn: string, reference: string, fault: Status): (Status, Objects) {
    if fault != Ok then (fault, d)
    else if dn in d then (ENTRY_ALREADY_EXISTS, d)
    else (Ok, d[dn := Some(reference)])
  }

  /** Section 4.6 of RFC 4511: an add of a value that is there fails and a replace does not. */
  function AfterModify(d: Objects, dn: string, reference: string, replace: bool, fault: Status): (Status, Objects) {
    if fault != Ok then (fault, d)
    else if dn !in d then (NO_SUCH_OBJECT, d)
    else if !replace && d[dn].Some? then (AttributeOrValueExists, d)
    else (Ok, d[dn := Some(reference)])
  }

  class Directory {
    var objects: Objects

    constructor (objects: Objects)
      ensures this.objects == objects
    {
      this.objects := objects;
    }

    method Add(dn: string, reference: string, fault: Status) returns (status: Status)
      modifies this
      ensures (status, objects) == AfterAdd(old(objects), dn, reference, fault)
      ensures fault != Ok ==> status == fault && objects == old(objects)
      ensures fault == Ok && dn in old(objects) ==> status == ENTRY_ALREADY_EXISTS && objects == old(objects)
      ensures fault == Ok && dn !in old(objects) ==> status == Ok && objects == old(objects)[dn := Some(reference)]
    {
      if fault != Ok {
        return fault;
      }
      if dn in objects {
        return ENTRY_ALREADY_EXISTS;
      }
      objects := objects[dn := Some(reference)];
      return Ok;
    }

    method Modify(dn: string, reference: string, replace: bool, fault: Status) returns (status: Status)
      modifies this
      ensures (status, objects) == AfterModify(old(objects), dn, reference, replace, fault)
      ensures fault != Ok ==> status == fault && objects == old(objects)
      ensures fault == Ok && dn !in old(objects) ==> status == NO_SUCH_OBJECT && objects == old(objects)
      ensures fault == Ok && dn in old(objects) && old(objects)[dn] != None && !replace ==>
                status == AttributeOrValueExists && objects == old(objects)
      ensures fault == Ok && dn in old(objects) && (old(objects)[dn] == None || replace) ==>
                status == Ok && objects == old(objects)[dn := Some(reference)]
    {
      if fault != Ok {
        return fault;
      }
      if dn !in objects {
        return NO_SUCH_OBJECT;
      }
      if !replace && objects[dn].Some? {
        return AttributeOrValueExists;
      }
      objects := objects[dn := Some(reference)];
      return Ok;
    }

    /** The first value of the back link; which one that is, the directory decides. */
    method FirstBackLink(computer: string) returns (link: Option<string>)
      ensures LinkOf(objects, computer, link)
    {
      if dn :| dn in objects && BackLink(objects, computer, dn) {
        return Some(dn);
      }
      return None;
    }
  }

  // ---------- The four steps ----------

  /** becomeDC_ldap1_server_object_1. The answer that there is no such object is no error, even
      where it is wrong. */
  function Object1(d: Objects, computer: string, target: string, fault: Status): Answer<Option<string>> {
    if fault == NO_SUCH_OBJECT then Answer(Ok, None)
    else if fault != Ok then Answer(fault, None)
    else if target !in d then Answer(Ok, None)
    else if d[target].Some? && d[target].value != computer then Answer(OBJECT_NAME_COLLISION, None)
    else Answer(Ok, Some(target))
  }

  /** becomeDC_ldap1_server_object_2 */
  function Object2(d: Objects, computer: string, link: Option<string>, fault: Status): Answer<Option<string>> {
    if fault != Ok then Answer(fault, None)
    else if computer !in d then Answer(NO_SUCH_OBJECT, None)
    else Answer(Ok, link)
  }

  /** becomeDC_ldap1_server_object_modify */
  function Modified(d: Objects, computer: string, dn: string, faults: Faults): (Status, Objects) {
    var (status, d1) := AfterModify(d, dn, computer, false, faults(ModifyAdd));
    if status != AttributeOrValueExists then (status, d1)
    else AfterModify(d1, dn, computer, true, faults(ModifyReplace))
  }

  /** The four steps, and what they leave behind. */
  function Ensure(d: Objects, computer: string, target: string, link: Option<string>, faults: Faults): Outcome {
    var first := Object1(d, computer, target, faults(Search1));
    if first.status != Ok then Outcome(first.status, None, d)
    else if first.value.Some? then Finish(d, computer, first.value.value, faults)
    else
      var second := Object2(d, computer, link, faults(Search2));
      if second.status != Ok then Outcome(second.status, None, d)
      else if second.value.Some? then Finish(d, computer, second.value.value, faults)
      else
        var (status, d1) := AfterAdd(d, target, computer, faults(AddObject));
        if status != Ok then Outcome(status, None, d1) else Finish(d1, computer, target, faults)
  }

  function Finish(d: Objects, computer: string, dn: string, faults: Faults): Outcome {
    var (status, d1) := Modified(d, computer, dn, faults);
    Outcome(status, Some(dn), d1)
  }

  class Session {
    const directory: Directory
    const computerDn: string
    const targetDn: string
    var serverDn: Option<string>

    constructor (directory: Directory, computerDn: string, targetDn: string)
      ensures this.directory == directory && this.computerDn == computerDn && this.targetDn == targetDn
      ensures serverDn == None
    {
      this.directory := directory;
      this.computerDn := computerDn;
      this.targetDn := targetDn;
      serverDn := None;
    }

    method ServerObject1(fault: Status) returns (status: Status)
      modifies this
      ensures status == Object1(directory.objects, computerDn, targetDn, fault).status
      ensures serverDn == if status == Ok then Object1(directory.objects, computerDn, targetDn, fault).value else old(serverDn)
    {
      if fault != Ok && fault != NO_SUCH_OBJECT {
        return fault;
      }
      if fault == NO_SUCH_OBJECT || targetDn !in directory.objects {
        serverDn := None;
        return Ok;
      }
      var reference := directory.objects[targetDn];
      if reference.Some? && reference.value != computerDn {
        return OBJECT_NAME_COLLISION;
      }
      serverDn := Some(targetDn);
      return Ok;
    }

    method ServerObject2(fault: Status) returns (status: Status, ghost link: Option<string>)
      modifies this
      ensures LinkOf(directory.objects, computerDn, link)
      ensures old(serverDn).Some? ==> status == Ok && serverDn == old(serverDn)
      ensures old(serverDn).None? ==>
        && status == Object2(directory.objects, computerDn, link, fault).status
        && serverDn == Object2(directory.objects, computerDn, link, fault).value
    {
      var found := directory.FirstBackLink(computerDn);
      link := found;
      if serverDn.Some? {
        status := Ok;
      } else if fault != Ok {
        status := fault;
      } else if computerDn !in directory.objects {
        status := NO_SUCH_OBJECT;
      } else {
        serverDn := found;
        status := Ok;
      }
    }

    method ServerObjectAdd(fault: Status) returns (status: Status)
      modifies this, directory
      ensures old(serverDn).Some? ==> status == Ok && serverDn == old(serverDn) && directory.objects == old(directory.objects)
      ensures old(serverDn).None? ==>
        && (status, directory.objects) == AfterAdd(old(directory.objects), targetDn, computerDn, fault)
        && serverDn == if status == Ok then Some(targetDn) else None
    {
      if serverDn.Some? {
        return Ok;
      }
      status := directory.Add(targetDn, computerDn, fault);
      if status != Ok {
        return;
      }
      serverDn := Some(targetDn);
    }

    method ServerObjectModify(faults: Faults) returns (status: Status)
      requires serverDn.Some?
      modifies directory
      ensures (status, directory.objects) == Modified(old(directory.objects), computerDn, serverDn.value, faults)
    {
      status := directory.Modify(serverDn.value, computerDn, false, faults(ModifyAdd));
      if status != AttributeOrValueExists {
        return;
      }
      status := directory.Modify(serverDn.value, computerDn, true, faults(ModifyReplace));
    }

    method EnsureServerObject(faults: Faults) returns (status: Status, ghost link: Option<string>)
      requires serverDn == None
      modifies this, directory
      ensures LinkOf(old(directory.objects), computerDn, link)
      ensures Outcome(status, serverDn, directory.objects) ==
              Ensure(old(directory.objects), computerDn, targetDn, link, faults)
    {
      link := if dn :| dn in directory.objects && BackLink(directory.objects, computerDn, dn) then Some(dn) else None;
      status := ServerObject1(faults(Search1));
      if status != Ok {
        return;
      }
      ghost var found;
      status, found := ServerObject2(faults(Search2));
      link := found;
      if status != Ok {
        return;
      }
      status := ServerObjectAdd(faults(AddObject));
      if status != Ok {
        return;
      }
      status := ServerObjectModify(faults);
    }
  }

  // ---------- What the steps achieve ----------

  /** No object of another computer stands under the target DN. */
  predicate Free(d: Objects, computer: string, target: string) {
    target in d && d[target].Some? ==> d[target].value == computer
  }

  /** The steps have nothing left to change. */
  predicate Settled(d: Objects, computer: string, target: string) {
    if target in d then d[target] == Some(computer)
    else exists dn :: dn in d && BackLink(d, computer, dn)
  }

  /** The first lookup denied an object that is there. */
  predicate Denied(d: Objects, target: string, faults: Faults) {
    faults(Search1) == NO_SUCH_OBJECT && target in d
  }

  /** Success leaves the session with the DN of an object that refers to the computer. */
  lemma SuccessRefers(d: Objects, computer: string, target: string, link: Option<string>, faults: Faults)
    requires LinkOf(d, computer, link)
    ensures var o := Ensure(d, computer, target, link, faults);
      o.status == Ok ==>
        && o.serverDn.Some? && BackLink(o.objects, computer, o.serverDn.value)
        && (Settled(o.objects, computer, target) <==> (Denied(d, target, faults) ==> d[target] == Some(computer)))
  {
  }

  /** Whatever fails, the only object that is ever written is the target, which did not refer to
      any computer before. */
  lemma OnlyTargetWritten(d: Objects, computer: string, target: string, link: Option<string>, faults: Faults)
    requires LinkOf(d, computer, link)
    ensures var o := Ensure(d, computer, target, link, faults);
      o.objects == d || (o.objects == d[target := Some(computer)] && (target in d ==> d[target] == None))
  {
    if link.Some? {
      assert d[link.value := Some(computer)] == d;
    }
    if target in d && d[target] == Some(computer) {
      assert d[target := Some(computer)] == d;
    }
    assert d[target := Some(computer)][target := Some(computer)] == d[target := Some(computer)];
  }

  /** An object of another computer under the target DN: a collision, and nothing is touched. */
  lemma CollisionTouchesNothing(d: Objects, computer: string, target: string, link: Option<string>, faults: Faults)
    requires !Free(d, computer, target) && faults(Search1) == Ok
    ensures Ensure(d, computer, target, link, faults) == Outcome(OBJECT_NAME_COLLISION, None, d)
  {
  }

  /** Without faults the steps succeed exactly when the target is free and either exists or the
      computer does. */
  lemma SucceedsIff(d: Objects, computer: string, target: string, link: Option<string>)
    requires LinkOf(d, computer, link)
    ensures Ensure(d, computer, target, link, NO_FAULTS).status == Ok <==>
            Free(d, computer, target) && (target in d || computer in d)
  {
  }

  /** Once they succeeded, repeating the steps changes nothing, whatever fails and whichever back
      link the directory gives, and without faults they succeed again: if and only if the first
      lookup told the truth, or the target referred to the computer anyway. */
  lemma RepeatChangesNothing(d: Objects, computer: string, target: string, link: Option<string>, faults: Faults,
                             link': Option<string>)
    requires LinkOf(d, computer, link) && Ensure(d, computer, target, link, faults).status == Ok
    requires LinkOf(Ensure(d, computer, target, link, faults).objects, computer, link')
    ensures var d1 := Ensure(d, computer, target, link, faults).objects;
      (Denied(d, target, faults) ==> d[target] == Some(computer)) <==>
        && (forall faults': Faults :: Ensure(d1, computer, target, link', faults').objects == d1)
        && Ensure(d1, computer, target, link', NO_FAULTS).status == Ok
  {
    var d1 := Ensure(d, computer, target, link, faults).objects;
    SuccessRefers(d, computer, target, link, faults);
    SucceedsIff(d1, computer, target, link');
    OnlySettledByComputer(d, computer, target, link, faults);
    if Settled(d1, computer, target) {
      forall faults': Faults ensures Ensure(d1, computer, target, link', faults').objects == d1 {
        SettledUnchanged(d1, computer, target, link', faults');
      }
    } else {
      UnsettledChanges(d1, computer, target, link');
    }
  }

  /** A server that denies the target: the steps succeed through a back link, and repeating them
      writes to the target. */
  lemma DeniedExample()
    ensures var d: Objects := map["computer" := None, "target" := None, "other" := Some("computer")];
      var faults: Faults := (op: Operation) => if op == Search1 then NO_SUCH_OBJECT else Ok;
      var o := Ensure(d, "computer", "target", Some("other"), faults);
      && LinkOf(d, "computer", Some("other"))
      && o == Outcome(Ok, Some("other"), d)
      && Ensure(d, "computer", "target", Some("other"), NO_FAULTS).objects == d["target" := Some("computer")]
  {
    var d: Objects := map["computer" := None, "target" := None, "other" := Some("computer")];
    assert d["other" := Some("computer")] == d;
  }

  /** Where something is left to do, a repetition does it or fails. */
  lemma UnsettledChanges(d: Objects, computer: string, target: string, link: Option<string>)
    requires LinkOf(d, computer, link) && !Settled(d, computer, target)
    ensures var o := Ensure(d, computer, target, link, NO_FAULTS); o.objects != d || o.status != Ok
  {
    if target in d {
      assert d[target := Some(computer)][target] != d[target];
    } else {
      assert target in d[target := Some(computer)];
    }
  }

  lemma SettledUnchanged(d: Objects, computer: string, target: string, link: Option<string>, faults: Faults)
    requires LinkOf(d, computer, link) && Settled(d, computer, target)
    ensures Ensure(d, computer, target, link, faults).objects == d
  {
    OnlyTargetWritten(d, computer, target, link, faults);
  }

  lemma OnlySettledByComputer(d: Objects, computer: string, target: string, link: Option<string>, faults: Faults)
    requires LinkOf(d, computer, link) && Ensure(d, computer, target, link, faults).status == Ok
    ensures var d1 := Ensure(d, computer, target, link, faults).objects; target in d1 || computer in d1
  {
  }

  /** An attempt that failed at any point can be repeated: what it left behind leads to the same
      directory as a first attempt without faults. */
  lemma RetryCompletes(d: Objects, computer: string, target: string, link: Option<string>, faults: Faults,
                       link': Option<string>)
    requires LinkOf(d, computer, link)
    requires LinkOf(Ensure(d, computer, target, link, faults).objects, computer, link')
    ensures Ensure(Ensure(d, computer, target, link, faults).objects, computer, target, link', NO_FAULTS).objects ==
            Ensure(d, computer, target, link, NO_FAULTS).objects
  {
    var d1 := Ensure(d, computer, target, link, faults).objects;
    OnlyTargetWritten(d, computer, target, link, faults);
    if d1 == d {
      LinkDoesNotMatter(d, computer, target, link, link');
    } else {
      SettledUnchanged(d1, computer, target, link', NO_FAULTS);
      WrittenAnyway(d, computer, target, link, faults);
    }
  }

  lemma LinkDoesNotMatter(d: Objects, computer: string, target: string, link: Option<string>, link': Option<string>)
    requires LinkOf(d, computer, link) && LinkOf(d, computer, link')
    ensures Ensure(d, computer, target, link, NO_FAULTS).objects == Ensure(d, computer, target, link', NO_FAULTS).objects
  {
    if target in d {
    } else if link.Some? {
      assert link'.Some?;
      assert d[link.value := Some(computer)] == d == d[link'.value := Some(computer)];
    } else {
      assert link'.None?;
    }
  }

  /** What an attempt with faults wrote, an attempt without faults writes too. */
  lemma WrittenAnyway(d: Objects, computer: string, target: string, link: Option<string>, faults: Faults)
    requires LinkOf(d, computer, link)
    requires Ensure(d, computer, target, link, faults).objects != d
    ensures Ensure(d, computer, target, link, NO_FAULTS).objects == Ensure(d, computer, target, link, faults).objects
  {
    OnlyTargetWritten(d, computer, target, link, faults);
    OnlyTargetWritten(d, computer, target, link, NO_FAULTS);
    if target !in d && link.Some? {
      assert d[link.value := Some(computer)] == d;
    }
  }

  // ---------- The protocol's view ----------

  /** What the directory answers to the requests of the promotion. */
  function Answered(d: Objects, computer: string, target: string, link: Option<string>, faults: Faults, a: Ldap1): Ldap1 {
    var first := Object1(d, computer, target, faults(Search1));
    var second := Object2(d, computer, link, faults(Search2));
    var (added, d1) := AfterAdd(d, target, computer, faults(AddObject));
    var found := if first.value.Some? then first.value else second.value;
    var d2 := if found.Some? then d else d1;
    var dn := if found.Some? then found.value else target;
    a.(serverObject1 := first, serverObject2 := second, targetDn := target, add := added,
       modifyAdd := AfterModify(d2, dn, computer, false, faults(ModifyAdd)).0,
       modifyReplace := AfterModify(d2, dn, computer, true, faults(ModifyReplace)).0)
  }

  lemma ModifyAgrees(s: State, d: Objects, computer: string, dn: string, faults: Faults, a: Ldap1)
    requires a.modifyAdd == AfterModify(d, dn, computer, false, faults(ModifyAdd)).0
    requires a.modifyReplace == AfterModify(d, dn, computer, true, faults(ModifyReplace)).0
    ensures var s', o := OnServerModify(s, a), Finish(d, computer, dn, faults);
      s'.phase == (if o.status == Ok then AwaitConnect1 else Failed(o.status)) && s'.serverDn == s.serverDn
  {
  }

  /** The transition of the protocol and the steps on the directory agree. */
  lemma TransitionAgrees(s: State, d: Objects, computer: string, target: string, link: Option<string>, faults: Faults, a: Ldap1)
    ensures var s' := OnServerObject(s, Answered(d, computer, target, link, faults, a));
      var o := Ensure(d, computer, target, link, faults);
      && s'.phase == (if o.status == Ok then AwaitConnect1 else Failed(o.status))
      && (o.status == Ok ==> s'.serverDn == o.serverDn)
  {
    var b := Answered(d, computer, target, link, faults, a);
    var s1 := s.(serverDn := b.serverObject1.value);
    var s2 := s1.(serverDn := b.serverObject2.value);
    var (added, d1) := AfterAdd(d, target, computer, faults(AddObject));
    if b.serverObject1.status != Ok {
    } else if s1.serverDn.Some? {
      ModifyAgrees(s1, d, computer, s1.serverDn.value, faults, b);
    } else if b.serverObject2.status != Ok {
    } else if s2.serverDn.Some? {
      ModifyAgrees(s2, d, computer, s2.serverDn.value, faults, b);
    } else if added == Ok {
      ModifyAgrees(Log(s2, ServerAdd(added)).(serverDn := Some(target)), d1, computer, target, faults, b);
    }
  }
}
