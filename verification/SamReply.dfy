/**
 Logon information and its NETLOGON form: the conversion to SamInfo3, the conversion back, and
 the re-signing of a PAC, which composes the two.
 */
module SamReply {
  import opened Common

  /** A SID: revision, identifier authority and sub-authorities. */
  datatype Sid = Sid(rev: byte, auth: seq<byte>, subs: seq<nat>)

  const USER_KEY_SIZE := 16
  const LM_KEY_SIZE := 8
  const GROUP_ATTRIBUTES := 0x00000007 // MANDATORY | ENABLED_BY_DEFAULT | ENABLED
  const NETLOGON_EXTRA_SIDS := 0x0020

  datatype RidWithAttribute = RidWithAttribute(rid: nat, attributes: nat)
  datatype SidAttr = SidAttr(sid: Sid, attribute: nat)

  /** auth_serversupplied_info */
  datatype ServerInfo = ServerInfo(
    accountSid: Sid, primaryGroupSid: Sid, domainGroups: seq<Sid>,
    userSessionKey: seq<byte>, lmSessionKey: seq<byte>,
    accountName: Option<string>, domainName: Option<string>, fullName: Option<string>,
    logonScript: Option<string>, profilePath: Option<string>,
    homeDirectory: Option<string>, homeDrive: Option<string>, logonServer: Option<string>,
    lastLogon: nat, lastLogoff: nat, acctExpiry: nat,
    lastPasswordChange: nat, allowPasswordChange: nat, forcePasswordChange: nat,
    logonCount: nat, badPasswordCount: nat, acctFlags: nat, authenticated: bool)

  /** netr_SamBaseInfo */
  datatype SamBaseInfo = SamBaseInfo(
    lastLogon: nat, lastLogoff: nat, acctExpiry: nat,
    lastPasswordChange: nat, allowPasswordChange: nat, forcePasswordChange: nat,
    accountName: Option<string>, fullName: Option<string>, logonScript: Option<string>,
    profilePath: Option<string>, homeDirectory: Option<string>, homeDrive: Option<string>,
    logonCount: nat, badPasswordCount: nat, rid: nat, primaryGid: nat,
    groups: seq<RidWithAttribute>, userFlags: nat, key: seq<byte>,
    logonServer: Option<string>, domain: Option<string>, domainSid: Sid,
    lmSessKey: seq<byte>, acctFlags: nat)

  /** netr_SamInfo3 */
  datatype SamInfo3 = SamInfo3(base: SamBaseInfo, sids: seq<SidAttr>)

  datatype Status = Ok | InvalidParameter | InvalidLevel

  // ---------- SIDs ----------

  function Last(s: seq<nat>): nat
    requires s != []
  {
    s[|s| - 1]
  }

  function DropLast(sid: Sid): Sid
    requires sid.subs != []
  {
    sid.(subs := sid.subs[..|sid.subs| - 1])
  }

  /** dom_sid_add_rid */
  function AddRid(domain: Sid, rid: nat): Sid {
    domain.(subs := domain.subs + [rid])
  }

  /** dom_sid_in_domain: the domain's sub-authorities are a prefix, not necessarily proper. */
  method InDomainCheck(domain: Sid, sid: Sid) returns (r: bool)
    ensures r == InDomain(domain, sid)
  {
    if |domain.subs| > |sid.subs| {
      return false;
    }
    var i := |domain.subs| - 1;
    while i >= 0
      invariant -1 <= i < |domain.subs|
      invariant forall k :: i < k < |domain.subs| ==> domain.subs[k] == sid.subs[k]
    {
      if domain.subs[i] != sid.subs[i] {
        return false;
      }
      i := i - 1;
    }
    r := domain.rev == sid.rev && domain.auth == sid.auth;
  }

  predicate InDomain(domain: Sid, sid: Sid) {
    domain.subs <= sid.subs && domain.rev == sid.rev && domain.auth == sid.auth
  }

  /** `sid` is an account or group of the domain: the domain and one RID. */
  predicate DirectlyIn(domain: Sid, sid: Sid) {
    InDomain(domain, sid) && |sid.subs| == |domain.subs| + 1
  }

  lemma DirectlyInIff(domain: Sid, sid: Sid)
    requires sid.subs != []
    ensures AddRid(domain, Last(sid.subs)) == sid <==> DirectlyIn(domain, sid)
  {
    if DirectlyIn(domain, sid) {
      assert sid.subs == domain.subs + [Last(sid.subs)];
    }
  }

  /** The members of `sids` that are (or are not) in the domain, in order. */
  function Partition(domain: Sid, sids: seq<Sid>, inside: bool): seq<Sid> {
    if sids == [] then []
    else Partition(domain, sids[..|sids| - 1], inside)
         + (if InDomain(domain, sids[|sids| - 1]) == inside then [sids[|sids| - 1]] else [])
  }

  function Rids(sids: seq<Sid>): (r: seq<RidWithAttribute>)
    requires forall s :: s in sids ==> s.subs != []
    ensures |r| == |sids|
    ensures forall i :: 0 <= i < |sids| ==> r[i] == RidWithAttribute(Last(sids[i].subs), GROUP_ATTRIBUTES)
  {
    seq(|sids|, i requires 0 <= i < |sids| => RidWithAttribute(Last(sids[i].subs), GROUP_ATTRIBUTES))
  }

  function Attributed(sids: seq<Sid>): (r: seq<SidAttr>)
    ensures |r| == |sids| && forall i :: 0 <= i < |sids| ==> r[i] == SidAttr(sids[i], GROUP_ATTRIBUTES)
  {
    seq(|sids|, i requires 0 <= i < |sids| => SidAttr(sids[i], GROUP_ATTRIBUTES))
  }

  // ---------- To SamInfo3 ----------

  /** Every SID that is split into a domain and a RID has a last sub-authority. */
  predicate Convertible(si: ServerInfo) {
    && si.accountSid.subs != [] && si.primaryGroupSid.subs != []
    && forall g :: g in si.domainGroups && InDomain(DropLast(si.accountSid), g) ==> g.subs != []
  }

  function Fixed(key: seq<byte>, size: nat): (r: seq<byte>)
    ensures |r| == size
  {
    if |key| == size then key else seq(size, _ => 0)
  }

  lemma {:induction false} PartitionMembers(domain: Sid, sids: seq<Sid>, inside: bool)
    ensures forall s :: s in Partition(domain, sids, inside) <==> s in sids && InDomain(domain, s) == inside
  {
    if sids != [] {
      var k := |sids| - 1;
      PartitionMembers(domain, sids[..k], inside);
      assert sids == sids[..k] + [sids[k]];
    }
  }

  function BaseInfo(si: ServerInfo): SamBaseInfo
    requires Convertible(si)
  {
    var domain := DropLast(si.accountSid);
    PartitionMembers(domain, si.domainGroups, true);
    SamBaseInfo(
      si.lastLogon, si.lastLogoff, si.acctExpiry,
      si.lastPasswordChange, si.allowPasswordChange, si.forcePasswordChange,
      si.accountName, si.fullName, si.logonScript, si.profilePath, si.homeDirectory, si.homeDrive,
      si.logonCount, 0, Last(si.accountSid.subs), Last(si.primaryGroupSid.subs),
      Rids(Partition(domain, si.domainGroups, true)), 0, Fixed(si.userSessionKey, USER_KEY_SIZE),
      si.logonServer, si.domainName, domain, Fixed(si.lmSessionKey, LM_KEY_SIZE), si.acctFlags)
  }

  function ToInfo3(si: ServerInfo): SamInfo3
    requires Convertible(si)
  {
    var others := Partition(DropLast(si.accountSid), si.domainGroups, false);
    SamInfo3(BaseInfo(si).(userFlags := if others != [] then NETLOGON_EXTRA_SIDS else 0), Attributed(others))
  }

  /** auth_convert_server_info_sambaseinfo. bad_password_count is assigned to itself, so it
      keeps the zero of the fresh structure. */
  method ConvertToSamBaseInfo(si: ServerInfo) returns (sam: SamBaseInfo)
    requires Convertible(si)
    ensures sam == BaseInfo(si)
  {
    var domainSid := DropLast(si.accountSid);
    var rids := new RidWithAttribute[|si.domainGroups|];
    var count := 0;
    for i := 0 to |si.domainGroups|
      invariant 0 <= count <= i && count == |Partition(domainSid, si.domainGroups[..i], true)|
      invariant forall s :: s in Partition(domainSid, si.domainGroups[..i], true) ==> s.subs != []
      invariant rids[..count] == Rids(Partition(domainSid, si.domainGroups[..i], true))
    {
      var groupSid := si.domainGroups[i];
      assert groupSid in si.domainGroups && si.domainGroups[..i + 1][..i] == si.domainGroups[..i];
      var inside := InDomainCheck(domainSid, groupSid);
      if !inside {
        continue;
      }
      ghost var before := rids[..count];
      rids[count] := RidWithAttribute(Last(groupSid.subs), GROUP_ATTRIBUTES);
      count := count + 1;
      assert rids[..count] == before + [RidWithAttribute(Last(groupSid.subs), GROUP_ATTRIBUTES)];
    }
    assert si.domainGroups[..|si.domainGroups|] == si.domainGroups;
    sam := SamBaseInfo(
      si.lastLogon, si.lastLogoff, si.acctExpiry,
      si.lastPasswordChange, si.allowPasswordChange, si.forcePasswordChange,
      si.accountName, si.fullName, si.logonScript, si.profilePath, si.homeDirectory, si.homeDrive,
      si.logonCount, 0, Last(si.accountSid.subs), Last(si.primaryGroupSid.subs),
      rids[..count], 0, seq(USER_KEY_SIZE, _ => 0),
      si.logonServer, si.domainName, domainSid, seq(LM_KEY_SIZE, _ => 0), si.acctFlags);
    if |si.userSessionKey| == USER_KEY_SIZE {
      sam := sam.(key := si.userSessionKey);
    }
    if |si.lmSessionKey| == LM_KEY_SIZE {
      sam := sam.(lmSessKey := si.lmSessionKey);
    }
  }

  /** auth_convert_server_info_saminfo3 */
  method ConvertToSamInfo3(si: ServerInfo) returns (sam3: SamInfo3)
    requires Convertible(si)
    ensures sam3 == ToInfo3(si)
  {
    var base := ConvertToSamBaseInfo(si);
    var sids := new SidAttr[|si.domainGroups|];
    var sidCount := 0;
    for i := 0 to |si.domainGroups|
      invariant 0 <= sidCount <= i && sidCount == |Partition(base.domainSid, si.domainGroups[..i], false)|
      invariant sids[..sidCount] == Attributed(Partition(base.domainSid, si.domainGroups[..i], false))
    {
      assert si.domainGroups[..i + 1][..i] == si.domainGroups[..i];
      var inside := InDomainCheck(base.domainSid, si.domainGroups[i]);
      if inside {
        continue;
      }
      ghost var before := sids[..sidCount];
      sids[sidCount] := SidAttr(si.domainGroups[i], GROUP_ATTRIBUTES);
      sidCount := sidCount + 1;
      assert sids[..sidCount] == before + [SidAttr(si.domainGroups[i], GROUP_ATTRIBUTES)];
    }
    assert si.domainGroups[..|si.domainGroups|] == si.domainGroups;
    if sidCount > 0 {
      base := base.(userFlags := NETLOGON_EXTRA_SIDS);
    }
    sam3 := SamInfo3(base, sids[..sidCount]);
  }

  // ---------- And back ----------

  predicate AllZero(key: seq<byte>) {
    forall i :: 0 <= i < |key| ==> key[i] == 0
  }

  function FromRids(domain: Sid, rids: seq<RidWithAttribute>): (r: seq<Sid>)
    ensures |r| == |rids| && forall i :: 0 <= i < |rids| ==> r[i] == AddRid(domain, rids[i].rid)
  {
    seq(|rids|, i requires 0 <= i < |rids| => AddRid(domain, rids[i].rid))
  }

  function Sids(sids: seq<SidAttr>): (r: seq<Sid>)
    ensures |r| == |sids| && forall i :: 0 <= i < |sids| ==> r[i] == sids[i].sid
  {
    seq(|sids|, i requires 0 <= i < |sids| => sids[i].sid)
  }

  /** The groups that a SamInfo3 stands for. */
  function GroupsOf(info: SamInfo3): seq<Sid> {
    FromRids(info.base.domainSid, info.base.groups) + Sids(info.sids)
  }

  function KeyBlob(key: seq<byte>): seq<byte> {
    if AllZero(key) then [] else key
  }

  function FromInfo3(accountName: string, info: SamInfo3): ServerInfo {
    var base := info.base;
    ServerInfo(
      AddRid(base.domainSid, base.rid), AddRid(base.domainSid, base.primaryGid), GroupsOf(info),
      KeyBlob(base.key), KeyBlob(base.lmSessKey),
      if base.accountName.Some? then base.accountName else Some(accountName),
      base.domain, base.fullName, base.logonScript, base.profilePath,
      base.homeDirectory, base.homeDrive, base.logonServer,
      base.lastLogon, base.lastLogoff, base.acctExpiry,
      base.lastPasswordChange, base.allowPasswordChange, base.forcePasswordChange,
      base.logonCount, base.badPasswordCount, base.acctFlags, true)
  }

  /** make_server_info_netlogon_validation. The three levels share their base structure; only
      level 3 has extra SIDs. */
  method MakeServerInfo(accountName: string, level: nat, validation: Option<SamInfo3>)
    returns (status: Status, info: Option<ServerInfo>)
    ensures level !in {2, 3, 6} ==> status == InvalidLevel && info == None
    ensures level in {2, 3, 6} && validation == None ==> status == InvalidParameter && info == None
    ensures level == 3 && validation.Some? ==> status == Ok && info == Some(FromInfo3(accountName, validation.value))
    ensures level in {2, 6} && validation.Some? ==>
              status == Ok && info == Some(FromInfo3(accountName, SamInfo3(validation.value.base, [])))
  {
    if level != 2 && level != 3 && level != 6 {
      return InvalidLevel, None;
    }
    if validation.None? {
      return InvalidParameter, None;
    }
    var base := validation.value.base;
    var sidCount := if level == 3 then |validation.value.sids| else 0;
    var groups := new Sid[|base.groups| + sidCount];
    for i := 0 to |base.groups|
      invariant forall k :: 0 <= k < i ==> groups[k] == AddRid(base.domainSid, base.groups[k].rid)
    {
      groups[i] := AddRid(base.domainSid, base.groups[i].rid);
    }
    for i := 0 to sidCount
      invariant forall k :: 0 <= k < |base.groups| ==> groups[k] == AddRid(base.domainSid, base.groups[k].rid)
      invariant forall k :: 0 <= k < i ==> groups[|base.groups| + k] == validation.value.sids[k].sid
    {
      groups[|base.groups| + i] := validation.value.sids[i].sid;
    }
    ghost var used := SamInfo3(base, if level == 3 then validation.value.sids else []);
    assert groups[..] == GroupsOf(used);
    status := Ok;
    info := Some(ServerInfo(
      AddRid(base.domainSid, base.rid), AddRid(base.domainSid, base.primaryGid), groups[..],
      if AllZero(base.key) then [] else base.key, if AllZero(base.lmSessKey) then [] else base.lmSessKey,
      if base.accountName.Some? then base.accountName else Some(accountName),
      base.domain, base.fullName, base.logonScript, base.profilePath,
      base.homeDirectory, base.homeDrive, base.logonServer,
      base.lastLogon, base.lastLogoff, base.acctExpiry,
      base.lastPasswordChange, base.allowPasswordChange, base.forcePasswordChange,
      base.logonCount, base.badPasswordCount, base.acctFlags, true));
  }

  // ---------- What stands where ----------

  /** The SamInfo3 names the account and its primary group by RID, below the account's domain. */
  lemma Info3Sids(si: ServerInfo)
    requires Convertible(si)
    ensures var base, k := ToInfo3(si).base, |si.accountSid.subs| - 1;
      && AddRid(base.domainSid, base.rid) == si.accountSid
      && base.domainSid.rev == si.accountSid.rev && base.domainSid.auth == si.accountSid.auth
      && base.domainSid.subs == si.accountSid.subs[..k] && base.rid == si.accountSid.subs[k]
      && base.primaryGid == si.primaryGroupSid.subs[|si.primaryGroupSid.subs| - 1]
  {
  }

  /** Its groups are the RIDs of the in-domain groups, its extra SIDs the other groups, in order;
      all are mandatory, enabled and enabled by default, and a flag tells whether there are any. */
  lemma Info3Groups(si: ServerInfo)
    requires Convertible(si)
    ensures var info, domain := ToInfo3(si), DropLast(si.accountSid);
      var ins, others := Partition(domain, si.domainGroups, true), Partition(domain, si.domainGroups, false);
      && |info.base.groups| == |ins| && |info.sids| == |others|
      && (forall i :: 0 <= i < |ins| ==>
            ins[i].subs != [] && info.base.groups[i].rid == ins[i].subs[|ins[i].subs| - 1] && info.base.groups[i].attributes == 7)
      && (forall i :: 0 <= i < |others| ==> info.sids[i].sid == others[i] && info.sids[i].attribute == 7)
      && info.base.userFlags == if exists g :: g in si.domainGroups && !InDomain(domain, g) then 0x20 else 0
  {
    var domain := DropLast(si.accountSid);
    PartitionMembers(domain, si.domainGroups, true);
    PartitionMembers(domain, si.domainGroups, false);
    var others := Partition(domain, si.domainGroups, false);
    if others != [] {
      assert others[0] in others;
    }
  }

  /** Everything else is copied to the field of the same name; keys of another length become zeros. */
  lemma Info3Fields(si: ServerInfo)
    requires Convertible(si)
    ensures var base := ToInfo3(si).base;
      && base.accountName == si.accountName && base.fullName == si.fullName && base.domain == si.domainName
      && base.logonScript == si.logonScript && base.profilePath == si.profilePath
      && base.homeDirectory == si.homeDirectory && base.homeDrive == si.homeDrive && base.logonServer == si.logonServer
      && base.lastLogon == si.lastLogon && base.lastLogoff == si.lastLogoff && base.acctExpiry == si.acctExpiry
      && base.lastPasswordChange == si.lastPasswordChange && base.allowPasswordChange == si.allowPasswordChange
      && base.forcePasswordChange == si.forcePasswordChange
      && base.logonCount == si.logonCount && base.badPasswordCount == 0 && base.acctFlags == si.acctFlags
      && |base.key| == 16 && |base.lmSessKey| == 8
      && (if |si.userSessionKey| == 16 then base.key == si.userSessionKey else AllZero(base.key))
      && (if |si.lmSessionKey| == 8 then base.lmSessKey == si.lmSessionKey else AllZero(base.lmSessKey))
  {
  }

  /** The logon information that a SamInfo3 yields: the SIDs are the domain's with the RIDs. */
  lemma ServerInfoSids(accountName: string, info: SamInfo3)
    ensures var si, base := FromInfo3(accountName, info), info.base;
      && si.accountSid == AddRid(base.domainSid, base.rid) && si.primaryGroupSid == AddRid(base.domainSid, base.primaryGid)
      && si.accountSid.subs == base.domainSid.subs + [base.rid] && si.accountSid.rev == base.domainSid.rev
      && si.accountSid.auth == base.domainSid.auth && si.primaryGroupSid.subs == base.domainSid.subs + [base.primaryGid]
      && |si.domainGroups| == |base.groups| + |info.sids|
      && (forall i :: 0 <= i < |base.groups| ==> si.domainGroups[i] == AddRid(base.domainSid, base.groups[i].rid))
      && (forall i :: 0 <= i < |info.sids| ==> si.domainGroups[|base.groups| + i] == info.sids[i].sid)
  {
  }

  lemma ServerInfoFields(accountName: string, info: SamInfo3)
    ensures var si, base := FromInfo3(accountName, info), info.base;
      && si.accountName == (if base.accountName == None then Some(accountName) else base.accountName)
      && si.fullName == base.fullName && si.domainName == base.domain
      && si.logonScript == base.logonScript && si.profilePath == base.profilePath
      && si.homeDirectory == base.homeDirectory && si.homeDrive == base.homeDrive && si.logonServer == base.logonServer
      && si.lastLogon == base.lastLogon && si.lastLogoff == base.lastLogoff && si.acctExpiry == base.acctExpiry
      && si.lastPasswordChange == base.lastPasswordChange && si.allowPasswordChange == base.allowPasswordChange
      && si.forcePasswordChange == base.forcePasswordChange
      && si.logonCount == base.logonCount && si.badPasswordCount == base.badPasswordCount && si.acctFlags == base.acctFlags
      && si.authenticated
      && (si.userSessionKey == [] || si.userSessionKey == base.key)
      && (si.userSessionKey == [] <==> forall i :: 0 <= i < |base.key| ==> base.key[i] == 0)
      && (si.lmSessionKey == [] || si.lmSessionKey == base.lmSessKey)
      && (si.lmSessionKey == [] <==> forall i :: 0 <= i < |base.lmSessKey| ==> base.lmSessKey[i] == 0)
  {
  }

  // ---------- The round trip ----------

  function RoundTrip(accountName: string, si: ServerInfo): ServerInfo
    requires Convertible(si)
  {
    FromInfo3(accountName, ToInfo3(si))
  }

  /** The in-domain groups, rebuilt from their RIDs. */
  lemma RebuiltGroups(accountName: string, si: ServerInfo)
    requires Convertible(si)
    ensures var domain := DropLast(si.accountSid);
      var ins := Partition(domain, si.domainGroups, true);
      && |RoundTrip(accountName, si).domainGroups| == |ins| + |Partition(domain, si.domainGroups, false)|
      && (forall s :: s in ins ==> s.subs != [])
      && RoundTrip(accountName, si).domainGroups == FromRids(domain, Rids(ins)) + Partition(domain, si.domainGroups, false)
  {
    var domain := DropLast(si.accountSid);
    PartitionMembers(domain, si.domainGroups, true);
    var others := Partition(domain, si.domainGroups, false);
    assert Sids(Attributed(others)) == others;
  }

  /** Converting and back turns the group list into its in-domain members followed by the
      others, each in order, if and only if every in-domain group is the domain and one RID. */
  lemma GroupsRoundTrip(accountName: string, si: ServerInfo)
    requires Convertible(si)
    ensures var domain := DropLast(si.accountSid);
      RoundTrip(accountName, si).domainGroups
        == Partition(domain, si.domainGroups, true) + Partition(domain, si.domainGroups, false)
      <==> forall g :: g in si.domainGroups && InDomain(domain, g) ==> DirectlyIn(domain, g)
  {
    var domain := DropLast(si.accountSid);
    var ins, others := Partition(domain, si.domainGroups, true), Partition(domain, si.domainGroups, false);
    RebuiltGroups(accountName, si);
    PartitionMembers(domain, si.domainGroups, true);
    var rebuilt := FromRids(domain, Rids(ins));
    if rebuilt + others == ins + others {
      assert rebuilt == (rebuilt + others)[..|ins|] == ins;
      forall g | g in si.domainGroups && InDomain(domain, g) ensures DirectlyIn(domain, g) {
        assert g in ins;
        var k :| 0 <= k < |ins| && ins[k] == g;
        assert rebuilt[k] == AddRid(domain, Last(ins[k].subs));
        DirectlyInIff(domain, g);
      }
    } else if forall g :: g in si.domainGroups && InDomain(domain, g) ==> DirectlyIn(domain, g) {
      forall k | 0 <= k < |ins| ensures rebuilt[k] == ins[k] {
        assert ins[k] in ins;
        DirectlyInIff(domain, ins[k]);
      }
      assert false;
    }
  }

  lemma {:induction false} PartitionCount(domain: Sid, sids: seq<Sid>, inside: bool, g: Sid)
    ensures multiset(Partition(domain, sids, inside))[g] == if InDomain(domain, g) == inside then multiset(sids)[g] else 0
  {
    if sids != [] {
      var k := |sids| - 1;
      PartitionCount(domain, sids[..k], inside, g);
      assert sids == sids[..k] + [sids[k]];
    }
  }

  /** Nothing is lost or duplicated by the partition. */
  lemma PartitionConserves(domain: Sid, sids: seq<Sid>)
    ensures multiset(Partition(domain, sids, true) + Partition(domain, sids, false)) == multiset(sids)
  {
    var m := multiset(Partition(domain, sids, true)) + multiset(Partition(domain, sids, false));
    forall g ensures m[g] == multiset(sids)[g] {
      PartitionCount(domain, sids, true, g);
      PartitionCount(domain, sids, false, g);
    }
    assert m == multiset(sids);
  }

  /** Each field that survives, and exactly when. */
  lemma FieldsRoundTrip(accountName: string, si: ServerInfo)
    requires Convertible(si)
    ensures var rt := RoundTrip(accountName, si);
      && rt.accountSid == si.accountSid
      && (rt.primaryGroupSid == si.primaryGroupSid <==> DirectlyIn(DropLast(si.accountSid), si.primaryGroupSid))
      && (rt.userSessionKey == si.userSessionKey <==>
          si.userSessionKey == [] || (|si.userSessionKey| == USER_KEY_SIZE && !AllZero(si.userSessionKey)))
      && (rt.lmSessionKey == si.lmSessionKey <==>
          si.lmSessionKey == [] || (|si.lmSessionKey| == LM_KEY_SIZE && !AllZero(si.lmSessionKey)))
      && (rt.badPasswordCount == si.badPasswordCount <==> si.badPasswordCount == 0)
      && (rt.accountName == si.accountName <==> si.accountName.Some?)
      && rt.domainName == si.domainName && rt.fullName == si.fullName && rt.logonScript == si.logonScript
      && rt.profilePath == si.profilePath && rt.homeDirectory == si.homeDirectory && rt.homeDrive == si.homeDrive
      && rt.logonServer == si.logonServer && rt.logonCount == si.logonCount && rt.acctFlags == si.acctFlags
      && rt.lastLogon == si.lastLogon && rt.lastLogoff == si.lastLogoff && rt.acctExpiry == si.acctExpiry
      && rt.lastPasswordChange == si.lastPasswordChange && rt.allowPasswordChange == si.allowPasswordChange
      && rt.forcePasswordChange == si.forcePasswordChange
  {
    assert AddRid(DropLast(si.accountSid), Last(si.accountSid.subs)).subs == si.accountSid.subs;
    DirectlyInIff(DropLast(si.accountSid), si.primaryGroupSid);
    KeyRoundTrip(si.userSessionKey, USER_KEY_SIZE);
    KeyRoundTrip(si.lmSessionKey, LM_KEY_SIZE);
  }

  lemma KeyRoundTrip(key: seq<byte>, size: nat)
    requires size > 0
    ensures KeyBlob(Fixed(key, size)) == key <==> key == [] || (|key| == size && !AllZero(key))
  {
    if |key| != size {
      assert AllZero(Fixed(key, size));
    }
  }

  /** The groups after a round trip split as before it. */
  lemma RoundTripPartition(accountName: string, si: ServerInfo)
    requires Convertible(si)
    ensures var rt, domain := RoundTrip(accountName, si), DropLast(si.accountSid);
      && Convertible(rt) && rt.accountSid == si.accountSid
      && Partition(domain, rt.domainGroups, false) == Partition(domain, si.domainGroups, false)
      && BaseInfo(rt).groups == BaseInfo(si).groups
      && forall g :: g in rt.domainGroups && InDomain(domain, g) ==> DirectlyIn(domain, g)
  {
    var rt, domain := RoundTrip(accountName, si), DropLast(si.accountSid);
    var ins, others := Partition(domain, si.domainGroups, true), Partition(domain, si.domainGroups, false);
    RebuiltGroups(accountName, si);
    PartitionMembers(domain, si.domainGroups, false);
    var rebuilt := FromRids(domain, Rids(ins));
    forall g | g in rebuilt ensures DirectlyIn(domain, g) {
      var k :| 0 <= k < |rebuilt| && rebuilt[k] == g;
      assert g == AddRid(domain, Rids(ins)[k].rid);
    }
    FieldsRoundTrip(accountName, si);
    PartitionSplit(domain, rebuilt, others);
  }

  /** Converting twice is converting once, for every logon. */
  lemma RoundTripIdempotent(accountName: string, si: ServerInfo)
    requires Convertible(si)
    ensures Convertible(RoundTrip(accountName, si))
    ensures RoundTrip(accountName, RoundTrip(accountName, si)) == RoundTrip(accountName, si)
  {
    RoundTripPartition(accountName, si);
    RebuiltGroups(accountName, si);
    RebuiltGroups(accountName, RoundTrip(accountName, si));
    FieldsRoundTrip(accountName, RoundTrip(accountName, si));
    KeyTwice(si.userSessionKey, USER_KEY_SIZE);
    KeyTwice(si.lmSessionKey, LM_KEY_SIZE);
    RidTwice(si);
  }

  lemma KeyTwice(key: seq<byte>, size: nat)
    requires size > 0
    ensures Fixed(KeyBlob(Fixed(key, size)), size) == Fixed(key, size)
  {
    var fixed := Fixed(key, size);
    if AllZero(fixed) {
      assert Fixed([], size) == fixed;
    }
  }

  lemma RidTwice(si: ServerInfo)
    requires Convertible(si)
    ensures var domain := DropLast(si.accountSid);
      Last(AddRid(domain, Last(si.primaryGroupSid.subs)).subs) == Last(si.primaryGroupSid.subs)
  {
  }

  /** What a second conversion produces differs from the first only where an absent account
      name was filled in. */
  lemma InfoAfterRoundTrip(accountName: string, si: ServerInfo)
    requires Convertible(si)
    ensures Convertible(RoundTrip(accountName, si))
    ensures var info, rt := ToInfo3(si), RoundTrip(accountName, si);
      ToInfo3(rt) == info.(base := info.base.(accountName := rt.accountName))
  {
    RoundTripPartition(accountName, si);
    FieldsRoundTrip(accountName, si);
    KeyTwice(si.userSessionKey, USER_KEY_SIZE);
    KeyTwice(si.lmSessionKey, LM_KEY_SIZE);
    RidTwice(si);
  }

  lemma SnocParts<T>(a: seq<T>, b: seq<T>)
    requires b != []
    ensures (a + b)[..|a + b| - 1] == a + b[..|b| - 1] && (a + b)[|a + b| - 1] == b[|b| - 1]
    ensures b == b[..|b| - 1] + [b[|b| - 1]]
  {
  }

  lemma {:induction false} PartitionUniform(domain: Sid, a: seq<Sid>, inside: bool)
    requires forall g :: g in a ==> InDomain(domain, g) == inside
    ensures Partition(domain, a, inside) == a && Partition(domain, a, !inside) == []
  {
    if a != [] {
      SnocParts([], a);
      PartitionUniform(domain, a[..|a| - 1], inside);
    }
  }

  lemma {:induction false} PartitionAppend(domain: Sid, a: seq<Sid>, b: seq<Sid>, inside: bool)
    ensures Partition(domain, a + b, inside) == Partition(domain, a, inside) + Partition(domain, b, inside)
  {
    if b == [] {
      assert a + b == a;
    } else {
      SnocParts(a, b);
      PartitionAppend(domain, a, b[..|b| - 1], inside);
    }
  }

  lemma PartitionSplit(domain: Sid, ins: seq<Sid>, others: seq<Sid>)
    requires forall g :: g in ins ==> InDomain(domain, g)
    requires forall g :: g in others ==> !InDomain(domain, g)
    ensures Partition(domain, ins + others, true) == ins && Partition(domain, ins + others, false) == others
  {
    PartitionUniform(domain, ins, true);
    PartitionUniform(domain, others, false);
    PartitionAppend(domain, ins, others, true);
    PartitionAppend(domain, ins, others, false);
  }

  // ---------- Re-signing a PAC ----------

  const UF_NO_AUTH_DATA_REQUIRED: bv32 := 0x02000000

  /** A PAC, reduced to its logon information buffer; a buffer may fail to parse. */
  datatype Pac = NoPac | Pac(logonInfo: Option<Option<SamInfo3>>)

  datatype KrbStatus = KrbOk | NoBuffer | Einval

  /** samba_kdc_reget_pac: the conversions composed, with "" for an absent account name. */
  method RegetPac(userAccountControl: bv32, pac: Pac) returns (ret: KrbStatus, out: Pac)
    requires pac.Pac? && pac.logonInfo.Some? && pac.logonInfo.value.Some? ==> Sound(pac.logonInfo.value.value)
    ensures userAccountControl & UF_NO_AUTH_DATA_REQUIRED != 0 ==> ret == KrbOk && out == NoPac
    ensures userAccountControl & UF_NO_AUTH_DATA_REQUIRED == 0 ==>
      match pac
      case Pac(Some(Some(info))) => ret == KrbOk && out == Pac(Some(Some(Resigned(info))))
      case Pac(Some(None)) => ret == Einval && out == pac
      case _ => ret == NoBuffer && out == pac
  {
    if userAccountControl & UF_NO_AUTH_DATA_REQUIRED != 0 {
      return KrbOk, NoPac;
    }
    if pac.NoPac? || pac.logonInfo.None? {
      return NoBuffer, pac;
    }
    if pac.logonInfo.value.None? {
      return Einval, pac;
    }
    SoundConverts("", pac.logonInfo.value.value);
    var status, info := MakeServerInfo("", 3, Some(pac.logonInfo.value.value));
    var info3 := ConvertToSamInfo3(info.value);
    return KrbOk, Pac(Some(Some(info3)));
  }

  /** No extra SID of the domain is the bare identifier authority. */
  predicate Sound(info: SamInfo3) {
    forall i :: 0 <= i < |info.sids| && InDomain(info.base.domainSid, info.sids[i].sid) ==> info.sids[i].sid.subs != []
  }

  lemma SoundConverts(accountName: string, info: SamInfo3)
    requires Sound(info)
    ensures Convertible(FromInfo3(accountName, info))
    ensures DropLast(FromInfo3(accountName, info).accountSid) == info.base.domainSid
  {
    var si := FromInfo3(accountName, info);
    assert DropLast(si.accountSid).subs == info.base.domainSid.subs;
    forall g | g in si.domainGroups && InDomain(info.base.domainSid, g) ensures g.subs != [] {
      var k :| 0 <= k < |si.domainGroups| && si.domainGroups[k] == g;
      if k >= |info.base.groups| {
        assert g == info.sids[k - |info.base.groups|].sid;
      }
    }
  }

  function Resigned(info: SamInfo3): SamInfo3
    requires Sound(info)
  {
    SoundConverts("", info);
    ToInfo3(FromInfo3("", info))
  }

  lemma ResignedIsSound(info: SamInfo3)
    requires Sound(info)
    ensures Sound(Resigned(info)) && Resigned(info).base.domainSid == info.base.domainSid
  {
    SoundConverts("", info);
    var si := FromInfo3("", info);
    PartitionMembers(info.base.domainSid, si.domainGroups, false);
    var others := Partition(info.base.domainSid, si.domainGroups, false);
    assert forall i :: 0 <= i < |others| ==> others[i] in others;
  }

  /** Signing a PAC again changes nothing, for every PAC that was signed once, whatever its origin. */
  lemma ResignIdempotent(info: SamInfo3)
    requires Sound(info)
    ensures Sound(Resigned(info)) && Resigned(Resigned(info)) == Resigned(info)
  {
    ResignedIsSound(info);
    SoundConverts("", info);
    InfoAfterRoundTrip("", FromInfo3("", info));
  }

  /** A PAC made here for a named account survives re-signing unchanged. */
  lemma OwnPacSurvives(si: ServerInfo)
    requires Convertible(si)
    ensures Sound(ToInfo3(si))
    ensures Resigned(ToInfo3(si)) == ToInfo3(si) <==> si.accountName.Some?
  {
    var domain := DropLast(si.accountSid);
    PartitionMembers(domain, si.domainGroups, false);
    var others := Partition(domain, si.domainGroups, false);
    assert forall i :: 0 <= i < |others| ==> others[i] in others;
    InfoAfterRoundTrip("", si);
  }

  /** Re-signing a foreign PAC keeps the groups it stands for, in-domain ones first, if and only
      if each of its extra SIDs that lies in the domain is the domain and one RID. */
  lemma ResignKeepsGroups(info: SamInfo3)
    requires Sound(info)
    ensures var domain := info.base.domainSid;
      GroupsOf(Resigned(info)) == Partition(domain, GroupsOf(info), true) + Partition(domain, GroupsOf(info), false)
      <==> forall i :: 0 <= i < |info.sids| && InDomain(domain, info.sids[i].sid) ==> DirectlyIn(domain, info.sids[i].sid)
  {
    var si, domain := FromInfo3("", info), info.base.domainSid;
    SoundConverts("", info);
    GroupsRoundTrip("", si);
    var n := |info.base.groups|;
    if forall i :: 0 <= i < |info.sids| && InDomain(domain, info.sids[i].sid) ==> DirectlyIn(domain, info.sids[i].sid) {
      forall g | g in si.domainGroups && InDomain(domain, g) ensures DirectlyIn(domain, g) {
        var k :| 0 <= k < |si.domainGroups| && si.domainGroups[k] == g;
        if k >= n {
          assert g == info.sids[k - n].sid;
        } else {
          assert g == AddRid(domain, info.base.groups[k].rid);
        }
      }
    } else {
      var i :| 0 <= i < |info.sids| && InDomain(domain, info.sids[i].sid) && !DirectlyIn(domain, info.sids[i].sid);
      assert si.domainGroups[n + i] == info.sids[i].sid;
      assert info.sids[i].sid in si.domainGroups;
    }
  }
}
