/**
 Joining a domain over SAMR: the machine account is created, or opened, or deleted and created
 again; its type is checked; and it gets a password.
 */
module JoinDomain {
  import opened Common
  import SamReply

  const ACB_DISABLED: bv32 := 0x1
  const ACB_PWNOTREQ: bv32 := 0x4
  const ACB_DOMTRUST: bv32 := 0x40
  const ACB_WSTRUST: bv32 := 0x80
  const ACB_SVRTRUST: bv32 := 0x100

  datatype Status = Ok | UserExists | InvalidParameter | Error(code: nat)

  datatype Account = Account(name: string, fullName: string, flags: bv32, password: Option<string>)

  function TrustType(flags: bv32): bv32 {
    flags & (ACB_WSTRUST | ACB_SVRTRUST | ACB_DOMTRUST)
  }

  /** The flags that a join sets. */
  function Enabled(flags: bv32): bv32 {
    flags & !(ACB_DISABLED | ACB_PWNOTREQ)
  }

  /** Enabling an account keeps its type. */
  lemma EnabledKeepsType(flags: bv32)
    ensures TrustType(Enabled(flags)) == TrustType(flags)
    ensures Enabled(flags) & ACB_DISABLED == 0 && Enabled(flags) & ACB_PWNOTREQ == 0
    ensures Enabled(flags) | (flags & ACB_DISABLED) | (flags & ACB_PWNOTREQ) == flags
  {
  }

  method Fresh(used: set<nat>) returns (n: nat)
    ensures n !in used
  {
    n := 0;
    ghost var above := used;
    while n in used
      invariant above <= used && forall x :: x in used && x !in above ==> x < n
      decreases |above|
    {
      above := above - {n};
      n := n + 1;
    }
  }

  // ---------- The server ----------

  predicate Named(accounts: map<nat, Account>, rid: nat, name: string) {
    rid in accounts && accounts[rid].name == name
  }

  ghost predicate Existed(accounts: map<nat, Account>, name: string) {
    exists r :: Named(accounts, r, name)
  }

  /** The accounts of a domain by RID, and the handles open on them. Any call can fail, and then
      changes nothing. The server chooses RIDs, and the flags of new accounts. A reliable server
      fails only for cause, and gives a new account the type that was asked for. */
  class SamServer {
    var accounts: map<nat, Account>
    var handles: map<nat, nat>
    var retired: set<nat>
    const minLength: nat
    const reliable: bool

    /** Names are unique; RIDs are not given out twice. */
    ghost predicate Valid()
      reads this
    {
      && (forall r, s :: r in accounts && s in accounts && accounts[r].name == accounts[s].name ==> r == s)
      && (forall r :: r in accounts ==> r !in retired)
    }

    method CreateUser2(name: string, acctFlags: bv32) returns (status: Status, handle: nat, rid: nat)
      requires Valid()
      modifies this`accounts, this`handles
      ensures Valid()
      ensures status != Ok ==> unchanged(this)
      ensures status == Ok ==>
        && (forall r :: r in old(accounts) ==> old(accounts)[r].name != name)
        && rid !in old(accounts) && rid !in retired && handle !in old(handles)
        && Named(accounts, rid, name) && accounts == old(accounts)[rid := accounts[rid]]
        && accounts[rid].password == None
        && handles == old(handles)[handle := rid]
      ensures reliable ==> status == if Existed(old(accounts), name) then UserExists else Ok
      ensures reliable && status == Ok ==> TrustType(accounts[rid].flags) == TrustType(acctFlags)
    {
      status, handle, rid := *, 0, 0;
      if reliable {
        status := Ok;
      }
      if status == Ok && exists r :: r in accounts && Named(accounts, r, name) {
        status := UserExists;
      }
      if status == Ok {
        rid := Fresh(accounts.Keys + retired);
        handle := Fresh(handles.Keys);
        var flags: bv32 := *;
        if reliable {
          flags := acctFlags;
        }
        accounts, handles := accounts[rid := Account(name, "", flags, None)], handles[handle := rid];
      }
    }

    method LookupNames(name: string) returns (status: Status, rids: seq<nat>)
      ensures status == Ok && |rids| == 1 ==> Named(accounts, rids[0], name)
      ensures reliable && Existed(accounts, name) ==> status == Ok && |rids| == 1
    {
      status, rids := *, [];
      if reliable {
        status := Ok;
      }
      if rid :| rid in accounts && Named(accounts, rid, name) {
        rids := [rid];
      }
    }

    method OpenUser(rid: nat) returns (status: Status, handle: nat)
      modifies this`handles
      ensures status != Ok ==> unchanged(this)
      ensures status == Ok ==> rid in accounts && handle !in old(handles) && handles == old(handles)[handle := rid]
      ensures reliable && rid in accounts ==> status == Ok
    {
      status, handle := *, 0;
      if reliable {
        status := Ok;
      }
      if status == Ok && rid !in accounts {
        status := InvalidParameter;
      }
      if status == Ok {
        handle := Fresh(handles.Keys);
        handles := handles[handle := rid];
      }
    }

    method DeleteUser(handle: nat) returns (status: Status)
      requires Valid()
      modifies this
      ensures Valid()
      ensures status != Ok ==> unchanged(this)
      ensures status == Ok ==>
        && handle in old(handles) && accounts == old(accounts) - {old(handles)[handle]}
        && handles == old(handles) - {handle} && retired == old(retired) + {old(handles)[handle]}
      ensures reliable && handle in old(handles) ==> status == Ok
    {
      status := *;
      if reliable {
        status := Ok;
      }
      if status == Ok && handle !in handles {
        status := InvalidParameter;
      }
      if status == Ok {
        retired := retired + {handles[handle]};
        accounts, handles := accounts - {handles[handle]}, handles - {handle};
      }
    }

    /** Level 16: the account flags. The reply may come without them. */
    method QueryUserInfo(handle: nat) returns (status: Status, info: Option<bv32>)
      ensures status == Ok && info.Some? ==>
        handle in handles && handles[handle] in accounts && info.value == accounts[handles[handle]].flags
      ensures reliable && handle in handles && handles[handle] in accounts ==> status == Ok && info.Some?
    {
      status, info := *, None;
      if reliable {
        status := Ok;
      }
      if handle in handles && handles[handle] in accounts {
        info := Some(accounts[handles[handle]].flags);
      }
    }

    method GetUserPwInfo(handle: nat) returns (status: Status, minPasswordLength: nat)
      ensures minPasswordLength == minLength && (reliable ==> status == Ok)
    {
      status, minPasswordLength := *, minLength;
      if reliable {
        status := Ok;
      }
    }

    /** libnet_SetPassword on a handle, with the full name and the flags. */
    method SetPassword(handle: nat, password: string, fullName: string, flags: bv32) returns (status: Status)
      requires Valid()
      modifies this`accounts
      ensures Valid()
      ensures status != Ok ==> unchanged(this)
      ensures status == Ok ==> handle in handles && handles[handle] in old(accounts)
      ensures status == Ok ==> var rid := handles[handle];
        accounts == old(accounts)[rid := Account(old(accounts)[rid].name, fullName, flags, Some(password))]
      ensures reliable && handle in handles && handles[handle] in old(accounts) ==> status == Ok
    {
      status := *;
      if reliable {
        status := Ok;
      }
      if status == Ok && !(handle in handles && handles[handle] in accounts) {
        status := InvalidParameter;
      }
      if status == Ok {
        var rid := handles[handle];
        accounts := accounts[rid := Account(accounts[rid].name, fullName, flags, Some(password))];
      }
    }
  }

  // ---------- The join ----------

  /** The answer to an account of one type where another was asked for. */
  function TypeCheck(flags: bv32, acctType: bv32, existed: bool): (r: Status) {
    if TrustType(flags) == acctType then Ok
    else if TrustType(flags) !in {ACB_WSTRUST, ACB_SVRTRUST, ACB_DOMTRUST} then InvalidParameter
    else if acctType !in {ACB_WSTRUST, ACB_SVRTRUST, ACB_DOMTRUST} then InvalidParameter
    else if existed then UserExists else InvalidParameter
  }

  /** An account passes the check exactly when its bits for domain, workstation and server trust are
      the requested type. USER_EXISTS is the refusal exactly when the account was there before and
      both types are one of the three; otherwise it is INVALID_PARAMETER. */
  lemma TypeCheckIff(flags: bv32, acctType: bv32, existed: bool)
    ensures TypeCheck(flags, acctType, existed) == Ok <==> flags & 0x1C0 == acctType
    ensures TypeCheck(flags, acctType, existed) == UserExists <==>
      existed && flags & 0x1C0 != acctType && flags & 0x1C0 in {0x40, 0x80, 0x100} && acctType in {0x40, 0x80, 0x100}
    ensures TypeCheck(flags, acctType, existed) in {Ok, UserExists, InvalidParameter}
  {
  }

  /** What is no single trust type is never the type of an account: the error does not depend on
      whether the account was there. */
  lemma NoTypeRefused(flags: bv32, acctType: bv32, existed: bool)
    requires TrustType(acctType) != acctType && TrustType(flags) == TrustType(acctType)
    ensures TypeCheck(flags, acctType, existed) == InvalidParameter
  {
  }

  datatype Route = Created | Opened | Recreated

  datatype Joined = Joined(domainSid: SamReply.Sid, accountSid: SamReply.Sid, password: string, handle: nat)

  /** Accounts of other names are neither changed, nor removed, nor added. */
  ghost predicate OthersKept(before: map<nat, Account>, after: map<nat, Account>, name: string) {
    && (forall r :: r in before && before[r].name != name ==> r in after && after[r] == before[r])
    && (forall r :: r in after && after[r].name != name ==> r in before)
  }

  /** Accounts that are not of the type stand as they were. */
  ghost predicate OtherTypesKept(before: map<nat, Account>, after: map<nat, Account>, acctType: bv32) {
    forall r :: r in before && TrustType(before[r].flags) != acctType ==> r in after && after[r] == before[r]
  }

  /** An account that existed under the name stands as it was. */
  ghost predicate NamedKept(before: map<nat, Account>, after: map<nat, Account>, name: string) {
    forall r :: Named(before, r, name) ==> r in after && after[r] == before[r]
  }

  /** A handle on the account of that name, on the route that fits what was there before. */
  ghost predicate Obtained(before: map<nat, Account>, accounts: map<nat, Account>, handles: map<nat, nat>,
                           name: string, recreate: bool, route: Route, handle: nat, rid: nat) {
    && handle in handles && handles[handle] == rid && Named(accounts, rid, name)
    && (match route
        case Created => !Existed(before, name) && rid !in before
        case Opened => !recreate && Named(before, rid, name)
        case Recreated => recreate && Existed(before, name) && rid !in before)
  }

  /** A handle on the account: created, opened, or deleted and created again. */
  method Obtain(server: SamServer, name: string, acctType: bv32, recreate: bool)
    returns (status: Status, createStatus: Status, handle: nat, rid: nat, ghost route: Route)
    requires server.Valid()
    modifies server
    ensures server.Valid() && OthersKept(old(server.accounts), server.accounts, name)
    ensures !recreate ==> NamedKept(old(server.accounts), server.accounts, name)
    ensures status == Ok ==>
              Obtained(old(server.accounts), server.accounts, server.handles, name, recreate, route, handle, rid)
    ensures status == Ok && route == Opened ==> server.accounts == old(server.accounts)
    ensures server.reliable ==> status == Ok
    ensures server.reliable && route != Opened ==> TrustType(server.accounts[rid].flags) == TrustType(acctType)
    ensures status == Ok ==> createStatus == if route == Created then Ok else UserExists
  {
    route := Created;
    createStatus, handle, rid := server.CreateUser2(name, acctType);
    status := createStatus;
    if status == UserExists {
      var rids;
      status, rids := server.LookupNames(name);
      if status != Ok {
        return;
      }
      if |rids| != 1 {
        status := InvalidParameter;
        return;
      }
      rid := rids[0];
      route := Opened;
      status, handle := server.OpenUser(rid);
      if status != Ok {
        return;
      }
      if recreate {
        route := Recreated;
        status := server.DeleteUser(handle);
        if status != Ok {
          return;
        }
        status, handle, rid := server.CreateUser2(name, acctType);
      }
    }
  }

  method RandomString(length: nat) returns (s: string)
    ensures |s| == length
  {
    var c: char := *;
    s := seq(length, _ => c);
  }

  /** A new password, as long as the policy asks for, with the full name and the flags. */
  method GiveAccess(server: SamServer, handle: nat, name: string, flags: bv32) returns (status: Status, password: string)
    requires server.Valid() && handle in server.handles && server.handles[handle] in server.accounts
    modifies server`accounts
    ensures server.Valid() && (|password| == 8 || |password| == Max(8, server.minLength))
    ensures server.reliable ==> status == Ok && |password| == Max(8, server.minLength)
    ensures status != Ok ==> unchanged(server)
    ensures status == Ok ==> var rid := server.handles[handle];
      server.accounts == old(server.accounts)[rid :=
        Account(old(server.accounts)[rid].name, name, Enabled(flags), Some(password))]
  {
    var policyStatus, minLength := server.GetUserPwInfo(handle);
    password := RandomString(Max(8, if policyStatus == Ok then minLength else 0));
    status := server.SetPassword(handle, password, name, Enabled(flags));
  }

  /** The account's type is checked, and then it is given access. */
  method CheckAndEnable(server: SamServer, handle: nat, name: string, acctType: bv32, existed: bool)
    returns (status: Status, password: string, ghost queried: bv32)
    requires server.Valid() && handle in server.handles && server.handles[handle] in server.accounts
    modifies server`accounts
    ensures server.Valid()
    ensures status != Ok ==> unchanged(server)
    ensures status == Ok ==> var rid := server.handles[handle];
      && queried == old(server.accounts)[rid].flags && TrustType(queried) == acctType
      && server.accounts == old(server.accounts)[rid :=
           Account(old(server.accounts)[rid].name, name, Enabled(queried), Some(password))]
      && (|password| == 8 || |password| == Max(8, server.minLength))
    ensures server.reliable ==>
      status == TypeCheck(old(server.accounts)[server.handles[handle]].flags, acctType, existed)
    ensures server.reliable && status == Ok ==> |password| == Max(8, server.minLength)
    ensures var flags := old(server.accounts)[server.handles[handle]].flags;
      server.reliable && TrustType(acctType) != acctType && TrustType(flags) == TrustType(acctType) ==> status == InvalidParameter
  {
    ghost var flags := server.accounts[server.handles[handle]].flags;
    if TrustType(acctType) != acctType && TrustType(flags) == TrustType(acctType) {
      NoTypeRefused(flags, acctType, existed);
    }
    password, queried := "", 0;
    var info;
    status, info := server.QueryUserInfo(handle);
    if status != Ok {
      return;
    }
    if info.None? {
      status := InvalidParameter;
      return;
    }
    queried := info.value;
    status := TypeCheck(info.value, acctType, existed);
    if status != Ok {
      return;
    }
    status, password := GiveAccess(server, handle, name, info.value);
  }

  /** libnet_JoinDomain, from the open domain on. */
  method Join(server: SamServer, domainSid: SamReply.Sid, name: string, acctType: bv32, recreate: bool)
    returns (status: Status, out: Option<Joined>, ghost route: Route, ghost rid: nat, ghost queried: bv32)
    requires server.Valid()
    modifies server
    ensures server.Valid() && OthersKept(old(server.accounts), server.accounts, name)
    ensures status == Ok <==> out.Some?
    ensures status == Ok ==>
              Obtained(old(server.accounts), server.accounts, server.handles, name, recreate, route, out.value.handle, rid)
    ensures status == Ok && route == Opened ==> queried == old(server.accounts)[rid].flags
    ensures status == Ok ==>
      && out.value.domainSid == domainSid && out.value.accountSid == SamReply.AddRid(domainSid, rid)
      && server.accounts[rid] == Account(name, name, Enabled(queried), Some(out.value.password))
      && TrustType(queried) == acctType
      && (|out.value.password| == 8 || |out.value.password| == Max(8, server.minLength))
    ensures server.reliable && status == Ok ==> |out.value.password| == Max(8, server.minLength)
    ensures server.reliable && TrustType(acctType) == acctType && (recreate || !Existed(old(server.accounts), name)) ==>
              status == Ok
    ensures server.reliable && TrustType(acctType) != acctType && (recreate || !Existed(old(server.accounts), name)) ==>
              status == InvalidParameter
    ensures server.reliable && !recreate ==>
              forall r :: Named(old(server.accounts), r, name) ==>
                status == TypeCheck(old(server.accounts)[r].flags, acctType, true)
    ensures !recreate ==> OtherTypesKept(old(server.accounts), server.accounts, acctType)
    ensures !recreate && status != Ok ==> NamedKept(old(server.accounts), server.accounts, name)
  {
    out, queried := None, 0;
    var createStatus, handle, r;
    status, createStatus, handle, r, route := Obtain(server, name, acctType, recreate);
    rid := r;
    if status != Ok {
      return;
    }
    var password;
    status, password, queried := CheckAndEnable(server, handle, name, acctType, createStatus == UserExists);
    if status != Ok {
      return;
    }
    out := Some(Joined(domainSid, SamReply.AddRid(domainSid, r), password, handle));
  }
}
