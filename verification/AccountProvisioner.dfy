/** The account provisioner of the Matrix example: a vault and a homeserver that must agree on every live
    password while calls fail or lose their replies. */
module AccountProvisioner {
  import opened Contract

  datatype Account = Active(password: string) | Deactivated

  /** What becomes of one remote call: it works; it is refused without effect; it breaks before taking
      effect; it takes effect and the reply is lost. */
  datatype Fate = Done | Refused | Broken | Lost

  predicate Lands(f: Fate) { f == Done || f == Lost }

  /** The fates of all calls one request can make, each made at most once, and a rival that may create
      the account between lookup and registration. */
  datatype Fates = Fates(
    lookup: Fate, register: Fate, session: Fate, first: Fate, second: Fate, probe: Fate, naming: Fate,
    getFails: bool, setFails: bool, restoreFails: bool, removeFails: bool, rival: Option<string>)

  function Failed(f: Fate): nat { if f == Done then 0 else 1 }

  function Count(b: bool): nat { if b then 1 else 0 }

  function Failures(f: Fates): nat {
    Failed(f.lookup) + Failed(f.register) + Failed(f.session) + Failed(f.first) + Failed(f.second) + Failed(f.probe) +
    Failed(f.naming) + Count(f.getFails) + Count(f.setFails) + Count(f.restoreFails) + Count(f.removeFails)
  }

  // ----- the two stores -----

  class Vault {
    var entries: map<string, string>

    constructor (entries: map<string, string>)
      ensures this.entries == entries
    {
      this.entries := entries;
    }

    /** None stands for an absent entry and for a failed read alike. */
    method Get(ref: string, fails: bool) returns (value: Option<string>)
      ensures value == if fails || ref !in entries then None else Some(entries[ref])
    {
      value := if fails || ref !in entries then None else Some(entries[ref]);
    }

    /** A failed write has no effect. */
    method Set(ref: string, value: string, fails: bool) returns (ok: bool)
      modifies this
      ensures ok == !fails && entries == if ok then old(entries)[ref := value] else old(entries)
    {
      if !fails { entries := entries[ref := value]; }
      ok := !fails;
    }

    /** The outcome of a removal is not looked at. */
    method Remove(ref: string, fails: bool)
      modifies this
      ensures entries == if fails then old(entries) else old(entries) - {ref}
    {
      if !fails { entries := entries - {ref}; }
    }
  }

  datatype Answer = Accepted | Challenge | Rejected | Unreachable

  /** None: deactivate. */
  type Change = Option<string>

  function Applied(change: Change): Account { if change.Some? then Active(change.value) else Deactivated }

  /** Whether a password-protected change takes effect. */
  predicate Landed(asks: bool, matches: bool, first: Fate, second: Fate) {
    if asks then first == Done && Lands(second) && matches else Lands(first)
  }

  /** What with_password_auth makes of the replies; None is an exception. */
  function Verdict(asks: bool, matches: bool, first: Fate, second: Fate): Option<bool> {
    if !asks then if first == Done then Some(true) else None
    else if first != Done then None
    else match second
         case Done => Some(matches)
         case Refused => Some(false)
         case _ => None
  }

  class Homeserver {
    const asksPassword: bool
    const keepsProfile: bool
    var accounts: map<string, Account>
    var names: map<string, string>

    constructor (asksPassword: bool, keepsProfile: bool, accounts: map<string, Account>)
      ensures this.asksPassword == asksPassword && this.keepsProfile == keepsProfile && this.accounts == accounts
      ensures names == map[]
    {
      this.asksPassword, this.keepsProfile, this.accounts, names := asksPassword, keepsProfile, accounts, map[];
    }

    predicate Live(u: string)
      reads this`accounts
    {
      u in accounts && accounts[u].Active?
    }

    predicate Accepts(u: string, password: string)
      reads this`accounts
    {
      u in accounts && accounts[u] == Active(password)
    }

    /** A profile lookup; None is an exception. An answer is right about live and unknown accounts; a
        deactivated one is found only if the server keeps profiles. */
    method Exists(u: string, fate: Fate) returns (r: Option<bool>)
      ensures r.Some? <==> fate == Done
      ensures r.Some? && Live(u) ==> r.value
      ensures r.Some? && u !in accounts ==> !r.value
      ensures r.Some? && u in accounts && !Live(u) ==> r.value == keepsProfile
    {
      r := if fate != Done then None else Some(u in accounts && (Live(u) || keepsProfile));
    }

    method Register(u: string, password: string, fate: Fate) returns (r: Option<bool>)
      modifies this`accounts
      ensures accounts == if u !in old(accounts) && Lands(fate) then
        old(accounts)[u := Active(password)] else old(accounts)
      ensures r == if fate == Done then Some(u !in old(accounts)) else None
    {
      var taken := u in accounts;
      if !taken && Lands(fate) { accounts := accounts[u := Active(password)]; }
      r := if fate == Done then Some(!taken) else None;
    }

    method Session(u: string, fate: Fate) returns (ok: bool)
      ensures ok <==> fate == Done && Live(u)
    {
      ok := fate == Done && Live(u);
    }

    predicate Allows(u: string, auth: Option<string>)
      reads this`accounts
    {
      if auth.Some? then Accepts(u, auth.value) else !asksPassword
    }

    /** One request to a password-protected endpoint. */
    method Send(u: string, change: Change, auth: Option<string>, fate: Fate) returns (a: Answer)
      requires Live(u)
      modifies this`accounts
      ensures accounts == if old(Allows(u, auth)) && Lands(fate) then
        old(accounts)[u := Applied(change)] else old(accounts)
      ensures a == match fate
        case Done => if old(Allows(u, auth)) then Accepted else if auth == None then Challenge else Rejected
        case Refused => Rejected
        case _ => Unreachable
    {
      var allowed := Allows(u, auth);
      if allowed && Lands(fate) { accounts := accounts[u := Applied(change)]; }
      a := match fate
        case Done => if allowed then Accepted else if auth == None then Challenge else Rejected
        case Refused => Rejected
        case _ => Unreachable;
    }

    /** with_password_auth: the change lands, and what the caller learns of it. */
    method WithPasswordAuth(u: string, change: Change, password: string, first: Fate, second: Fate)
      returns (r: Option<bool>)
      requires Live(u)
      modifies this`accounts
      ensures accounts == if Landed(asksPassword, old(Accepts(u, password)), first, second) then
        old(accounts)[u := Applied(change)] else old(accounts)
      ensures r == Verdict(asksPassword, old(Accepts(u, password)), first, second)
    {
      var a := Send(u, change, None, first);
      if a == Accepted { return Some(true); }
      if a != Challenge { return None; }
      a := Send(u, change, Some(password), second);
      if a == Unreachable { return None; }
      return Some(a == Accepted);
    }

    /** password_works; None when the homeserver cannot say, and never a wrong answer. */
    method PasswordWorks(u: string, password: string, fate: Fate) returns (r: Option<bool>)
      ensures r.Some? <==> fate == Done
      ensures r.Some? ==> (r.value <==> Accepts(u, password))
    {
      r := if fate == Done then Some(Accepts(u, password)) else None;
    }

    method SetDisplayName(u: string, name: string, fate: Fate) returns (ok: bool)
      modifies this`names
      ensures names == if Live(u) && Lands(fate) then old(names)[u := name] else old(names)
      ensures ok <==> Live(u) && fate == Done
    {
      if Live(u) && Lands(fate) { names := names[u := name]; }
      ok := Live(u) && fate == Done;
    }
  }

  // ----- requests -----

  /** A request field that should be text. */
  datatype Text = Absent | NotText | Text(value: string)

  datatype Request = Request(localpart: Text, action: Text, displayName: Text)

  datatype Response = Reply(user: string, created: bool, password: Option<string>) | Error(status: nat)

  predicate ValidLocalpart(s: string) { |s| == 35 && "cb_" <= s && forall c :: c in s[3..] ==> LowerHex(c) }

  predicate ValidRequest(r: Request) {
    r.localpart.Text? && ValidLocalpart(r.localpart.value) &&
    r.action in {Text("ensure"), Text("reset"), Text("deactivate")} &&
    !r.displayName.NotText? && (r.displayName.Text? ==> |r.displayName.value| <= 256)
  }

  predicate Space(c: char) { c in " \t\n\r" || c == 11 as char || c == 12 as char }

  /** str.strip, on ASCII. */
  function Strip(s: string): string {
    if s == "" then ""
    else if Space(s[0]) then Strip(s[1..])
    else if Space(s[|s| - 1]) then Strip(s[..|s| - 1])
    else s
  }

  // ----- when a reset leaves the stores in agreement -----

  /** The reset gets as far as changing the vault. */
  predicate Attempted(f: Fates) { !f.getFails && f.session == Done && !f.setFails }

  /** The exact condition: a change that lands must be acknowledged, or confirmed by the probe, or not
      rolled back; one that does not land must be rolled back. */
  predicate Consistent(asks: bool, f: Fates) {
    Attempted(f) ==>
      if Landed(asks, true, f.first, f.second) then
        Verdict(asks, true, f.first, f.second) == Some(true) || f.probe == Done || f.restoreFails
      else !f.restoreFails
  }

  /** One failure is never enough to break agreement. */
  lemma SingleFailure(asks: bool, f: Fates)
    requires Failures(f) <= 1
    ensures Consistent(asks, f)
  {
    hide Landed, Verdict;
    if Attempted(f) { Unacknowledged(asks, f.first, f.second); }
  }

  lemma Unacknowledged(asks: bool, first: Fate, second: Fate)
    ensures first == Done && second == Done ==>
      Landed(asks, true, first, second) && Verdict(asks, true, first, second) == Some(true)
  {
  }

  class Provisioner {
    const vault: Vault
    const hs: Homeserver
    const prefix: string
    const server: string

    constructor (vault: Vault, hs: Homeserver, prefix: string, server: string)
      ensures this.vault == vault && this.hs == hs && this.prefix == prefix && this.server == server
    {
      this.vault, this.hs, this.prefix, this.server := vault, hs, prefix, server;
    }

    function Ref(u: string): string { prefix + "/" + u }

    function UserId(u: string): string { "@" + u + ":" + server }

    /** The vault holds the live password of this account, if it is live. */
    predicate Agrees(u: string)
      reads vault, hs`accounts
    {
      hs.Live(u) ==> Ref(u) in vault.entries && hs.Accepts(u, vault.entries[Ref(u)])
    }

    ghost predicate Agreement()
      reads vault, hs`accounts
    {
      forall u :: u in hs.accounts ==> Agrees(u)
    }

    /** A password one can log in with and the vault can reset. */
    predicate LiveInBoth(u: string, password: string)
      reads vault, hs`accounts
    {
      hs.Accepts(u, password) && Ref(u) in vault.entries && vault.entries[Ref(u)] == password
    }

    /** No other account was touched. */
    twostate predicate OnlyFor(u: string)
      reads vault, hs`accounts
    {
      (forall r :: r != Ref(u) ==>
       (r in vault.entries <==> r in old(vault.entries)) &&
       (r in vault.entries ==> vault.entries[r] == old(vault.entries)[r])) &&
      (forall v :: v != u ==>
       (v in hs.accounts <==> v in old(hs.accounts)) && (v in hs.accounts ==> hs.accounts[v] == old(hs.accounts)[v]))
    }

    twostate lemma OthersAgree(u: string)
      requires OnlyFor(u) && old(Agreement())
      ensures Agrees(u) <==> Agreement()
    {
      forall v | v != u && v in hs.accounts ensures Agrees(v) {
        RefInjective(u, v);
        assert old(Agrees(v));
      }
    }

    lemma RefInjective(u: string, v: string)
      ensures Ref(u) == Ref(v) <==> u == v
    {
      assert Ref(u)[|prefix| + 1..] == u && Ref(v)[|prefix| + 1..] == v;
    }

    // ----- the actions -----

    lemma SetBack(entries: map<string, string>, ref: string, value: string)
      ensures if ref in entries then
        entries[ref := value][ref := entries[ref]] == entries else entries[ref := value] - {ref} == entries
    {
    }

    /** Lost a race with another creator: restore what the vault held. */
    method TakeBack(u: string, previous: Option<string>, f: Fates) returns (ok: bool)
      modifies vault
      ensures forall r :: r != Ref(u) ==>
        (r in vault.entries <==> r in old(vault.entries)) &&
        (r in vault.entries ==> vault.entries[r] == old(vault.entries)[r])
      ensures Failures(f) == 0 ==> ok
      ensures previous == None ==>
        vault.entries == if f.removeFails then old(vault.entries) else old(vault.entries) - {Ref(u)}
      ensures previous.Some? ==>
        vault.entries == if f.restoreFails then old(vault.entries) else old(vault.entries)[Ref(u) := previous.value]
    {
      if previous == None {
        vault.Remove(Ref(u), f.removeFails);
        return true;
      }
      ok := vault.Set(Ref(u), previous.value, f.restoreFails);
    }

    /** What the vault holds for the account once a race is lost: the minted password if the registration's
        answer or the taking back failed, otherwise what the vault was read to hold before. */
    function Kept(entries: map<string, string>, u: string, minted: string, f: Fates): Option<string> {
      var previous := if f.getFails || Ref(u) !in entries then None else Some(entries[Ref(u)]);
      if f.register != Done || (if previous == None then f.removeFails else f.restoreFails) then
        Some(minted) else previous
    }

    /** create: the vault first, so no account lives with a password the host lost. From a lost race, the
        stores agree afterwards exactly when the vault is left with the winner's password. */
    method Create(u: string, minted: string, f: Fates) returns (r: Response)
      requires !hs.Live(u)
      modifies vault, hs`accounts
      ensures OnlyFor(u)
      ensures f.rival == None ==> Agrees(u)
      ensures old(u in hs.accounts) ==> Agrees(u)
      ensures f.rival.Some? && old(u !in hs.accounts) ==>
        hs.accounts == (if f.setFails then old(hs.accounts) else old(hs.accounts)[u := Active(f.rival.value)]) &&
        (Agrees(u) <==> f.setFails || Kept(old(vault.entries), u, minted, f) == f.rival)
      ensures r.Reply? ==> r.user == UserId(u) && r.created == r.password.Some?
      ensures r.Reply? && r.created ==> r.password == Some(minted) && LiveInBoth(u, minted)
      ensures r.Reply? && !r.created && Failures(f) == 0 ==> vault.entries == old(vault.entries)
      ensures r == Error(503) ==> vault.entries == old(vault.entries) && hs.accounts == old(hs.accounts)
      ensures Failures(f) == 0 ==>
        r == Reply(UserId(u), u !in old(hs.accounts) && f.rival == None, if u !in old(hs.accounts) &&
                   f.rival == None then Some(minted) else None)
    {
      var ref := Ref(u);
      var previous := vault.Get(ref, f.getFails);
      var ok := vault.Set(ref, minted, f.setFails);
      if !ok { return Error(503); }
      if f.rival.Some? && u !in hs.accounts { hs.accounts := hs.accounts[u := Active(f.rival.value)]; }
      var registered := hs.Register(u, minted, f.register);
      if registered == None { return Error(502); }
      if !registered.value {
        ok := TakeBack(u, previous, f);
        SetBack(old(vault.entries), ref, minted);
        return if ok then Reply(UserId(u), false, None) else Error(500);
      }
      return Reply(UserId(u), true, Some(minted));
    }

    /** The new password reaches the homeserver. */
    predicate ResetLands(accounts: map<string, Account>, entries: map<string, string>, u: string, f: Fates) {
      Attempted(f) && Ref(u) in entries && u in accounts && accounts[u].Active? &&
      Landed(hs.asksPassword, accounts[u] == Active(entries[Ref(u)]), f.first, f.second)
    }

    /** The homeserver has the new password exactly if it reached it; the vault has the old or the new one. */
    twostate predicate ResetOutcome(u: string, minted: string, f: Fates)
      reads vault, hs`accounts
    {
      hs.accounts == (if ResetLands(old(hs.accounts), old(vault.entries), u, f)
                      then old(hs.accounts)[u := Active(minted)] else old(hs.accounts)) &&
      (vault.entries == old(vault.entries) || vault.entries == old(vault.entries)[Ref(u) := minted])
    }

    /** reset: a returned password is live in both stores, whatever failed. From agreement, the stores
        agree afterwards exactly when the fates are consistent. */
    method Reset(u: string, minted: string, f: Fates) returns (r: Response)
      modifies vault, hs`accounts
      ensures OnlyFor(u)
      ensures r.Reply? ==> r == Reply(UserId(u), false, Some(minted)) && LiveInBoth(u, minted)
      ensures old(hs.Live(u) && Agrees(u)) && old(vault.entries[Ref(u)]) != minted ==>
        (Agrees(u) <==> Consistent(hs.asksPassword, f))
      ensures old(Agrees(u)) && Consistent(hs.asksPassword, f) ==> Agrees(u)
      ensures ResetOutcome(u, minted, f)
      ensures old(Agrees(u)) && Failures(f) <= 1 && r.Error? ==>
        vault.entries == old(vault.entries) && hs.accounts == old(hs.accounts)
      ensures Failures(f) == 0 ==>
        (r.Reply? <==> old(hs.Live(u) && Ref(u) in vault.entries && (hs.asksPassword ==> Agrees(u))))
      ensures Failures(f) == 0 && r.Error? ==> vault.entries == old(vault.entries) && hs.accounts == old(hs.accounts)
    {
      if Failures(f) <= 1 { SingleFailure(hs.asksPassword, f); }
      var current := vault.Get(Ref(u), f.getFails);
      if current == None { return Error(409); }
      var opened_ := hs.Session(u, f.session);
      if !opened_ { return Error(502); }
      r := Rotate(u, minted, current.value, f);
    }

    /** The change is known to have landed: acknowledged, or confirmed by the probe. */
    predicate Known(verdict: Option<bool>, confirmed: bool) { verdict == Some(true) || (verdict == None && confirmed) }

    /** The new password stays in the vault: it is known to be live, or the roll-back fails. */
    predicate Stays(verdict: Option<bool>, confirmed: bool, f: Fates) {
      !f.setFails && (Known(verdict, f.probe == Done && confirmed) || f.restoreFails)
    }

    /** reset with a session open: change the vault, then the homeserver, and roll the vault back unless
        the change is known to have landed. */
    method Rotate(u: string, minted: string, current: string, f: Fates) returns (r: Response)
      requires hs.Live(u) && Ref(u) in vault.entries && vault.entries[Ref(u)] == current
      modifies vault, hs`accounts
      ensures hs.accounts == if !f.setFails && Landed(hs.asksPassword, old(hs.Accepts(u, current)), f.first, f.second)
                             then old(hs.accounts)[u := Active(minted)] else old(hs.accounts)
      ensures vault.entries ==
        if Stays(Verdict(hs.asksPassword, old(hs.Accepts(u, current)), f.first, f.second), hs.Accepts(u, minted), f)
                               then old(vault.entries)[Ref(u) := minted] else old(vault.entries)
      ensures r.Reply? <==>
        !f.setFails && Known(Verdict(hs.asksPassword, old(hs.Accepts(u, current)), f.first, f.second),
                             f.probe == Done && hs.Accepts(u, minted))
      ensures r.Reply? ==> r == Reply(UserId(u), false, Some(minted))
    {
      hide Verdict, Landed;
      var ok := vault.Set(Ref(u), minted, f.setFails);
      if !ok { return Error(503); }
      SetBack(old(vault.entries), Ref(u), minted);
      var changed := hs.WithPasswordAuth(u, Some(minted), current, f.first, f.second);
      if changed == None {
        var works := hs.PasswordWorks(u, minted, f.probe);
        if works != Some(true) {
          ok := vault.Set(Ref(u), current, f.restoreFails);
          return Error(if ok then 502 else 500);
        }
      } else if !changed.value {
        ok := vault.Set(Ref(u), current, f.restoreFails);
        return Error(if ok then 409 else 500);
      }
      return Reply(UserId(u), false, Some(minted));
    }

    /** deactivate: no fate can make a live account lose its password. */
    method Deactivate(u: string, f: Fates) returns (r: Response)
      modifies vault, hs`accounts
      ensures OnlyFor(u)
      ensures old(Agrees(u)) ==> Agrees(u)
      ensures r.Reply? ==> r == Reply(UserId(u), false, None) && u in hs.accounts && hs.accounts[u] == Deactivated
      ensures r.Reply? && Failures(f) == 0 ==> Ref(u) !in vault.entries
      ensures u !in old(hs.accounts) && f.lookup == Done ==> r == Error(404)
      ensures hs.Live(u) ==> hs.accounts == old(hs.accounts) && vault.entries == old(vault.entries)
      ensures Failures(f) == 0 ==>
        (r.Reply? <==> old(hs.Live(u) && Ref(u) in vault.entries && (hs.asksPassword ==> Agrees(u))))
    {
      var ref := Ref(u);
      var exists_ := hs.Exists(u, f.lookup);
      if exists_ == None { return Error(502); }
      if !exists_.value { return Error(404); }
      var current := vault.Get(ref, f.getFails);
      if current == None { return Error(409); }
      var opened_ := hs.Session(u, f.session);
      if !opened_ { return Error(502); }
      var done := hs.WithPasswordAuth(u, None, current.value, f.first, f.second);
      if done == None { return Error(502); }
      if !done.value { return Error(409); }
      vault.Remove(ref, f.removeFails);
      return Reply(UserId(u), false, None);
    }

    /** display_name: a failure never costs a password already minted. */
    method DisplayName(u: string, name: string, before: Response, fate: Fate) returns (r: Response)
      requires before.Reply?
      modifies hs`names
      ensures before.password.Some? ==> r == before
      ensures r == before || r == Error(502)
      ensures before.password == None && r == before ==> hs.Live(u) && u in hs.names && hs.names[u] == name
      ensures hs.Live(u) && fate == Done ==> r == before && u in hs.names && hs.names[u] == name
      ensures forall v :: v != u ==>
        (v in hs.names <==> v in old(hs.names)) && (v in hs.names ==> hs.names[v] == old(hs.names)[v])
    {
      var ok := hs.SetDisplayName(u, name, fate);
      r := if !ok && before.password == None then Error(502) else before;
    }

    /** The response carries only a password that is live in both stores. */
    predicate Truthful(u: string, r: Response)
      reads vault, hs`accounts
    {
      r.Reply? && r.password.Some? ==> LiveInBoth(u, r.password.value)
    }

    /** ensure, reset and deactivate, dispatched as handle does. */
    method Act(u: string, action: string, minted: string, f: Fates) returns (r: Response)
      requires action in {"ensure", "reset", "deactivate"}
      modifies vault, hs`accounts
      ensures OnlyFor(u) && Truthful(u, r)
      ensures old(Agrees(u)) && f.rival == None && (action == "reset" ==> Consistent(hs.asksPassword, f)) ==> Agrees(u)
      ensures r.Reply? ==> r.user == UserId(u) && (r.created ==> r.password.Some?)
      ensures action == "reset" && old(hs.Live(u) && Agrees(u)) && old(vault.entries[Ref(u)]) != minted ==>
        (Agrees(u) <==> f.lookup != Done || Consistent(hs.asksPassword, f))
      ensures action == "reset" && old(hs.Live(u)) && f.lookup == Done ==> ResetOutcome(u, minted, f)
      ensures action == "ensure" && old(hs.Live(u)) ==>
        vault.entries == old(vault.entries) && hs.accounts == old(hs.accounts)
      ensures action == "deactivate" && r.Reply? ==> u in hs.accounts && hs.accounts[u] == Deactivated
      ensures Failures(f) == 0 && f.rival == None && old(u !in hs.accounts) ==>
        r == if action == "deactivate" then Error(404) else Reply(UserId(u), true, Some(minted))
      ensures Failures(f) == 0 && old(Agrees(u) && hs.Live(u)) ==>
        r == Reply(UserId(u), false, if action == "reset" then Some(minted) else None)
    {
      if action == "deactivate" {
        r := Deactivate(u, f);
        return;
      }
      var exists_ := hs.Exists(u, f.lookup);
      if exists_ == None { return Error(502); }
      if !exists_.value {
        r := Create(u, minted, f);
      } else if action == "reset" {
        r := Reset(u, minted, f);
      } else {
        r := Reply(UserId(u), false, None);
      }
    }

    /** A valid request to reset an account that was live. */
    twostate predicate ResetsLive(request: Request)
    {
      ValidRequest(request) && request.action == Text("reset") && old(hs.Live(request.localpart.value))
    }

    /** handle. */
    method Handle(request: Request, minted: string, f: Fates) returns (r: Response)
      modifies vault, hs
      ensures !ValidRequest(request) ==> r == Error(400) && Untouched()
      ensures ValidRequest(request) ==> OnlyFor(request.localpart.value) && Truthful(request.localpart.value, r)
      ensures old(Agreement()) && f.rival == None &&
              (request.action == Text("reset") ==> Consistent(hs.asksPassword, f)) ==>
        Agreement()
      ensures old(Agreement()) && f.rival == None && Failures(f) <= 1 ==> Agreement()
      ensures ResetsLive(request) && old(Agreement() && vault.entries[Ref(request.localpart.value)] != minted) ==>
        (Agreement() <==> f.lookup != Done || Consistent(hs.asksPassword, f))
      ensures ResetsLive(request) && f.lookup == Done ==> ResetOutcome(request.localpart.value, minted, f)
      ensures Failures(f) == 0 && f.rival == None && old(Agreement()) && ValidRequest(request) &&
              request.action != Text("deactivate") ==>
        old(var u := request.localpart.value; u !in hs.accounts || hs.Live(u)) ==>
        r.Reply? && r.created == (request.localpart.value !in old(hs.accounts)) &&
        (r.password.Some? <==> r.created || request.action == Text("reset"))
    {
      if Failures(f) <= 1 { SingleFailure(hs.asksPassword, f); }
      hide Consistent, ResetLands, Failures, Strip, ValidLocalpart;
      if !ValidRequest(request) { return Error(400); }
      var u := request.localpart.value;
      r := Act(u, request.action.value, minted, f);
      if old(Agreement()) { OthersAgree(u); }
      if r.Reply? && request.action.value != "deactivate" && request.displayName.Text? &&
        Strip(request.displayName.value) != "" {
        r := DisplayName(u, Strip(request.displayName.value), r, f.naming);
      }
    }

    twostate predicate Untouched()
      reads vault, hs
    {
      vault.entries == old(vault.entries) && hs.accounts == old(hs.accounts) && hs.names == old(hs.names)
    }

    /** Any sequence of requests, at most one failure each: the stores agree after every one of them, and
        every password handed out was live in both when it was. */
    method Serve(requests: seq<Request>, minted: seq<string>, fates: seq<Fates>)
      returns (responses: seq<Response>, states: seq<Stores>)
      requires |minted| == |requests| && |fates| == |requests|
      requires Agreement() && forall i :: 0 <= i < |fates| ==> Failures(fates[i]) <= 1 && fates[i].rival == None
      modifies vault, hs
      ensures |responses| == |requests| && |states| == |requests| && Agreement()
      ensures forall i :: 0 <= i < |states| ==> InAgreement(prefix, states[i])
      ensures forall i :: 0 <= i < |states| && responses[i].Reply? && responses[i].password.Some? ==>
        ValidRequest(requests[i]) && Held(prefix, states[i], requests[i].localpart.value, responses[i].password.value)
    {
      responses, states := [], [];
      for i := 0 to |requests|
        invariant |responses| == i && |states| == i && Agreement()
        invariant forall k :: 0 <= k < i ==> InAgreement(prefix, states[k])
        invariant forall k :: 0 <= k < i && responses[k].Reply? && responses[k].password.Some? ==>
          ValidRequest(requests[k]) && Held(prefix, states[k], requests[k].localpart.value, responses[k].password.value)
      {
        var r := Handle(requests[i], minted[i], fates[i]);
        responses, states := responses + [r], states + [Stores(vault.entries, hs.accounts)];
        StoresAgree();
      }
    }

    lemma StoresAgree()
      requires Agreement()
      ensures InAgreement(prefix, Stores(vault.entries, hs.accounts))
    {
      forall u | u in hs.accounts && hs.accounts[u].Active?
        ensures Held(prefix, Stores(vault.entries, hs.accounts), u, hs.accounts[u].password)
      {
        assert Agrees(u);
      }
    }
  }

  /** A snapshot of both stores. */
  datatype Stores = Stores(entries: map<string, string>, accounts: map<string, Account>)

  predicate Held(prefix: string, s: Stores, u: string, password: string) {
    u in s.accounts && s.accounts[u] == Active(password) &&
    prefix + "/" + u in s.entries && s.entries[prefix + "/" + u] == password
  }

  ghost predicate InAgreement(prefix: string, s: Stores) {
    forall u :: u in s.accounts && s.accounts[u].Active? ==> Held(prefix, s, u, s.accounts[u].password)
  }

  const NO_FAILURE := Fates(Done, Done, Done, Done, Done, Done, Done, false, false, false, false, None)

  /** Two failures of one request are enough, whatever the account: the change lands, its reply is lost, and
      the probe breaks. The vault is rolled back and the account's live password is held by nobody. */
  method TwoFailures(u: string) returns (p: Provisioner, f: Fates)
    requires ValidLocalpart(u)
    ensures Failures(f) == 2 && f.rival == None
    ensures !p.Agreement() && p.hs.Accepts(u, "new") && p.vault.entries == map[p.Ref(u) := "old"]
  {
    hide ValidLocalpart;
    f := NO_FAILURE.(second := Lost, probe := Broken);
    var hs := new Homeserver(true, true, map[u := Active("old")]);
    var vault := new Vault(map["p/" + u := "old"]);
    p := new Provisioner(vault, hs, "p", "example.org");
    assert p.Ref(u) == "p/" + u;
    assert p.Agrees(u);
    var r := p.Handle(Request(Text(u), Text("reset"), Absent), "new", f);
    assert "old"[0] != "new"[0];
  }
}
