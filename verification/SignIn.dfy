/** Sign-in identifiers of the accounts of one tenant (the user routes of apps/api/src/routes/admin.ts). */
module SignIn {
  import opened Wrappers
  import opened SignInText
  import opened Separators
  import Names

  /** Lower case without separators. */
  function Fold(t: TextRules, s: string): string { t.strip(t.lower(t.btrim(s))) }

  // ------------------------------------------------------------------ accounts

  datatype Account = Account(email: string, username: Option<string>)

  type Accounts = map<int, Account>

  /** COALESCE(username, '') */
  function NameOf(a: Account): string { match a.username case None => "" case Some(u) => u }

  /** The clash predicate: the resolver's own condition turned onto a candidate value. */
  predicate Clashes(t: TextRules, a: Account, candidate: string)
  {
    || t.lower(a.email) == t.lower(t.btrim(candidate))
    || t.lower(NameOf(a)) == t.lower(t.btrim(candidate))
    || (Fold(t, candidate) != "" && Fold(t, NameOf(a)) == Fold(t, candidate))
  }

  /** Which candidates clash with an account: its address, its user name, or the folded form of the latter. */
  lemma ClashesIff(t: TextRules, a: Account, candidate: string)
    ensures var name := if a.username.Some? then a.username.value else "";
            var folded := t.strip(t.lower(t.btrim(candidate)));
            Clashes(t, a, candidate) <==>
              || t.lower(t.btrim(candidate)) in {t.lower(a.email), t.lower(name)}
              || (folded != "" && t.strip(t.lower(t.btrim(name))) == folded)
  {}

  predicate IdentifierTaken(t: TextRules, users: Accounts, except: int, candidate: string)
  {
    exists id :: id in users && id != except && Clashes(t, users[id], candidate)
  }

  /** text@text.text without white space and with one @. */
  predicate EmailShape(s: string)
  {
    && NoSpace(s)
    && exists at :: 0 < at < |s| && s[at] == '@' && (forall i :: 0 <= i < |s| && s[i] == '@' ==> i == at)
         && exists dot :: at + 1 < dot < |s| - 1 && s[dot] == '.'
  }

  function LocalPart(s: string): (r: string)
    ensures r <= s && '@' !in r
  {
    if s == "" || s[0] == '@' then "" else [s[0]] + LocalPart(s[1..])
  }

  datatype Failure = NotFound | BadEmail | EmailTaken | UsernameTaken | NameRequired | BadStatus

  const USER_STATUSES := {
    "INVITED", "PENDING_ACTIVATION", "ACTIVE", "INACTIVE", "SUSPENDED", "LOCKED", "DISABLED", "TERMINATED"}

  datatype NewUser = NewUser(
    email: string, firstName: string, lastName: string, username: Option<string>, invite: bool, status: Option<string>)

  function StatusOf(b: NewUser): string
  {
    var given := match b.status case None => "ACTIVE" case Some(s) => Names.UpperCase(s);
    if b.invite || given == "INVITED" then "INVITED" else given
  }

  /** The address as stored, and the user name: the one given, or the part of the address before the @. */
  function NewAccount(t: TextRules, b: NewUser): Account
  {
    var email := t.lower(t.trim(b.email));
    var given := match b.username case None => "" case Some(u) => t.trim(u);
    Account(email, Some(if given != "" then given else LocalPart(email)))
  }

  function Created(t: TextRules, users: Accounts, b: NewUser): Result<Account, Failure>
  {
    var a := NewAccount(t, b);
    if !EmailShape(a.email) then Err(BadEmail)
    else if t.trim(b.firstName) == "" || t.trim(b.lastName) == "" then Err(NameRequired)
    else if IdentifierTaken(t, users, 0, a.email) then Err(EmailTaken)
    else if IdentifierTaken(t, users, 0, a.username.value) then Err(UsernameTaken)
    else if StatusOf(b) !in USER_STATUSES then Err(BadStatus)
    else Ok(a)
  }

  /** Identifier part of a change; an absent field is None. */
  datatype Change = Change(email: Option<string>, username: Option<string>)

  function ChangedEmail(t: TextRules, users: Accounts, id: int, b: Change): Result<string, Failure>
    requires id in users
  {
    match b.email
    case None => Ok(users[id].email)
    case Some(raw) =>
      var email := t.lower(t.trim(raw));
      if !EmailShape(email) then Err(BadEmail)
      else if IdentifierTaken(t, users, id, email) then Err(EmailTaken)
      else Ok(if email != t.lower(users[id].email) then email else users[id].email)
  }

  function ChangedUsername(t: TextRules, users: Accounts, id: int, b: Change): Result<Option<string>, Failure>
    requires id in users
  {
    match b.username
    case None => Ok(users[id].username)
    case Some(raw) =>
      if t.trim(raw) == "" then Ok(None)
      else if IdentifierTaken(t, users, id, t.trim(raw)) then Err(UsernameTaken)
      else Ok(Some(t.trim(raw)))
  }

  function Changed(t: TextRules, users: Accounts, id: int, b: Change): Result<Account, Failure>
    requires id in users
  {
    match ChangedEmail(t, users, id, b)
    case Err(e) => Err(e)
    case Ok(email) =>
      match ChangedUsername(t, users, id, b)
      case Err(e) => Err(e)
      case Ok(username) => Ok(Account(email, username))
  }

  // ------------------------------------------------------------------ the invariant

  /** Two accounts that share no address, no user name, and no address with a user name. */
  predicate KeysApart(t: TextRules, a: Account, b: Account)
  {
    && t.lower(a.email) != t.lower(b.email)
    && (b.username.Some? ==> t.lower(a.email) != t.lower(b.username.value))
    && (a.username.Some? ==> t.lower(b.email) != t.lower(a.username.value))
    && (a.username.Some? && b.username.Some? ==>
          && t.lower(a.username.value) != t.lower(b.username.value)
          && (Fold(t, a.username.value) == Fold(t, b.username.value) ==> Fold(t, a.username.value) == ""))
  }

  predicate Tidy(t: TextRules, a: Account) { t.btrim(a.email) == a.email && t.btrim(NameOf(a)) == NameOf(a) }

  ghost predicate KeysDistinct(t: TextRules, users: Accounts)
  {
    && (forall id :: id in users ==> Tidy(t, users[id]))
    && (forall i, j :: i in users && j in users && i != j ==> KeysApart(t, users[i], users[j]))
  }

  lemma NewAccountIsTidy(t: TextRules, b: NewUser)
    requires Lawful(t)
    ensures EmailShape(NewAccount(t, b).email) ==> Tidy(t, NewAccount(t, b))
  {
    var a := NewAccount(t, b);
    if EmailShape(a.email) {
      var given := match b.username case None => "" case Some(u) => t.trim(u);
      if given == "" {
        var local := LocalPart(a.email);
        assert forall i :: 0 <= i < |local| ==> local[i] == a.email[i];
        assert NoSpace(local);
      }
    }
  }

  /** The identifiers an account may take over: its own old ones, or ones that clash with no other account. */
  predicate MayHold(t: TextRules, users: Accounts, id: int, a: Account)
  {
    && Tidy(t, a)
    && ((id in users && a.email == users[id].email) || !IdentifierTaken(t, users, id, a.email))
    && ((id in users && a.username == users[id].username) || a.username.None?
        || !IdentifierTaken(t, users, id, a.username.value))
  }

  lemma HolderIsApart(t: TextRules, users: Accounts, id: int, a: Account, j: int)
    requires KeysDistinct(t, users) && MayHold(t, users, id, a) && j in users && j != id
    ensures KeysApart(t, a, users[j])
  {
    var other := users[j];
    if id in users { assert KeysApart(t, users[id], other); }
    if !IdentifierTaken(t, users, id, a.email) {
      assert !Clashes(t, other, a.email);
    }
    if a.username.Some? && !IdentifierTaken(t, users, id, a.username.value) {
      assert !Clashes(t, other, a.username.value);
    }
  }

  lemma HolderStaysDistinct(t: TextRules, users: Accounts, id: int, a: Account)
    requires KeysDistinct(t, users) && MayHold(t, users, id, a)
    ensures KeysDistinct(t, users[id := a])
  {
    var next := users[id := a];
    forall i, j | i in next && j in next && i != j ensures KeysApart(t, next[i], next[j]) {
      if i == id { HolderIsApart(t, users, id, a, j); }
      else if j == id { HolderIsApart(t, users, id, a, i); }
    }
  }

  lemma CreatedMayHold(t: TextRules, users: Accounts, b: NewUser, id: int)
    requires Lawful(t) && 0 !in users && id !in users && Created(t, users, b).Ok?
    ensures MayHold(t, users, id, Created(t, users, b).value)
  {
    NewAccountIsTidy(t, b);
  }

  lemma ChangedMayHold(t: TextRules, users: Accounts, id: int, b: Change)
    requires Lawful(t) && id in users && Tidy(t, users[id]) && Changed(t, users, id, b).Ok?
    ensures MayHold(t, users, id, Changed(t, users, id, b).value)
  {
    assert b.email.Some? ==> ChangedEmail(t, users, id, b).value == users[id].email
                             || !IdentifierTaken(t, users, id, ChangedEmail(t, users, id, b).value);
  }

  // ------------------------------------------------------------------ the routes

  class Directory {
    const t: TextRules
    var users: Accounts
    var nextId: int

    /** Serial keys start at 1, so 0 excludes nobody. */
    ghost predicate Valid()
      reads this
    {
      Lawful(t) && KeysDistinct(t, users) && nextId > 0 && forall id :: id in users ==> 0 < id < nextId
    }

    constructor (t: TextRules)
      requires Lawful(t)
      ensures Valid() && users == map[] && this.t == t
    {
      this.t := t;
      users, nextId := map[], 1;
    }

    method CreateUser(b: NewUser) returns (r: Result<int, Failure>)
      requires Valid()
      modifies this
      ensures Valid()
      ensures match Created(t, old(users), b)
              case Ok(a) => r == Ok(old(nextId)) && users == old(users)[old(nextId) := a] && nextId == old(nextId) + 1
              case Err(e) => r == Err(e) && users == old(users) && nextId == old(nextId)
      ensures (users, nextId) == After(t, old(users), old(nextId), Post(b))
    {
      var email := t.lower(t.trim(b.email));
      if !EmailShape(email) {
        return Err(BadEmail);
      }
      if t.trim(b.firstName) == "" || t.trim(b.lastName) == "" {
        return Err(NameRequired);
      }
      var username :=
        if b.username.Some? && t.trim(b.username.value) != "" then t.trim(b.username.value) else LocalPart(email);
      if IdentifierTaken(t, users, 0, email) {
        return Err(EmailTaken);
      }
      if IdentifierTaken(t, users, 0, username) {
        return Err(UsernameTaken);
      }
      if StatusOf(b) !in USER_STATUSES {
        return Err(BadStatus);
      }
      CreatedMayHold(t, users, b, nextId);
      HolderStaysDistinct(t, users, nextId, Account(email, Some(username)));
      users := users[nextId := Account(email, Some(username))];
      nextId := nextId + 1;
      return Ok(nextId - 1);
    }

    method PatchUser(id: int, b: Change) returns (r: Result<(), Failure>)
      requires Valid()
      modifies this`users
      ensures Valid()
      ensures id !in old(users) ==> r == Err(NotFound) && users == old(users)
      ensures id in old(users) ==>
                match Changed(t, old(users), id, b)
                case Ok(a) => r == Ok(()) && users == old(users)[id := a]
                case Err(e) => r == Err(e) && users == old(users)
      ensures (users, nextId) == After(t, old(users), nextId, Patch(id, b))
    {
      if id !in users {
        return Err(NotFound);
      }
      var next := users[id];
      if b.email.Some? {
        var email := t.lower(t.trim(b.email.value));
        if !EmailShape(email) {
          return Err(BadEmail);
        }
        if IdentifierTaken(t, users, id, email) {
          return Err(EmailTaken);
        }
        if email != t.lower(next.email) {
          next := next.(email := email);
        }
      }
      if b.username.Some? {
        var raw := t.trim(b.username.value);
        if raw != "" && IdentifierTaken(t, users, id, raw) {
          return Err(UsernameTaken);
        }
        next := next.(username := if raw == "" then None else Some(raw));
      }
      ChangedMayHold(t, users, id, b);
      HolderStaysDistinct(t, users, id, next);
      users := users[id := next];
      return Ok(());
    }
  }

  datatype Call = Post(b: NewUser) | Patch(id: int, c: Change)

  function After(t: TextRules, users: Accounts, nextId: int, call: Call): (Accounts, int)
  {
    match call
    case Post(b) =>
      (match Created(t, users, b) case Ok(a) => (users[nextId := a], nextId + 1) case Err(_) => (users, nextId))
    case Patch(id, c) =>
      if id !in users then (users, nextId)
      else (match Changed(t, users, id, c) case Ok(a) => (users[id := a], nextId) case Err(_) => (users, nextId))
  }

  function Run(t: TextRules, users: Accounts, nextId: int, calls: seq<Call>): (Accounts, int)
  {
    if calls == [] then (users, nextId)
    else var (u, n) := Run(t, users, nextId, calls[..|calls| - 1]); After(t, u, n, calls[|calls| - 1])
  }

  /** No sequence of creates and changes makes two accounts share a sign-in key. */
  lemma {:induction false} EveryRunKeepsKeysDistinct(t: TextRules, users: Accounts, nextId: int, calls: seq<Call>)
    requires Lawful(t) && KeysDistinct(t, users) && nextId > 0 && forall id :: id in users ==> 0 < id < nextId
    ensures var (u, n) := Run(t, users, nextId, calls);
            KeysDistinct(t, u) && n > 0 && forall id :: id in u ==> 0 < id < n
  {
    if calls != [] {
      var call := calls[|calls| - 1];
      EveryRunKeepsKeysDistinct(t, users, nextId, calls[..|calls| - 1]);
      var (u, n) := Run(t, users, nextId, calls[..|calls| - 1]);
      match call
      case Post(b) =>
        if Created(t, u, b).Ok? {
          CreatedMayHold(t, u, b, n);
          HolderStaysDistinct(t, u, n, Created(t, u, b).value);
        }
      case Patch(id, c) =>
        if id in u && Changed(t, u, id, c).Ok? {
          ChangedMayHold(t, u, id, c);
          HolderStaysDistinct(t, u, id, Changed(t, u, id, c).value);
        }
    }
  }

  // ------------------------------------------------------------------ what the routes store

  lemma {:induction false} LocalPartEndsAtTheSign(local: string, domain: string)
    requires '@' !in local
    ensures LocalPart(local + "@" + domain) == local
  {
    var s := local + "@" + domain;
    if local != "" {
      assert s[1..] == local[1..] + "@" + domain;
      LocalPartEndsAtTheSign(local[1..], domain);
    }
  }

  lemma ShapedAddressHasItsParts(s: string) returns (local: string, domain: string)
    requires EmailShape(s)
    ensures s == local + "@" + domain && '@' !in local && LocalPart(s) == local
  {
    var at :| 0 < at < |s| && s[at] == '@' && forall i :: 0 <= i < |s| && s[i] == '@' ==> i == at;
    local, domain := s[..at], s[at + 1..];
    assert s == local + "@" + domain;
    LocalPartEndsAtTheSign(local, domain);
  }

  /** What stands on either side of the sign. */
  lemma SidesOfTheSign(local: string, domain: string)
    requires '@' !in local
    ensures var s, n := local + "@" + domain, |local|;
            && s[n] == '@' && (forall i :: 0 <= i < n ==> s[i] == local[i] && s[i] != '@')
            && forall i :: n < i < |s| ==> s[i] == domain[i - n - 1]
  {}

  predicate HasInnerDot(domain: string) { exists dot :: 0 < dot < |domain| - 1 && domain[dot] == '.' }

  lemma ShapedAddressIsMadeOf(local: string, domain: string)
    requires '@' !in local && EmailShape(local + "@" + domain)
    ensures local != "" && NoSpace(local) && NoSpace(domain) && '@' !in domain && HasInnerDot(domain)
  {
    var s, n := local + "@" + domain, |local|;
    SidesOfTheSign(local, domain);
    var at :| 0 < at < |s| && s[at] == '@' && (forall i :: 0 <= i < |s| && s[i] == '@' ==> i == at)
              && exists dot :: at + 1 < dot < |s| - 1 && s[dot] == '.';
    assert at == n;
    var dot :| at + 1 < dot < |s| - 1 && s[dot] == '.';
    assert domain[dot - n - 1] == '.';
    forall i | 0 <= i < |domain| ensures domain[i] != '@' && !IsSpace(domain[i]) {
      assert domain[i] == s[n + 1 + i];
    }
    forall i | 0 <= i < |local| ensures !IsSpace(local[i]) { assert local[i] == s[i]; }
  }

  /** Exactly these are addresses: a local part, one @ and a domain with a dot inside, all without white space. */
  lemma EmailShapeIff(local: string, domain: string)
    requires '@' !in local
    ensures EmailShape(local + "@" + domain) <==>
            local != "" && NoSpace(local) && NoSpace(domain) && '@' !in domain && HasInnerDot(domain)
  {
    var s, n := local + "@" + domain, |local|;
    if EmailShape(s) {
      ShapedAddressIsMadeOf(local, domain);
    } else if NoSpace(local) && NoSpace(domain) && '@' !in domain && HasInnerDot(domain) {
      SidesOfTheSign(local, domain);
      var dot :| 0 < dot < |domain| - 1 && domain[dot] == '.';
      assert s[n + 1 + dot] == '.';
    }
  }

  /** Nobody else answers to this identifier. */
  predicate FreeOf(t: TextRules, users: Accounts, id: int, candidate: string)
  {
    forall j :: j in users && j != id ==> !Clashes(t, users[j], candidate)
  }

  /** The user name a new account asks for. */
  predicate AsksForName(t: TextRules, b: NewUser) { b.username.Some? && t.trim(b.username.value) != "" }

  /** Exactly which new accounts are accepted. */
  lemma CreateIsAcceptedIff(t: TextRules, users: Accounts, nextId: int, b: NewUser)
    requires nextId !in users && 0 !in users
    ensures nextId in After(t, users, nextId, Post(b)).0 <==>
            var email := t.lower(t.trim(b.email));
            && EmailShape(email) && t.trim(b.firstName) != "" && t.trim(b.lastName) != ""
            && FreeOf(t, users, nextId, email)
            && FreeOf(t, users, nextId, if AsksForName(t, b) then t.trim(b.username.value) else LocalPart(email))
            && (b.invite || b.status.None? || Names.UpperCase(b.status.value) in
                  {"INVITED", "PENDING_ACTIVATION", "ACTIVE", "INACTIVE", "SUSPENDED", "LOCKED", "DISABLED",
                   "TERMINATED"})
  {
    hide Clashes, EmailShape, LocalPart, Names.UpperCase;
  }

  /** What an accepted creation stores, and that sign-in finds the account under it. */
  lemma CreatedIsFound(t: TextRules, users: Accounts, nextId: int, b: NewUser)
    requires Lawful(t) && nextId !in users && nextId in After(t, users, nextId, Post(b)).0
    ensures var (after, n) := After(t, users, nextId, Post(b));
            var a := after[nextId];
            && n == nextId + 1 && after - {nextId} == users
            && a.email == t.lower(t.trim(b.email)) && a.username.Some?
            && (AsksForName(t, b) ==> a.username.value == t.trim(b.username.value))
            && (!AsksForName(t, b) ==>
                  '@' !in a.username.value && exists domain :: a.email == a.username.value + "@" + domain)
            && Resolves(t, a, a.email) && Resolves(t, a, a.username.value)
  {
    var a := After(t, users, nextId, Post(b)).0[nextId];
    NewAccountIsTidy(t, b);
    var local, domain := ShapedAddressHasItsParts(a.email);
  }

  /** Exactly which changes of identifiers are accepted. */
  predicate ChangeAccepted(t: TextRules, users: Accounts, id: int, b: Change)
  {
    && (b.email.Some? ==>
          EmailShape(t.lower(t.trim(b.email.value))) && FreeOf(t, users, id, t.lower(t.trim(b.email.value))))
    && (b.username.Some? && t.trim(b.username.value) != "" ==> FreeOf(t, users, id, t.trim(b.username.value)))
  }

  /**
   A change stores the identifiers it gives, an address only if it differs in more than case, and leaves the others;
   refused, nothing moves.
   */
  lemma ChangeStores(t: TextRules, users: Accounts, nextId: int, id: int, b: Change)
    requires id in users
    ensures !ChangeAccepted(t, users, id, b) ==> After(t, users, nextId, Patch(id, b)) == (users, nextId)
    ensures ChangeAccepted(t, users, id, b) ==>
              var (after, n) := After(t, users, nextId, Patch(id, b));
              && n == nextId && id in after && after.Keys == users.Keys && after - {id} == users - {id}
              && (b.email.None? ==> after[id].email == users[id].email)
              && (b.email.Some? ==>
                    var email := t.lower(t.trim(b.email.value));
                    after[id].email == if email == t.lower(users[id].email) then users[id].email else email)
              && (b.username.None? ==> after[id].username == users[id].username)
              && (b.username.Some? ==>
                    var name := t.trim(b.username.value);
                    after[id].username == if name == "" then None else Some(name))
  {
    hide Clashes, EmailShape;
  }

  /** And sign-in finds the changed account under what was given. */
  lemma ChangedIsFound(t: TextRules, users: Accounts, nextId: int, id: int, b: Change)
    requires Lawful(t) && id in users && ChangeAccepted(t, users, id, b)
    ensures var a := After(t, users, nextId, Patch(id, b)).0[id];
            && (b.email.Some? ==> t.lower(t.lower(t.trim(b.email.value))) == t.lower(t.trim(b.email.value)) ==>
                  Resolves(t, a, t.lower(t.trim(b.email.value))))
            && (b.username.Some? && t.trim(b.username.value) != "" ==> Resolves(t, a, t.trim(b.username.value)))
  {
    hide Clashes, EmailShape, After;
    ChangeStores(t, users, nextId, id, b);
  }

  // ------------------------------------------------------------------ what the resolver makes of it

  /** The sign-in resolver's condition for one account (packages/db/migrations/0159_password_reset.sql). */
  predicate Resolves(t: TextRules, a: Account, identifier: string)
  {
    || t.lower(a.email) == t.lower(t.btrim(identifier))
    || (a.username.Some? && t.lower(a.username.value) == t.lower(t.btrim(identifier)))
    || (Fold(t, NameOf(a)) != "" && Fold(t, NameOf(a)) == Fold(t, identifier))
  }

  ghost predicate Unambiguous(t: TextRules, users: Accounts)
  {
    forall x: string, i, j :: i in users && j in users && i != j ==>
        !(Resolves(t, users[i], x) && Resolves(t, users[j], x))
  }

  /** No user name folds to what another account's address folds to. */
  ghost predicate FoldedApart(t: TextRules, users: Accounts)
  {
    forall i, j :: i in users && j in users && i != j ==>
      Fold(t, NameOf(users[j])) == "" || Fold(t, NameOf(users[j])) != Fold(t, users[i].email)
  }

  lemma ResolvedTwiceFolds(t: TextRules, a: Account, b: Account, x: string)
    requires Lawful(t) && Tidy(t, a) && Tidy(t, b) && KeysApart(t, a, b) && Resolves(t, a, x) && Resolves(t, b, x)
    ensures (Fold(t, NameOf(b)) != "" && Fold(t, NameOf(b)) == Fold(t, a.email)) ||
        (Fold(t, NameOf(a)) != "" && Fold(t, NameOf(a)) == Fold(t, b.email))
  {
  }

  /** Distinct keys make sign-in unambiguous exactly when, besides, no user name folds like another's address. */
  lemma UnambiguousIffFoldedApart(t: TextRules, users: Accounts)
    requires Lawful(t) && KeysDistinct(t, users)
    ensures Unambiguous(t, users) <==> FoldedApart(t, users)
  {
    if FoldedApart(t, users) {
      forall x: string, i, j | i in users && j in users && i != j
        ensures !(Resolves(t, users[i], x) && Resolves(t, users[j], x))
      {
        if Resolves(t, users[i], x) && Resolves(t, users[j], x) { ResolvedTwiceFolds(t, users[i], users[j], x); }
      }
    } else {
      var i, j :| i in users && j in users && i != j
                  && Fold(t, NameOf(users[j])) != "" && Fold(t, NameOf(users[j])) == Fold(t, users[i].email);
      assert Resolves(t, users[i], users[i].email) && Resolves(t, users[j], users[i].email);
    }
  }

  /** The routes accept a user name that folds like another account's address; that address then resolves to both. */
  lemma FoldedAddressSlipsThrough(t: TextRules, users: Accounts, i: int, j: int, username: string)
    requires Lawful(t) && KeysDistinct(t, users) && i in users && j in users && i != j
    requires username != "" && t.trim(username) == username
    requires Fold(t, username) == Fold(t, users[i].email) != ""
    requires forall k :: k in users && k != j ==>
               && t.lower(users[k].email) != t.lower(t.btrim(username))
               && t.lower(NameOf(users[k])) != t.lower(t.btrim(username))
               && Fold(t, NameOf(users[k])) != Fold(t, username)
    ensures Changed(t, users, j, Change(None, Some(username))) == Ok(Account(users[j].email, Some(username)))
    ensures Resolves(t, users[i], users[i].email) &&
        Resolves(t, Account(users[j].email, Some(username)), users[i].email)
  {}
}
