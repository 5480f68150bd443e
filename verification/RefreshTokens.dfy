/** Refresh-token rotation: sessions are issued, redeemed once, and logged out, one call after another. */
module RefreshTokens {
  import opened Options
  import opened Text

  /** A row of refresh_tokens, found by its unique hash. */
  datatype Row = Row(tokenID: string, userID: string, expiresAt: int, revoked: bool)

  type Tokens = map<string, Row>

  datatype Error = TokenMissing | InvalidToken | DatabaseError | SigningError | Duplicate

  /** Which of the calls behind a service call goes wrong, if any. */
  datatype Fault = NoFault | LookupFails | RevokeFails | UserLookupFails | SigningFails | InsertFails

  /** A new token as the table sees it: the hash of the text handed to the client, its id and its expiry. */
  datatype Issue = Issue(hash: string, tokenID: string, expiresAt: int)

  // ---------- the table effects ----------

  predicate Usable(t: Tokens, hash: string, now: int) {
    hash in t && !t[hash].revoked && t[hash].expiresAt > now
  }

  function Revoke(t: Tokens, tokenID: string): Tokens {
    map h | h in t :: if t[h].tokenID == tokenID then t[h].(revoked := true) else t[h]
  }

  predicate IDTaken(t: Tokens, tokenID: string) {
    exists h :: h in t && t[h].tokenID == tokenID
  }

  /** issueSession: sign, then store the row under its primary key and its unique hash. */
  function IssueSession(t: Tokens, userID: string, i: Issue, fault: Fault): Result<Tokens, Error> {
    if fault.SigningFails? then Err(SigningError)
    else if fault.InsertFails? then Err(DatabaseError)
    else if i.hash in t || IDTaken(t, i.tokenID) then Err(Duplicate)
    else Ok(t[i.hash := Row(i.tokenID, userID, i.expiresAt, false)])
  }

  /** The hash a presented text stands for; blank text is no token. */
  function Presented(hash: string -> string, raw: string): Option<string> {
    if Trim(raw) == "" then None else Some(hash(Trim(raw)))
  }

  /** A presented token is found, and its revocation goes through. */
  predicate Redeems(t: Tokens, presented: Option<string>, now: int, fault: Fault) {
    presented.Some? && !fault.LookupFails? && !fault.RevokeFails? && Usable(t, presented.value, now)
  }

  /** The table after Refresh: a found token is revoked first, and stays revoked whatever fails after that. */
  function RefreshTable(t: Tokens, presented: Option<string>, i: Issue, now: int, fault: Fault): Tokens {
    if !Redeems(t, presented, now, fault) then t
    else
      var revoked := Revoke(t, t[presented.value].tokenID);
      if fault.UserLookupFails? then revoked
      else match IssueSession(revoked, t[presented.value].userID, i, fault)
        case Ok(t') => t'
        case Err(_) => revoked
  }

  function LogoutTable(t: Tokens, presented: Option<string>, now: int, fault: Fault): Tokens {
    if Redeems(t, presented, now, fault) then Revoke(t, t[presented.value].tokenID) else t
  }

  class TokenService {
    const hash: string -> string
    var tokens: Tokens

    constructor (hash: string -> string)
      ensures this.hash == hash && tokens == map[]
    {
      this.hash := hash;
      tokens := map[];
    }

    /** issueSession: `raw` is the new token's text, two fresh ids joined by a dot. */
    method IssueFor(userID: string, raw: string, tokenID: string, expiresAt: int, fault: Fault)
      returns (r: Result<string, Error>)
      modifies this
      ensures match IssueSession(old(tokens), userID, Issue(hash(raw), tokenID, expiresAt), fault)
              case Ok(t) => r == Ok(raw) && tokens == t
              case Err(e) => r == Err(e) && tokens == old(tokens)
      ensures r.Ok? ==> hash(raw) !in old(tokens) && hash(raw) in tokens && tokens[hash(raw)].userID == userID
      ensures r.Ok? ==> forall now :: Usable(tokens, hash(raw), now) <==> now < expiresAt
      ensures forall h :: h in old(tokens) ==> h in tokens && tokens[h] == old(tokens)[h]
    {
      if fault.SigningFails? {
        return Err(SigningError);
      }
      if fault.InsertFails? {
        return Err(DatabaseError);
      }
      if hash(raw) in tokens || IDTaken(tokens, tokenID) {
        return Err(Duplicate);
      }
      tokens := tokens[hash(raw) := Row(tokenID, userID, expiresAt, false)];
      return Ok(raw);
    }

    /** FindRefreshTokenByHash, then RevokeRefreshToken on what it found: the user whose token was redeemed. */
    method Redeem(h: string, now: int, fault: Fault) returns (r: Result<string, Error>)
      modifies this
      ensures r.Ok? <==> Redeems(old(tokens), Some(h), now, fault)
      ensures r.Ok? ==> r.value == old(tokens)[h].userID && tokens == Revoke(old(tokens), old(tokens)[h].tokenID)
      ensures r.Err? ==> tokens == old(tokens)
      ensures r == Err(InvalidToken) <==> !fault.LookupFails? && !Usable(old(tokens), h, now)
      ensures r.Ok? ==> h in tokens && tokens[h].revoked
    {
      if fault.LookupFails? {
        return Err(DatabaseError);
      }
      if h !in tokens || tokens[h].revoked || tokens[h].expiresAt <= now {
        return Err(InvalidToken);
      }
      if fault.RevokeFails? {
        return Err(DatabaseError);
      }
      var row := tokens[h];
      tokens := Revoke(tokens, row.tokenID);
      return Ok(row.userID);
    }

    /** Refresh on a text that is not blank. Succeeds only on a usable token, which it has then revoked. */
    method RefreshHash(h: string, newRaw: string, tokenID: string, expiresAt: int, now: int, fault: Fault)
      returns (r: Result<string, Error>)
      modifies this
      ensures tokens == RefreshTable(old(tokens), Some(h), Issue(hash(newRaw), tokenID, expiresAt), now, fault)
      ensures !fault.LookupFails? && !Usable(old(tokens), h, now) ==> r == Err(InvalidToken)
      ensures r.Ok? ==> Redeems(old(tokens), Some(h), now, fault) && r.value == newRaw
      ensures r.Ok? ==> !Usable(tokens, h, now)
      ensures r.Ok? ==> forall later :: Usable(tokens, hash(newRaw), later) <==> later < expiresAt
      ensures r.Ok? ==> hash(newRaw) in tokens && tokens[hash(newRaw)].userID == old(tokens)[h].userID
    {
      var user := Redeem(h, now, fault);
      if user.Err? {
        return Err(user.error);
      }
      if fault.UserLookupFails? {
        return Err(DatabaseError);
      }
      r := IssueFor(user.value, newRaw, tokenID, expiresAt, fault);
    }

    method Refresh(raw: string, first: string, second: string, tokenID: string, expiresAt: int, now: int, fault: Fault)
      returns (r: Result<string, Error>)
      modifies this
      ensures match Presented(hash, raw)
              case None => r == Err(TokenMissing) && tokens == old(tokens)
              case Some(h) =>
                var newRaw := first + "." + second;
                && tokens == RefreshTable(old(tokens), Some(h), Issue(hash(newRaw), tokenID, expiresAt), now, fault)
                && (r.Ok? ==> Redeems(old(tokens), Some(h), now, fault) && r.value == newRaw && !Usable(tokens, h, now))
                && (r.Ok? ==> forall later :: Usable(tokens, hash(newRaw), later) <==> later < expiresAt)
                && (r.Ok? ==> hash(newRaw) in tokens && tokens[hash(newRaw)].userID == old(tokens)[h].userID)
    {
      var presented := Presented(hash, raw);
      if presented.None? {
        return Err(TokenMissing);
      }
      r := RefreshHash(presented.value, first + "." + second, tokenID, expiresAt, now, fault);
    }

    /** Logout on a text that is not blank. */
    method LogoutHash(h: string, now: int, fault: Fault) returns (r: Result<(), Error>)
      modifies this
      ensures tokens == LogoutTable(old(tokens), Some(h), now, fault)
      ensures r.Ok? ==> !Usable(tokens, h, now)
      ensures r.Ok? <==> !fault.LookupFails? && (fault.RevokeFails? ==> !Usable(old(tokens), h, now))
    {
      var user := Redeem(h, now, fault);
      if user.Ok? || user.error.InvalidToken? {
        return Ok(());
      }
      return Err(user.error);
    }

    /** Logging out an unknown, used or expired token is no error. */
    method Logout(raw: string, now: int, fault: Fault) returns (r: Result<(), Error>)
      modifies this
      ensures match Presented(hash, raw)
              case None => r == Err(TokenMissing) && tokens == old(tokens)
              case Some(h) =>
                && tokens == LogoutTable(old(tokens), Some(h), now, fault)
                && (r.Ok? ==> !Usable(tokens, h, now))
                && (!fault.LookupFails? && !fault.RevokeFails? ==> r.Ok?)
    {
      var presented := Presented(hash, raw);
      if presented.None? {
        return Err(TokenMissing);
      }
      r := LogoutHash(presented.value, now, fault);
    }
  }

  // ---------- runs ----------

  datatype State = State(
    tokens: Tokens,
    clock: int,                  // the database's now()
    chain: map<string, string>,  // each token's first ancestor, both by hash
    redeemed: seq<string>)       // the tokens Refresh found and revoked, in order

  datatype Step =
    | Login(userID: string, issue: Issue, fault: Fault)  // or a registration
    | Refresh(presented: Option<string>, issue: Issue, fault: Fault)
    | Logout(presented: Option<string>, fault: Fault)
    | Tick(now: int)

  const INITIAL := State(map[], 0, map[], [])

  predicate Enabled(st: State, step: Step) {
    step.Tick? ==> step.now >= st.clock
  }

  function Apply(st: State, step: Step): State
    requires Enabled(st, step)
  {
    match step
    case Tick(now) => st.(clock := now)
    case Login(userID, i, fault) =>
      (match IssueSession(st.tokens, userID, i, fault)
       case Err(_) => st
       case Ok(t) => st.(tokens := t, chain := st.chain[i.hash := i.hash]))
    case Logout(presented, fault) => st.(tokens := LogoutTable(st.tokens, presented, st.clock, fault))
    case Refresh(presented, i, fault) =>
      if !Redeems(st.tokens, presented, st.clock, fault) then st
      else
        var t := RefreshTable(st.tokens, presented, i, st.clock, fault);
        State(t, st.clock,
              if i.hash in t && i.hash !in st.tokens && presented.value in st.chain
              then st.chain[i.hash := st.chain[presented.value]] else st.chain,
              st.redeemed + [presented.value])
  }

  ghost predicate Next(st: State, st': State) {
    exists step :: Enabled(st, step) && st' == Apply(st, step)
  }

  ghost predicate NextAt(states: seq<State>, i: nat)
    requires 0 < i < |states|
  {
    Next(states[i - 1], states[i])
  }

  ghost predicate Run(states: seq<State>) {
    && states != []
    && states[0] == INITIAL
    && forall i :: 0 < i < |states| ==> NextAt(states, i)
  }

  ghost predicate RedeemedLaw(st: State) {
    && (forall h :: h in st.redeemed ==> h in st.tokens && st.tokens[h].revoked)
    && (forall i, j :: 0 <= i < j < |st.redeemed| ==> st.redeemed[i] != st.redeemed[j])
  }

  /** A row once stored stays, and a revocation is never undone. */
  lemma RowsStay(st: State, step: Step, h: string)
    requires Enabled(st, step) && h in st.tokens
    ensures var t := Apply(st, step).tokens;
            h in t && (st.tokens[h].revoked ==> t[h].revoked) && t[h].expiresAt == st.tokens[h].expiresAt
  {
  }

  /** Two unrevoked tokens of one chain. */
  predicate Clash(t: Tokens, chain: map<string, string>, g: string, h: string) {
    g != h && g in t && h in t && g in chain && h in chain && chain[g] == chain[h] && !t[g].revoked && !t[h].revoked
  }

  ghost predicate ChainsHold(t: Tokens, chain: map<string, string>) {
    && t.Keys == chain.Keys
    && chain.Values <= chain.Keys
    && forall g, h :: !Clash(t, chain, g, h)
  }

  lemma RevokeKeepsChains(t: Tokens, chain: map<string, string>, h: string)
    requires ChainsHold(t, chain) && h in t
    ensures var t' := Revoke(t, t[h].tokenID);
            ChainsHold(t', chain) && t'[h].revoked
  {
    var t' := Revoke(t, t[h].tokenID);
    assert t'.Keys == t.Keys;
    forall g, k ensures !Clash(t', chain, g, k) {
      assert !Clash(t, chain, g, k);
    }
  }

  /** A token may join a chain whose other tokens are all revoked. */
  lemma JoinKeepsChains(t: Tokens, chain: map<string, string>, i: Issue, row: Row, root: string)
    requires ChainsHold(t, chain) && i.hash !in t && (root in chain || root == i.hash)
    requires forall g :: g in t && g in chain && chain[g] == root ==> t[g].revoked
    ensures ChainsHold(t[i.hash := row], chain[i.hash := root])
  {
    var t', chain' := t[i.hash := row], chain[i.hash := root];
    assert t'.Keys == chain'.Keys;
    assert chain'.Values <= chain.Values + {root};
    forall g, k ensures !Clash(t', chain', g, k) {
      assert !Clash(t, chain, g, k);
    }
  }

  lemma ChainLawKept(st: State, step: Step)
    requires ChainsHold(st.tokens, st.chain) && Enabled(st, step)
    ensures ChainsHold(Apply(st, step).tokens, Apply(st, step).chain)
  {
    match step
    case Tick(_) =>
    case Login(userID, i, fault) =>
      if IssueSession(st.tokens, userID, i, fault).Ok? {
        JoinKeepsChains(st.tokens, st.chain, i, Row(i.tokenID, userID, i.expiresAt, false), i.hash);
      }
    case Logout(presented, fault) =>
      if Redeems(st.tokens, presented, st.clock, fault) {
        RevokeKeepsChains(st.tokens, st.chain, presented.value);
      }
    case Refresh(presented, i, fault) =>
      if Redeems(st.tokens, presented, st.clock, fault) {
        RefreshKeepsChains(st, presented.value, i, fault);
      }
  }

  /** Once the redeemed token is revoked no token of its chain is live. */
  lemma OthersRevoked(st: State, h: string)
    requires ChainsHold(st.tokens, st.chain) && h in st.tokens && !st.tokens[h].revoked
    ensures var revoked := Revoke(st.tokens, st.tokens[h].tokenID);
            forall g :: g in revoked && g in st.chain && st.chain[g] == st.chain[h] ==> revoked[g].revoked
  {
    forall g | g in st.tokens && g in st.chain && st.chain[g] == st.chain[h] && g != h ensures st.tokens[g].revoked {
      assert !Clash(st.tokens, st.chain, g, h);
    }
  }

  lemma RefreshKeepsChains(st: State, h: string, i: Issue, fault: Fault)
    requires ChainsHold(st.tokens, st.chain) && Redeems(st.tokens, Some(h), st.clock, fault)
    ensures var st' := Apply(st, Refresh(Some(h), i, fault)); ChainsHold(st'.tokens, st'.chain)
  {
    var revoked := Revoke(st.tokens, st.tokens[h].tokenID);
    RevokeKeepsChains(st.tokens, st.chain, h);
    var user := st.tokens[h].userID;
    if !fault.UserLookupFails? && IssueSession(revoked, user, i, fault).Ok? {
      OthersRevoked(st, h);
      JoinKeepsChains(revoked, st.chain, i, Row(i.tokenID, user, i.expiresAt, false), st.chain[h]);
    }
  }

  lemma RedeemedLawKept(st: State, step: Step)
    requires RedeemedLaw(st) && Enabled(st, step)
    ensures RedeemedLaw(Apply(st, step))
  {
    forall h | h in st.tokens {
      RowsStay(st, step, h);
    }
  }

  lemma {:induction false} RunKeepsLaws(states: seq<State>, i: nat)
    requires Run(states) && i < |states|
    ensures ChainsHold(states[i].tokens, states[i].chain) && RedeemedLaw(states[i])
  {
    if i > 0 {
      RunKeepsLaws(states, i - 1);
      assert NextAt(states, i);
      var step :| Enabled(states[i - 1], step) && states[i] == Apply(states[i - 1], step);
      ChainLawKept(states[i - 1], step);
      RedeemedLawKept(states[i - 1], step);
    }
  }

  /** Over every run no token is redeemed twice, and each login's chain has at most one token left unrevoked. */
  lemma RedeemedAtMostOnce(states: seq<State>, i: nat)
    requires Run(states) && i < |states|
    ensures var st := states[i];
            && (forall m, n :: 0 <= m < n < |st.redeemed| ==> st.redeemed[m] != st.redeemed[n])
            && (forall h :: h in st.tokens ==> h in st.chain)
            && (forall g, h | g in st.tokens && h in st.tokens && st.chain[g] == st.chain[h] ::
                  Usable(st.tokens, g, st.clock) && Usable(st.tokens, h, st.clock) ==> g == h)
  {
    RunKeepsLaws(states, i);
    var st := states[i];
    forall g, h | g in st.tokens && h in st.tokens && st.chain[g] == st.chain[h]
      && Usable(st.tokens, g, st.clock) && Usable(st.tokens, h, st.clock)
      ensures g == h
    {
      assert !Clash(st.tokens, st.chain, g, h);
    }
  }

  /** A token that was issued and is no longer usable, because it was revoked or has expired, is never usable again. */
  lemma {:induction false} UnusableStaysUnusable(states: seq<State>, i: nat, j: nat, h: string)
    requires Run(states) && i <= j < |states|
    requires h in states[i].tokens && !Usable(states[i].tokens, h, states[i].clock)
    ensures h in states[j].tokens && !Usable(states[j].tokens, h, states[j].clock)
  {
    if i < j {
      UnusableStaysUnusable(states, i, j - 1, h);
      assert NextAt(states, j);
      var step :| Enabled(states[j - 1], step) && states[j] == Apply(states[j - 1], step);
      RowsStay(states[j - 1], step, h);
    }
  }

  /** So a token redeemed or logged out at some point is never redeemed later. */
  lemma RedeemedOnlyWhileUsable(states: seq<State>, i: nat, j: nat, h: string)
    requires Run(states) && i < j < |states|
    requires h in states[i].tokens && !Usable(states[i].tokens, h, states[i].clock)
    ensures forall n :: |states[i].redeemed| <= n < |states[j].redeemed| ==> states[j].redeemed[n] != h
    ensures states[i].redeemed <= states[j].redeemed
  {
    UnusableStaysUnusable(states, i, j - 1, h);
    assert NextAt(states, j);
    if i < j - 1 {
      RedeemedOnlyWhileUsable(states, i, j - 1, h);
    }
  }

  // ---------- what stays usable ----------

  /** A login or registration hands out a token of its user, usable until it expires; it fails exactly when signing or
      storing does, or the id or the hash is taken. */
  lemma LoginGivesUsable(st: State, userID: string, i: Issue, fault: Fault)
    ensures Enabled(st, Login(userID, i, fault))
    ensures var t := Apply(st, Login(userID, i, fault)).tokens;
            var taken := i.hash in st.tokens || exists h :: h in st.tokens && st.tokens[h].tokenID == i.tokenID;
            if fault.SigningFails? || fault.InsertFails? || taken then t == st.tokens
            else
              && i.hash in t && t[i.hash].userID == userID && t[i.hash].tokenID == i.tokenID
              && (forall now :: Usable(t, i.hash, now) <==> now < i.expiresAt)
              && (forall h :: h in st.tokens ==> h in t && t[h] == st.tokens[h])
              && Apply(st, Login(userID, i, fault)).chain == st.chain[i.hash := i.hash]
  {
  }

  /** A refresh of a usable token that nothing fails takes it and gives its user a new usable one. */
  lemma RefreshGivesUsable(st: State, h: string, i: Issue)
    requires Usable(st.tokens, h, st.clock) && i.hash !in st.tokens && !IDTaken(st.tokens, i.tokenID)
    ensures Enabled(st, Refresh(Some(h), i, NoFault))
    ensures var st' := Apply(st, Refresh(Some(h), i, NoFault));
            && i.hash in st'.tokens && st'.tokens[i.hash].userID == st.tokens[h].userID
            && (forall now :: Usable(st'.tokens, i.hash, now) <==> now < i.expiresAt)
            && !Usable(st'.tokens, h, st'.clock)
            && st'.redeemed == st.redeemed + [h]
            && (h in st.chain ==> st'.chain == st.chain[i.hash := st.chain[h]])
  {
    var revoked := Revoke(st.tokens, st.tokens[h].tokenID);
    assert revoked.Keys == st.tokens.Keys;
  }

  /** A presented token that cannot be found or revoked changes nothing; one that is revoked stays so, and none is
      handed out, when anything fails after that. */
  lemma FailedRefresh(st: State, presented: Option<string>, i: Issue, fault: Fault)
    ensures Enabled(st, Refresh(presented, i, fault)) && Enabled(st, Logout(presented, fault))
    ensures presented.None? || !Usable(st.tokens, presented.value, st.clock) || fault.LookupFails?
            || fault.RevokeFails? ==>
              Apply(st, Refresh(presented, i, fault)) == st && Apply(st, Logout(presented, fault)) == st
    ensures presented.Some? && Usable(st.tokens, presented.value, st.clock)
            && (fault.UserLookupFails? || fault.SigningFails? || fault.InsertFails?) ==>
              var st' := Apply(st, Refresh(presented, i, fault));
              && st'.tokens.Keys == st.tokens.Keys && !Usable(st'.tokens, presented.value, st'.clock)
              && st'.redeemed == st.redeemed + [presented.value] && st'.chain == st.chain
  {
    if presented.Some? && presented.value in st.tokens {
      var revoked := Revoke(st.tokens, st.tokens[presented.value].tokenID);
      assert revoked.Keys == st.tokens.Keys;
    }
  }

  /** Time only moves forward, and alone changes no token. */
  lemma TimePasses(st: State, now: int)
    ensures Enabled(st, Tick(now)) <==> now >= st.clock
    ensures Enabled(st, Tick(now)) ==> Apply(st, Tick(now)) == st.(clock := now)
  {
  }

  /** White space around a presented text does not matter. */
  lemma PresentedTrimmed(hash: string -> string, before: string, raw: string, after: string)
    requires AllSpace(before) && AllSpace(after) && Trimmed(raw)
    ensures Presented(hash, before + raw + after) == if raw == "" then None else Some(hash(raw))
  {
    TrimIsUnique(before, raw, after);
  }

  /** Logging out takes the token presented, if it is usable and nothing fails, and none is handed out. */
  lemma LogoutTakes(st: State, h: string)
    ensures Enabled(st, Logout(Some(h), NoFault))
    ensures var st' := Apply(st, Logout(Some(h), NoFault));
            !Usable(st'.tokens, h, st'.clock) && st'.tokens.Keys == st.tokens.Keys && st'.redeemed == st.redeemed
  {
  }

  /** No two tokens have one id. */
  ghost predicate DistinctTokenIDs(t: Tokens) {
    forall g, h :: g in t && h in t && t[g].tokenID == t[h].tokenID ==> g == h
  }

  lemma RevokeKeepsIDs(t: Tokens, tokenID: string)
    requires DistinctTokenIDs(t)
    ensures DistinctTokenIDs(Revoke(t, tokenID))
  {
  }

  lemma IssueKeepsIDs(t: Tokens, userID: string, i: Issue, fault: Fault)
    requires DistinctTokenIDs(t) && IssueSession(t, userID, i, fault).Ok?
    ensures DistinctTokenIDs(IssueSession(t, userID, i, fault).value)
  {
  }

  lemma StepKeepsIDs(st: State, step: Step)
    requires DistinctTokenIDs(st.tokens) && Enabled(st, step)
    ensures DistinctTokenIDs(Apply(st, step).tokens)
  {
    match step
    case Tick(_) =>
    case Login(userID, i, fault) =>
      if IssueSession(st.tokens, userID, i, fault).Ok? {
        IssueKeepsIDs(st.tokens, userID, i, fault);
      }
    case Logout(presented, fault) =>
      if Redeems(st.tokens, presented, st.clock, fault) {
        RevokeKeepsIDs(st.tokens, st.tokens[presented.value].tokenID);
      }
    case Refresh(presented, i, fault) =>
      if Redeems(st.tokens, presented, st.clock, fault) {
        var revoked := Revoke(st.tokens, st.tokens[presented.value].tokenID);
        RevokeKeepsIDs(st.tokens, st.tokens[presented.value].tokenID);
        if IssueSession(revoked, st.tokens[presented.value].userID, i, fault).Ok? {
          IssueKeepsIDs(revoked, st.tokens[presented.value].userID, i, fault);
        }
      }
  }

  lemma {:induction false} RunKeepsIDs(states: seq<State>, i: nat)
    requires Run(states) && i < |states|
    ensures DistinctTokenIDs(states[i].tokens)
  {
    if i > 0 {
      RunKeepsIDs(states, i - 1);
      assert NextAt(states, i);
      var step :| Enabled(states[i - 1], step) && states[i] == Apply(states[i - 1], step);
      StepKeepsIDs(states[i - 1], step);
    }
  }

  /** Somebody presents the token to Refresh or Logout. */
  predicate Presents(step: Step, h: string) {
    (step.Refresh? || step.Logout?) && step.presented == Some(h)
  }

  ghost predicate PresentedAt(states: seq<State>, i: nat, h: string)
    requires 0 < i < |states|
  {
    exists step :: Enabled(states[i - 1], step) && states[i] == Apply(states[i - 1], step) && Presents(step, h)
  }

  /** A step that does not present a token leaves its row. */
  lemma OtherRowsStay(st: State, step: Step, h: string)
    requires DistinctTokenIDs(st.tokens) && Enabled(st, step) && h in st.tokens && !Presents(step, h)
    ensures h in Apply(st, step).tokens && Apply(st, step).tokens[h] == st.tokens[h]
  {
  }

  /** Over every run an unrevoked token stays unrevoked until it is itself presented, whoever else logs in, refreshes or
      logs out; so it stays usable until then or until it expires. */
  lemma UsableUntilPresented(states: seq<State>, i: nat, j: nat, h: string)
    requires Run(states) && i <= j < |states| && Usable(states[i].tokens, h, states[i].clock)
    requires forall m :: i < m <= j ==> !PresentedAt(states, m, h)
    ensures h in states[j].tokens && states[j].tokens[h] == states[i].tokens[h]
    ensures Usable(states[j].tokens, h, states[j].clock) <==> states[j].clock < states[i].tokens[h].expiresAt
  {
    RowUntilPresented(states, i, j, h);
  }

  lemma {:induction false} RowUntilPresented(states: seq<State>, i: nat, j: nat, h: string)
    requires Run(states) && i <= j < |states| && h in states[i].tokens
    requires forall m :: i < m <= j ==> !PresentedAt(states, m, h)
    ensures h in states[j].tokens && states[j].tokens[h] == states[i].tokens[h]
  {
    if i < j {
      RowUntilPresented(states, i, j - 1, h);
      RunKeepsIDs(states, j - 1);
      assert NextAt(states, j);
      var step :| Enabled(states[j - 1], step) && states[j] == Apply(states[j - 1], step);
      assert !PresentedAt(states, j, h);
      OtherRowsStay(states[j - 1], step, h);
    }
  }
}
