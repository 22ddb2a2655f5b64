/** The life of refresh tokens (app/auth/refresh.py): issued at login, rotated on every use,
    revoked by logout, by logout-everywhere, and when a superseded one is presented. */
module RefreshTokens {
  import opened Wrappers

  /** A token's id is its place in the table; `next` is the one it was rotated into. */
  datatype Token = Token(account: nat, expires: int, revoked: bool, next: Option<nat>)

  type Table = seq<Token>

  /** What a client sends: nothing, a token no row has the hash of, or a row's token. */
  datatype Shown = Blank | Unknown | Row(id: nat)

  datatype Answer = Rotated(token: nat) | Rejected(code: string)

  // --------------------------------------------------------------- operations

  function Issue(t: Table, account: nat, expires: int): Table {
    t + [Token(account, expires, false, None)]
  }

  /** A new token for the same account, the old one revoked and linked to it. */
  function Replace(t: Table, i: nat, expires: int): Table
    requires i < |t|
  {
    Issue(t[i := t[i].(revoked := true, next := Some(|t|))], t[i].account, expires)
  }

  function RevokedToken(x: Token, account: nat): Token {
    if x.account == account then x.(revoked := true) else x
  }

  function RevokeAll(t: Table, account: nat): (r: Table)
    ensures |r| == |t| && forall i :: 0 <= i < |t| ==> r[i] == RevokedToken(t[i], account)
  {
    seq(|t|, i requires 0 <= i < |t| => RevokedToken(t[i], account))
  }

  /** A token that was rotated and is presented again. */
  predicate Superseded(t: Table, i: nat)
    requires i < |t|
  {
    t[i].revoked && t[i].next.Some?
  }

  /** `ttl` is the account's window, `active` whether the account may still sign in. */
  function Rotate(t: Table, shown: Shown, now: int, ttl: int, active: bool): (r: (Table, Answer))
    requires shown.Row? ==> shown.id < |t|
  {
    if shown.Blank? then (t, Rejected("refresh_token_required"))
    else if shown.Unknown? then (t, Rejected("invalid_refresh_token"))
    else
      var x := t[shown.id];
      if x.revoked then
        if x.next.Some? then (RevokeAll(t, x.account), Rejected("refresh_token_reused"))
        else (t, Rejected("refresh_token_revoked"))
      else if x.expires <= now then (t, Rejected("refresh_token_expired"))
      else if !active then (t, Rejected("account_inactive"))
      else (Replace(t, shown.id, now + ttl), Rotated(|t|))
  }

  function Logout(t: Table, i: nat): Table
    requires i < |t|
  {
    t[i := t[i].(revoked := true)]
  }

  // ---------------------------------------------------------------- invariant

  /** Links lead to later tokens of the same account, no two to one, and a token that has been
      replaced is revoked. */
  predicate Chained(t: Table) {
    && (forall i :: 0 <= i < |t| && t[i].next.Some? ==>
          i < t[i].next.value < |t| && t[i].revoked && t[t[i].next.value].account == t[i].account)
    && (forall i, j :: 0 <= i < j < |t| && t[i].next.Some? ==> t[j].next != t[i].next)
  }

  /** The last token of a rotation chain. */
  function Last(t: Table, i: nat): (last: nat)
    requires Chained(t) && i < |t|
    ensures i <= last < |t| && t[last].next.None? && t[last].account == t[i].account
    decreases |t| - i
  {
    if t[i].next.None? then i else Last(t, t[i].next.value)
  }

  /** Two tokens of one chain: the same rotations end it. */
  predicate SameChain(t: Table, i: nat, j: nat)
    requires Chained(t) && i < |t| && j < |t|
  {
    Last(t, i) == Last(t, j)
  }

  /** A chain has at most one token that is not revoked, and it is its last. */
  lemma OneLivePerChain(t: Table, i: nat, j: nat)
    requires Chained(t) && i < |t| && j < |t| && SameChain(t, i, j)
    ensures !t[i].revoked ==> i == Last(t, i)
    ensures !t[i].revoked && !t[j].revoked ==> i == j
  {
  }

  /** Of two tokens of one chain, one was rotated into the other, in some number of steps:
      chains do not branch. */
  function Follow(t: Table, i: nat, n: nat): (r: Option<nat>)
    requires Chained(t) && i < |t|
    ensures r.Some? ==> i <= r.value < |t|
    decreases n
  {
    if n == 0 then Some(i) else if t[i].next.None? then None else Follow(t, t[i].next.value, n - 1)
  }

  lemma {:induction false} FollowStep(t: Table, i: nat, n: nat)
    requires Chained(t) && i < |t| && Follow(t, i, n).Some? && t[Follow(t, i, n).value].next.Some?
    ensures Follow(t, i, n + 1) == t[Follow(t, i, n).value].next
    decreases n
  {
    if n > 0 { FollowStep(t, t[i].next.value, n - 1); }
  }

  lemma {:induction false} ChainsAreLines(t: Table, i: nat, j: nat) returns (n: nat)
    requires Chained(t) && i <= j < |t| && SameChain(t, i, j)
    ensures Follow(t, i, n) == Some(j)
    decreases |t| - i
  {
    if i == j {
      n := 0;
    } else {
      NextIsBetween(t, i, j);
      n := ChainsAreLines(t, t[i].next.value, j);
      n := n + 1;
    }
  }

  lemma NextIsBetween(t: Table, i: nat, j: nat)
    requires Chained(t) && i < j < |t| && SameChain(t, i, j)
    ensures t[i].next.Some? && t[i].next.value <= j
  {
    if t[i].next.value > j {
      NoDetour(t, j, t[i].next.value, i);
      assert false;
    }
  }

  /** From j one cannot come to a token whose predecessor i is before j. */
  lemma {:induction false} NoDetour(t: Table, j: nat, k: nat, i: nat)
    requires Chained(t) && i < j < k < |t| && SameChain(t, j, k) && t[i].next == Some(k)
    ensures false
    decreases |t| - j
  {
    var m := t[j].next.value;
    if m < k {
      NoDetour(t, m, k, i);
    } else if m > k {
      NoDetour(t, k, m, j);
    }
  }

  // ------------------------------------------------------------------ each step

  lemma IssueKeeps(t: Table, account: nat, expires: int)
    requires Chained(t)
    ensures Chained(Issue(t, account, expires))
  {
  }

  /** The old token's chain gains one token at its end, the only one not revoked. */
  lemma ReplaceKeeps(t: Table, i: nat, expires: int)
    requires Chained(t) && i < |t| && !t[i].revoked
    ensures Chained(Replace(t, i, expires))
    ensures Last(Replace(t, i, expires), i) == |t| && !Replace(t, i, expires)[|t|].revoked
  {
    var r := Replace(t, i, expires);
    assert t[i].next.None?;
    assert forall j :: 0 <= j < |t| && j != i ==> r[j] == t[j];
  }

  lemma LogoutKeeps(t: Table, i: nat)
    requires Chained(t) && i < |t|
    ensures Chained(Logout(t, i))
  {
  }

  lemma RevokeAllKeeps(t: Table, account: nat)
    requires Chained(t)
    ensures Chained(RevokeAll(t, account))
  {
  }

  /** The tokens of an account that would still be exchanged, expiry aside. */
  function Live(t: Table, account: nat): set<nat> {
    set i | 0 <= i < |t| && t[i].account == account && !t[i].revoked
  }

  /** Presenting a superseded token leaves the account with none; presenting one that was
      merely logged out changes nothing. */
  lemma ReuseEndsEverySession(t: Table, i: nat, now: int, ttl: int, active: bool)
    requires i < |t| && t[i].revoked
    ensures var r := Rotate(t, Row(i), now, ttl, active).0;
            if Superseded(t, i)
            then Live(r, t[i].account) == {} && (forall a :: a != t[i].account ==> Live(r, a) == Live(t, a))
            else r == t
  {
  }

  /** A rotation swaps one live token for another: it neither adds a session nor drops one. */
  lemma RotationKeepsSessions(t: Table, i: nat, now: int, ttl: int, active: bool)
    requires i < |t| && Rotate(t, Row(i), now, ttl, active).1.Rotated?
    ensures var r := Rotate(t, Row(i), now, ttl, active).0;
            && Live(r, t[i].account) == Live(t, t[i].account) - {i} + {|t|}
            && |Live(r, t[i].account)| == |Live(t, t[i].account)|
            && (forall a :: a != t[i].account ==> Live(r, a) == Live(t, a))
  {
    var r := Rotate(t, Row(i), now, ttl, active).0;
    assert forall j :: 0 <= j < |t| && j != i ==> r[j] == t[j];
    assert Live(r, t[i].account) == Live(t, t[i].account) - {i} + {|t|};
    forall a | a != t[i].account ensures Live(r, a) == Live(t, a) {
    }
  }

  /** A token is exchanged exactly when it is known, neither revoked nor rotated, has not run out
      by the clock, and its account may sign in; the new one runs from now. Each refusal has its
      reason, the first that applies, and only the second use of a rotated token, whether or not
      it has run out, touches another token. */
  lemma RotatedExactly(t: Table, shown: Shown, now: int, ttl: int, active: bool)
    requires shown.Row? ==> shown.id < |t|
    ensures var (after, answer) := Rotate(t, shown, now, ttl, active);
            && (shown == Blank ==> answer == Rejected("refresh_token_required"))
            && (shown == Unknown ==> answer == Rejected("invalid_refresh_token"))
            && (answer.Rotated? <==> shown.Row? && !t[shown.id].revoked && now < t[shown.id].expires && active)
            && (answer.Rotated? ==>
                  && answer.token == |t| && |after| == |t| + 1
                  && after[|t|] == Token(t[shown.id].account, now + ttl, false, None)
                  && after[shown.id] == Token(t[shown.id].account, t[shown.id].expires, true, Some(|t|))
                  && forall i :: 0 <= i < |t| && i != shown.id ==> after[i] == t[i])
            && (shown.Row? && t[shown.id].revoked ==>
                  if t[shown.id].next != None then
                    && answer == Rejected("refresh_token_reused") && |after| == |t|
                    && forall i :: 0 <= i < |t| ==>
                         after[i] == Token(t[i].account, t[i].expires,
                                           t[i].revoked || t[i].account == t[shown.id].account, t[i].next)
                  else answer == Rejected("refresh_token_revoked") && after == t)
            && (shown.Row? && !t[shown.id].revoked && t[shown.id].expires <= now ==>
                  answer == Rejected("refresh_token_expired") && after == t)
            && (shown.Row? && !t[shown.id].revoked && now < t[shown.id].expires && !active ==>
                  answer == Rejected("account_inactive") && after == t)
            && (!shown.Row? ==> after == t)
  {
  }

  // --------------------------------------------------------------- whole runs

  datatype Act =
    | Login(account: nat, expires: int)
    | Present(shown: Shown, now: int, ttl: int, active: bool)
    | LogOut(token: nat)
    | LogOutEverywhere(account: nat)

  function Do(t: Table, a: Act): Table {
    match a
    case Login(account, expires) => Issue(t, account, expires)
    case Present(shown, now, ttl, active) =>
      if shown.Row? && shown.id >= |t| then t else Rotate(t, shown, now, ttl, active).0
    case LogOut(i) => if i < |t| then Logout(t, i) else t
    case LogOutEverywhere(account) => RevokeAll(t, account)
  }

  function Run(t: Table, acts: seq<Act>): Table
    decreases |acts|
  {
    if acts == [] then t else Run(Do(t, acts[0]), acts[1..])
  }

  lemma DoKeeps(t: Table, a: Act)
    requires Chained(t)
    ensures Chained(Do(t, a))
  {
    hide Chained, RevokeAll, Replace, Issue, Logout;
    match a {
      case Login(account, expires) => IssueKeeps(t, account, expires);
      case Present(shown, now, ttl, active) =>
        if shown.Row? && shown.id < |t| {
          if t[shown.id].revoked {
            RevokeAllKeeps(t, t[shown.id].account);
          } else {
            ReplaceKeeps(t, shown.id, now + ttl);
          }
        }
      case LogOut(i) => if i < |t| { LogoutKeeps(t, i); }
      case LogOutEverywhere(account) => RevokeAllKeeps(t, account);
    }
  }

  /** Rows are never lost, a revoked token stays revoked, and a link once made stays. */
  ghost predicate Later(t: Table, u: Table) {
    |t| <= |u| && forall i :: 0 <= i < |t| ==>
                    && u[i].account == t[i].account && (t[i].revoked ==> u[i].revoked)
                    && (t[i].next.Some? ==> u[i].next == t[i].next)
  }

  lemma DoIsLater(t: Table, a: Act)
    requires Chained(t)
    ensures Later(t, Do(t, a))
  {
  }

  /** In every run: chains stay chains, and what was revoked or replaced is so for good. */
  lemma {:induction false} RunKeeps(t: Table, acts: seq<Act>)
    requires Chained(t)
    ensures Chained(Run(t, acts)) && Later(t, Run(t, acts))
    decreases |acts|
  {
    hide Chained, Do;
    if acts != [] {
      DoKeeps(t, acts[0]);
      DoIsLater(t, acts[0]);
      RunKeeps(Do(t, acts[0]), acts[1..]);
    }
  }

  // ------------------------------------------------------ the program's own form

  class Store {
    var tokens: Table

    constructor ()
      ensures tokens == [] && Chained(tokens)
    {
      tokens := [];
    }

    /** Stages a token; with `predecessor`, revokes that one and links it to the new row. */
    method IssueToken(account: nat, expires: int, predecessor: Option<nat>) returns (id: nat)
      requires predecessor.Some? ==> predecessor.value < |tokens| && tokens[predecessor.value].account == account
      modifies this
      ensures id == |old(tokens)|
      ensures tokens == if predecessor.Some? then Replace(old(tokens), predecessor.value, expires)
                        else Issue(old(tokens), account, expires)
    {
      id := |tokens|;
      tokens := tokens + [Token(account, expires, false, None)];
      if predecessor.Some? {
        var i := predecessor.value;
        tokens := tokens[i := tokens[i].(revoked := true)];
        tokens := tokens[i := tokens[i].(next := Some(id))];
      }
    }

    method RevokeAccount(account: nat) returns (revoked: nat)
      modifies this
      ensures tokens == RevokeAll(old(tokens), account)
      ensures revoked == |Live(old(tokens), account)|
    {
      ghost var found: set<nat> := {};
      revoked := 0;
      for i := 0 to |tokens|
        invariant |tokens| == |old(tokens)|
        invariant forall j :: 0 <= j < i ==> tokens[j] == RevokedToken(old(tokens[j]), account)
        invariant forall j :: i <= j < |tokens| ==> tokens[j] == old(tokens[j])
        invariant found == (set j | 0 <= j < i && old(tokens[j]).account == account && !old(tokens[j]).revoked)
        invariant revoked == |found|
      {
        if tokens[i].account == account && !tokens[i].revoked {
          tokens := tokens[i := tokens[i].(revoked := true)];
          revoked := revoked + 1;
          found := found + {i};
        }
      }
    }

    method RotateToken(shown: Shown, now: int, ttl: int, active: bool) returns (answer: Answer)
      requires Chained(tokens) && (shown.Row? ==> shown.id < |tokens|)
      modifies this
      ensures (tokens, answer) == Rotate(old(tokens), shown, now, ttl, active)
      ensures Chained(tokens)
    {
      if shown.Blank? {
        return Rejected("refresh_token_required");
      }
      if shown.Unknown? {
        return Rejected("invalid_refresh_token");
      }
      var i := shown.id;
      DoKeeps(tokens, Present(shown, now, ttl, active));
      if tokens[i].revoked {
        if tokens[i].next.Some? {
          var n := RevokeAccount(tokens[i].account);
          return Rejected("refresh_token_reused");
        }
        return Rejected("refresh_token_revoked");
      }
      if tokens[i].expires <= now {
        return Rejected("refresh_token_expired");
      }
      if !active {
        return Rejected("account_inactive");
      }
      var id := IssueToken(tokens[i].account, now + ttl, Some(i));
      return Rotated(id);
    }

    /** Logging out: a token that is unknown or already revoked is left alone. */
    method RevokeToken(shown: Shown) returns (done: bool)
      requires shown.Row? ==> shown.id < |tokens|
      modifies this
      ensures done == !shown.Blank?
      ensures tokens == if shown.Row? then Logout(old(tokens), shown.id) else old(tokens)
    {
      if shown.Row? && !tokens[shown.id].revoked {
        tokens := tokens[shown.id := tokens[shown.id].(revoked := true)];
      }
      return !shown.Blank?;
    }
  }
}
