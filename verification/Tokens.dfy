/** Refresh-token chains and their rotation (app/routers/auth.py). */
module Tokens {
  import opened Base
  import opened Rules

  type TokenId = int
  type Chain = int

  /** A row of the token table under its unique hash. `parent` records which token was presented to
      obtain this one; the table itself does not keep it. */
  datatype Token = Token(
    user: Option<UserId>, device: Option<DeviceId>, chain: Chain, usedAt: Option<Moment>,
    revokedAt: Option<Moment>, expiresAt: Moment, parent: Option<TokenId>)

  type Table = map<TokenId, Token>

  const REPLAY_GRACE := 30 * SECOND
  const REFRESH_TTL := 2_592_000 * SECOND

  predicate ReplayIsRecoverable(usedAt: Moment, chainMovedOn: bool, at: Moment) {
    !chainMovedOn && at - usedAt <= REPLAY_GRACE
  }

  predicate ChainMovedOn(t: Table, row: Token)
    requires row.usedAt.Some?
  {
    exists id :: id in t && t[id].chain == row.chain && t[id].usedAt.Some? && t[id].usedAt.value > row.usedAt.value
  }

  /** Whether presenting the token would yield a new pair. */
  predicate Accepted(t: Table, id: TokenId, at: Moment) {
    && id in t
    && t[id].revokedAt == None
    && t[id].expiresAt > at
    && (t[id].usedAt.Some? ==> ReplayIsRecoverable(t[id].usedAt.value, ChainMovedOn(t, t[id]), at))
  }

  /** Neither spent nor revoked. */
  predicate Live(row: Token) {
    row.usedAt == None && row.revokedAt == None
  }

  function MarkUsed(t: Table, id: TokenId, at: Moment): Table
    requires id in t
  {
    t[id := t[id].(usedAt := Some(at))]
  }

  function RevokeLive(t: Table, chain: Chain, at: Moment): Table {
    map id | id in t :: if t[id].chain == chain && Live(t[id]) then t[id].(revokedAt := Some(at)) else t[id]
  }

  function RevokeChain(t: Table, chain: Chain, at: Moment): Table {
    map id | id in t :: if t[id].chain == chain then t[id].(revokedAt := Some(at)) else t[id]
  }

  function RevokeDevices(t: Table, devices: set<DeviceId>, at: Moment): Table {
    map id | id in t ::
      if t[id].device.Some? && t[id].device.value in devices && t[id].revokedAt == None
      then t[id].(revokedAt := Some(at)) else t[id]
  }

  function NewToken(user: Option<UserId>, device: Option<DeviceId>, chain: Chain, at: Moment,
          parent: Option<TokenId>): Token {
    Token(user, device, chain, None, None, at + REFRESH_TTL, parent)
  }

  /** The table after a successful refresh. */
  function Rotated(t: Table, id: TokenId, minted: TokenId, at: Moment): Table
    requires id in t
  {
    var spent := if t[id].usedAt == None then MarkUsed(t, id, at) else RevokeLive(t, t[id].chain, at);
    spent[minted := NewToken(t[id].user, t[id].device, t[id].chain, at, Some(id))]
  }

  function Opened(t: Table, user: Option<UserId>, device: Option<DeviceId>, chain: Chain, minted: TokenId,
          at: Moment): Table {
    t[minted := NewToken(user, device, chain, at, None)]
  }

  // ---------------------------------------------------------------- requests, as they run

  function LoggedOut(t: Table, presented: TokenId, at: Moment): Table {
    if presented in t then RevokeChain(t, t[presented].chain, at) else t
  }

  class TokenStore {
    var tokens: Table

    constructor ()
      ensures tokens == map[]
    {
      tokens := map[];
    }

    method IssuePair(user: Option<UserId>, device: Option<DeviceId>, chain: Chain, minted: TokenId, at: Moment,
            parent: Option<TokenId>)
      modifies this
      ensures tokens == old(tokens)[minted := NewToken(user, device, chain, at, parent)]
    {
      tokens := tokens[minted := Token(user, device, chain, None, None, at + REFRESH_TTL, parent)];
    }

    /** Reuse of a spent token revokes the whole chain and then raises; raising rolls the
        revocation back, so that branch leaves no trace. */
    method Refresh(presented: TokenId, minted: TokenId, at: Moment) returns (r: Outcome<TokenId>)
      modifies this
      ensures r.Done? <==> Accepted(old(tokens), presented, at)
      ensures tokens == if r.Done? then Rotated(old(tokens), presented, minted, at) else old(tokens)
    {
      if presented !in tokens {
        return Refused("unknown");
      }
      var row := tokens[presented];
      if row.revokedAt.Some? {
        return Refused("revoked");
      }
      if row.expiresAt <= at {
        return Refused("expired");
      }
      var saved := tokens;
      if row.usedAt == None {
        tokens := tokens[presented := row.(usedAt := Some(at))];
      } else if ReplayIsRecoverable(row.usedAt.value, ChainMovedOn(tokens, row), at) {
        tokens := RevokeLive(tokens, row.chain, at);
      } else {
        tokens := RevokeChain(tokens, row.chain, at);
        tokens := saved;
        return Refused("reused");
      }
      IssuePair(row.user, row.device, row.chain, minted, at, Some(presented));
      return Done(minted);
    }

    method Logout(presented: TokenId, at: Moment)
      modifies this
      ensures tokens == LoggedOut(old(tokens), presented, at)
    {
      if presented in tokens {
        tokens := RevokeChain(tokens, tokens[presented].chain, at);
      }
    }
  }

  // ---------------------------------------------------------------- runs

  /** Everything that ever happens to the table: a login or pairing opens a chain, tokens are
      presented, sessions are logged out, and devices are unbound. */
  datatype Op =
    | OpenOp(user: Option<UserId>, device: Option<DeviceId>, chain: Chain, minted: TokenId, at: Moment)
    | RefreshOp(presented: TokenId, minted: TokenId, at: Moment)
    | LogoutOp(presented: TokenId, at: Moment)
    | UnbindOp(devices: set<DeviceId>, at: Moment)

  function Step(t: Table, op: Op): Table {
    match op
    case OpenOp(user, device, chain, minted, at) => Opened(t, user, device, chain, minted, at)
    case RefreshOp(presented, minted, at) =>
      if Accepted(t, presented, at) then Rotated(t, presented, minted, at) else t
    case LogoutOp(presented, at) => LoggedOut(t, presented, at)
    case UnbindOp(devices, at) => RevokeDevices(t, devices, at)
  }

  /** Random token hashes and chain ids do not collide with stored ones. */
  ghost predicate FreshOp(t: Table, op: Op) {
    match op
    case OpenOp(_, _, chain, minted, _) => minted !in t && forall id :: id in t ==> t[id].chain != chain
    case RefreshOp(_, minted, _) => minted !in t
    case _ => true
  }

  function Run(t: Table, ops: seq<Op>): Table
    decreases |ops|
  {
    if ops == [] then t else Run(Step(t, ops[0]), ops[1..])
  }

  ghost predicate FreshRun(t: Table, ops: seq<Op>)
    decreases |ops|
  {
    ops == [] || (FreshOp(t, ops[0]) && FreshRun(Step(t, ops[0]), ops[1..]))
  }

  /** The clock never runs backwards, and has moved on whenever a token is presented. */
  predicate Advancing(clock: Moment, ops: seq<Op>)
    decreases |ops|
  {
    ops == [] ||
    (clock <= ops[0].at && (ops[0].RefreshOp? ==> clock < ops[0].at) && Advancing(ops[0].at, ops[1..]))
  }

  ghost predicate OneLive(t: Table) {
    forall a, b :: a in t && b in t && t[a].chain == t[b].chain && Live(t[a]) && Live(t[b]) ==> a == b
  }

  ghost predicate UsesInThePast(t: Table, clock: Moment) {
    forall a :: a in t && t[a].usedAt.Some? ==> t[a].usedAt.value <= clock
  }

  ghost predicate UsesDistinct(t: Table) {
    forall a, b :: a in t && b in t && t[a].chain == t[b].chain && t[a].usedAt.Some? && t[a].usedAt == t[b].usedAt
      ==> a == b
  }

  ghost predicate ParentsUsedFirst(t: Table) {
    forall c :: c in t && t[c].parent.Some? ==>
      var p := t[c].parent.value;
      && p in t && t[p].chain == t[c].chain && t[p].usedAt.Some?
      && (t[c].usedAt.Some? ==> t[c].usedAt.value > t[p].usedAt.value)
  }

  /** All tokens of a chain stand for the same user and device. */
  ghost predicate OneOwner(t: Table) {
    forall a, b :: a in t && b in t && t[a].chain == t[b].chain ==> t[a].user == t[b].user && t[a].device == t[b].device
  }

  ghost predicate Inv(t: Table, clock: Moment) {
    OneLive(t) && OneOwner(t) && UsesInThePast(t, clock) && UsesDistinct(t) && ParentsUsedFirst(t)
  }

  /** Rows are never deleted, and what has happened to one is never undone. */
  ghost predicate Evolves(before: Table, after: Table) {
    forall id :: id in before ==>
      && id in after
      && after[id].chain == before[id].chain
      && after[id].parent == before[id].parent
      && after[id].user == before[id].user && after[id].device == before[id].device
      && after[id].expiresAt == before[id].expiresAt
      && (before[id].usedAt.Some? ==> after[id].usedAt == before[id].usedAt)
      && (before[id].revokedAt.Some? ==> after[id].revokedAt.Some?)
  }

  lemma RotationKeepsOneLive(t: Table, id: TokenId, minted: TokenId, at: Moment)
    requires OneLive(t) && id in t && minted !in t && (t[id].usedAt == None ==> t[id].revokedAt == None)
    ensures OneLive(Rotated(t, id, minted, at))
  {
  }

  lemma RotationKeepsOwner(t: Table, id: TokenId, minted: TokenId, at: Moment)
    requires OneOwner(t) && id in t && minted !in t
    ensures OneOwner(Rotated(t, id, minted, at))
  {
  }

  lemma RotationKeepsTimes(t: Table, clock: Moment, id: TokenId, minted: TokenId, at: Moment)
    requires UsesInThePast(t, clock) && UsesDistinct(t)
    requires clock < at && id in t && minted !in t
    ensures UsesInThePast(Rotated(t, id, minted, at), at) && UsesDistinct(Rotated(t, id, minted, at))
  {
  }

  lemma RotationKeepsParents(t: Table, clock: Moment, id: TokenId, minted: TokenId, at: Moment)
    requires UsesInThePast(t, clock) && ParentsUsedFirst(t)
    requires clock < at && id in t && minted !in t
    ensures ParentsUsedFirst(Rotated(t, id, minted, at))
  {
    var after := Rotated(t, id, minted, at);
    forall c | c in after && after[c].parent.Some?
      ensures var p := after[c].parent.value;
              && p in after && after[p].chain == after[c].chain && after[p].usedAt.Some?
              && (after[c].usedAt.Some? ==> after[c].usedAt.value > after[p].usedAt.value)
    {
      if c != minted {
        assert after[c].parent == t[c].parent && after[c].chain == t[c].chain;
        var p := t[c].parent.value;
        assert p in t && t[p].usedAt.Some? && after[p].usedAt == t[p].usedAt && after[p].chain == t[p].chain;
      }
    }
  }

  lemma RotationKeepsInv(t: Table, clock: Moment, id: TokenId, minted: TokenId, at: Moment)
    requires Inv(t, clock) && clock < at && minted !in t && Accepted(t, id, at)
    ensures Inv(Rotated(t, id, minted, at), at)
  {
    RotationKeepsOneLive(t, id, minted, at);
    RotationKeepsOwner(t, id, minted, at);
    RotationKeepsTimes(t, clock, id, minted, at);
    RotationKeepsParents(t, clock, id, minted, at);
  }

  lemma OpeningKeepsInv(t: Table, clock: Moment, op: Op)
    requires Inv(t, clock) && clock <= op.at && op.OpenOp? && FreshOp(t, op)
    ensures Inv(Step(t, op), op.at)
  {
  }

  lemma RevokingKeepsInv(t: Table, clock: Moment, op: Op)
    requires Inv(t, clock) && clock <= op.at && (op.LogoutOp? || op.UnbindOp?)
    ensures Inv(Step(t, op), op.at)
  {
  }

  lemma StepEvolves(t: Table, op: Op)
    requires FreshOp(t, op)
    ensures Evolves(t, Step(t, op))
  {
  }

  lemma {:induction false} StepKeepsInv(t: Table, clock: Moment, op: Op)
    requires Inv(t, clock) && clock <= op.at && FreshOp(t, op)
    requires op.RefreshOp? ==> clock < op.at
    ensures Inv(Step(t, op), op.at) && Evolves(t, Step(t, op))
  {
    StepEvolves(t, op);
    match op
    case OpenOp(_, _, _, _, _) => OpeningKeepsInv(t, clock, op);
    case RefreshOp(presented, minted, at) =>
      if Accepted(t, presented, at) {
        RotationKeepsInv(t, clock, presented, minted, at);
      }
    case _ => RevokingKeepsInv(t, clock, op);
  }

  function Last(clock: Moment, ops: seq<Op>): Moment {
    if ops == [] then clock else ops[|ops| - 1].at
  }

  /** Whatever the clock does, no run ever gives a chain two live tokens. */
  lemma {:induction false} RunKeepsOneLive(t: Table, ops: seq<Op>)
    requires OneLive(t) && FreshRun(t, ops)
    ensures OneLive(Run(t, ops))
    decreases |ops|
  {
    if ops == [] {
    } else {
      RunKeepsOneLive(Step(t, ops[0]), ops[1..]);
    }
  }

  /** With an advancing clock, uses in a chain are moreover distinct in time, a token is only ever spent
      after its parent, a chain never changes hands, and no row is ever deleted or brought back. */
  lemma {:induction false} RunKeepsInv(t: Table, clock: Moment, ops: seq<Op>)
    requires Inv(t, clock) && Advancing(clock, ops) && FreshRun(t, ops)
    ensures Inv(Run(t, ops), Last(clock, ops)) && Evolves(t, Run(t, ops))
    decreases |ops|
  {
    if ops == [] {
    } else {
      StepKeepsInv(t, clock, ops[0]);
      RunKeepsInv(Step(t, ops[0]), ops[0].at, ops[1..]);
    }
  }

  lemma {:induction false} RunAppend(t: Table, clock: Moment, first: seq<Op>, second: seq<Op>)
    ensures Run(t, first + second) == Run(Run(t, first), second)
    ensures FreshRun(t, first + second) <==> FreshRun(t, first) && FreshRun(Run(t, first), second)
    ensures Advancing(clock, first + second) <==> Advancing(clock, first) && Advancing(Last(clock, first), second)
    decreases |first|
  {
    if first == [] {
      assert first + second == second;
    } else {
      assert (first + second)[1..] == first[1..] + second;
      RunAppend(Step(t, first[0]), first[0].at, first[1..], second);
    }
  }

  lemma RunThen(t: Table, clock: Moment, first: seq<Op>, between: Moment, second: seq<Op>)
    requires FreshRun(t, first) && Advancing(clock, first) && Last(clock, first) <= between
    requires FreshRun(Run(t, first), second) && Advancing(between, second)
    ensures Run(t, first + second) == Run(Run(t, first), second)
    ensures FreshRun(t, first + second) && Advancing(clock, first + second)
    ensures Last(clock, first + second) <= Last(between, second)
  {
    RunAppend(t, clock, first, second);
  }

  // ---------------------------------------------------------------- what the invariant gives

  lemma SpentAndAcceptedIsLatest(t: Table, clock: Moment, at: Moment, a: TokenId, b: TokenId)
    requires Inv(t, clock) && Accepted(t, a, at) && Accepted(t, b, at) && t[a].chain == t[b].chain
    requires t[a].usedAt.Some? && t[b].usedAt.Some?
    ensures a == b
  {
    assert !ChainMovedOn(t, t[a]) && !ChainMovedOn(t, t[b]);
    assert t[a].usedAt.value <= t[b].usedAt.value;
  }

  /** At most two tokens of a chain would be accepted at any moment: the live one and the one used last. */
  lemma AtMostTwoAccepted(t: Table, clock: Moment, at: Moment, a: TokenId, b: TokenId, c: TokenId)
    requires Inv(t, clock) && Accepted(t, a, at) && Accepted(t, b, at) && Accepted(t, c, at)
    requires t[a].chain == t[b].chain == t[c].chain
    ensures a == b || b == c || a == c
    ensures Live(t[a]) || (forall id :: id in t && t[id].chain == t[a].chain && t[id].usedAt.Some? ==>
                             t[id].usedAt.value <= t[a].usedAt.value)
  {
    if t[a].usedAt.Some? && t[b].usedAt.Some? {
      SpentAndAcceptedIsLatest(t, clock, at, a, b);
    }
    if t[a].usedAt.Some? && t[c].usedAt.Some? {
      SpentAndAcceptedIsLatest(t, clock, at, a, c);
    }
    if t[b].usedAt.Some? && t[c].usedAt.Some? {
      SpentAndAcceptedIsLatest(t, clock, at, b, c);
    }
  }

  /** The same over every run of requests from an empty table. */
  lemma EveryReachableChain(clock: Moment, ops: seq<Op>, at: Moment, a: TokenId, b: TokenId, c: TokenId)
    requires FreshRun(map[], ops) && Advancing(clock, ops)
    ensures var t := Run(map[], ops);
            && OneLive(t)
            && (Accepted(t, a, at) && Accepted(t, b, at) && Accepted(t, c, at)
                && t[a].chain == t[b].chain == t[c].chain ==>
                  a == b || b == c || a == c)
  {
    RunKeepsInv(map[], clock, ops);
    var t := Run(map[], ops);
    if Accepted(t, a, at) && Accepted(t, b, at) && Accepted(t, c, at) && t[a].chain == t[b].chain == t[c].chain {
      AtMostTwoAccepted(t, Last(clock, ops), at, a, b, c);
    }
  }

  /** Once the replacement of a token has been used, that token is refused at every moment of every
      continuation, even inside the grace period. */
  lemma ReplacedTokenIsDead(t: Table, clock: Moment, ops: seq<Op>, parent: TokenId, successor: TokenId, at: Moment)
    requires Inv(t, clock) && Advancing(clock, ops) && FreshRun(t, ops)
    requires successor in t && t[successor].parent == Some(parent) && t[successor].usedAt.Some?
    ensures !Accepted(Run(t, ops), parent, at)
  {
    RunKeepsInv(t, clock, ops);
    var later := Run(t, ops);
    assert later[successor].usedAt.value > later[parent].usedAt.value;
  }

  ghost predicate Dead(t: Table, chain: Chain) {
    forall id :: id in t && t[id].chain == chain ==> t[id].revokedAt.Some?
  }

  lemma StepKeepsDead(t: Table, op: Op, chain: Chain)
    requires FreshOp(t, op) && Dead(t, chain) && exists id :: id in t && t[id].chain == chain
    ensures Dead(Step(t, op), chain)
    ensures forall id :: id in Step(t, op) && Step(t, op)[id].chain == chain <==> id in t && t[id].chain == chain
  {
  }

  /** A chain all of whose tokens are revoked never mints another token, in any run. Logging out and
      unbinding the only device of a chain put it in that state. */
  lemma {:induction false} DeadChainNeverMints(t: Table, ops: seq<Op>, chain: Chain, member: TokenId)
    requires FreshRun(t, ops) && Dead(t, chain) && member in t && t[member].chain == chain
    ensures Dead(Run(t, ops), chain)
    ensures forall id :: id in Run(t, ops) && Run(t, ops)[id].chain == chain <==> id in t && t[id].chain == chain
    decreases |ops|
  {
    if ops == [] {
    } else {
      StepKeepsDead(t, ops[0], chain);
      DeadChainNeverMints(Step(t, ops[0]), ops[1..], chain, member);
    }
  }

  lemma LogoutKillsChain(t: Table, presented: TokenId, at: Moment, id: TokenId, later: Moment)
    requires presented in t && id in t && t[id].chain == t[presented].chain
    ensures Dead(Step(t, LogoutOp(presented, at)), t[presented].chain)
    ensures !Accepted(Step(t, LogoutOp(presented, at)), id, later)
  {
  }

  /** A client that lost the reply may present the same token once more within thirty seconds: it gets
      a working token, and the one that went astray can never be used. */
  lemma LostReplyIsRecoverable(t: Table, clock: Moment, id: TokenId, lost: TokenId, minted: TokenId, first: Moment,
          again: Moment)
    requires Inv(t, clock) && clock < first < again <= first + 30 * SECOND
    requires id in t && Live(t[id]) && again < t[id].expiresAt
    requires lost !in t && minted !in t && lost != minted
    ensures var once := Step(t, RefreshOp(id, lost, first));
            var twice := Step(once, RefreshOp(id, minted, again));
            && Accepted(once, id, again) && Accepted(twice, id, again)
            && (forall at :: again <= at < again + 30 * DAY ==> Accepted(twice, minted, at))
            && (forall at :: !Accepted(twice, lost, at))
            && (forall at :: first + 30 * SECOND < at ==> !Accepted(twice, id, at))
  {
    var once := Rotated(t, id, lost, first);
    assert Accepted(t, id, first);
    assert !ChainMovedOn(once, once[id]);
  }

  /** The run without the presentations that are refused. */
  function WithoutRefused(t: Table, ops: seq<Op>): seq<Op>
    decreases |ops|
  {
    if ops == [] then []
    else
      var rest := WithoutRefused(Step(t, ops[0]), ops[1..]);
      if ops[0].RefreshOp? && !Accepted(t, ops[0].presented, ops[0].at) then rest else [ops[0]] + rest
  }

  /** A refused presentation, the reuse of a spent token included, leaves no trace in any run: deleting all
      of them leads to the same table, and none is refused in what remains. */
  lemma {:induction false} RefusalsLeaveNoTrace(t: Table, ops: seq<Op>)
    ensures Run(t, WithoutRefused(t, ops)) == Run(t, ops)
    ensures WithoutRefused(t, WithoutRefused(t, ops)) == WithoutRefused(t, ops)
    decreases |ops|
  {
    if ops == [] {
    } else {
      var rest := WithoutRefused(Step(t, ops[0]), ops[1..]);
      RefusalsLeaveNoTrace(Step(t, ops[0]), ops[1..]);
      assert ([ops[0]] + rest)[1..] == rest;
    }
  }

  /** The message of a refused reuse says that the whole session is revoked; the rollback makes that untrue.
      A concrete chain: the first token was used a minute ago, its replacement is live. Reusing the
      first is refused, and the replacement goes on working. */
  lemma RefusedReuseExample()
    ensures var a := Token(Some(7), None, 1, Some(100 * SECOND), None, 100 * SECOND + REFRESH_TTL, None);
            var b := NewToken(Some(7), None, 1, 100 * SECOND, Some(1));
            var t := map[1 := a, 2 := b];
            && !Accepted(t, 1, 160 * SECOND)
            && Accepted(Step(t, RefreshOp(1, 3, 160 * SECOND)), 2, 160 * SECOND)
  {
  }

  /** The token a request mints, if it mints one. */
  function Minted(t: Table, op: Op): Option<TokenId> {
    match op
    case OpenOp(_, _, _, minted, _) => Some(minted)
    case RefreshOp(presented, minted, at) => if Accepted(t, presented, at) then Some(minted) else None
    case _ => None
  }

  /** Whose a minted token is: the user and device it was opened for, or those of the token presented for it,
      which it remembers as its parent and whose chain it continues. It is neither used nor revoked yet. */
  lemma MintedBelongs(t: Table, op: Op)
    requires FreshOp(t, op) && Minted(t, op).Some?
    ensures var id := Minted(t, op).value;
            var after := Step(t, op);
            && id !in t && id in after && Live(after[id]) && after[id].usedAt == None
            && (op.OpenOp? ==>
                  && after[id].user == op.user && after[id].device == op.device && after[id].chain == op.chain
                  && after[id].parent == None)
            && (op.RefreshOp? ==>
                  && after[id].user == t[op.presented].user && after[id].device == t[op.presented].device
                  && after[id].chain == t[op.presented].chain && after[id].parent == Some(op.presented)
                  && after[op.presented].usedAt.Some?)
  {
  }

  /** No session outlives thirty days without a refresh: from thirty days after it was minted on a token is
      refused at every moment of every continuation. Until then it is accepted while nothing happens. */
  lemma TokensExpire(t: Table, clock: Moment, op: Op, ops: seq<Op>, at: Moment)
    requires Inv(t, clock) && Advancing(clock, [op] + ops) && FreshRun(t, [op] + ops) && Minted(t, op).Some?
    ensures op.at + 30 * DAY <= at ==> !Accepted(Run(Step(t, op), ops), Minted(t, op).value, at)
    ensures at < op.at + 30 * DAY ==> Accepted(Step(t, op), Minted(t, op).value, at)
  {
    assert ([op] + ops)[1..] == ops;
    StepKeepsInv(t, clock, op);
    RunKeepsInv(Step(t, op), op.at, ops);
  }

  // ---------------------------------------------------------------- what one session cannot do to another

  /** Requests about a chain: opening it, presenting or logging out a token of it, unbinding its device. */
  predicate Concerns(t: Table, op: Op, chain: Chain) {
    match op
    case OpenOp(_, _, c, _, _) => c == chain
    case RefreshOp(presented, _, _) => presented in t && t[presented].chain == chain
    case LogoutOp(presented, _) => presented in t && t[presented].chain == chain
    case UnbindOp(devices, _) =>
      exists id :: id in t && t[id].chain == chain && t[id].device.Some? && t[id].device.value in devices
  }

  /** The rows of a chain are the same in both tables. */
  ghost predicate SameChain(a: Table, b: Table, chain: Chain) {
    && (forall id :: id in a && a[id].chain == chain ==> id in b && b[id] == a[id])
    && (forall id :: id in b && b[id].chain == chain ==> id in a && a[id] == b[id])
  }

  lemma StepLeavesChain(t: Table, op: Op, chain: Chain)
    requires FreshOp(t, op) && !Concerns(t, op, chain)
    ensures SameChain(t, Step(t, op), chain)
  {
  }

  ghost predicate NoneConcerns(t: Table, ops: seq<Op>, chain: Chain)
    decreases |ops|
  {
    ops == [] || (!Concerns(t, ops[0], chain) && NoneConcerns(Step(t, ops[0]), ops[1..], chain))
  }

  lemma SameChainAccepts(a: Table, b: Table, chain: Chain, id: TokenId, at: Moment)
    requires SameChain(a, b, chain)
    ensures id in a && a[id].chain == chain ==> (Accepted(b, id, at) <==> Accepted(a, id, at))
  {
  }

  /** A session is nobody else's business: logins, refreshes, refused reuses, logouts and unbindings that do
      not concern a chain leave every row of it as it is, in any run, and what is accepted of it with it. */
  lemma {:induction false} RunLeavesChain(t: Table, ops: seq<Op>, chain: Chain, id: TokenId, at: Moment)
    requires FreshRun(t, ops) && NoneConcerns(t, ops, chain)
    ensures SameChain(t, Run(t, ops), chain)
    ensures id in t && t[id].chain == chain ==> (Accepted(Run(t, ops), id, at) <==> Accepted(t, id, at))
    decreases |ops|
  {
    if ops == [] {
    } else {
      StepLeavesChain(t, ops[0], chain);
      RunLeavesChain(Step(t, ops[0]), ops[1..], chain, id, at);
      SameChainAccepts(t, Run(t, ops), chain, id, at);
    }
  }
}
