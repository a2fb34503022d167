/**
 * One synod process: its state record, its constructor, `propose`, and the
 * message handler `onReceive` with its silent / fault-prone intake gate.
 * The two random draws of the handler are parameters: `crashDraw` is the
 * outcome of the crash trial (`nextFloat() < alpha`) and `coin` is the value
 * drawn by `nextInt(2)`.
 */
module Process {
  import opened Wrappers
  import opened Messages
  import Ballots

  /** A value drawn uniformly from {0, 1}. */
  type Coin = c: int | 0 <= c < 2

  datatype State = State(
    n: int,                        // number of processes in the run
    i: int,                        // this process's index
    ballot: int,                   // last ballot issued (i - n before the first round)
    proposal: Option<int>,         // value of the current round, None until the first round
    peers: Option<seq<Peer>>,      // installed membership, None until received
    faultProne: bool,              // a crash trial is drawn on every message
    silent: bool                   // the process ignores every message
  )

  /** A freshly constructed process, ready to issue ballot `i` in its first round. */
  function Init(n: int, i: int): (s: State)
    ensures s.n == n && s.i == i
    ensures s.ballot + n == i
    ensures s.proposal == None && s.peers == None
    ensures !s.faultProne && !s.silent
  {
    State(n, i, i - n, None, None, false, false)
  }

  /** Starts a new round proposing `v`: the next ballot of this process. */
  function Propose(s: State, v: int): (r: State)
    ensures r.proposal == Some(v)
    ensures r.ballot - s.ballot == s.n
    ensures r.(ballot := s.ballot, proposal := s.proposal) == s
    ensures s.n > 0 ==> r.ballot > s.ballot
    ensures s.n > 0 ==> Ballots.Owner(s.n, r.ballot) == Ballots.Owner(s.n, s.ballot)
  {
    var r := s.(proposal := Some(v), ballot := s.ballot + s.n);
    if s.n > 0 then
      Ballots.ShiftKeepsOwner(s.n, s.ballot);
      r
    else r
  }

  /** Whether the handler body runs: the process is not silent and does not crash now. */
  predicate Admits(s: State, crashDraw: bool)
  {
    !s.silent && !(s.faultProne && crashDraw)
  }

  /** The dispatch on the kind of message, once the intake gate has let it through. */
  function Dispatch(s: State, m: Msg, coin: Coin): State
  {
    match m
    case Membership(ps) => s.(peers := Some(ps))
    case Launch => Propose(s, coin)
    case Crash => s.(faultProne := true)
    case _ => s
  }

  /** Handles one inbound message. */
  function OnReceive(s: State, m: Msg, crashDraw: bool, coin: Coin): (r: State)
    // the gate: a silent process drops everything; a crash drops the triggering message
    ensures s.silent ==> r == s
    ensures !s.silent && s.faultProne && crashDraw ==> r == s.(silent := true)
    ensures r.silent <==> s.silent || (s.faultProne && crashDraw)
    // identity never changes, and neither mode is ever switched back off
    ensures r.n == s.n && r.i == s.i
    ensures s.faultProne ==> r.faultProne
    ensures r.faultProne ==> s.faultProne || (Admits(s, crashDraw) && m.Crash?)
    // the ballot only moves by one round, on a launch that got through
    ensures r.ballot != s.ballot ==> Admits(s, crashDraw) && m.Launch?
    ensures Admits(s, crashDraw) && m.Launch? ==>
              r.ballot == s.ballot + s.n && r.proposal == Some(coin)
    ensures r.peers != s.peers ==> Admits(s, crashDraw) && m.Membership?
  {
    if s.silent then s
    else if s.faultProne && crashDraw then s.(silent := true)
    else Dispatch(s, m, coin)
  }

  /**
   * What a handler is allowed to do to the state, field by field, for each
   * kind of message that reaches it.
   */
  ghost predicate Handles(s: State, m: Msg, r: State)
  {
    match m
    case Membership(ps) =>
      r.peers == Some(ps) && r.(peers := s.peers) == s
    case Launch =>
      && r.ballot == s.ballot + s.n
      && (r.proposal == Some(0) || r.proposal == Some(1))
      && r.(ballot := s.ballot, proposal := s.proposal) == s
    case Crash =>
      r.faultProne && r.(faultProne := s.faultProne) == s
    case _ =>
      r == s
  }

  /**
   * The possible successors of `s` on message `m`, whatever the random
   * draws: nothing if silent; otherwise, if fault-prone, silence; or else
   * what the handler for `m` allows.
   */
  ghost predicate Next(s: State, m: Msg, r: State)
  {
    if s.silent then r == s
    else (s.faultProne && r == s.(silent := true)) || Handles(s, m, r)
  }

  /** Every outcome of the handler is a successor allowed by `Next`. */
  lemma OnReceiveIsNext(s: State, m: Msg, crashDraw: bool, coin: Coin)
    ensures Next(s, m, OnReceive(s, m, crashDraw, coin))
  {
  }

  /** Every successor allowed by `Next` is the outcome of some draws. */
  lemma NextIsReachable(s: State, m: Msg, r: State)
    requires Next(s, m, r)
    ensures exists crashDraw: bool, coin: Coin :: OnReceive(s, m, crashDraw, coin) == r
  {
    if s.silent {
      assert OnReceive(s, m, false, 0) == r;
    } else if s.faultProne && r == s.(silent := true) {
      assert OnReceive(s, m, true, 0) == r;
    } else if m.Launch? {
      var c: Coin := if r.proposal == Some(0) then 0 else 1;
      assert OnReceive(s, m, false, c) == r;
    } else {
      assert OnReceive(s, m, false, 0) == r;
    }
  }
}
