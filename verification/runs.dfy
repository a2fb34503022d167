/**
 * Runs of a single process: the sequence of messages it handles, one at a
 * time, each paired with the random draws made while handling it.
 */
module Runs {
  import opened Messages
  import opened Process
  import Ballots

  /** One delivered message together with the draws made while handling it. */
  datatype Delivery = Delivery(msg: Msg, crashDraw: bool, coin: Coin)

  /** The state after handling `ds` in order, starting from `s`. */
  function Run(s: State, ds: seq<Delivery>): State
    decreases |ds|
  {
    if |ds| == 0 then s
    else Run(OnReceive(s, ds[0].msg, ds[0].crashDraw, ds[0].coin), ds[1..])
  }

  /** Whether delivery `d` makes the process start a new round. */
  predicate Proposes(s: State, d: Delivery)
  {
    Admits(s, d.crashDraw) && d.msg.Launch?
  }

  /** The ballots the process issues while handling `ds`, in order. */
  function Issued(s: State, ds: seq<Delivery>): seq<int>
    decreases |ds|
  {
    if |ds| == 0 then []
    else
      var s' := OnReceive(s, ds[0].msg, ds[0].crashDraw, ds[0].coin);
      (if Proposes(s, ds[0]) then [s'.ballot] else []) + Issued(s', ds[1..])
  }

  /** Handling `a + b` is handling `a`, then `b`. */
  lemma {:induction false} RunAppend(s: State, a: seq<Delivery>, b: seq<Delivery>)
    ensures Run(s, a + b) == Run(Run(s, a), b)
    decreases |a|
  {
    if |a| > 0 {
      assert (a + b)[1..] == a[1..] + b;
      RunAppend(OnReceive(s, a[0].msg, a[0].crashDraw, a[0].coin), a[1..], b);
    } else {
      assert a + b == b;
    }
  }

  /** A silent process stays exactly as it is and issues no ballot, whatever it is sent. */
  lemma {:induction false} SilenceIsTerminal(s: State, ds: seq<Delivery>)
    requires s.silent
    ensures Run(s, ds) == s
    ensures Issued(s, ds) == []
    decreases |ds|
  {
    if |ds| > 0 {
      SilenceIsTerminal(s, ds[1..]);
    }
  }

  /** Once a prefix of a run has silenced the process, the rest of the run changes nothing. */
  lemma SilentPrefixFreezes(s: State, a: seq<Delivery>, b: seq<Delivery>)
    requires Run(s, a).silent
    ensures Run(s, a + b) == Run(s, a)
  {
    RunAppend(s, a, b);
    SilenceIsTerminal(Run(s, a), b);
  }

  /**
   * Along any run the identity is kept, and neither the fault-prone flag nor
   * silence is ever switched back off.
   */
  lemma {:induction false} RunKeepsIdentityAndModes(s: State, ds: seq<Delivery>)
    ensures Run(s, ds).n == s.n && Run(s, ds).i == s.i
    ensures s.faultProne ==> Run(s, ds).faultProne
    ensures s.silent ==> Run(s, ds).silent
    decreases |ds|
  {
    if |ds| > 0 {
      RunKeepsIdentityAndModes(OnReceive(s, ds[0].msg, ds[0].crashDraw, ds[0].coin), ds[1..]);
    }
  }

  /** Whether some delivery of `ds` is a `Crash` message. */
  predicate SentCrash(ds: seq<Delivery>)
  {
    exists k :: 0 <= k < |ds| && ds[k].msg.Crash?
  }

  /** A process that was never sent `Crash` is never fault-prone and never goes silent. */
  lemma {:induction false} NoCrashNoSilence(s: State, ds: seq<Delivery>)
    requires !s.faultProne && !s.silent
    requires !SentCrash(ds)
    ensures !Run(s, ds).faultProne && !Run(s, ds).silent
    decreases |ds|
  {
    if |ds| > 0 {
      assert !ds[0].msg.Crash?;
      assert !SentCrash(ds[1..]) by {
        forall k | 0 <= k < |ds[1..]|
          ensures !ds[1..][k].msg.Crash?
        {
          assert ds[1..][k] == ds[k + 1];
        }
      }
      NoCrashNoSilence(OnReceive(s, ds[0].msg, ds[0].crashDraw, ds[0].coin), ds[1..]);
    }
  }

  /**
   * The `k`-th ballot issued is the starting ballot advanced by `k + 1`
   * rounds, and the final ballot has advanced by one round per issued ballot.
   */
  lemma {:induction false} IssuedAdvanceByRounds(s: State, ds: seq<Delivery>)
    ensures forall k :: 0 <= k < |Issued(s, ds)| ==> Issued(s, ds)[k] == s.ballot + (k + 1) * s.n
    ensures Run(s, ds).ballot == s.ballot + |Issued(s, ds)| * s.n
    decreases |ds|
  {
    if |ds| > 0 {
      var s' := OnReceive(s, ds[0].msg, ds[0].crashDraw, ds[0].coin);
      IssuedAdvanceByRounds(s', ds[1..]);
      RunKeepsIdentityAndModes(s', ds[1..]);
      var rest := Issued(s', ds[1..]);
      if Proposes(s, ds[0]) {
        assert s'.ballot == s.ballot + s.n;
        assert Issued(s, ds) == [s'.ballot] + rest;
        forall k | 0 <= k < |Issued(s, ds)|
          ensures Issued(s, ds)[k] == s.ballot + (k + 1) * s.n
        {
          if k > 0 {
            assert Issued(s, ds)[k] == rest[k - 1];
            assert rest[k - 1] == s'.ballot + k * s.n;
            assert (k + 1) * s.n == k * s.n + s.n;
          }
        }
        assert (|rest| + 1) * s.n == |rest| * s.n + s.n;
      } else {
        assert s'.ballot == s.ballot;
        assert Issued(s, ds) == rest;
      }
    }
  }

  /**
   * From a freshly constructed process `i` of `n`, the `k`-th ballot issued
   * is `i + k * n`, and after at least one round the current ballot is the
   * last one issued, `i + (rounds - 1) * n`.
   */
  lemma FreshProcessBallots(n: int, i: int, ds: seq<Delivery>)
    ensures forall k :: 0 <= k < |Issued(Init(n, i), ds)| ==>
              Issued(Init(n, i), ds)[k] == Ballots.Nth(n, i, k)
    ensures |Issued(Init(n, i), ds)| > 0 ==>
              Run(Init(n, i), ds).ballot == Ballots.Nth(n, i, |Issued(Init(n, i), ds)| - 1)
  {
    var I := Issued(Init(n, i), ds);
    IssuedAdvanceByRounds(Init(n, i), ds);
    forall k | 0 <= k < |I|
      ensures I[k] == Ballots.Nth(n, i, k)
    {
      assert I[k] == (i - n) + (k + 1) * n;
      assert (k + 1) * n == k * n + n;
    }
    if |I| > 0 {
      assert |I| * n == (|I| - 1) * n + n;
    }
  }

  /** The ballots a process issues strictly increase and are all owned by it. */
  lemma IssuedIncreasingAndOwned(n: int, i: int, ds: seq<Delivery>)
    requires 0 <= i < n
    ensures forall a, b :: 0 <= a < b < |Issued(Init(n, i), ds)| ==>
              Issued(Init(n, i), ds)[a] < Issued(Init(n, i), ds)[b]
    ensures forall k :: 0 <= k < |Issued(Init(n, i), ds)| ==>
              Ballots.Owner(n, Issued(Init(n, i), ds)[k]) == i
  {
    var I := Issued(Init(n, i), ds);
    FreshProcessBallots(n, i, ds);
    forall a, b | 0 <= a < b < |I|
      ensures I[a] < I[b]
    {
      Ballots.NthStrictlyIncreasing(n, i, a, b);
    }
    forall k | 0 <= k < |I|
      ensures Ballots.Owner(n, I[k]) == i
    {
      Ballots.OwnerOfNth(n, i, k);
    }
  }

  /**
   * Two distinct processes of the same run never issue the same ballot,
   * whatever messages and draws each of them sees.
   */
  lemma BallotUniqueness(n: int, i: int, j: int, di: seq<Delivery>, dj: seq<Delivery>)
    requires 0 <= i < n && 0 <= j < n
    requires i != j
    ensures forall a, b :: 0 <= a < |Issued(Init(n, i), di)| && 0 <= b < |Issued(Init(n, j), dj)| ==>
              Issued(Init(n, i), di)[a] != Issued(Init(n, j), dj)[b]
  {
    IssuedIncreasingAndOwned(n, i, di);
    IssuedIncreasingAndOwned(n, j, dj);
  }
}
