# Synod process: a Dafny model

This project models one participant ("process") of the Synod consensus simulation,
as written in `synod/src/main/java/com/example/synod/Process.java`. In the Java
program each process is an Akka actor. A process is built with the run size `n` and
its index `i`. It keeps a ballot number, the value of its current proposal, the
installed membership, and two mode flags. These are `faultProneMode`, under which
every inbound message draws a crash trial, and `silentMode`, under which every
message is dropped.

Modelled behaviour:

- **Construction** (`Process.Init`). The ballot starts at `i - n`, so the first
  `propose` issues ballot `i`. Both mode flags are off, and the proposal and
  membership are still `null` (`None`).
- **propose** (`Process.Propose`). It records the value and advances the ballot by `n`.
  Process `i` therefore issues ballots `i, i + n, i + 2n, ...`.
- **onReceive** (`Process.OnReceive`). A silent process drops every message. A
  fault-prone process draws a crash trial (`nextFloat() < 0.3`) on every message. On
  success it becomes silent and drops that message too. A message that gets through
  is dispatched on its kind:
  - `Membership` stores the peer list;
  - `LaunchMsg` draws a coin in {0, 1} (`nextInt(2)`) and proposes it;
  - `CrashMsg` turns fault-prone mode on;
  - anything else (`Read`, `Gather`, `Abort`, any other object) has no effect.

The two random draws are explicit parameters of `OnReceive`: a boolean `crashDraw`
and a `Coin` (an `int` in `[0, 2)`). `Process.Next` is a declarative,
nondeterministic description of the successors a message allows, field by field.
Two lemmas show it coincides with `OnReceive` over all draws, in both directions.
Module `Runs` handles one message at a time, as an actor does. It pairs each message
with its draws and states the run-level properties:

- silence is terminal;
- the fault-prone flag is never reset;
- each issued ballot is `i + k * n`, so ballots strictly increase and are `≡ i (mod n)`;
- two distinct processes never issue the same ballot.

Module `Ballots` holds the numbering scheme on its own. `Owner(n, b)` is the
residue `b % n`, which identifies the process that issued `b`.

Files: `wrappers.dfy` (Option), `messages.dfy` (message shapes), `ballots.dfy`,
`process.dfy`, `runs.dfy`.

## Model

| member | source | states |
|---|---|---|
| Process.Init | synod/src/main/java/com/example/synod/Process.java:18-39 | a fresh process keeps the given `n` and `i`; its ballot is one round (`n`) below `i`, so its first round issues ballot `i`; it has no proposal and no membership; it is neither fault-prone nor silent |
| Process.Propose | synod/src/main/java/com/example/synod/Process.java:41-45 | the proposal becomes `v` and the ballot advances by exactly `n`, no other field changes; for `n > 0` the ballot strictly increases and keeps its owner (residue mod `n`) |
| Process.OnReceive | synod/src/main/java/com/example/synod/Process.java:47-73 | a silent process is left unchanged; a fault-prone process whose crash draw succeeds becomes silent and nothing else changes; the result is silent iff it was silent or crashed now; `n`, `i` never change; fault-prone is never reset and is only set by an admitted `Crash`; the ballot changes only on an admitted `Launch`, and then by exactly `n` with the coin as proposal; the peers change only on an admitted `Membership` |
| Process.OnReceiveIsNext | synod/src/main/java/com/example/synod/Process.java:47-73 | every outcome of the handler, whatever the draws, is a successor allowed by the per-message-kind description `Next` (Membership only replaces peers, Launch only moves ballot by `n` and sets a proposal in {0,1}, Crash only sets fault-prone, all other messages change nothing) |
| Process.NextIsReachable | synod/src/main/java/com/example/synod/Process.java:47-73 | conversely, every successor `Next` allows is produced by the handler for some crash draw and coin |
| Ballots.OwnerOfNth | synod/src/main/java/com/example/synod/Process.java:38-44 | for `0 <= i < n`, every ballot `i + k * n` of process `i` has residue `i` modulo `n` |
| Ballots.NthStrictlyIncreasing | synod/src/main/java/com/example/synod/Process.java:38-44 | for `n > 0`, a later round of the same process has a strictly larger ballot |
| Ballots.NthUnique | synod/src/main/java/com/example/synod/Process.java:38-44 | for distinct `i, j` in `[0, n)`, no round of `i` has the same ballot as any round of `j` |
| Runs.SilenceIsTerminal | synod/src/main/java/com/example/synod/Process.java:49-50 | from a silent state, any sequence of messages leaves the state unchanged and issues no ballot |
| Runs.SilentPrefixFreezes | synod/src/main/java/com/example/synod/Process.java:49-56 | once some prefix of a run has made the process silent, no later message changes its state |
| Runs.RunKeepsIdentityAndModes | synod/src/main/java/com/example/synod/Process.java:47-73 | along any run, `n` and `i` are kept, and neither fault-prone mode nor silence is ever switched back off |
| Runs.NoCrashNoSilence | synod/src/main/java/com/example/synod/Process.java:51-71 | a process that is neither fault-prone nor silent, and is never sent `Crash`, stays neither fault-prone nor silent |
| Runs.IssuedAdvanceByRounds | synod/src/main/java/com/example/synod/Process.java:41-67 | along any run, the `k`-th issued ballot is the starting ballot plus `(k + 1) * n`; the final ballot is the starting ballot plus `n` per issued ballot |
| Runs.FreshProcessBallots | synod/src/main/java/com/example/synod/Process.java:35-67 | from a fresh process `i`, the `k`-th ballot issued is `i + k * n`; after `r >= 1` rounds the current ballot is `i + (r - 1) * n` |
| Runs.IssuedIncreasingAndOwned | synod/src/main/java/com/example/synod/Process.java:38-44 | for `0 <= i < n`, the ballots a fresh process issues along any run strictly increase and all have residue `i` modulo `n` |
| Runs.BallotUniqueness | synod/src/main/java/com/example/synod/Process.java:38-44 | for distinct `i, j` in `[0, n)` and any two runs, no ballot issued by process `i` equals one issued by process `j` |

## Left out

- Process.Propose: the ballot is an unbounded integer. The Java field is a 32-bit `int` that would wrap after about 2^31 / n rounds, and then monotonicity and uniqueness would break. The run lemmas hold only for runs shorter than that.
- Randomness: `java.util.Random`, `nextFloat() < alpha` with `alpha = 0.3`, and `nextInt(2)` are not modelled. Their outcomes are the `crashDraw` and `coin` parameters, and no probabilities are modelled.
- Logging, `toString` and `createActor` are left out. Logging uses `LoggingAdapter`, and the `CrashMsg` branch even logs "received LAUNCH". `toString` gives "Process #i". `createActor` is an Akka `Props` factory that only calls the constructor.
- Actor mailboxes and concurrency are left out. An actor handles one message at a time, so a sequential step function models one process.
- `Main.java` (actor system bootstrap, `tell`, shuffled choice of `f` faulty processes, start time) and `run.py` (parameter sweep over Maven runs) are driver code and I/O.
- `Membership.java` is not part of this model. The message stores the list of actor handles given to its constructor, modelled as a sequence of opaque `Peer` handles.
- `Read`, `Gather` and `Abort` are modelled only as message shapes. They are plain field holders, and this version of `Process.java` has no handler for them.
- The rest of the Synod protocol is not implemented by this version of `Process.java`, so it is not modelled. This covers the Read/Gather/Impose/Ack/Decide handlers, quorum thresholds, hold mode, the sticky decided value and the Launch retry timer. In particular, each admitted `LaunchMsg` draws a fresh coin, as the code does; the value is not kept across rounds.
