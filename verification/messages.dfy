/**
 * The messages a synod process can be sent. In the Java actor system a
 * message is any `Object`; here the shapes the process can meet are a
 * closed sum, with `Other` standing for every object it does not recognise.
 */
module Messages {
  import opened Wrappers

  /** An opaque handle on another process (an actor reference). */
  datatype Peer = Peer(id: nat)

  datatype Msg =
    /** Installs the list of handles on all processes of the run. */
    | Membership(peers: seq<Peer>)
    /** The driver's "start proposing" message. */
    | Launch
    /** The driver's "become fault-prone" message. */
    | Crash
    /** Prepare request for a ballot. */
    | Read(ballot: int)
    /** Prepare reply: the responder's accepted ballot and (possibly null) estimate. */
    | Gather(ballot: int, imposeBallot: int, estimate: Option<int>)
    /** Negative reply to a stale request. */
    | Abort(ballot: int)
    /** Any other object delivered to the actor. */
    | Other
}
