/** One rank's part in answering a relayed backward trigger: it fires its own child, polls it, and
    holds the answer back until a vote says that every rank has one. */
module AckRelay {
  import opened Samples

  /** The worker-side fields: is a fired backward unanswered, and is its answer held back. */
  datatype Relay = Relay(pending: bool, ack: Option<nat>) {
    predicate Outstanding() {
      pending || ack.Some?
    }

    function ExecuteTrigger(): Relay {
      this.(pending := true)
    }

    /** Polls the child once; the answer, if any, is stashed. */
    function PollOwn(answer: Option<nat>): Relay {
      if ack.None? && pending && answer.Some? then Relay(false, answer) else this
    }

    function TakeAck(): Relay {
      this.(ack := None)
    }
  }

  /** The worker-side fields of one rank. `answer` is what polling the child's pipe returns. */
  class WorkerCoordinator {
    var pending: bool
    var relayAck: Option<nat>

    function State(): Relay
      reads this
    {
      Relay(pending, relayAck)
    }

    constructor ()
      ensures State() == Relay(false, None)
    {
      pending, relayAck := false, None;
    }

    method RelayBackwardOutstanding() returns (r: bool)
      ensures r == State().Outstanding()
    {
      r := pending || relayAck.Some?;
    }

    method ExecuteTrigger()
      modifies this`pending
      ensures State() == old(State()).ExecuteTrigger()
    {
      pending := true;
    }

    /** Whether an answer is held, now or from before. A held answer is never replaced, and the
        backward stays outstanding until it is handed over. */
    method PollOwnBackwardAck(answer: Option<nat>) returns (held: bool)
      modifies this
      ensures State() == old(State()).PollOwn(answer) && held == State().ack.Some?
      ensures State().Outstanding() == old(State()).Outstanding()
      ensures old(relayAck).Some? ==> relayAck == old(relayAck)
    {
      if relayAck.None? && pending {
        if answer.Some? {
          pending := false;
          relayAck := answer;
        }
      }
      held := relayAck.Some?;
    }

    /** A second call hands over nothing. */
    method TakeRelayAck() returns (resp: Option<nat>)
      modifies this`relayAck
      ensures State() == old(State()).TakeAck()
      ensures resp == old(State()).ack && State().ack.None?
    {
      resp := relayAck;
      relayAck := None;
    }
  }
}
