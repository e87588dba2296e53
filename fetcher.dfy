/**
 * The fetch task of one account (`EmailFetcherThread.run`): list the ten most
 * recent messages, get each in listing order, extract sender, subject and date,
 * and emit one summary per message, tagged with the account's name. A `get` that
 * raises ends the task; what was emitted before it stays emitted.
 */
module Fetcher {
  import opened Util
  import opened Provider
  import opened Headers

  /** The five values of one `email_fetched` emission, in signal order. */
  datatype Summary = Summary(account: string, sender: string, subject: string, date: string, snippet: string)

  function Summarize(account: string, m: Message): Summary
  {
    Summary(account, Sender(m), Subject(m), Date(m), m.snippet)
  }

  /** The message references the fetcher's list call answers with. */
  function Listed(svc: Service): seq<MessageRef>
  {
    Refs(svc.List(RecentRequest))
  }

  /**
   * Everything one run emits, in emission order: one summary per listed message,
   * in listing order, up to the first message whose get raises.
   */
  function Emitted(account: string, svc: Service): seq<Summary>
  {
    var got := Fetched(svc, Listed(svc));
    seq(|got|, i requires 0 <= i < |got| => Summarize(account, got[i]))
  }

  /**
   * A run emits the summaries of the listed messages in listing order, each
   * from the answer of its get, and stops only at a get that raises.
   */
  lemma EmittedSpec(account: string, svc: Service)
    ensures var out := Emitted(account, svc);
      && |out| <= |Listed(svc)|
      && (forall i | 0 <= i < |out| ::
            svc.Get(Listed(svc)[i].id).Some? &&
            out[i] == Summarize(account, svc.Get(Listed(svc)[i].id).value))
      && (|out| < |Listed(svc)| ==> svc.Get(Listed(svc)[|out|].id).None?)
  {
    FetchedSpec(svc, Listed(svc));
  }

  /** `EmailFetcherThread.run`, with each `emit` collected into the result. */
  method Run(account: string, svc: Service) returns (emitted: seq<Summary>)
    ensures emitted == Emitted(account, svc)
  {
    var messages := Refs(svc.List(RecentRequest));
    emitted := [];
    FetchedSpec(svc, messages);
    for k := 0 to |messages|
      invariant |emitted| == k
      invariant forall i | 0 <= i < k ::
        svc.Get(messages[i].id).Some? && emitted[i] == Summarize(account, svc.Get(messages[i].id).value)
    {
      var msg := svc.Get(messages[k].id);
      if msg.None? {
        // the call raised: the thread ends here
        return;
      }
      emitted := emitted + [Summarize(account, msg.value)];
    }
  }

  /** When every get succeeds, one summary per listed message, in listing order. */
  lemma EmittedInListingOrder(account: string, svc: Service)
    requires forall i | 0 <= i < |Listed(svc)| :: svc.Get(Listed(svc)[i].id).Some?
    ensures |Emitted(account, svc)| == |Listed(svc)|
    ensures forall i | 0 <= i < |Listed(svc)| ::
      Emitted(account, svc)[i] == Summarize(account, svc.Get(Listed(svc)[i].id).value)
  {
    EmittedSpec(account, svc);
  }

  /** Every summary a run emits carries the fetching account's name. */
  lemma EmittedTagged(account: string, svc: Service)
    ensures forall s | s in Emitted(account, svc) :: s.account == account
  {
    EmittedSpec(account, svc);
  }

  /** A list response without a `messages` key makes the run emit nothing. */
  lemma NoMessagesKeyEmitsNothing(account: string, svc: Service)
    requires svc.List(RecentRequest).messages.None?
    ensures Emitted(account, svc) == []
  {
    EmittedSpec(account, svc);
  }

  /** A service that honours maxResults makes one run emit at most ten summaries. */
  lemma EmittedWithinFetchLimit(account: string, svc: Service)
    requires HonoursMaxResults(svc)
    ensures |Emitted(account, svc)| <= 10
  {
    assert MaxResults(RecentRequest).Some?;
    EmittedSpec(account, svc);
  }
}
