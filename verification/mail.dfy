/**
 * `Notifier.send_email` and the ten-attempt retry loops of the confirmation senders.
 * The HTTP post is an oracle: `server(form, k)` is the text of the reply to the
 * `k`-th post of `form`.
 */
module Mail {

  import opened Text

  const SEND_FROM: string := "dean@tuixue.online"
  const SEND_TO: string := "pending@tuixue.online"
  const RECEIVER_SEPARATOR: string := "@@@"
  const SUCCESS_MARK: string := "success"
  const MAX_ATTEMPTS: nat := 10

  /**
   * The form fields posted to the mail service. The body is kept as the structured
   * value `C` the caller renders into its HTML template.
   */
  datatype EmailForm<C> = EmailForm(title: string, content: C, receivers: string, sendfrom: string, sendto: string)

  /** The form `send_email(title, content, receivers)` posts, with the default sender fields. */
  function SendEmailForm<C>(title: string, content: C, receivers: seq<string>): (f: EmailForm<C>)
    ensures f.title == title && f.content == content
    ensures f.sendfrom == SEND_FROM && f.sendto == SEND_TO
  {
    EmailForm(title, content, Join(receivers, RECEIVER_SEPARATOR), SEND_FROM, SEND_TO)
  }

  /** A single receiver is posted as it is. */
  lemma SingleReceiver<C>(title: string, content: C, address: string)
    ensures SendEmailForm(title, content, [address]).receivers == address
  {
  }

  /** An address the mail service can split back out of the joined receiver field. */
  predicate Separable(address: string) {
    SeparableBy(address, RECEIVER_SEPARATOR)
  }

  /** The service recovers every receiver, in order, from the joined field. */
  lemma ReceiversRoundTrip<C>(title: string, content: C, receivers: seq<string>)
    requires |receivers| >= 1 && forall i :: 0 <= i < |receivers| ==> Separable(receivers[i])
    ensures SplitOn(SendEmailForm(title, content, receivers).receivers, RECEIVER_SEPARATOR) == receivers
  {
    SplitOnJoin(receivers, RECEIVER_SEPARATOR);
  }

  /** `send_email`'s verdict on a reply: the reply text contains "success". */
  predicate Succeeded(reply: string) {
    Contains(reply, SUCCESS_MARK)
  }

  /**
   * The retry loop of the confirmation senders: post `form` until a reply reports
   * success, at most ten times; report failure when all ten fail.
   */
  method SendWithRetry<C>(form: EmailForm<C>, server: (EmailForm<C>, nat) -> string) returns (sent: bool, attempts: nat)
    ensures 1 <= attempts <= MAX_ATTEMPTS
    ensures forall k :: 0 <= k < attempts - 1 ==> !Succeeded(server(form, k))
    ensures sent <==> Succeeded(server(form, attempts - 1))
    ensures !sent ==> attempts == MAX_ATTEMPTS
    ensures sent <==> exists k :: 0 <= k < MAX_ATTEMPTS && Succeeded(server(form, k))
  {
    attempts := 0;
    sent := false;
    while attempts < MAX_ATTEMPTS
      invariant 0 <= attempts <= MAX_ATTEMPTS
      invariant forall k :: 0 <= k < attempts ==> !Succeeded(server(form, k))
      invariant !sent
    {
      sent := Succeeded(server(form, attempts));
      attempts := attempts + 1;
      if sent {
        return;
      }
    }
    sent := false;
  }
}
