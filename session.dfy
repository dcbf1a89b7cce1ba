/** The button handler of app.py: the validation gates, the SMTP session and the loop
    that sends one message per recipient and collects the failures. The SMTP server is
    an oracle: whether connecting and logging in works, and what `sendmail` does with
    the message for each recipient, are inputs. */
module Session {
  import opened Wrappers
  import opened Seqs
  import opened Recipients
  import opened Template

  /** What `smtp.sendmail` did with one message. */
  datatype Delivery = Delivered | Refused(reason: string)

  /** The exception caught for one recipient: from rendering the body or from sending. */
  datatype Error = RenderError(cause: FormatError) | SendError(reason: string)

  /** One entry of `failures`: the recipient's address and what went wrong. */
  datatype SendFailure = SendFailure(recipient: string, error: Error)

  /** The message built for one recipient: from the sender, to the recipient, the fixed
      subject, the rendered body and the uploaded resume as the one attachment. */
  datatype Message = Message(sender: string, to: string, subject: string, body: string, attachment: string)

  const Subject: string := "Application"

  /** The value handed to the progress bar: `done / total`. */
  datatype Progress = Progress(done: nat, total: nat)

  /** How a press of the button ends. */
  datatype Status =
    | MissingFile                     // no resume uploaded
    | MissingCredentials              // empty address or empty app password
    | ConnectionFailed(reason: string)  // connect, STARTTLS or login raised
    | Finished                        // every recipient was attempted

  /** What the session did: the messages handed to `sendmail`, the `failures` list and
      the successive progress values. */
  datatype Report = Report(status: Status, submitted: seq<Message>, failures: seq<SendFailure>, progress: seq<Progress>)

  /** The message for one recipient, when its body renders. */
  function MessageFor(template: string, sender: string, attachment: string): Recipient -> Option<Message>
  {
    (r: Recipient) =>
      match Render(template, r.company, sender)
      case Success(body) => Some(Message(sender, r.email, Subject, body, attachment))
      case Failure(_) => None
  }

  /** The failure recorded for one recipient and the transport's answer, if any:
      a render error comes first, since `sendmail` is then never reached. */
  function FailureFor(template: string, sender: string): ((Recipient, Delivery)) -> Option<SendFailure>
  {
    (a: (Recipient, Delivery)) =>
      match Render(template, a.0.company, sender)
      case Failure(e) => Some(SendFailure(a.0.email, RenderError(e)))
      case Success(_) =>
        match a.1
        case Refused(reason) => Some(SendFailure(a.0.email, SendError(reason)))
        case Delivered => None
  }

  /** The progress values after the first `done` of `total` recipients. */
  function ProgressUpTo(done: nat, total: nat): seq<Progress>
  {
    if done == 0 then [] else ProgressUpTo(done - 1, total) + [Progress(done, total)]
  }

  /** The progress bar is set once per recipient: after the k-th of n recipients it
      shows k of n, the total is never zero when it is set, and the last value is n of n. */
  lemma {:induction false} ProgressCounts(done: nat, total: nat)
    requires done <= total
    ensures |ProgressUpTo(done, total)| == done
    ensures forall k :: 0 <= k < done ==>
              ProgressUpTo(done, total)[k] == Progress(k + 1, total) && 0 < ProgressUpTo(done, total)[k].total
    ensures done == total && 0 < total ==> ProgressUpTo(done, total)[total - 1] == Progress(total, total)
  {
    if done > 0 {
      ProgressCounts(done - 1, total);
    }
  }

  /** One pass through the `try` block for one recipient: render the body, build the
      message, hand it to the server; a render error or a refusal is caught as the
      recipient's failure. A message is handed over exactly when the body renders. */
  method Attempt(recipient: Recipient, delivery: Delivery, template: string, sender: string, attachment: string)
    returns (message: Option<Message>, failure: Option<SendFailure>)
    ensures message == MessageFor(template, sender, attachment)(recipient)
    ensures failure == FailureFor(template, sender)((recipient, delivery))
    ensures message.Some? <==> Render(template, recipient.company, sender).Success?
    ensures message.Some? ==>
              message.value == Message(sender, recipient.email, Subject, Render(template, recipient.company, sender).value, attachment)
    ensures failure.Some? <==> Render(template, recipient.company, sender).Failure? || delivery.Refused?
    ensures failure.Some? ==> failure.value.recipient == recipient.email
    ensures failure.Some? && Render(template, recipient.company, sender).Failure? ==>
              failure.value.error == RenderError(Render(template, recipient.company, sender).error)
    ensures message.Some? || failure.Some?
  {
    var email, company := recipient.email, recipient.company;
    match Render(template, company, sender) {
      case Success(body) =>
        message := Some(Message(sender, email, Subject, body, attachment));
        failure := match delivery
          case Refused(reason) => Some(SendFailure(email, SendError(reason)))
          case Delivered => None;
      case Failure(e) =>
        message := None;
        failure := Some(SendFailure(email, RenderError(e)));
    }
  }

  /** Each recipient adds one progress value: after the first `done + 1` recipients the
      values are those after the first `done`, followed by `done + 1` of `total`. */
  lemma ProgressStep(done: nat, total: nat)
    ensures ProgressUpTo(done + 1, total) == ProgressUpTo(done, total) + [Progress(done + 1, total)]
  {
  }

  /** The per-recipient loop, once the connection is up. `deliveries[i]` is what the
      server does with the message to `recipients[i]`. */
  method SendAll(recipients: seq<Recipient>, deliveries: seq<Delivery>, template: string, sender: string, attachment: string)
    returns (submitted: seq<Message>, failures: seq<SendFailure>, progress: seq<Progress>)
    requires |deliveries| == |recipients|
    ensures submitted == FilterMap(MessageFor(template, sender, attachment), recipients)
    ensures failures == FilterMap(FailureFor(template, sender), Zip(recipients, deliveries))
    ensures progress == ProgressUpTo(|recipients|, |recipients|)
  {
    submitted, failures, progress := [], [], [];
    ghost var toMessage, toFailure := MessageFor(template, sender, attachment), FailureFor(template, sender);
    ghost var attempts := Zip(recipients, deliveries);
    var i := 0;
    while i < |recipients|
      invariant 0 <= i <= |recipients|
      invariant submitted == FilterMap(toMessage, recipients[..i])
      invariant failures == FilterMap(toFailure, attempts[..i])
      invariant progress == ProgressUpTo(i, |recipients|)
    {
      var message, failure := Attempt(recipients[i], deliveries[i], template, sender, attachment);
      FilterMapStep(toMessage, recipients, i);
      FilterMapStep(toFailure, attempts, i);
      assert attempts[i] == (recipients[i], deliveries[i]);
      ProgressStep(i, |recipients|);
      submitted := submitted + Elements(message);
      failures := failures + Elements(failure);
      progress := progress + [Progress(i + 1, |recipients|)];
      i := i + 1;
    }
    assert recipients[..i] == recipients;
    assert attempts[..i] == attempts;
  }

  /** One press of the button: a missing upload fails first, then missing credentials,
      then a failed connection; otherwise the text is parsed and every recipient is
      attempted. `connectError` is the exception raised while connecting or logging in,
      and `deliveries[i]` is the server's answer for the i-th parsed recipient. */
  method RunSession(upload: Option<string>, user: string, password: string, recipientsText: string,
                    template: string, connectError: Option<string>, deliveries: seq<Delivery>)
    returns (report: Report)
    requires |deliveries| == |Parsed(recipientsText)|
    ensures upload.None? ==> report.status == MissingFile
    ensures upload.Some? && (user == [] || password == []) ==> report.status == MissingCredentials
    ensures upload.Some? && user != [] && password != [] && connectError.Some? ==>
              report.status == ConnectionFailed(connectError.value)
    ensures report.status != Finished ==> report.submitted == [] && report.failures == [] && report.progress == []
    ensures report.status == Finished <==> upload.Some? && user != [] && password != [] && connectError.None?
    ensures report.status == Finished ==>
              var rs := Parsed(recipientsText);
              && report.submitted == FilterMap(MessageFor(template, user, upload.value), rs)
              && report.failures == FilterMap(FailureFor(template, user), Zip(rs, deliveries))
              && report.progress == ProgressUpTo(|rs|, |rs|)
  {
    if upload.None? {
      return Report(MissingFile, [], [], []);
    }
    if user == [] || password == [] {
      return Report(MissingCredentials, [], [], []);
    }
    var recipients := ParseRecipients(recipientsText);
    if connectError.Some? {
      return Report(ConnectionFailed(connectError.value), [], [], []);
    }
    var submitted, failures, progress := SendAll(recipients, deliveries, template, user, upload.value);
    report := Report(Finished, submitted, failures, progress);
  }

  /** `failures` holds exactly one entry per recipient whose body does not render or
      whose message the server refuses, carrying that recipient's address and the error,
      in recipient order; successful recipients add nothing. */
  lemma FailuresAreFailedAttempts(recipients: seq<Recipient>, deliveries: seq<Delivery>, template: string, sender: string)
    requires |deliveries| == |recipients|
    ensures var fs, ks := FilterMap(FailureFor(template, sender), Zip(recipients, deliveries)),
                          Kept(FailureFor(template, sender), Zip(recipients, deliveries));
            && |fs| == |ks| <= |recipients|
            && (forall k, l :: 0 <= k < l < |ks| ==> ks[k] < ks[l])
            && (forall i :: 0 <= i < |recipients| ==>
                  (i in ks <==> Render(template, recipients[i].company, sender).Failure? || deliveries[i].Refused?))
            && (forall k :: 0 <= k < |ks| ==>
                  && fs[k].recipient == recipients[ks[k]].email
                  && fs[k].error == match Render(template, recipients[ks[k]].company, sender)
                                    case Failure(e) => RenderError(e)
                                    case Success(_) => SendError(deliveries[ks[k]].reason))
  {
    var f := FailureFor(template, sender);
    var attempts := Zip(recipients, deliveries);
    FilterMapKept(f, attempts);
  }

  /** Exactly the recipients whose body renders get a message, each once and in order;
      every message is from the sender, to that recipient, with the subject
      "Application", the rendered body and the uploaded resume attached. */
  lemma SubmittedAreRenderedRecipients(recipients: seq<Recipient>, template: string, sender: string, attachment: string)
    ensures var ms, ks := FilterMap(MessageFor(template, sender, attachment), recipients),
                          Kept(MessageFor(template, sender, attachment), recipients);
            && |ms| == |ks| <= |recipients|
            && (forall k, l :: 0 <= k < l < |ks| ==> ks[k] < ks[l])
            && (forall i :: 0 <= i < |recipients| ==>
                  (i in ks <==> Render(template, recipients[i].company, sender).Success?))
            && (forall k :: 0 <= k < |ks| ==>
                  ms[k] == Message(sender, recipients[ks[k]].email, Subject,
                                   Render(template, recipients[ks[k]].company, sender).value, attachment))
  {
    FilterMapKept(MessageFor(template, sender, attachment), recipients);
  }

  /** A render error does not stop the loop. Whether the body renders depends on the
      template alone (the company is only ever substituted), so a template that does
      not render fails for every recipient: each one is still attempted and gets its
      own failure entry, in order, and nothing is handed to the server. */
  lemma {:induction false} TemplateErrorFailsEveryRecipient(recipients: seq<Recipient>, deliveries: seq<Delivery>,
                                                            template: string, sender: string, attachment: string)
    requires |deliveries| == |recipients|
    requires Parse(template).Failure?
    ensures FilterMap(MessageFor(template, sender, attachment), recipients) == []
    ensures var fs := FilterMap(FailureFor(template, sender), Zip(recipients, deliveries));
            && |fs| == |recipients|
            && forall i :: 0 <= i < |fs| ==> fs[i] == SendFailure(recipients[i].email, RenderError(Parse(template).error))
    decreases |recipients|
  {
    if recipients != [] {
      var n := |recipients| - 1;
      TemplateErrorFailsEveryRecipient(recipients[..n], deliveries[..n], template, sender, attachment);
      assert Zip(recipients, deliveries)[..n] == Zip(recipients[..n], deliveries[..n]);
    }
  }
}
