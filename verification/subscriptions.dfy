/** `POST /subscribe-email` of backend/main.py: a check-then-append on the
    in-memory list of subscriber e-mails. The list is passed in and returned
    instead of living in a global. An e-mail here is `payload.email`, the
    address as `EmailStr` validation hands it over (normalised, not the raw
    request text); such addresses are compared as exact strings. */
module Subscriptions {

  datatype Status = Subscribed | AlreadySubscribed

  /** The JSON answer `{status, email}`. */
  datatype SubscribeReply = SubscribeReply(status: Status, email: string)

  /** One request's answer together with the subscriber list after it. */
  datatype Step = Step(reply: SubscribeReply, emails: seq<string>)

  predicate NoDuplicates(s: seq<string>) {
    forall i, j :: 0 <= i < j < |s| ==> s[i] != s[j]
  }

  /** Handles one subscription: an address already on the list is reported and
      leaves the list alone; a new one is appended once. */
  function Subscribe(emails: seq<string>, email: string): (r: Step)
    ensures r.reply.email == email
    ensures r.reply.status == Subscribed <==> email !in emails
    ensures email in r.emails
    ensures |emails| <= |r.emails| <= |emails| + 1 && r.emails[..|emails|] == emails
    ensures forall e :: e in r.emails <==> e in emails || e == email
    ensures r.reply.status == AlreadySubscribed ==> r.emails == emails
    ensures NoDuplicates(emails) ==> NoDuplicates(r.emails)
  {
    if email in emails then Step(SubscribeReply(AlreadySubscribed, email), emails)
    else
      var after := emails + [email];
      assert after[..|emails|] == emails;
      Step(SubscribeReply(Subscribed, email), after)
  }

  /** Subscribing the same address twice answers "subscribed" (if it was new)
      then "already_subscribed", and grows the list by at most one entry. */
  lemma SubscribeTwice(emails: seq<string>, email: string)
    ensures var first := Subscribe(emails, email);
            var second := Subscribe(first.emails, email);
            && second.reply.status == AlreadySubscribed
            && second.emails == first.emails
            && |second.emails| == |emails| + (if email in emails then 0 else 1)
  {
  }

  /** One pass of the loop below: answering the i-th request against a list
      that holds the initial addresses and the first i requests. */
  lemma SubscribeStep(emails: seq<string>, requests: seq<string>, i: nat, final: seq<string>)
    requires i < |requests|
    requires |emails| <= |final| && final[..|emails|] == emails
    requires forall e :: e in final <==> e in emails || e in requests[..i]
    ensures var step := Subscribe(final, requests[i]);
            && (step.reply.status == Subscribed
                <==> requests[i] !in emails && requests[i] !in requests[..i])
            && |emails| <= |step.emails| && step.emails[..|emails|] == emails
            && forall e :: e in step.emails <==> e in emails || e in requests[..i + 1]
  {
    var step := Subscribe(final, requests[i]);
    assert requests[..i + 1] == requests[..i] + [requests[i]];
    assert step.emails[..|emails|] == final[..|emails|] by {
      assert step.emails[..|final|] == final;
    }
  }

  /** Serves a sequence of subscription requests in order, one at a time. The
      i-th request is answered "subscribed" exactly when its address was neither
      on the initial list nor asked for by an earlier request; the final list
      extends the initial one, holds exactly the initial and requested
      addresses, and stays duplicate-free. */
  method SubscribeAll(emails: seq<string>, requests: seq<string>)
    returns (statuses: seq<Status>, final: seq<string>)
    ensures |statuses| == |requests|
    ensures forall i :: 0 <= i < |requests| ==>
              (statuses[i] == Subscribed <==> requests[i] !in emails && requests[i] !in requests[..i])
    ensures |emails| <= |final| && final[..|emails|] == emails
    ensures forall e :: e in final <==> e in emails || e in requests
    ensures NoDuplicates(emails) ==> NoDuplicates(final)
  {
    statuses := [];
    final := emails;
    var i := 0;
    while i < |requests|
      invariant 0 <= i <= |requests|
      invariant |statuses| == i
      invariant forall k :: 0 <= k < i ==>
                  (statuses[k] == Subscribed <==> requests[k] !in emails && requests[k] !in requests[..k])
      invariant |emails| <= |final| && final[..|emails|] == emails
      invariant forall e :: e in final <==> e in emails || e in requests[..i]
      invariant NoDuplicates(emails) ==> NoDuplicates(final)
    {
      var step := Subscribe(final, requests[i]);
      SubscribeStep(emails, requests, i, final);
      statuses := statuses + [step.reply.status];
      final := step.emails;
      i := i + 1;
    }
    assert requests[..i] == requests;
  }
}
