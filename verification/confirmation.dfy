/**
 * `Notifier.send_subscription_confirmation` and `Notifier.send_unsubscription_confirmation`:
 * the confirmation links, the per-subscription lines and the ten-attempt send.
 * The subscription database's answer is a parameter; the HTML templates are kept
 * as structured values.
 */
module Confirmation {

  import opened Wrappers
  import opened Text
  import opened Calendar
  import opened Catalog
  import opened Url
  import opened Mail
  import opened Notifier

  const SUBSCRIPTION_CONFIRMATION_TITLE: string := "(PLEASE CONFIRM) - Your Application Decision from tuixue.online"
  const UNSUBSCRIPTION_CONFIRMATION_TITLE: string := "(PLEASE CONFIRM) - Your Unsubscription from tuixue.online"

  /** `UNSUBSCRIPTION_EMPTY_SUBS_TITLE` with the address filled in. */
  function EmptySubsTitle(email: string): string
  {
    "(CATCHA ;-) - You don't have any subscription in " + email
  }

  function SubscriptionPage(): string { "https://" + FRONTEND_BASE_URI + "/visa/email/subscription" }
  function UnsubscriptionPage(): string { "https://" + FRONTEND_BASE_URI + "/visa/email/unsubscription" }

  /** One subscription: a visa type at an embassy until a date. */
  datatype Sub = Sub(visaType: VisaType, code: string, till: Stamp)

  /** One stored subscription as the database returns it for unsubscription. */
  datatype Entry = Entry(sub: Sub, expired: bool)

  /** A link: the page and its query. */
  datatype Link = Link(page: string, query: Query)

  function EmailParam(email: string): Param { Param("email", Text(email)) }

  /** The `visa_type`, `code`, `till` parameters of one subscription. */
  function Triple(s: Sub): Query
  {
    [Param("visa_type", Text([Letter(s.visaType)])), Param("code", Text(s.code)), Param("till", Time(s.till))]
  }

  /** The triples of all subscriptions, in list order. */
  function Triples(subs: seq<Sub>): (q: Query)
    ensures |q| == 3 * |subs|
    decreases |subs|
  {
    if subs == [] then [] else Triples(subs[..|subs| - 1]) + Triple(subs[|subs| - 1])
  }

  /** The parameters `3i`, `3i+1`, `3i+2` are the triple of subscription `i`. */
  lemma {:induction false} TriplesAt(subs: seq<Sub>, i: nat)
    requires i < |subs|
    ensures Triples(subs)[3 * i..3 * i + 3] == Triple(subs[i])
    decreases |subs|
  {
    var init := subs[..|subs| - 1];
    if i < |subs| - 1 {
      TriplesAt(init, i);
      assert Triples(subs)[3 * i..3 * i + 3] == Triples(init)[3 * i..3 * i + 3];
    } else {
      assert Triples(subs)[3 * i..3 * i + 3] == Triple(subs[i]);
    }
  }

  lemma TripleHasNoEmail(s: Sub)
    ensures Values(Triple(s), "email") == []
  {
    ValuesAbsent(Triple(s), "email");
  }

  /** No triple carries an `email` parameter. */
  lemma {:induction false} TriplesHaveNoEmail(subs: seq<Sub>)
    ensures Values(Triples(subs), "email") == []
    decreases |subs|
  {
    if subs != [] {
      var init := subs[..|subs| - 1];
      TriplesHaveNoEmail(init);
      TripleHasNoEmail(subs[|subs| - 1]);
      ValuesConcat(Triples(init), Triple(subs[|subs| - 1]), "email");
    }
  }

  /** A link whose query is the address and then the given triples carries the address exactly once. */
  lemma EmailOnce(email: string, subs: seq<Sub>)
    ensures Values([EmailParam(email)] + Triples(subs), "email") == [Text(email)]
  {
    TriplesHaveNoEmail(subs);
    ValuesConcat([EmailParam(email)], Triples(subs), "email");
  }

  /** Appending the three parameters of a subscription appends its triple. */
  lemma AppendTriple(q: Query, s: Sub)
    ensures Append(Append(Append(q, "visa_type", Text([Letter(s.visaType)])), "code", Text(s.code)), "till", Time(s.till))
      == q + Triple(s)
  {
  }

  lemma SubsOfSnoc(entries: seq<Entry>, i: nat)
    requires i < |entries|
    ensures SubsOf(entries[..i + 1]) == SubsOf(entries[..i]) + [entries[i].sub]
  {
  }

  lemma TriplesSnoc(subs: seq<Sub>, s: Sub)
    ensures Triples(subs + [s]) == Triples(subs) + Triple(s)
  {
    assert (subs + [s])[..|subs|] == subs;
  }

  /** The confirmation link of `send_subscription_confirmation`, as the source builds it. */
  method SubscriptionUrl(email: string, subs: seq<Sub>) returns (url: Link)
    ensures url == Link(SubscriptionPage(), [EmailParam(email)] + Triples(subs))
  {
    var q := Set([], "email", Text(email));
    assert q == [EmailParam(email)];
    for i := 0 to |subs|
      invariant q == [EmailParam(email)] + Triples(subs[..i])
    {
      AppendTriple(q, subs[i]);
      q := Append(q, "visa_type", Text([Letter(subs[i].visaType)]));
      q := Append(q, "code", Text(subs[i].code));
      q := Append(q, "till", Time(subs[i].till));
      assert subs[..i + 1] == subs[..i] + [subs[i]];
      TriplesSnoc(subs[..i], subs[i]);
    }
    assert subs[..|subs|] == subs;
    url := Link(SubscriptionPage(), q);
  }

  /** The link of one subscription: `set` on a copy of the address-only link adds its triple. */
  lemma SetTripleOnAddress(email: string, s: Sub)
    ensures Set(Set(Set([EmailParam(email)], "visa_type", Text([Letter(s.visaType)])), "code", Text(s.code)), "till", Time(s.till))
      == [EmailParam(email)] + Triple(s)
  {
    var q0 := [EmailParam(email)];
    SetFresh(q0, "visa_type", Text([Letter(s.visaType)]));
    var q1 := Append(q0, "visa_type", Text([Letter(s.visaType)]));
    SetFresh(q1, "code", Text(s.code));
    var q2 := Append(q1, "code", Text(s.code));
    SetFresh(q2, "till", Time(s.till));
  }

  function SubsOf(entries: seq<Entry>): (subs: seq<Sub>)
    ensures |subs| == |entries| && forall i :: 0 <= i < |entries| ==> subs[i] == entries[i].sub
  {
    seq(|entries|, i requires 0 <= i < |entries| => entries[i].sub)
  }

  /**
   * The links of `send_unsubscription_confirmation`: one per subscription carrying only
   * its triple, and the unsubscribe-all link carrying every triple in order.
   */
  method UnsubscriptionUrls(email: string, entries: seq<Entry>) returns (perSub: seq<Link>, all: Link)
    ensures |perSub| == |entries|
    ensures forall i :: 0 <= i < |entries| ==>
      perSub[i] == Link(UnsubscriptionPage(), [EmailParam(email)] + Triple(entries[i].sub))
    ensures all == Link(UnsubscriptionPage(), [EmailParam(email)] + Triples(SubsOf(entries)))
  {
    var base := Set([], "email", Text(email));
    assert base == [EmailParam(email)];
    var allQuery := base;
    perSub := [];
    for i := 0 to |entries|
      invariant |perSub| == i
      invariant forall k :: 0 <= k < i ==>
        perSub[k] == Link(UnsubscriptionPage(), [EmailParam(email)] + Triple(entries[k].sub))
      invariant allQuery == [EmailParam(email)] + Triples(SubsOf(entries[..i]))
    {
      var s := entries[i].sub;
      var q := Set(Set(Set(base, "visa_type", Text([Letter(s.visaType)])), "code", Text(s.code)), "till", Time(s.till));
      SetTripleOnAddress(email, s);
      perSub := perSub + [Link(UnsubscriptionPage(), q)];
      AppendTriple(allQuery, s);
      allQuery := Append(allQuery, "visa_type", Text([Letter(s.visaType)]));
      allQuery := Append(allQuery, "code", Text(s.code));
      allQuery := Append(allQuery, "till", Time(s.till));
      SubsOfSnoc(entries, i);
      TriplesSnoc(SubsOf(entries[..i]), s);
    }
    assert entries[..|entries|] == entries;
    all := Link(UnsubscriptionPage(), allQuery);
  }

  /** The English name of the embassy with this code, or "None" when no embassy has it. */
  function EmbassyName(lst: seq<Embassy>, code: string): (name: string)
    ensures (exists i :: 0 <= i < |lst| && lst[i].code == code) ==>
      exists i :: 0 <= i < |lst| && lst[i].code == code && name == lst[i].nameEn
  {
    match GetEmbassyByCode(lst, code)
    case Some(e) => e.nameEn
    case None => "None"
  }

  /** Every code of the table names its own embassy. */
  lemma EmbassyNameOfRow(k: nat)
    requires k < ROWS
    ensures EmbassyName(GetEmbassyLst(), Row(k).code) == Row(k).nameEn
  {
    GetEmbassyByCodeOfTableRow(k);
  }

  /** A code no embassy has is shown as "None". */
  lemma EmbassyNameUnknown(lst: seq<Embassy>, code: string)
    requires forall i :: 0 <= i < |lst| ==> lst[i].code != code
    ensures EmbassyName(lst, code) == "None"
  {
  }

  /** The subscription email's end date: "FOREVER" for `datetime.max`. */
  function SubscriptionTill(t: Stamp): string
  {
    if t == MAX then "FOREVER" else Strftime(t)
  }

  /** The unsubscription email's end date: "FOREVER" for any date in year 9999. */
  function UnsubscriptionTill(t: Stamp): string
  {
    if t.date.year < 9999 then Strftime(t) else "FOREVER"
  }

  lemma StrftimeIsNotForever(t: Stamp)
    ensures Strftime(t) != "FOREVER"
  {
    assert IsDigit(Strftime(t)[0]);
  }

  /** The subscription email prints "FOREVER" exactly for `datetime.max` and the date otherwise. */
  lemma SubscriptionTillForever(t: Stamp)
    ensures SubscriptionTill(t) == "FOREVER" <==> t == MAX
    ensures t != MAX ==> ReadNumbers(SubscriptionTill(t), '/') == Some([t.date.year, t.date.month, t.date.day])
  {
    StrftimeIsNotForever(t);
    FormatYmdReads(t.date);
  }

  /** The unsubscription email prints "FOREVER" exactly for the year 9999 and the date otherwise. */
  lemma UnsubscriptionTillForever(t: Stamp)
    ensures UnsubscriptionTill(t) == "FOREVER" <==> t.date.year == 9999
    ensures t.date.year < 9999 ==> ReadNumbers(UnsubscriptionTill(t), '/') == Some([t.date.year, t.date.month, t.date.day])
  {
    StrftimeIsNotForever(t);
    FormatYmdReads(t.date);
  }

  /** The two emails disagree on the first moment of the last day: one prints the date, the other "FOREVER". */
  lemma TillTextsDisagree()
    ensures var t: Stamp := DateTime(Date(9999, 12, 31), 0);
      SubscriptionTill(t) == "9999/12/31" && UnsubscriptionTill(t) == "FOREVER"
  {
    var t: Stamp := DateTime(Date(9999, 12, 31), 0);
    assert ZeroPad(9999, 4) == "9999";
    assert ZeroPad(12, 2) == "12";
    assert ZeroPad(31, 2) == "31";
  }

  /** The `<li>` line of one subscription in the subscription email. */
  function SubscriptionLine(lst: seq<Embassy>, s: Sub): string
  {
    "<li>" + VisaTypeDetails(s.visaType) + " Visa at " + EmbassyName(lst, s.code) + " till " + SubscriptionTill(s.till) + ".</li>"
  }

  /** `subscription_str`: one line per subscription, in list order, inside a `<ul>`. */
  function SubscriptionStr(lst: seq<Embassy>, subs: seq<Sub>): string
  {
    "<ul>\n" + Join(seq(|subs|, i requires 0 <= i < |subs| => SubscriptionLine(lst, subs[i])), "\n") + "\n</ul>"
  }

  /** One line of the unsubscription email; its link is rendered by the URL library. */
  datatype UnsubLine = UnsubLine(visaDetail: string, place: string, state: string, till: string, link: Link)

  function UnsubscriptionLine(lst: seq<Embassy>, e: Entry, link: Link): UnsubLine
  {
    UnsubLine(VisaTypeDetails(e.sub.visaType), EmbassyName(lst, e.sub.code),
              if e.expired then "expired" else "expiring", UnsubscriptionTill(e.sub.till), link)
  }

  /** `email.split('@')[0]`, the greeting name. */
  function User(email: string): (user: string)
    ensures user <= email && '@' !in user
    ensures |user| < |email| ==> email[|user|] == '@'
  {
    SplitHead(email, '@');
    Split(email, '@')[0]
  }

  /** The greeting name is the part of the address before its first '@'. */
  lemma UserOfAddress(local: string, domain: string)
    requires '@' !in local
    ensures User(local + "@" + domain) == local
  {
    SplitCons(local, '@', domain);
    assert local + "@" + domain == local + ['@'] + domain;
  }

  /** The body of each confirmation email, before it is rendered into its HTML template. */
  datatype Content =
    | Subscribe(user: string, email: string, subscriptionStr: string, confirmationUrl: Link)
    | Unsubscribe(user: string, email: string, lines: seq<UnsubLine>, unsubscribeAllUrl: Link)
    | NoSubscription(user: string, email: string, baseUri: string)

  /** The form `send_subscription_confirmation` posts on every attempt. */
  function SubscriptionForm(lst: seq<Embassy>, email: string, subs: seq<Sub>): (f: EmailForm<Content>)
    ensures f.receivers == email && f.title == SUBSCRIPTION_CONFIRMATION_TITLE
    ensures f.content.Subscribe? && Values(f.content.confirmationUrl.query, "email") == [Text(email)]
  {
    EmailOnce(email, subs);
    SingleReceiver(SUBSCRIPTION_CONFIRMATION_TITLE,
      Subscribe(User(email), email, SubscriptionStr(lst, subs),
                Link(SubscriptionPage(), [EmailParam(email)] + Triples(subs))), email);
    SendEmailForm(SUBSCRIPTION_CONFIRMATION_TITLE,
      Subscribe(User(email), email, SubscriptionStr(lst, subs),
                Link(SubscriptionPage(), [EmailParam(email)] + Triples(subs))),
      [email])
  }

  /** The form `send_unsubscription_confirmation` posts on every attempt. */
  function UnsubscriptionForm(lst: seq<Embassy>, email: string, entries: seq<Entry>): (f: EmailForm<Content>)
    ensures f.receivers == email
    ensures entries == [] <==> f.content.NoSubscription?
    ensures entries == [] ==> f.title == EmptySubsTitle(email)
    ensures entries != [] ==> f.title == UNSUBSCRIPTION_CONFIRMATION_TITLE
  {
    if |entries| == 0 then
      SendEmailForm(EmptySubsTitle(email), NoSubscription(User(email), email, FRONTEND_BASE_URI), [email])
    else
      var lines := seq(|entries|, i requires 0 <= i < |entries| =>
        UnsubscriptionLine(lst, entries[i], Link(UnsubscriptionPage(), [EmailParam(email)] + Triple(entries[i].sub))));
      var f := SendEmailForm(UNSUBSCRIPTION_CONFIRMATION_TITLE,
        Unsubscribe(User(email), email, lines, Link(UnsubscriptionPage(), [EmailParam(email)] + Triples(SubsOf(entries)))),
        [email]);
      f
  }

  /**
   * `send_subscription_confirmation(email, subs_lst)` over the embassy list `lst`:
   * the same form is posted until a reply reports success, at most ten times.
   */
  method SendSubscriptionConfirmation(lst: seq<Embassy>, email: string, subs: seq<Sub>,
                                      server: (EmailForm<Content>, nat) -> string)
    returns (sent: bool, attempts: nat, form: EmailForm<Content>)
    ensures form == SubscriptionForm(lst, email, subs)
    ensures form.receivers == email
    ensures 1 <= attempts <= MAX_ATTEMPTS
    ensures forall k :: 0 <= k < attempts - 1 ==> !Succeeded(server(form, k))
    ensures sent <==> Succeeded(server(form, attempts - 1))
    ensures !sent ==> attempts == MAX_ATTEMPTS
    ensures sent <==> exists k :: 0 <= k < MAX_ATTEMPTS && Succeeded(server(form, k))
  {
    var url := SubscriptionUrl(email, subs);
    var content := Subscribe(User(email), email, SubscriptionStr(lst, subs), url);
    form := SendEmailForm(SUBSCRIPTION_CONFIRMATION_TITLE, content, [email]);
    sent, attempts := SendWithRetry(form, server);
  }

  /**
   * `send_unsubscription_confirmation(email)`, where `entries` is the database's list for
   * the address: the empty-subscription email when there is none, else the links email;
   * either is posted until a reply reports success, at most ten times.
   */
  method SendUnsubscriptionConfirmation(lst: seq<Embassy>, email: string, entries: seq<Entry>,
                                        server: (EmailForm<Content>, nat) -> string)
    returns (sent: bool, attempts: nat, form: EmailForm<Content>)
    ensures form == UnsubscriptionForm(lst, email, entries)
    ensures 1 <= attempts <= MAX_ATTEMPTS
    ensures forall k :: 0 <= k < attempts - 1 ==> !Succeeded(server(form, k))
    ensures sent <==> Succeeded(server(form, attempts - 1))
    ensures !sent ==> attempts == MAX_ATTEMPTS
    ensures sent <==> exists k :: 0 <= k < MAX_ATTEMPTS && Succeeded(server(form, k))
  {
    if |entries| == 0 {
      form := SendEmailForm(EmptySubsTitle(email), NoSubscription(User(email), email, FRONTEND_BASE_URI), [email]);
      sent, attempts := SendWithRetry(form, server);
      return;
    }
    var perSub, all := UnsubscriptionUrls(email, entries);
    var lines := seq(|entries|, i requires 0 <= i < |entries| => UnsubscriptionLine(lst, entries[i], perSub[i]));
    assert lines == seq(|entries|, i requires 0 <= i < |entries| =>
      UnsubscriptionLine(lst, entries[i], Link(UnsubscriptionPage(), [EmailParam(email)] + Triple(entries[i].sub))));
    form := SendEmailForm(UNSUBSCRIPTION_CONFIRMATION_TITLE, Unsubscribe(User(email), email, lines, all), [email]);
    sent, attempts := SendWithRetry(form, server);
  }
}
