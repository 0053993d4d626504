/**
 * `Notifier.notify_visa_status_change` and `Notifier.send_qq_tg`: whether a newly
 * crawled earliest-available date is news, and which messages it triggers. The
 * outgoing requests are returned, in order, as a list of actions instead of being sent;
 * their replies never influence the outcome (the status-change email is posted once and
 * its verdict dropped, websocket errors are swallowed, the QQ and Telegram replies are
 * not inspected).
 */
module Notifier {

  import opened Wrappers
  import opened Seqs
  import opened Text
  import opened Calendar
  import opened Catalog

  datatype VisaType = F | J | B | H | O | L

  const VISA_TYPES: string := "FJBHOL"

  /** The one-letter value of a visa type. */
  function Letter(v: VisaType): (c: char)
    ensures c in VISA_TYPES
  {
    match v
    case F => 'F' case J => 'J' case B => 'B' case H => 'H' case O => 'O' case L => 'L'
  }

  /** Distinct visa types have distinct letters. */
  lemma LetterInjective(a: VisaType, b: VisaType)
    requires Letter(a) == Letter(b)
    ensures a == b
  {
  }

  /** `VISA_TYPE_DETAILS`. */
  function VisaTypeDetails(v: VisaType): string
  {
    match v
    case F => "F1/F2" case J => "J1/J2" case H => "H1B" case B => "B1/B2" case O => "O1/O2/O3" case L => "L1/L2"
  }

  /** `VISA_STATUS_CHANGE_TITLE` filled with the visa type's details. */
  function StatusChangeTitle(v: VisaType): string
  {
    "[tuixue.online] " + VisaTypeDetails(v) + " Visa Status Change"
  }

  /** `strftime('%Y/%m/%d')`. */
  function Strftime(t: Stamp): string
  {
    FormatYmd(t.date)
  }

  /** The `old_status` of the status-change email: "/" for no previous date. */
  function OldStatus(last: Option<Stamp>): string
  {
    match last
    case None => "/"
    case Some(t) => Strftime(t)
  }

  lemma SlashReadsNothing()
    ensures ReadNumbers("/", '/') == None
  {
    SplitCons("", '/', "");
    assert "" + ['/'] + "" == "/";
  }

  /** `old_status` reads back as the previous date, and "/" reads as no date at all. */
  lemma OldStatusReads(last: Option<Stamp>)
    ensures ReadNumbers(OldStatus(last), '/')
      == if last.None? then None else Some([last.value.date.year, last.value.date.month, last.value.date.day])
  {
    match last
    case None => SlashReadsNothing();
    case Some(t) => FormatYmdReads(t.date);
  }

  /** `send_qq_tg`'s `converter`: "/" for no date, `M/D` in the current year, `Y/M/D` otherwise, unpadded. */
  function Converter(d: Option<Stamp>, nowYear: int): (r: string)
    ensures r == "/" <==> d.None?
  {
    match d
    case None => "/"
    case Some(t) =>
      if t.date.year == nowYear then NatToString(t.date.month) + "/" + NatToString(t.date.day)
      else NatToString(t.date.year) + "/" + NatToString(t.date.month) + "/" + NatToString(t.date.day)
  }

  /**
   * The converted text reads back as month and day (current year) or year, month and day
   * (any other year); no part carries a leading zero; "/" reads as no date.
   */
  lemma ConverterReads(d: Option<Stamp>, nowYear: int)
    ensures d.None? ==> ReadNumbers(Converter(d, nowYear), '/') == None
    ensures d.Some? && d.value.date.year == nowYear ==>
      ReadNumbers(Converter(d, nowYear), '/') == Some([d.value.date.month, d.value.date.day])
    ensures d.Some? && d.value.date.year != nowYear ==>
      ReadNumbers(Converter(d, nowYear), '/') == Some([d.value.date.year, d.value.date.month, d.value.date.day])
    ensures forall k :: 0 <= k < |Split(Converter(d, nowYear), '/')| ==>
      Split(Converter(d, nowYear), '/')[k] == [] || Split(Converter(d, nowYear), '/')[k][0] != '0'
  {
    match d
    case None =>
      SlashReadsNothing();
      SplitCons("", '/', "");
      assert "" + ['/'] + "" == "/";
    case Some(t) =>
      var y, m, dd := NatToString(t.date.year), NatToString(t.date.month), NatToString(t.date.day);
      ParseNatToString(t.date.year);
      ParseNatToString(t.date.month);
      ParseNatToString(t.date.day);
      NumeralHasNo(y, '/');
      NumeralHasNo(m, '/');
      NumeralHasNo(dd, '/');
      if t.date.year == nowYear {
        assert Converter(d, nowYear) == m + ['/'] + dd;
        ReadTwoNumbers(m, dd, '/');
        SplitNoSep(dd, '/');
        SplitCons(m, '/', dd);
        assert Split(Converter(d, nowYear), '/') == [m, dd];
      } else {
        assert Converter(d, nowYear) == y + ['/'] + m + ['/'] + dd;
        ReadThreeNumbers(y, m, dd, '/');
        SplitThree(y, m, dd, '/');
      }
  }

  /** The QQ and Telegram settings read from `SECRET`. */
  datatype Secrets = Secrets(
    miraiBaseUri: string, authKey: string, qqNum: string,
    qqDomestic: seq<string>, qqNonDomestic: seq<string>,
    tgBotToken: string, tgDomestic: string, tgNonDomestic: string)

  /** One outgoing request, in the order the source issues them. */
  datatype Action =
    | Email(title: string, receivers: seq<string>, location: string, oldStatus: string, newStatus: string)
    | WebSocket(visaType: VisaType, embassyCode: string, prev: Option<Stamp>, curr: Stamp)
    | QqAuth(authKey: string)
    | QqVerify(qqNum: string)
    | QqGroupMessage(group: string, text: string)
    | QqRelease(qqNum: string)
    | TgMessage(chatId: string, text: string)

  predicate IsEmail(a: Action) { a.Email? }
  predicate IsWebSocket(a: Action) { a.WebSocket? }
  predicate IsQq(a: Action) { a.QqAuth? || a.QqVerify? || a.QqGroupMessage? || a.QqRelease? }
  predicate IsTg(a: Action) { a.TgMessage? }

  /** The QQ groups of an embassy code: domestic filter first, then the non-domestic one, else none. */
  function QqGroups(code: string, s: Secrets): (groups: seq<string>)
    ensures code in DEFAULT_FILTER ==> groups == s.qqDomestic
    ensures code in NONDOMESTIC_DEFAULT_FILTER ==> groups == s.qqNonDomestic
    ensures code !in DEFAULT_FILTER && code !in NONDOMESTIC_DEFAULT_FILTER ==> groups == []
  {
    FiltersDisjoint(code);
    if code in DEFAULT_FILTER then s.qqDomestic
    else if code in NONDOMESTIC_DEFAULT_FILTER then s.qqNonDomestic
    else []
  }

  /** The Telegram chat of a region: the domestic chat exactly for "DOMESTIC". */
  function TgChat(region: string, s: Secrets): string
  {
    if region == "DOMESTIC" then s.tgDomestic else s.tgNonDomestic
  }

  /** The two filters share no code, so the order of the two tests does not matter. */
  lemma FiltersDisjoint(code: string)
    ensures !(code in DEFAULT_FILTER && code in NONDOMESTIC_DEFAULT_FILTER)
  {
  }

  /** For the embassies of the table, the QQ group and the Telegram chat agree on domestic versus abroad. */
  lemma QqAndTgAgree(code: string, s: Secrets)
    requires GetEmbassyByCode(GetEmbassyLst(), code).Some?
    ensures code in DEFAULT_FILTER ==>
      QqGroups(code, s) == s.qqDomestic && TgChat(GetEmbassyByCode(GetEmbassyLst(), code).value.region, s) == s.tgDomestic
    ensures code in NONDOMESTIC_DEFAULT_FILTER ==>
      QqGroups(code, s) == s.qqNonDomestic && TgChat(GetEmbassyByCode(GetEmbassyLst(), code).value.region, s) == s.tgNonDomestic
  {
    if code in DEFAULT_FILTER {
      DefaultFilterIsDomestic(code);
    }
    if code in NONDOMESTIC_DEFAULT_FILTER {
      FiltersDisjoint(code);
      NondomesticFilterIsAbroad(code);
    }
  }

  /** The message text: `"{name_cn} {visa_type}: {prev} -> {curr}"`. */
  function QqTgContent(e: Embassy, prev: Option<Stamp>, curr: Option<Stamp>, v: VisaType, nowYear: int): string
  {
    e.nameCn + " " + [Letter(v)] + ": " + Converter(prev, nowYear) + " -> " + Converter(curr, nowYear)
  }

  /** The QQ text: the content and a link to the site. */
  function QqText(content: string): string
  {
    content + "\n详情: https://" + FRONTEND_BASE_URI + "/visa/"
  }

  function GroupMessages(groups: seq<string>, text: string): (r: seq<Action>)
    ensures |r| == |groups|
    ensures forall i :: 0 <= i < |r| ==> r[i] == QqGroupMessage(groups[i], text)
  {
    seq(|groups|, i requires 0 <= i < |groups| => QqGroupMessage(groups[i], text))
  }

  /** `send_qq_tg`: the QQ session (only when there are groups) and then the Telegram message. */
  function SendQqTg(e: Embassy, prev: Option<Stamp>, curr: Option<Stamp>, v: VisaType, nowYear: int, s: Secrets)
    : seq<Action>
  {
    var content := QqTgContent(e, prev, curr, v, nowYear);
    var groups := QqGroups(e.code, s);
    var qq :=
      if groups == [] then []
      else [QqAuth(s.authKey), QqVerify(s.qqNum)] + GroupMessages(groups, QqText(content)) + [QqRelease(s.qqNum)];
    qq + [TgMessage(TgChat(e.region, s), content)]
  }

  /**
   * `send_qq_tg` ends with exactly one Telegram message, to the region's chat; before it,
   * no QQ request at all when the code has no groups, else an authorised session posting
   * the same text to each group once, in order.
   */
  lemma SendQqTgShape(e: Embassy, prev: Option<Stamp>, curr: Option<Stamp>, v: VisaType, nowYear: int, s: Secrets)
    ensures var r := SendQqTg(e, prev, curr, v, nowYear, s);
      var groups := QqGroups(e.code, s);
      && |r| >= 1
      && r[|r| - 1] == TgMessage(TgChat(e.region, s), QqTgContent(e, prev, curr, v, nowYear))
      && (groups == [] ==> |r| == 1)
      && (groups != [] ==>
            |r| == |groups| + 4
            && r[0] == QqAuth(s.authKey) && r[1] == QqVerify(s.qqNum) && r[|groups| + 2] == QqRelease(s.qqNum)
            && forall i :: 0 <= i < |groups| ==>
                 r[i + 2] == QqGroupMessage(groups[i], QqText(QqTgContent(e, prev, curr, v, nowYear))))
  {
    var content := QqTgContent(e, prev, curr, v, nowYear);
    var groups := QqGroups(e.code, s);
    var tg := TgMessage(TgChat(e.region, s), content);
    if groups != [] {
      var msgs := GroupMessages(groups, QqText(content));
      SessionLayout(QqAuth(s.authKey), QqVerify(s.qqNum), msgs, QqRelease(s.qqNum), tg);
    }
  }

  /** Where the parts of a QQ session followed by a Telegram message sit. */
  lemma SessionLayout(auth: Action, verify: Action, msgs: seq<Action>, release: Action, tg: Action)
    ensures var r := [auth, verify] + msgs + [release] + [tg];
      && |r| == |msgs| + 4
      && r[0] == auth && r[1] == verify && r[|msgs| + 2] == release && r[|r| - 1] == tg
      && forall i :: 0 <= i < |msgs| ==> r[i + 2] == msgs[i]
  {
  }

  /** `send_qq_tg` issues no email and no websocket push. */
  lemma SendQqTgOnlyChats(e: Embassy, prev: Option<Stamp>, curr: Option<Stamp>, v: VisaType, nowYear: int, s: Secrets)
    ensures forall a :: a in SendQqTg(e, prev, curr, v, nowYear, s) ==> IsQq(a) || IsTg(a)
  {
  }

  /** The status-change email: sent once when the subscriber lookup has a non-empty list for the pair. */
  function StatusEmail(v: VisaType, e: Embassy, last: Option<Stamp>, available: Stamp,
                       emailDct: map<(VisaType, string), seq<string>>): (r: seq<Action>)
    ensures |r| == if HasSubscribers(v, e.code, emailDct) then 1 else 0
    ensures forall i :: 0 <= i < |r| ==> r[i].Email? && r[i].receivers == emailDct[(v, e.code)]
  {
    if (v, e.code) in emailDct && |emailDct[(v, e.code)]| > 0 then
      [Email(StatusChangeTitle(v), emailDct[(v, e.code)], e.nameEn, OldStatus(last), Strftime(available))]
    else []
  }

  /** Whether the pair has someone to email. */
  predicate HasSubscribers(v: VisaType, code: string, emailDct: map<(VisaType, string), seq<string>>) {
    (v, code) in emailDct && emailDct[(v, code)] != []
  }

  /** The result of `notify_visa_status_change` and the requests it issues, in order. */
  datatype Outcome = Outcome(notified: bool, actions: seq<Action>)

  /**
   * `notify_visa_status_change(visa_type, embassy, available_date, latest_written_lst)`.
   * `latestWritten` holds the `available_date` of each record, newest first;
   * `emailDct` is what the subscription database answers; `nowYear` is the current year.
   */
  function NotifyVisaStatusChange(
    v: VisaType, e: Embassy, available: Option<Stamp>, latestWritten: seq<Option<Stamp>>,
    emailDct: map<(VisaType, string), seq<string>>, nowYear: int, s: Secrets): (r: Outcome)
    ensures !r.notified ==> r.actions == []
    ensures r.notified ==> |latestWritten| > 0 && available.Some? && |r.actions| >= 1
  {
    if |latestWritten| == 0 then Outcome(false, [])
    else
      var last := latestWritten[0];
      if available.None? then Outcome(false, [])
      else if last.None? || Less(available.value, last.value) then
        Outcome(true,
          StatusEmail(v, e, last, available.value, emailDct)
          + [WebSocket(v, e.code, last, available.value)]
          + (if v == F || v == J then SendQqTg(e, last, available, v, nowYear, s) else []))
      else Outcome(false, [])
  }

  /** Nothing happens when there is no earlier record (first deployment). */
  lemma NotifyColdStart(v: VisaType, e: Embassy, available: Option<Stamp>,
                        emailDct: map<(VisaType, string), seq<string>>, nowYear: int, s: Secrets)
    ensures NotifyVisaStatusChange(v, e, available, [], emailDct, nowYear, s) == Outcome(false, [])
  {
  }

  /** Nothing happens when no date is available now, whatever the last date was. */
  lemma NotifyNoDate(v: VisaType, e: Embassy, latestWritten: seq<Option<Stamp>>,
                     emailDct: map<(VisaType, string), seq<string>>, nowYear: int, s: Secrets)
    ensures NotifyVisaStatusChange(v, e, None, latestWritten, emailDct, nowYear, s) == Outcome(false, [])
  {
  }

  /**
   * A change is reported exactly when there is a record, a date is available, and the
   * last date is missing or is not the same as or earlier than the new one; an
   * unreported change issues no request.
   */
  lemma NotifyExactlyWhenEarlier(
    v: VisaType, e: Embassy, available: Option<Stamp>, latestWritten: seq<Option<Stamp>>,
    emailDct: map<(VisaType, string), seq<string>>, nowYear: int, s: Secrets)
    ensures var r := NotifyVisaStatusChange(v, e, available, latestWritten, emailDct, nowYear, s);
      && (r.notified <==>
            |latestWritten| > 0 && available.Some?
            && !(latestWritten[0].Some?
                 && (latestWritten[0].value == available.value || Less(latestWritten[0].value, available.value))))
      && (!r.notified ==> r.actions == [])
  {
    if |latestWritten| > 0 && available.Some? && latestWritten[0].Some? {
      LessTrichotomy(available.value, latestWritten[0].value);
    }
  }

  /** Once the new date is on record, the same date is not reported again. */
  lemma NotifyNoRepeat(
    v: VisaType, e: Embassy, a: Stamp, older: seq<Option<Stamp>>,
    emailDct: map<(VisaType, string), seq<string>>, nowYear: int, s: Secrets)
    ensures NotifyVisaStatusChange(v, e, Some(a), [Some(a)] + older, emailDct, nowYear, s) == Outcome(false, [])
  {
    LessIrreflexive(a);
  }

  lemma FilterNone<T>(xs: seq<T>, p: T -> bool)
    requires forall i :: 0 <= i < |xs| ==> !p(xs[i])
    ensures Filter(xs, p) == []
  {
  }

  lemma FilterOne<T>(x: T, p: T -> bool)
    ensures Filter([x], p) == if p(x) then [x] else []
  {
    assert [x][1..] == [];
  }

  /** How many of `front + [w] + back` satisfy `p`, when none of `back` does. */
  lemma CountAround(front: seq<Action>, w: Action, back: seq<Action>, p: Action -> bool)
    requires forall i :: 0 <= i < |back| ==> !p(back[i])
    ensures |Filter(front + [w] + back, p)| == |Filter(front, p)| + (if p(w) then 1 else 0)
  {
    FilterAppend(front + [w], back, p);
    FilterAppend(front, [w], p);
    FilterNone(back, p);
    FilterOne(w, p);
  }

  /** The requests of a reported change: the email step, the websocket push, then QQ/Telegram for F and J. */
  lemma NotifyActions(
    v: VisaType, e: Embassy, available: Option<Stamp>, latestWritten: seq<Option<Stamp>>,
    emailDct: map<(VisaType, string), seq<string>>, nowYear: int, s: Secrets)
    requires NotifyVisaStatusChange(v, e, available, latestWritten, emailDct, nowYear, s).notified
    ensures |latestWritten| > 0 && available.Some?
    ensures NotifyVisaStatusChange(v, e, available, latestWritten, emailDct, nowYear, s).actions
      == StatusEmail(v, e, latestWritten[0], available.value, emailDct)
         + [WebSocket(v, e.code, latestWritten[0], available.value)]
         + (if v == F || v == J then SendQqTg(e, latestWritten[0], available, v, nowYear, s) else [])
  {
  }

  /** In an email step of at most one email, a websocket push and chat messages, the email and push counts. */
  lemma CountsOfSteps(em: seq<Action>, w: Action, chats: seq<Action>)
    requires |em| <= 1 && (em != [] ==> em[0].Email?) && w.WebSocket?
    requires forall a :: a in chats ==> IsQq(a) || IsTg(a)
    ensures |Filter(em + [w] + chats, IsEmail)| == |em|
    ensures |Filter(em + [w] + chats, IsWebSocket)| == 1
  {
    assert forall i :: 0 <= i < |chats| ==> chats[i] in chats;
    CountAround(em, w, chats, IsEmail);
    CountAround(em, w, chats, IsWebSocket);
    if em != [] {
      assert em == [em[0]];
      FilterOne(em[0], IsEmail);
      FilterOne(em[0], IsWebSocket);
    }
  }

  /** A reported change emails once exactly when the pair has subscribers. */
  lemma NotifyEmailCount(
    v: VisaType, e: Embassy, available: Option<Stamp>, latestWritten: seq<Option<Stamp>>,
    emailDct: map<(VisaType, string), seq<string>>, nowYear: int, s: Secrets)
    requires NotifyVisaStatusChange(v, e, available, latestWritten, emailDct, nowYear, s).notified
    ensures |Filter(NotifyVisaStatusChange(v, e, available, latestWritten, emailDct, nowYear, s).actions, IsEmail)|
      == if HasSubscribers(v, e.code, emailDct) then 1 else 0
  {
    NotifyActions(v, e, available, latestWritten, emailDct, nowYear, s);
    var last := latestWritten[0];
    var em := StatusEmail(v, e, last, available.value, emailDct);
    var chats := if v == F || v == J then SendQqTg(e, last, available, v, nowYear, s) else [];
    SendQqTgOnlyChats(e, last, available, v, nowYear, s);
    CountsOfSteps(em, WebSocket(v, e.code, last, available.value), chats);
  }

  /** A reported change pushes exactly one websocket message. */
  lemma NotifyWebSocketCount(
    v: VisaType, e: Embassy, available: Option<Stamp>, latestWritten: seq<Option<Stamp>>,
    emailDct: map<(VisaType, string), seq<string>>, nowYear: int, s: Secrets)
    requires NotifyVisaStatusChange(v, e, available, latestWritten, emailDct, nowYear, s).notified
    ensures |Filter(NotifyVisaStatusChange(v, e, available, latestWritten, emailDct, nowYear, s).actions, IsWebSocket)| == 1
  {
    NotifyActions(v, e, available, latestWritten, emailDct, nowYear, s);
    var last := latestWritten[0];
    var em := StatusEmail(v, e, last, available.value, emailDct);
    var chats := if v == F || v == J then SendQqTg(e, last, available, v, nowYear, s) else [];
    SendQqTgOnlyChats(e, last, available, v, nowYear, s);
    CountsOfSteps(em, WebSocket(v, e.code, last, available.value), chats);
  }

  /** A reported change reaches Telegram (and so possibly QQ) exactly for F and J visas. */
  lemma NotifyChatsOnlyForFJ(
    v: VisaType, e: Embassy, available: Option<Stamp>, latestWritten: seq<Option<Stamp>>,
    emailDct: map<(VisaType, string), seq<string>>, nowYear: int, s: Secrets)
    requires NotifyVisaStatusChange(v, e, available, latestWritten, emailDct, nowYear, s).notified
    ensures var r := NotifyVisaStatusChange(v, e, available, latestWritten, emailDct, nowYear, s);
      (exists i :: 0 <= i < |r.actions| && IsTg(r.actions[i])) <==> v == F || v == J
    ensures var r := NotifyVisaStatusChange(v, e, available, latestWritten, emailDct, nowYear, s);
      !(v == F || v == J) ==> forall i :: 0 <= i < |r.actions| ==> !IsQq(r.actions[i])
  {
    var r := NotifyVisaStatusChange(v, e, available, latestWritten, emailDct, nowYear, s);
    NotifyActions(v, e, available, latestWritten, emailDct, nowYear, s);
    var last := latestWritten[0];
    var em := StatusEmail(v, e, last, available.value, emailDct);
    var w := WebSocket(v, e.code, last, available.value);
    if v == F || v == J {
      SendQqTgShape(e, last, available, v, nowYear, s);
      assert IsTg(r.actions[|r.actions| - 1]);
    } else {
      assert r.actions == em + [w];
    }
  }

  /** The status-change email names the previous date (or "/") and the new date, both as `YYYY/MM/DD`. */
  lemma NotifyEmailStatuses(
    v: VisaType, e: Embassy, a: Stamp, latestWritten: seq<Option<Stamp>>,
    emailDct: map<(VisaType, string), seq<string>>, nowYear: int, s: Secrets)
    requires HasSubscribers(v, e.code, emailDct)
    requires NotifyVisaStatusChange(v, e, Some(a), latestWritten, emailDct, nowYear, s).notified
    ensures var r := NotifyVisaStatusChange(v, e, Some(a), latestWritten, emailDct, nowYear, s);
      && r.actions[0].Email?
      && r.actions[0].receivers == emailDct[(v, e.code)]
      && r.actions[0].title == StatusChangeTitle(v)
      && ReadNumbers(r.actions[0].newStatus, '/') == Some([a.date.year, a.date.month, a.date.day])
      && ReadNumbers(r.actions[0].oldStatus, '/')
           == if latestWritten[0].None? then None
              else Some([latestWritten[0].value.date.year, latestWritten[0].value.date.month, latestWritten[0].value.date.day])
  {
    FormatYmdReads(a.date);
    OldStatusReads(latestWritten[0]);
  }
}
