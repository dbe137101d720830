/**
 The decision logic of `POST /api/stripe/cancel`
 (app/api/stripe/cancel/route.ts): which locale the redirect uses, which of
 the four billing outcomes it reports, and the best-effort profile update
 after Stripe accepted the cancellation.

 URL parsing is left to the caller: the referer arrives already parsed (or
 known to be unparsable). Stripe's answer is an input; `None` stands for a
 thrown error.
 */
module StripeCancel {
  import opened Common
  import opened Strings
  import opened Usage

  /** The Referer header: absent or empty, not a valid URL, or a URL with
      this pathname. */
  datatype Referer = NoReferer | Unparsable | Parsed(pathname: string)

  /** `pathname.split("/").filter(Boolean)[0]` */
  function FirstSegment(pathname: string): Option<string> {
    var segs := DropEmpty(Split(pathname, '/'));
    if segs == [] then None else Some(segs[0])
  }

  predicate IsLocale(s: string) {
    s == "hr" || s == "en"
  }

  /** `getLocaleFromReferer`: the referer's first path segment when it is a
      locale, "hr" in every other case. */
  function LocaleFromReferer(referer: Referer): (locale: string)
    ensures IsLocale(locale)
    ensures locale == "en" <==> referer.Parsed? && FirstSegment(referer.pathname) == Some("en")
  {
    match referer
    case NoReferer => "hr"
    case Unparsable => "hr"
    case Parsed(path) =>
      var seg := FirstSegment(path);
      if seg == Some("hr") || seg == Some("en") then seg.value else "hr"
  }

  /** The locale query parameter, lower-cased, wins when it names a locale;
      otherwise the referer decides. */
  function ChooseLocale(localeParam: Option<string>, referer: Referer): (locale: string)
    ensures IsLocale(locale)
    ensures IsLocale(ToLower(localeParam.GetOr(""))) ==> locale == ToLower(localeParam.GetOr(""))
    ensures !IsLocale(ToLower(localeParam.GetOr(""))) ==> locale == LocaleFromReferer(referer)
  {
    var p := ToLower(OrElse(localeParam, ""));
    if p == "hr" || p == "en" then p else LocaleFromReferer(referer)
  }

  /** The latest instant JavaScript dates can represent, in milliseconds. */
  const MaxDateMs := 8_640_000_000_000_000

  /** `toISOFromUnix`: `null` for an absent or zero value, and for one outside
      the range of dates (where `toISOString` throws); otherwise the instant in
      milliseconds. Rendering it as ISO text is not modelled. */
  function ToIsoFromUnix(sec: Option<int>): (ms: Option<int>)
    ensures ms.None? <==> sec.None? || sec.value == 0 || sec.value * 1000 < -MaxDateMs || sec.value * 1000 > MaxDateMs
    ensures ms.Some? ==> ms.value == sec.value * 1000 && ms.value != 0
  {
    match sec
    case None => None
    case Some(s) =>
      if s == 0 then None
      else if s * 1000 < -MaxDateMs || s * 1000 > MaxDateMs then None
      else Some(s * 1000)
  }

  /** `stripe.subscriptions.update(subId, {cancel_at_period_end: true})`'s
      answer: its status and its period end in seconds, when a number. */
  datatype UpdatedSubscription = UpdatedSubscription(status: Option<string>, currentPeriodEnd: Option<int>)

  datatype Target = Login | CancelError | CancelNone | CancelRequested

  datatype CancelResponse =
    | MissingSecretKey                                // 500
    | Redirect(locale: string, target: Target)       // 303

  function Status(r: CancelResponse): int {
    match r
    case MissingSecretKey => 500
    case Redirect(_, _) => 303
  }

  /** The path a redirect points to. */
  function Location(locale: string, target: Target): string {
    "/" + locale + match target
      case Login => "/login"
      case CancelError => "/billing?cancel_error=1"
      case CancelNone => "/billing?cancel_none=1"
      case CancelRequested => "/billing?cancel_requested=1"
  }

  /** Every redirect path begins with "/", the locale and another "/". */
  lemma LocationStartsWithLocale(locale: string, target: Target)
    ensures StartsWith(Location(locale, target), "/" + locale + "/")
  {
    var l := Location(locale, target);
    assert l[..|locale| + 2] == "/" + locale + "/";
  }

  datatype CancelResult = CancelResult(response: CancelResponse, store: Store, stripeCalled: bool)

  /** `POST /api/stripe/cancel`. `profileFetchFails` and `profileUpdateFails`
      are the storage errors the two queries report; `stripeUpdate` is what
      Stripe answers, `None` when the call throws. */
  function Cancel(
    secretKey: Option<string>, localeParam: Option<string>, referer: Referer,
    user: Option<UserId>, store: Store, profileFetchFails: bool,
    stripeUpdate: Option<UpdatedSubscription>, profileUpdateFails: bool): (r: CancelResult)
    ensures !Truthy(secretKey) <==> r.response == MissingSecretKey
    ensures r.response.Redirect? ==> IsLocale(r.response.locale) && Status(r.response) == 303
    // Stripe is only called for a signed-in user whose profile holds a subscription id
    ensures r.stripeCalled <==>
      && Truthy(secretKey) && user.Some? && !profileFetchFails
      && user.value in store.profiles && Truthy(store.profiles[user.value].stripeSubscriptionId)
    ensures Truthy(secretKey) && user.None? ==> r.response == Redirect(ChooseLocale(localeParam, referer), Login)
    ensures Truthy(secretKey) && user.Some? && profileFetchFails ==>
      r.response == Redirect(ChooseLocale(localeParam, referer), CancelError)
    ensures Truthy(secretKey) && user.Some? && !profileFetchFails && !r.stripeCalled ==>
      r.response == Redirect(ChooseLocale(localeParam, referer), CancelNone)
    // a successful Stripe call is reported as requested, whatever the follow-up write does
    ensures r.stripeCalled && stripeUpdate.Some? ==>
      r.response == Redirect(ChooseLocale(localeParam, referer), CancelRequested)
    // a failing Stripe call lands in the outer handler, which only consults the referer
    ensures r.stripeCalled && stripeUpdate.None? ==>
      r.response == Redirect(LocaleFromReferer(referer), CancelError)
    // the store changes only by the best-effort write of status and period end
    ensures r.store.usage == store.usage && r.store.profiles.Keys == store.profiles.Keys
    ensures r.store != store ==>
      && r.stripeCalled && stripeUpdate.Some? && !profileUpdateFails
      && r.store.profiles == store.profiles[user.value := store.profiles[user.value].(
           stripeStatus := NonEmpty(stripeUpdate.value.status),
           currentPeriodEnd := ToIsoFromUnix(stripeUpdate.value.currentPeriodEnd))]
  {
    if !Truthy(secretKey) then CancelResult(MissingSecretKey, store, false)
    else
      var locale := ChooseLocale(localeParam, referer);
      match user
      case None => CancelResult(Redirect(locale, Login), store, false)
      case Some(u) =>
        if profileFetchFails then CancelResult(Redirect(locale, CancelError), store, false)
        else
          var subId := if u in store.profiles then NonEmpty(store.profiles[u].stripeSubscriptionId) else None;
          if subId.None? then CancelResult(Redirect(locale, CancelNone), store, false)
          else
            match stripeUpdate
            case None => CancelResult(Redirect(LocaleFromReferer(referer), CancelError), store, true)
            case Some(updated) =>
              var store' :=
                if profileUpdateFails then store
                else store.(profiles := store.profiles[u := store.profiles[u].(
                       stripeStatus := NonEmpty(updated.status),
                       currentPeriodEnd := ToIsoFromUnix(updated.currentPeriodEnd))]);
              CancelResult(Redirect(locale, CancelRequested), store', true)
  }

  /** A requested cancellation keeps the subscription id, so the usage gate
      still admits the user until Stripe reports the deletion. */
  lemma CancelKeepsEligibility(
    secretKey: Option<string>, localeParam: Option<string>, referer: Referer,
    u: UserId, store: Store, stripeUpdate: Option<UpdatedSubscription>, profileUpdateFails: bool, now: int)
    requires u in store.profiles && Eligible(store.profiles[u], now)
    ensures var r := Cancel(secretKey, localeParam, referer, Some(u), store, false, stripeUpdate, profileUpdateFails);
            Eligible(r.store.profiles[u], now)
  {
  }

  lemma LocaleExamples()
    ensures LocaleFromReferer(Parsed("/en/billing")) == "en"
    ensures LocaleFromReferer(Parsed("/de/billing")) == "hr"
    ensures LocaleFromReferer(Parsed("/")) == "hr"
    ensures ChooseLocale(Some("EN"), Parsed("/hr/billing")) == "en"
  {
    EnglishReferer();
    OtherReferer();
    ParamBeatsReferer();
  }

  lemma EnglishReferer()
    ensures LocaleFromReferer(Parsed("/en/billing")) == "en"
  {
    SplitTwoSegments("en", "billing", '/');
    assert "/en/billing" == ['/'] + "en" + ['/'] + "billing";
  }

  lemma OtherReferer()
    ensures LocaleFromReferer(Parsed("/de/billing")) == "hr"
  {
    SplitTwoSegments("de", "billing", '/');
    assert "/de/billing" == ['/'] + "de" + ['/'] + "billing";
  }

  lemma ParamBeatsReferer()
    ensures ChooseLocale(Some("EN"), Parsed("/hr/billing")) == "en"
  {
    assert ToLower("EN") == "en";
  }
}
