/**
 The decision logic of `POST /api/stripe/checkout`
 (app/api/stripe/checkout/route.ts): environment and sign-in guards, plan
 normalisation, price choice, reuse or creation of the Stripe customer, and
 the metadata attached to the checkout session.

 The Stripe SDK is an input (`StripeReplies`: what each call returns, or
 that it throws); the database is the Usage module's store.
 */
module StripeCheckout {
  import opened Common
  import opened Strings
  import opened Usage
  import StripeWebhook

  datatype CheckoutEnv = CheckoutEnv(
    secretKey: Option<string>,      // STRIPE_SECRET_KEY
    siteUrl: Option<string>,        // NEXT_PUBLIC_SITE_URL
    pricePro: Option<string>,       // STRIPE_PRICE_PRO
    priceBusiness: Option<string>)  // STRIPE_PRICE_BUSINESS

  datatype User = User(id: UserId, email: Option<string>)

  /** `String(body?.plan || "pro").toLowerCase()` */
  function NormalizePlan(bodyPlan: Option<string>): (plan: string)
    ensures plan != "" && ToLower(plan) == plan
    ensures !Truthy(bodyPlan) ==> plan == "pro"
    ensures Truthy(bodyPlan) ==> |plan| == |bodyPlan.value|
  {
    ToLowerIdempotent(OrElse(bodyPlan, "pro"));
    ToLower(OrElse(bodyPlan, "pro"))
  }

  /** The price id configured for a normalised plan: the business price for
      "business", the pro price for every other plan. */
  function PriceFor(env: CheckoutEnv, plan: string): (price: Option<string>)
    ensures price == env.priceBusiness || price == env.pricePro
    // every plan other than "business", unknown ones included, buys Pro
    ensures plan != "business" ==> price == env.pricePro
  {
    if plan == "business" then env.priceBusiness else env.pricePro
  }

  /** `stripe.customers.create` arguments. */
  datatype CustomerRequest = CustomerRequest(email: Option<string>, supabaseUserId: UserId)

  /** `stripe.checkout.sessions.create` arguments. */
  datatype SessionRequest = SessionRequest(
    customer: string, price: string, quantity: int,
    successUrl: string, cancelUrl: string,
    metadata: map<string, string>, subscriptionMetadata: map<string, string>)

  /** What the Stripe SDK returns: the new customer's id and the session's
      url; `None` at the outer level stands for a thrown error. */
  datatype StripeReplies = StripeReplies(createdCustomer: Option<string>, sessionUrl: Option<Option<string>>)

  datatype CheckoutResponse =
    | LoadFailed                           // 500 from the framework: `@/lib/stripe` throws on import
    | MissingEnv(name: string)             // 500
    | Unauthorized                         // 401
    | MissingPrice(plan: string)           // 500
    | CheckoutFailed                       // 500 "Checkout failed"
    | SessionCreated(url: Option<string>)  // 200 {url}

  function Status(r: CheckoutResponse): int {
    match r
    case LoadFailed => 500
    case MissingEnv(_) => 500
    case Unauthorized => 401
    case MissingPrice(_) => 500
    case CheckoutFailed => 500
    case SessionCreated(_) => 200
  }

  datatype CheckoutResult = CheckoutResult(
    response: CheckoutResponse, store: Store,
    customerRequest: Option<CustomerRequest>, sessionRequest: Option<SessionRequest>)

  /** The metadata both the session and its subscription carry. */
  function SessionMetadata(userId: UserId, plan: string): map<string, string> {
    map["supabase_user_id" := userId, "plan" := plan]
  }

  /** `POST /api/stripe/checkout`. `faults` are the failing storage steps of
      `ensureBillingProfile`; `customerWriteFails` says the update storing a
      new customer id returned an error, which the source ignores. */
  function Checkout(
    env: CheckoutEnv, user: Option<User>, bodyPlan: Option<string>,
    store: Store, faults: set<StorageStep>, customerWriteFails: bool,
    stripe: StripeReplies): (r: CheckoutResult)
    // without a secret key the route module does not load, so the handler's own
    // key check never answers; the site URL is checked before sign-in, storage or Stripe
    ensures r.response == LoadFailed <==> !Truthy(env.secretKey)
    ensures r.response != MissingEnv("STRIPE_SECRET_KEY")
    ensures r.response == MissingEnv("NEXT_PUBLIC_SITE_URL") <==> Truthy(env.secretKey) && !Truthy(env.siteUrl)
    ensures r.response == Unauthorized <==> Truthy(env.secretKey) && Truthy(env.siteUrl) && user.None?
    ensures r.response == LoadFailed || r.response.MissingEnv? || r.response == Unauthorized || r.response.MissingPrice? ==>
      r.store == store && r.customerRequest.None? && r.sessionRequest.None?
    // an absent price id is reported with the normalised plan
    ensures Truthy(env.secretKey) && Truthy(env.siteUrl) && user.Some? ==>
      (r.response.MissingPrice? <==> !Truthy(PriceFor(env, NormalizePlan(bodyPlan))))
    ensures r.response.MissingPrice? ==> r.response.plan == NormalizePlan(bodyPlan)
    // a session exists only for a signed-in user, at the plan's price, with the user and plan in both metadata
    ensures r.sessionRequest.Some? ==>
      && user.Some?
      && Truthy(PriceFor(env, NormalizePlan(bodyPlan)))
      && r.sessionRequest.value.price == PriceFor(env, NormalizePlan(bodyPlan)).value
      && r.sessionRequest.value.quantity == 1
      && r.sessionRequest.value.metadata == SessionMetadata(user.value.id, NormalizePlan(bodyPlan))
      && r.sessionRequest.value.subscriptionMetadata == r.sessionRequest.value.metadata
      && r.sessionRequest.value.successUrl == env.siteUrl.value + "/hr/billing?success=1"
      && r.sessionRequest.value.cancelUrl == env.siteUrl.value + "/hr/billing?canceled=1"
    // the answer is a session url only when the session was created
    ensures r.response.SessionCreated? <==> r.sessionRequest.Some? && stripe.sessionUrl.Some?
    // every storage error and every Stripe failure gives "Checkout failed"
    ensures r.response.CheckoutFailed? <==>
      && Truthy(env.secretKey) && Truthy(env.siteUrl) && user.Some?
      && Truthy(PriceFor(env, NormalizePlan(bodyPlan)))
      && !(r.sessionRequest.Some? && stripe.sessionUrl.Some?)
    // only billing profiles change, usage counters never
    ensures r.store.usage == store.usage
  {
    if !Truthy(env.secretKey) then CheckoutResult(LoadFailed, store, None, None)
    else if !Truthy(env.siteUrl) then CheckoutResult(MissingEnv("NEXT_PUBLIC_SITE_URL"), store, None, None)
    else if user.None? then CheckoutResult(Unauthorized, store, None, None)
    else
      var u := user.value;
      var plan := NormalizePlan(bodyPlan);
      var priceId := PriceFor(env, plan);
      if !Truthy(priceId) then CheckoutResult(MissingPrice(plan), store, None, None)
      else
        var e := EnsureBillingProfile(store, u.id, faults);
        match e.profile
        case Threw(_) => CheckoutResult(CheckoutFailed, e.store, None, None)
        case Ok(profile) =>
          var existing := profile.stripeCustomerId;
          var customerRequest :=
            if Truthy(existing) then None else Some(CustomerRequest(NonEmpty(u.email), u.id));
          if !Truthy(existing) && stripe.createdCustomer.None? then
            CheckoutResult(CheckoutFailed, e.store, customerRequest, None)
          else
            var customerId := if Truthy(existing) then existing.value else stripe.createdCustomer.value;
            var store' :=
              if Truthy(existing) || customerWriteFails then e.store
              else e.store.(profiles := e.store.profiles[u.id := profile.(stripeCustomerId := Some(customerId))]);
            var session := SessionRequest(
              customerId, priceId.value, 1,
              env.siteUrl.value + "/hr/billing?success=1",
              env.siteUrl.value + "/hr/billing?canceled=1",
              SessionMetadata(u.id, plan), SessionMetadata(u.id, plan));
            match stripe.sessionUrl
            case None => CheckoutResult(CheckoutFailed, store', customerRequest, Some(session))
            case Some(url) => CheckoutResult(SessionCreated(url), store', customerRequest, Some(session))
  }

  /** The business price is charged exactly when the plan the session
      carries in its metadata later gets the business quota from the
      webhook: the checkout and the webhook agree on what "business" is. */
  lemma PriceMatchesQuota(env: CheckoutEnv, bodyPlan: Option<string>)
    requires env.priceBusiness != env.pricePro
    ensures PriceFor(env, NormalizePlan(bodyPlan)) == env.priceBusiness <==>
            StripeWebhook.PlanToLimit(NormalizePlan(bodyPlan)) == 3000
  {
    ToLowerIdempotent(OrElse(bodyPlan, "pro"));
  }

  /** Plans that differ only in letter case select the same price. */
  lemma PriceCaseInsensitive(env: CheckoutEnv, a: string, b: string)
    requires ToLower(a) == ToLower(b)
    ensures PriceFor(env, NormalizePlan(Some(a))) == PriceFor(env, NormalizePlan(Some(b)))
  {
    if a == "" || b == "" {
      assert |ToLower(a)| == |a| && |ToLower(b)| == |b|;
    }
  }

  /** The plan the checkout writes into the session metadata is the plan the
      webhook reads back from it, and the user id too. */
  lemma SessionPlanReachesWebhook(userId: UserId, bodyPlan: Option<string>)
    requires userId != ""
    ensures var m := SessionMetadata(userId, NormalizePlan(bodyPlan));
            StripeWebhook.MetadataPlan(m) == NormalizePlan(bodyPlan) && StripeWebhook.MetadataUser(m) == Some(userId)
  {
    var plan := NormalizePlan(bodyPlan);
    assert |plan| == |OrElse(bodyPlan, "pro")| >= 1;
  }

  /** "starter" falls to the pro price, "Business" to the business price, and
      a missing or empty plan is "pro". */
  lemma PriceExamples(env: CheckoutEnv)
    ensures PriceFor(env, NormalizePlan(Some("starter"))) == env.pricePro
    ensures PriceFor(env, NormalizePlan(Some("Business"))) == env.priceBusiness
    ensures NormalizePlan(None) == "pro" && NormalizePlan(Some("")) == "pro"
  {
    assert ToLower("Business") == "business";
    assert ToLower("starter") != "business";
    assert ToLower("pro") == "pro";
  }

  /** A profile that already has a customer id keeps it: no customer is
      created, no profile is written, and the session is opened for that
      customer. */
  lemma ExistingCustomerReused(
    env: CheckoutEnv, u: User, bodyPlan: Option<string>,
    store: Store, faults: set<StorageStep>, customerWriteFails: bool, stripe: StripeReplies)
    requires Truthy(env.secretKey) && Truthy(env.siteUrl) && Truthy(PriceFor(env, NormalizePlan(bodyPlan)))
    requires ProfileRead !in faults
    requires u.id in store.profiles && Truthy(store.profiles[u.id].stripeCustomerId)
    ensures var r := Checkout(env, Some(u), bodyPlan, store, faults, customerWriteFails, stripe);
            && r.customerRequest.None?
            && r.store == store
            && r.sessionRequest.Some?
            && r.sessionRequest.value.customer == store.profiles[u.id].stripeCustomerId.value
  {
  }

  /** A profile without a customer id gets one, including the blocked profile
      just created for a user seen for the first time: Stripe is asked to
      create a customer for the user, and its id is stored on the profile and
      used for the session. */
  lemma MissingCustomerCreated(
    env: CheckoutEnv, u: User, bodyPlan: Option<string>,
    store: Store, newId: string, sessionUrl: Option<Option<string>>)
    requires Truthy(env.secretKey) && Truthy(env.siteUrl) && Truthy(PriceFor(env, NormalizePlan(bodyPlan)))
    requires var e := EnsureBillingProfile(store, u.id, {});
             e.profile.Ok? && !Truthy(e.profile.value.stripeCustomerId)
    ensures var e := EnsureBillingProfile(store, u.id, {});
            var r := Checkout(env, Some(u), bodyPlan, store, {}, false, StripeReplies(Some(newId), sessionUrl));
            && r.customerRequest == Some(CustomerRequest(NonEmpty(u.email), u.id))
            && r.store.profiles == e.store.profiles[u.id := e.profile.value.(stripeCustomerId := Some(newId))]
            && r.sessionRequest.Some? && r.sessionRequest.value.customer == newId
  {
  }

  /** Checking out twice creates at most one customer: after a successful
      creation the second checkout reuses the stored id. */
  lemma SecondCheckoutReusesCustomer(
    env: CheckoutEnv, u: User, bodyPlan: Option<string>,
    store: Store, newId: string, sessionUrl: Option<Option<string>>, again: StripeReplies)
    requires Truthy(env.secretKey) && Truthy(env.siteUrl) && Truthy(PriceFor(env, NormalizePlan(bodyPlan)))
    requires newId != ""
    ensures var first := Checkout(env, Some(u), bodyPlan, store, {}, false, StripeReplies(Some(newId), sessionUrl));
            var second := Checkout(env, Some(u), bodyPlan, first.store, {}, false, again);
            && second.customerRequest.None?
            && second.store == first.store
            && second.sessionRequest.Some?
            && (first.customerRequest.Some? ==> second.sessionRequest.value.customer == newId)
  {
    var first := Checkout(env, Some(u), bodyPlan, store, {}, false, StripeReplies(Some(newId), sessionUrl));
    var e := EnsureBillingProfile(store, u.id, {});
    assert e.profile.Ok?;
    if first.customerRequest.Some? {
      assert first.store.profiles[u.id].stripeCustomerId == Some(newId);
    } else {
      assert first.store == e.store;
    }
    ExistingCustomerReused(env, u, bodyPlan, first.store, {}, false, again);
  }
}
