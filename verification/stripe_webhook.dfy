/**
 Billing-state transitions driven by Stripe events
 (app/api/stripe/webhook/route.ts).

 Signature verification by the Stripe SDK is an input (`signatureValid`);
 a failing database write is an input too (`writeFails`), and the source
 only logs it. The billing-profile table is the map of the Usage module, so
 the transitions compose with the usage gate.
 */
module StripeWebhook {
  import opened Common
  import opened Strings
  import opened Usage

  // ---------------------------------------------------------------------
  // planToLimit
  // ---------------------------------------------------------------------

  /** `planToLimit`: the monthly quota a plan name grants, compared
      case-insensitively; an empty name counts as "free". */
  function PlanToLimit(plan: string): (limit: int)
    ensures ToLower(plan) == "business" ==> limit == 3000
    ensures ToLower(plan) == "pro" ==> limit == 1000
    ensures ToLower(plan) != "business" && ToLower(plan) != "pro" ==> limit == 100
  {
    var p := ToLower(if plan == "" then "free" else plan);
    if p == "business" then 3000 else if p == "pro" then 1000 else 100
  }

  /** Plan names that differ only in letter case grant the same quota, and
      every quota is one of the three tiers. */
  lemma PlanToLimitCaseInsensitive(a: string, b: string)
    requires ToLower(a) == ToLower(b)
    ensures PlanToLimit(a) == PlanToLimit(b)
    ensures PlanToLimit(a) in {100, 1000, 3000}
  {
  }

  lemma PlanToLimitExamples()
    ensures PlanToLimit("business") == 3000 && PlanToLimit("BUSINESS") == 3000
    ensures PlanToLimit("pro") == 1000 && PlanToLimit("Pro") == 1000
    ensures PlanToLimit("starter") == 100 && PlanToLimit("free") == 100 && PlanToLimit("") == 100
  {
    assert ToLower("BUSINESS") == "business";
    assert ToLower("Pro") == "pro";
    assert ToLower("starter") != "pro";
    assert ToLower("starter") != "business";
    assert ToLower("free") != "business";
  }

  // ---------------------------------------------------------------------
  // Events
  // ---------------------------------------------------------------------

  /** A Stripe field that holds an id string, or something else (`null` or
      an expanded object). */
  datatype Expandable = Id(id: string) | NotAString

  /** `typeof f === "string" ? f : null` */
  function IdOrNull(f: Expandable): Option<string> {
    match f
    case Id(s) => Some(s)
    case NotAString => None
  }

  datatype Session = Session(metadata: map<string, string>, customer: Expandable, subscription: Expandable)

  datatype Subscription = Subscription(id: string, metadata: map<string, string>, customer: Expandable)

  /** The events the handler distinguishes; every other event type is
      `Unhandled`. */
  datatype Event =
    | CheckoutSessionCompleted(session: Session)
    | SubscriptionCreated(subscription: Subscription)
    | SubscriptionUpdated(subscription: Subscription)
    | SubscriptionDeleted(subscription: Subscription)
    | Unhandled(eventType: string)

  /** `metadata.supabase_user_id || null` */
  function MetadataUser(metadata: map<string, string>): (user: Option<UserId>)
    ensures user.Some? <==> "supabase_user_id" in metadata && metadata["supabase_user_id"] != ""
    ensures user.Some? ==> user.value == metadata["supabase_user_id"]
  {
    NonEmpty(Lookup(metadata, "supabase_user_id"))
  }

  /** `metadata.plan || "pro"` */
  function MetadataPlan(metadata: map<string, string>): (plan: string)
    ensures plan != ""
    ensures "plan" in metadata && metadata["plan"] != "" ==> plan == metadata["plan"]
    ensures !("plan" in metadata && metadata["plan"] != "") ==> plan == "pro"
  {
    OrElse(Lookup(metadata, "plan"), "pro")
  }

  /** The user an event is about, when its metadata names one. */
  function EventUser(e: Event): Option<UserId> {
    match e
    case CheckoutSessionCompleted(s) => MetadataUser(s.metadata)
    case SubscriptionCreated(sub) => MetadataUser(sub.metadata)
    case SubscriptionUpdated(sub) => MetadataUser(sub.metadata)
    case SubscriptionDeleted(sub) => MetadataUser(sub.metadata)
    case Unhandled(_) => None
  }

  // ---------------------------------------------------------------------
  // Profile updates
  // ---------------------------------------------------------------------

  /** `upsert({user_id, plan, monthly_limit, stripe_customer_id,
      stripe_subscription_id}, {onConflict: "user_id"})`: the named columns
      are written, the others kept (or null in a new row). */
  function UpsertProfile(
    profiles: map<UserId, BillingProfile>, user: UserId, plan: string,
    customer: Option<string>, subscription: Option<string>): (r: map<UserId, BillingProfile>)
    ensures r.Keys == profiles.Keys + {user}
    ensures forall u :: u in profiles && u != user ==> r[u] == profiles[u]
    ensures r[user].plan == Some(plan) && r[user].monthlyLimit == Some(PlanToLimit(plan))
    ensures r[user].stripeCustomerId == customer && r[user].stripeSubscriptionId == subscription
    ensures user in profiles ==>
      r[user].stripeStatus == profiles[user].stripeStatus && r[user].currentPeriodEnd == profiles[user].currentPeriodEnd
    ensures user !in profiles ==> r[user].stripeStatus == None && r[user].currentPeriodEnd == None
  {
    var base := if user in profiles then profiles[user] else BillingProfile(None, None, None, None, None, None);
    profiles[user := base.(plan := Some(plan), monthlyLimit := Some(PlanToLimit(plan)),
                           stripeCustomerId := customer, stripeSubscriptionId := subscription)]
  }

  /** `update({plan: "free", monthly_limit: 100, stripe_subscription_id: null}).eq("user_id", user)`:
      an existing row is downgraded, a missing one is not created. */
  function Downgrade(profiles: map<UserId, BillingProfile>, user: UserId): (r: map<UserId, BillingProfile>)
    ensures r.Keys == profiles.Keys
    ensures forall u :: u in profiles && u != user ==> r[u] == profiles[u]
    ensures user in profiles ==>
      r[user] == profiles[user].(plan := Some("free"), monthlyLimit := Some(100), stripeSubscriptionId := None)
  {
    if user in profiles then
      profiles[user := profiles[user].(plan := Some("free"), monthlyLimit := Some(100), stripeSubscriptionId := None)]
    else profiles
  }

  /** The profile-table effect of one verified event. */
  function ApplyEvent(profiles: map<UserId, BillingProfile>, e: Event, writeFails: bool): (r: map<UserId, BillingProfile>)
    // a logged write error, or an event naming no user, changes nothing
    ensures writeFails || EventUser(e).None? ==> r == profiles
    // no row disappears, and only the event's user can gain or change one
    ensures profiles.Keys <= r.Keys
    ensures EventUser(e).Some? ==>
      && r.Keys <= profiles.Keys + {EventUser(e).value}
      && forall u :: u in profiles && u != EventUser(e).value ==> r[u] == profiles[u]
  {
    if writeFails then profiles
    else
      match e
      case CheckoutSessionCompleted(s) =>
        (match MetadataUser(s.metadata)
         case Some(user) =>
           UpsertProfile(profiles, user, MetadataPlan(s.metadata), IdOrNull(s.customer), IdOrNull(s.subscription))
         case None => profiles)
      case SubscriptionCreated(sub) => ApplySubscription(profiles, sub)
      case SubscriptionUpdated(sub) => ApplySubscription(profiles, sub)
      case SubscriptionDeleted(sub) =>
        (match MetadataUser(sub.metadata)
         case Some(user) => Downgrade(profiles, user)
         case None => profiles)
      case Unhandled(_) => profiles
  }

  /** `customer.subscription.created` and `.updated` */
  function ApplySubscription(profiles: map<UserId, BillingProfile>, sub: Subscription): (r: map<UserId, BillingProfile>)
    ensures MetadataUser(sub.metadata).None? ==> r == profiles
    // the metadata's user gets the subscription, its plan and that plan's quota
    ensures MetadataUser(sub.metadata).Some? ==>
      var user, plan := MetadataUser(sub.metadata).value, MetadataPlan(sub.metadata);
      && r.Keys == profiles.Keys + {user}
      && r[user].stripeSubscriptionId == Some(sub.id)
      && r[user].plan == Some(plan) && r[user].monthlyLimit == Some(PlanToLimit(plan))
      && forall u :: u in profiles && u != user ==> r[u] == profiles[u]
  {
    match MetadataUser(sub.metadata)
    case Some(user) => UpsertProfile(profiles, user, MetadataPlan(sub.metadata), IdOrNull(sub.customer), Some(sub.id))
    case None => profiles
  }

  // ---------------------------------------------------------------------
  // POST
  // ---------------------------------------------------------------------

  datatype WebhookEnv = WebhookEnv(secretKey: Option<string>, webhookSecret: Option<string>)

  datatype WebhookResponse =
    | Received          // 200 {received: true}
    | MissingSignature  // 400
    | InvalidSignature  // 400
    | HandlerFailed     // 500, a missing environment variable

  function Status(r: WebhookResponse): int {
    match r
    case Received => 200
    case MissingSignature => 400
    case InvalidSignature => 400
    case HandlerFailed => 500
  }

  datatype WebhookResult = WebhookResult(response: WebhookResponse, profiles: map<UserId, BillingProfile>)

  /** `POST /api/stripe/webhook` */
  function HandleWebhook(
    env: WebhookEnv, signature: Option<string>, signatureValid: bool,
    e: Event, writeFails: bool, profiles: map<UserId, BillingProfile>): (r: WebhookResult)
    ensures r.response == Received <==>
      Truthy(env.secretKey) && Truthy(env.webhookSecret) && Truthy(signature) && signatureValid
    // a missing secret throws inside the handler, whose catch answers 500
    ensures !Truthy(env.secretKey) || !Truthy(env.webhookSecret) ==>
      r.response == HandlerFailed && Status(r.response) == 500
    ensures Truthy(env.secretKey) && Truthy(env.webhookSecret) && !Truthy(signature) ==>
      r.response == MissingSignature && Status(r.response) == 400
    ensures Truthy(env.secretKey) && Truthy(env.webhookSecret) && Truthy(signature) && !signatureValid ==>
      r.response == InvalidSignature && Status(r.response) == 400
    ensures r.response != Received ==> r.profiles == profiles
    ensures r.response == Received ==> r.profiles == ApplyEvent(profiles, e, writeFails)
  {
    if !Truthy(env.secretKey) || !Truthy(env.webhookSecret) then WebhookResult(HandlerFailed, profiles)
    else if !Truthy(signature) then WebhookResult(MissingSignature, profiles)
    else if !signatureValid then WebhookResult(InvalidSignature, profiles)
    else WebhookResult(Received, ApplyEvent(profiles, e, writeFails))
  }

  // ---------------------------------------------------------------------
  // Properties of the transitions
  // ---------------------------------------------------------------------

  /** A completed checkout naming a user stores its plan (default "pro"), the
      plan's quota, and the customer and subscription ids when they are
      strings. */
  lemma CheckoutCompletedUpserts(profiles: map<UserId, BillingProfile>, s: Session)
    requires MetadataUser(s.metadata).Some?
    ensures var user := MetadataUser(s.metadata).value;
            var p := ApplyEvent(profiles, CheckoutSessionCompleted(s), false)[user];
            && p.plan == Some(MetadataPlan(s.metadata))
            && p.monthlyLimit == Some(PlanToLimit(MetadataPlan(s.metadata)))
            && (s.customer.Id? ==> p.stripeCustomerId == Some(s.customer.id))
            && (!s.customer.Id? ==> p.stripeCustomerId == None)
            && (s.subscription.Id? ==> p.stripeSubscriptionId == Some(s.subscription.id))
            && (!s.subscription.Id? ==> p.stripeSubscriptionId == None)
    ensures "plan" !in s.metadata ==> MetadataPlan(s.metadata) == "pro"
  {
  }

  /** A created or updated subscription records its own id, so the gate
      treats the user as subscribed. */
  lemma SubscriptionEventMakesEligible(profiles: map<UserId, BillingProfile>, sub: Subscription, now: int)
    requires MetadataUser(sub.metadata).Some? && sub.id != ""
    ensures var user := MetadataUser(sub.metadata).value;
            var after := ApplyEvent(profiles, SubscriptionUpdated(sub), false);
            && after[user].stripeSubscriptionId == Some(sub.id)
            && after[user].monthlyLimit == Some(PlanToLimit(MetadataPlan(sub.metadata)))
            && Eligible(after[user], now)
    ensures ApplyEvent(profiles, SubscriptionCreated(sub), false) == ApplyEvent(profiles, SubscriptionUpdated(sub), false)
  {
  }

  /** A deleted subscription downgrades an existing profile to "free" with
      limit 100 and no subscription id, keeping the customer id, status and
      period end; it creates no row. */
  lemma DeletionDowngrades(profiles: map<UserId, BillingProfile>, sub: Subscription)
    requires MetadataUser(sub.metadata).Some?
    ensures var user := MetadataUser(sub.metadata).value;
            var after := ApplyEvent(profiles, SubscriptionDeleted(sub), false);
            && after.Keys == profiles.Keys
            && (user in profiles ==>
                  && after[user].plan == Some("free")
                  && after[user].monthlyLimit == Some(100)
                  && after[user].stripeSubscriptionId == None
                  && after[user].stripeCustomerId == profiles[user].stripeCustomerId
                  && after[user].stripeStatus == profiles[user].stripeStatus
                  && after[user].currentPeriodEnd == profiles[user].currentPeriodEnd)
  {
  }

  /** Events that name no user, unhandled event types and failed writes
      leave every profile unchanged. */
  lemma NoUserNoChange(profiles: map<UserId, BillingProfile>, e: Event, writeFails: bool)
    requires EventUser(e) == None || writeFails
    ensures ApplyEvent(profiles, e, writeFails) == profiles
  {
  }

  /** Only the profile of the event's user can change; all other users keep
      their rows, and no row disappears. */
  lemma OnlyEventUserChanges(profiles: map<UserId, BillingProfile>, e: Event, writeFails: bool, u: UserId)
    requires EventUser(e) != Some(u)
    ensures var after := ApplyEvent(profiles, e, writeFails);
            && profiles.Keys <= after.Keys
            && (u in after <==> u in profiles)
            && (u in profiles ==> after[u] == profiles[u])
  {
  }

  /** After a subscription is deleted, the usage gate refuses the user with
      `no_plan` unless the stored period end is still in the future, although
      the new limit is 100. */
  lemma DeletionThenGate(
    store: Store, sub: Subscription, incrementBy: int,
    year: int, month: MonthIndex, now: int, faults: set<StorageStep>)
    requires MetadataUser(sub.metadata).Some?
    requires ProfileRead !in faults
    requires var user := MetadataUser(sub.metadata).value;
             user in store.profiles && !HasActiveTrial(store.profiles[user], now)
    ensures var user := MetadataUser(sub.metadata).value;
            var after := store.(profiles := ApplyEvent(store.profiles, SubscriptionDeleted(sub), false));
            var r := CheckAndIncrementUsage(after, user, incrementBy, year, month, now, faults);
            && LimitOf(after.profiles[user]) == 100
            && r.result == Ok(LimitCheck(false, 0, 0, Some("free"), Some(NoPlan)))
            && r.store == after
  {
    var user := MetadataUser(sub.metadata).value;
    var after := store.(profiles := ApplyEvent(store.profiles, SubscriptionDeleted(sub), false));
    assert after.profiles == Downgrade(store.profiles, user);
    var p := after.profiles[user];
    assert p.stripeSubscriptionId == None && p.currentPeriodEnd == store.profiles[user].currentPeriodEnd;
    assert !Eligible(p, now);
  }

  /** With the period end still ahead, the downgraded user keeps using the
      gate, now under the free limit of 100. */
  lemma DeletionDuringPeriodKeepsAccess(
    store: Store, sub: Subscription, incrementBy: int,
    year: int, month: MonthIndex, now: int)
    requires MetadataUser(sub.metadata).Some?
    requires var user := MetadataUser(sub.metadata).value;
             user in store.profiles && HasActiveTrial(store.profiles[user], now)
    requires var user := MetadataUser(sub.metadata).value;
             UsedOf(store.usage, UsageKey(user, MonthKey(year, month))) + incrementBy <= 100
    ensures var user := MetadataUser(sub.metadata).value;
            var after := store.(profiles := ApplyEvent(store.profiles, SubscriptionDeleted(sub), false));
            var r := CheckAndIncrementUsage(after, user, incrementBy, year, month, now, {});
            r.result.Ok? && r.result.value.allowed && r.result.value.limit == 100
  {
  }
}
