/**
 The monthly usage gate of src/lib/usage.ts.

 A billing profile is created lazily and blocked by default; a user may
 consume messages only while a subscription id is recorded or the current
 period (trial or paid) has not yet ended, and only while the counter for the
 current calendar month stays within the profile's `monthly_limit`.

 The database is a pair of maps: billing profiles keyed by user id and usage
 counters keyed by (user id, month key). The storage collaborator's failures
 are an input: the set of storage steps that fail on this call. A failed step
 is thrown to the caller (`Threw`), never turned into a permission.
 */
module Usage {
  import opened Common
  import opened Strings

  type UserId = string

  /** `Date.prototype.getUTCMonth()`: 0 stands for January. */
  type MonthIndex = m: int | 0 <= m < 12

  // ---------------------------------------------------------------------
  // Month keys
  // ---------------------------------------------------------------------

  /** `monthKey`: the UTC year, a dash, and the 1-based month padded to two
      digits. */
  function MonthKey(year: int, month: MonthIndex): (key: string)
    ensures |key| == |IntToString(year)| + 3
    ensures key[..|key| - 3] == IntToString(year)
    ensures key[|key| - 3] == '-'
    ensures AllDigits(key[|key| - 2..]) && DigitsValue(key[|key| - 2..]) == month + 1
  {
    var mm := PadStart(NatToString(month + 1), 2, '0');
    PaddedMonth(month + 1);
    var key := IntToString(year) + "-" + mm;
    assert key[..|key| - 3] == IntToString(year);
    assert key[|key| - 2..] == mm;
    key
  }

  /** A month number padded to two digits reads back as itself. */
  lemma PaddedMonth(n: nat)
    requires 1 <= n <= 12
    ensures var mm := PadStart(NatToString(n), 2, '0');
            |mm| == 2 && AllDigits(mm) && DigitsValue(mm) == n
  {
    var s := NatToString(n);
    NatToStringRoundTrip(n);
    var mm := PadStart(s, 2, '0');
    if n < 10 {
      var d := DigitChar(n);
      assert s == [d];
      assert mm == ['0'] + [d];
      assert mm[..1] == ['0'];
      assert DigitsValue(['0']) == 0 by { assert ['0'][..0] == []; }
      assert DigitsValue(mm) == DigitsValue(['0']) * 10 + DigitValue(d);
    } else {
      assert n / 10 == 1 && n % 10 == n - 10;
      assert s == NatToString(1) + [DigitChar(n - 10)];
      assert |s| == 2;
      assert mm == s;
    }
  }

  /** Distinct (year, month) pairs get distinct keys, so every calendar month
      has a counter of its own. */
  lemma MonthKeyInjective(y1: int, m1: MonthIndex, y2: int, m2: MonthIndex)
    requires MonthKey(y1, m1) == MonthKey(y2, m2)
    ensures y1 == y2 && m1 == m2
  {
    var k := MonthKey(y1, m1);
    assert IntToString(y1) == k[..|k| - 3] == IntToString(y2);
    IntToStringInjective(y1, y2);
  }

  /** A four-digit year gives the seven-character "YYYY-MM". */
  lemma MonthKeyOfFourDigitYear(year: int, month: MonthIndex)
    requires 1000 <= year <= 9999
    ensures |MonthKey(year, month)| == 7
  {
    assert |NatToString(year / 1000)| == 1;
    assert |NatToString(year / 100)| == 2;
    assert |NatToString(year / 10)| == 3;
  }

  /** The key for March 2026 is "2026-03" and for December 2026 "2026-12". */
  lemma MonthKeyExamples()
    ensures MonthKey(2026, 2) == "2026-03"
    ensures MonthKey(2026, 11) == "2026-12"
  {
    Year2026();
    March();
    December();
    assert "2026" + "-" + "03" == "2026-03";
    assert "2026" + "-" + "12" == "2026-12";
  }

  lemma Year2026()
    ensures IntToString(2026) == "2026"
  {
    assert NatToString(2) == "2";
    assert NatToString(20) == "20";
    assert NatToString(202) == "202";
  }

  lemma March()
    ensures PadStart(NatToString(3), 2, '0') == "03"
  {
    assert NatToString(3) == "3";
  }

  lemma December()
    ensures PadStart(NatToString(12), 2, '0') == "12"
  {
    assert NatToString(1) == "1";
  }

  // ---------------------------------------------------------------------
  // Storage
  // ---------------------------------------------------------------------

  /** A row of `billing_profiles`. `currentPeriodEnd` is the period end in
      milliseconds since the epoch; `None` stands for `null`, the empty string
      and an unparsable timestamp, all of which make the trial check false. */
  datatype BillingProfile = BillingProfile(
    plan: Option<string>,
    monthlyLimit: Option<int>,
    stripeCustomerId: Option<string>,
    stripeSubscriptionId: Option<string>,
    stripeStatus: Option<string>,
    currentPeriodEnd: Option<int>)

  /** The profile inserted for a user who has none: no plan, limit 0, no
      Stripe ids, no period end. */
  const BlockedProfile := BillingProfile(None, Some(0), None, None, None, None)

  /** The primary key of `usage_monthly`. */
  datatype UsageKey = UsageKey(user: UserId, month: string)

  datatype Store = Store(profiles: map<UserId, BillingProfile>, usage: map<UsageKey, int>)

  /** The storage calls the gate makes, in order. */
  datatype StorageStep = ProfileRead | ProfileInsert | UsageRead | UsageWrite

  /** A result, or the storage step whose error was thrown. */
  datatype Throws<T> = Ok(value: T) | Threw(step: StorageStep)

  /** The effective limit: `Number(monthly_limit ?? 0)`. */
  function LimitOf(p: BillingProfile): int {
    p.monthlyLimit.GetOr(0)
  }

  /** The stored counter, a missing row counting as 0. */
  function UsedOf(usage: map<UsageKey, int>, key: UsageKey): int {
    Lookup(usage, key).GetOr(0)
  }

  // ---------------------------------------------------------------------
  // ensureBillingProfile
  // ---------------------------------------------------------------------

  datatype Ensured = Ensured(store: Store, profile: Throws<BillingProfile>)

  /** `ensureBillingProfile`: the existing profile untouched, or a freshly
      inserted blocked one; no other row of either table changes. */
  function EnsureBillingProfile(store: Store, user: UserId, faults: set<StorageStep>): (r: Ensured)
    ensures r.store.usage == store.usage
    ensures forall u :: u in store.profiles ==> u in r.store.profiles && r.store.profiles[u] == store.profiles[u]
    ensures r.store.profiles.Keys <= store.profiles.Keys + {user}
    ensures r.profile.Ok? ==> user in r.store.profiles && r.store.profiles[user] == r.profile.value
    ensures r.profile.Ok? && user !in store.profiles ==> r.profile.value == BlockedProfile
    ensures r.profile.Threw? <==> ProfileRead in faults || (user !in store.profiles && ProfileInsert in faults)
    ensures r.profile.Threw? ==> r.store == store
  {
    if ProfileRead in faults then Ensured(store, Threw(ProfileRead))
    else if user in store.profiles then Ensured(store, Ok(store.profiles[user]))
    else if ProfileInsert in faults then Ensured(store, Threw(ProfileInsert))
    else Ensured(store.(profiles := store.profiles[user := BlockedProfile]), Ok(BlockedProfile))
  }

  /** Once a profile exists, ensuring it again returns it and changes nothing. */
  lemma EnsureBillingProfileIdempotent(store: Store, user: UserId, faults: set<StorageStep>)
    requires EnsureBillingProfile(store, user, faults).profile.Ok?
    ensures var e := EnsureBillingProfile(store, user, faults);
            EnsureBillingProfile(e.store, user, faults) == e
  {
  }

  // ---------------------------------------------------------------------
  // checkAndIncrementUsage
  // ---------------------------------------------------------------------

  datatype Reason = NoPlan | LimitReached

  datatype LimitCheck = LimitCheck(allowed: bool, used: int, limit: int, plan: Option<string>, reason: Option<Reason>)

  /** `Boolean(profile.stripe_subscription_id)` */
  predicate HasActiveSubscription(p: BillingProfile) {
    Truthy(p.stripeSubscriptionId)
  }

  /** The period end lies strictly after `now`. */
  predicate HasActiveTrial(p: BillingProfile, now: int) {
    p.currentPeriodEnd.Some? && p.currentPeriodEnd.value > now
  }

  predicate Eligible(p: BillingProfile, now: int) {
    HasActiveSubscription(p) || HasActiveTrial(p, now)
  }

  datatype GateOutcome = GateOutcome(store: Store, result: Throws<LimitCheck>)

  /** `checkAndIncrementUsage`. `year` and `month` are what `monthKey()` reads
      from the clock, `now` what the trial check reads (two separate clock
      reads in the source). */
  function CheckAndIncrementUsage(
    store: Store, user: UserId, incrementBy: int,
    year: int, month: MonthIndex, now: int, faults: set<StorageStep>): (r: GateOutcome)
    // the profile table changes exactly as ensureBillingProfile changes it
    ensures r.store.profiles == EnsureBillingProfile(store, user, faults).store.profiles
    // every answer reports the plan of the user's profile
    ensures r.result.Ok? ==> user in r.store.profiles && r.result.value.plan == r.store.profiles[user].plan
    // no plan: refused with used = limit = 0 and nothing written
    ensures r.result.Ok? && !Eligible(r.store.profiles[user], now) ==>
      r.result.value == LimitCheck(false, 0, 0, r.store.profiles[user].plan, Some(NoPlan)) && r.store.usage == store.usage
    // eligible: allowed exactly when the increment fits under the limit
    ensures r.result.Ok? && Eligible(r.store.profiles[user], now) ==>
      var p := r.store.profiles[user];
      var key := UsageKey(user, MonthKey(year, month));
      && r.result.value.limit == LimitOf(p)
      && (r.result.value.allowed <==> UsedOf(store.usage, key) + incrementBy <= LimitOf(p))
    // over the limit: refused with "limit_reached", reporting the stored counter
    ensures r.result.Ok? && Eligible(r.store.profiles[user], now) && !r.result.value.allowed ==>
      var p := r.store.profiles[user];
      r.result.value ==
        LimitCheck(false, UsedOf(store.usage, UsageKey(user, MonthKey(year, month))), LimitOf(p), p.plan, Some(LimitReached))
    // a refusal never writes a counter
    ensures !(r.result.Ok? && r.result.value.allowed) ==> r.store.usage == store.usage
    // an admission writes only this month's counter, to a value within the limit
    ensures r.result.Ok? && r.result.value.allowed ==>
      var key := UsageKey(user, MonthKey(year, month));
      && r.result.value.used == UsedOf(store.usage, key) + incrementBy
      && r.result.value.used <= r.result.value.limit
      && r.result.value.reason == None
      && r.store.usage == store.usage[key := r.result.value.used]
    // only a call on which no storage step failed can be admitted
    ensures r.result.Ok? && r.result.value.allowed ==>
      ProfileRead !in faults && UsageRead !in faults && UsageWrite !in faults
    // every storage failure on the path taken is thrown
    ensures ProfileRead in faults ==> r.result == Threw(ProfileRead)
  {
    var key := UsageKey(user, MonthKey(year, month));
    var e := EnsureBillingProfile(store, user, faults);
    match e.profile
    case Threw(step) => GateOutcome(e.store, Threw(step))
    case Ok(profile) => GateForProfile(e.store, key, profile, incrementBy, now, faults)
  }

  /** The part of `checkAndIncrementUsage` after the profile is known: the
      eligibility check, the counter read, the limit check and the write. */
  function GateForProfile(
    store: Store, key: UsageKey, profile: BillingProfile,
    incrementBy: int, now: int, faults: set<StorageStep>): (r: GateOutcome)
    ensures r.store.profiles == store.profiles
    ensures r.result.Ok? ==> r.result.value.plan == profile.plan
    ensures r.result.Ok? && !Eligible(profile, now) ==>
      r.result.value == LimitCheck(false, 0, 0, profile.plan, Some(NoPlan))
    ensures r.result.Ok? && Eligible(profile, now) ==>
      && r.result.value.limit == LimitOf(profile)
      && (r.result.value.allowed <==> UsedOf(store.usage, key) + incrementBy <= LimitOf(profile))
    ensures r.result.Ok? && Eligible(profile, now) && !r.result.value.allowed ==>
      r.result.value == LimitCheck(false, UsedOf(store.usage, key), LimitOf(profile), profile.plan, Some(LimitReached))
    ensures !(r.result.Ok? && r.result.value.allowed) ==> r.store.usage == store.usage
    ensures r.result.Ok? && r.result.value.allowed ==>
      && r.result.value.used == UsedOf(store.usage, key) + incrementBy
      && r.result.value.used <= r.result.value.limit
      && r.result.value.reason == None
      && r.store.usage == store.usage[key := r.result.value.used]
      && UsageRead !in faults && UsageWrite !in faults
  {
    if !HasActiveSubscription(profile) && !HasActiveTrial(profile, now) then
      GateOutcome(store, Ok(LimitCheck(false, 0, 0, profile.plan, Some(NoPlan))))
    else
      var limit := LimitOf(profile);
      if UsageRead in faults then GateOutcome(store, Threw(UsageRead))
      else
        var used := UsedOf(store.usage, key);
        if used + incrementBy > limit then
          GateOutcome(store, Ok(LimitCheck(false, used, limit, profile.plan, Some(LimitReached))))
        else if UsageWrite in faults then GateOutcome(store, Threw(UsageWrite))
        else
          GateOutcome(
            store.(usage := store.usage[key := used + incrementBy]),
            Ok(LimitCheck(true, used + incrementBy, limit, profile.plan, None)))
  }

  /** With an eligible profile, a failing counter read or write is thrown;
      the gate never answers `allowed` in its place. */
  lemma UsageFaultsAreThrown(
    store: Store, user: UserId, incrementBy: int,
    year: int, month: MonthIndex, now: int, faults: set<StorageStep>)
    requires user in store.profiles && ProfileRead !in faults
    requires Eligible(store.profiles[user], now)
    requires UsageRead in faults
    ensures CheckAndIncrementUsage(store, user, incrementBy, year, month, now, faults).result == Threw(UsageRead)
  {
  }

  /** A profile whose limit is 0 or null admits nothing, whatever its plan
      or period, as long as the stored counter is not negative. */
  lemma ZeroLimitBlocks(
    store: Store, user: UserId, incrementBy: int,
    year: int, month: MonthIndex, now: int, faults: set<StorageStep>)
    requires user in store.profiles && LimitOf(store.profiles[user]) <= 0
    requires UsedOf(store.usage, UsageKey(user, MonthKey(year, month))) >= 0
    requires incrementBy > 0
    ensures var r := CheckAndIncrementUsage(store, user, incrementBy, year, month, now, faults);
            r.store == store && !(r.result.Ok? && r.result.value.allowed)
  {
  }

  /** A user seen for the first time is refused with `no_plan`: the lazily
      created profile carries neither a subscription nor a period end. */
  lemma NewUserIsRefused(
    store: Store, user: UserId, incrementBy: int,
    year: int, month: MonthIndex, now: int)
    requires user !in store.profiles
    ensures var r := CheckAndIncrementUsage(store, user, incrementBy, year, month, now, {});
            && r.result == Ok(LimitCheck(false, 0, 0, None, Some(NoPlan)))
            && r.store.profiles == store.profiles[user := BlockedProfile]
            && r.store.usage == store.usage
  {
  }

  /** A call only ever touches the counter of its own user and month: the
      counters of other users, and of other months, keep their values. */
  lemma OtherCountersUntouched(
    store: Store, user: UserId, incrementBy: int,
    year: int, month: MonthIndex, now: int, faults: set<StorageStep>,
    otherUser: UserId, otherYear: int, otherMonth: MonthIndex)
    requires otherUser != user || otherYear != year || otherMonth != month
    ensures var r := CheckAndIncrementUsage(store, user, incrementBy, year, month, now, faults);
            var k := UsageKey(otherUser, MonthKey(otherYear, otherMonth));
            Lookup(r.store.usage, k) == Lookup(store.usage, k)
  {
    if MonthKey(otherYear, otherMonth) == MonthKey(year, month) {
      MonthKeyInjective(otherYear, otherMonth, year, month);
    }
  }

  // ---------------------------------------------------------------------
  // The quota invariant over a run of calls
  // ---------------------------------------------------------------------

  /** Every counter belongs to a user with a profile, is not negative and is
      within that profile's limit. */
  ghost predicate WithinQuota(store: Store) {
    forall k :: k in store.usage ==>
      k.user in store.profiles && 0 <= store.usage[k] <= LimitOf(store.profiles[k.user])
  }

  /** `after` keeps every profile of `before` and every counter, none smaller. */
  ghost predicate Grew(before: Store, after: Store) {
    && (forall u :: u in before.profiles ==> u in after.profiles && after.profiles[u] == before.profiles[u])
    && (forall k :: k in before.usage ==> k in after.usage && before.usage[k] <= after.usage[k])
  }

  datatype GateCall = GateCall(
    user: UserId, incrementBy: int, year: int, month: MonthIndex, now: int, faults: set<StorageStep>)

  function Step(store: Store, c: GateCall): Store {
    CheckAndIncrementUsage(store, c.user, c.incrementBy, c.year, c.month, c.now, c.faults).store
  }

  /** The store after a sequence of gate calls, each seeing the previous
      call's writes. */
  function RunGate(store: Store, calls: seq<GateCall>): Store
    decreases |calls|
  {
    if calls == [] then store else RunGate(Step(store, calls[0]), calls[1..])
  }

  /** One call with a positive increment keeps the quota invariant and lets
      no counter shrink. */
  lemma StepKeepsQuota(store: Store, c: GateCall)
    requires WithinQuota(store) && c.incrementBy > 0
    ensures WithinQuota(Step(store, c)) && Grew(store, Step(store, c))
  {
    var r := CheckAndIncrementUsage(store, c.user, c.incrementBy, c.year, c.month, c.now, c.faults);
    var key := UsageKey(c.user, MonthKey(c.year, c.month));
    if r.result.Ok? && r.result.value.allowed {
      assert UsedOf(store.usage, key) >= 0 by {
        if key in store.usage { assert 0 <= store.usage[key]; }
      }
      AdmissionKeepsQuota(store, r.store, key, r.result.value.used);
    } else {
      RefusalKeepsQuota(store, r.store);
    }
  }

  /** Writing one counter, no smaller than before and within its user's
      limit, keeps the quota invariant. */
  lemma AdmissionKeepsQuota(before: Store, after: Store, key: UsageKey, used: int)
    requires WithinQuota(before)
    requires forall u :: u in before.profiles ==> u in after.profiles && after.profiles[u] == before.profiles[u]
    requires key.user in after.profiles && 0 <= used <= LimitOf(after.profiles[key.user])
    requires UsedOf(before.usage, key) <= used
    requires after.usage == before.usage[key := used]
    ensures WithinQuota(after) && Grew(before, after)
  {
    forall k | k in after.usage
      ensures k.user in after.profiles && 0 <= after.usage[k] <= LimitOf(after.profiles[k.user])
    {
      if k != key {
        assert after.usage[k] == before.usage[k];
      }
    }
    forall k | k in before.usage
      ensures k in after.usage && before.usage[k] <= after.usage[k]
    {
      if k == key {
        assert Lookup(before.usage, key) == Some(before.usage[k]);
      }
    }
  }

  /** Keeping every counter and every profile keeps the quota invariant. */
  lemma RefusalKeepsQuota(before: Store, after: Store)
    requires WithinQuota(before)
    requires forall u :: u in before.profiles ==> u in after.profiles && after.profiles[u] == before.profiles[u]
    requires after.usage == before.usage
    ensures WithinQuota(after) && Grew(before, after)
  {
  }

  /** From any state within quota, any sequence of calls with positive
      increments stays within quota and never lowers a counter. */
  lemma {:induction false} RunGateKeepsQuota(store: Store, calls: seq<GateCall>)
    requires WithinQuota(store)
    requires forall i :: 0 <= i < |calls| ==> calls[i].incrementBy > 0
    ensures WithinQuota(RunGate(store, calls))
    ensures Grew(store, RunGate(store, calls))
    decreases |calls|
  {
    if calls != [] {
      var next := Step(store, calls[0]);
      StepKeepsQuota(store, calls[0]);
      RunGateKeepsQuota(next, calls[1..]);
    }
  }

  /** The empty database is within quota. */
  lemma EmptyStoreWithinQuota()
    ensures WithinQuota(Store(map[], map[]))
  {
  }
}
