# Guest-bot core in Dafny

A model of the server-side core of a WhatsApp guest-assistant SaaS for
holiday rentals. The application is written in TypeScript on Next.js, with
Supabase for storage and Stripe for billing. The model covers:

- the monthly usage gate, `checkAndIncrementUsage` with `ensureBillingProfile` and `monthKey` (module `Usage`);
- the Stripe webhook, which maps checkout and subscription events to billing-profile writes (`StripeWebhook`);
- the Stripe checkout and cancel routes (`StripeCheckout`, `StripeCancel`);
- the inbound WhatsApp webhook, which answers Twilio with a TwiML envelope (`WhatsAppWebhook`), and its `escapeXml` (`XmlEscape`);
- the admin route that creates a property (`AdminProperties`);
- the three locale-redirect request filters (`RootMiddleware`, `SrcMiddleware`, `Proxy`) and the path tests they share (`LocalePaths`);
- the locale switch link (`LocaleSwitch`) and the dictionary lookup `t` (`I18n`);
- the sign-up form's client-side check (`SignupForm`);
- the chart's day label (`AnalyticsCharts`);
- the landing-page demo rotator (`DemoRotator`).

Storage is modelled as maps: billing profiles keyed by user, and usage
counters keyed by user and month. Each storage or SDK step that can fail is
an input to the operation. For storage steps this is a set of failing steps
or a flag. The Stripe and OpenAI replies are also inputs. A thrown error is
the `Throws.Threw` value, or the handler's own error response where the
route catches it.

Shared helpers:

- `Strings` models the JavaScript string operations the routes use: `trim`, `split`, `join`, `toLowerCase`, `toUpperCase`, `padStart` and number-to-text.
- `Common` models JavaScript truthiness and `||` defaults over `Option`.

The inbound WhatsApp route has no try/catch around
`openai.chat.completions.create` (app/api/whatsapp/webhook/route.ts:48-58).
When that call throws, the request fails inside the framework and Twilio
receives no TwiML answer; the model records this as `Outcome.Crashed`.

## Model

| member | source | states |
|---|---|---|
| Usage.MonthKey | src/lib/usage.ts:1-5 | the key is the year's decimal text, a '-', and two digits whose value is the 1-based month |
| Usage.MonthKeyInjective | src/lib/usage.ts:1-5 | different (year, month) pairs never share a usage counter key |
| Usage.MonthKeyOfFourDigitYear | src/lib/usage.ts:1-5 | a four-digit year gives a seven-character "YYYY-MM" key |
| Usage.MonthKeyExamples | src/lib/usage.ts:1-5 | March and December 2026 give "2026-03" and "2026-12" (zero padding) |
| Usage.EnsureBillingProfile | src/lib/usage.ts:28-61 | an existing profile is returned untouched; a missing one is inserted blocked (no plan, limit 0, no Stripe ids); it throws exactly when the read fails, or when the insert is needed and fails; no other row changes |
| Usage.EnsureBillingProfileIdempotent | src/lib/usage.ts:28-61 | a second call after a successful one returns the same profile and writes nothing |
| Usage.CheckAndIncrementUsage | src/lib/usage.ts:68-134 | no subscription and no future period end gives "no_plan" (used 0, limit 0) and writes no counter; otherwise it is allowed iff used + increment <= limit; a refusal is "limit_reached" with the stored count and the limit; an allowed call has no reason and writes exactly this month's counter, to used + increment, which stays within the limit; a refused or failed call writes no counter |
| Usage.GateForProfile | src/lib/usage.ts:77-133 | for a profile already ensured: not eligible gives "no_plan" and no write; eligible gives the profile's limit, is allowed iff used + increment <= limit, refuses with "limit_reached", and admits by writing only this key, to used + increment; profiles never change |
| Usage.Eligible | src/lib/usage.ts:77-89 | a stored subscription id, or a period end later than now; the two clauses `CheckAndIncrementUsage` gates on |
| Usage.LimitOf | src/lib/usage.ts:95 | a null monthly limit counts as 0, which `ZeroLimitBlocks` shows blocks every increment |
| Usage.UsedOf | src/lib/usage.ts:106 | a missing counter row counts as 0 used |
| Usage.UsageFaultsAreThrown | src/lib/usage.ts:97-104 | a failing counter read of an eligible user is thrown, not treated as zero |
| Usage.ZeroLimitBlocks | src/lib/usage.ts:108-117 | a limit of 0 blocks every positive increment and changes nothing: 0 is not "unlimited" |
| Usage.NewUserIsRefused | src/lib/usage.ts:43-93 | a user without a profile gets a blocked profile and is refused with "no_plan" |
| Usage.OtherCountersUntouched | src/lib/usage.ts:119-124 | only the (user, current month) counter can change |
| Usage.StepKeepsQuota | src/lib/usage.ts:109-124 | one gate call keeps every counter within its owner's limit and never lowers a counter or alters an existing profile |
| Usage.RunGateKeepsQuota | src/lib/usage.ts:109-124 | any sequence of gate calls keeps every counter within its owner's limit, and counters only grow |
| StripeWebhook.PlanToLimit | app/api/stripe/webhook/route.ts:19-24 | case-insensitively, "business" gives 3000, "pro" 1000, and any other plan 100 |
| StripeWebhook.PlanToLimitCaseInsensitive | app/api/stripe/webhook/route.ts:19-24 | plans that differ only in letter case get the same limit, one of 100, 1000 or 3000 |
| StripeWebhook.PlanToLimitExamples | app/api/stripe/webhook/route.ts:19-24 | "BUSINESS", "Pro", "starter" and "" map to 3000, 1000, 100 and 100 |
| StripeWebhook.UpsertProfile | app/api/stripe/webhook/route.ts:61-73 | the event's user gets plan, limit, customer and subscription ids; status and period end are kept, or null in a new row; no other profile changes |
| StripeWebhook.Downgrade | app/api/stripe/webhook/route.ts:111-115 | an existing profile becomes plan "free" with limit 100 and no subscription; everything else is kept, and a missing profile is not created |
| StripeWebhook.HandleWebhook | app/api/stripe/webhook/route.ts:26-126 | the event is applied iff both secrets are set and the signature is present and valid; a missing or invalid signature answers 400; nothing is written unless the event is received; a missing STRIPE_SECRET_KEY or STRIPE_WEBHOOK_SECRET answers 500 "Webhook handler failed" |
| StripeWebhook.MetadataUser | app/api/stripe/webhook/route.ts:84 | the user is the metadata's `supabase_user_id` exactly when that key is present and not empty, otherwise none |
| StripeWebhook.MetadataPlan | app/api/stripe/webhook/route.ts:85 | the plan is never empty: the metadata's non-empty `plan`, otherwise "pro" |
| StripeWebhook.ApplySubscription | app/api/stripe/webhook/route.ts:81-105 | the metadata's user gets the subscription id, the plan and that plan's limit; no other profile changes; without a user nothing changes |
| StripeWebhook.ApplyEvent | app/api/stripe/webhook/route.ts:47-119 | a failed write or an event without a user changes nothing; no profile disappears, and only the event's user can gain or change one |
| StripeWebhook.CheckoutCompletedUpserts | app/api/stripe/webhook/route.ts:47-79 | a completed checkout stores the metadata plan (default "pro"), its limit, and the customer and subscription ids when they are strings, else null |
| StripeWebhook.SubscriptionEventMakesEligible | app/api/stripe/webhook/route.ts:81-105 | a created or updated subscription stores its id and the plan's limit, which makes the user eligible for the gate; created and updated act the same |
| StripeWebhook.DeletionDowngrades | app/api/stripe/webhook/route.ts:107-119 | a deleted subscription downgrades the user to free/100 without a subscription id, keeping customer, status and period end |
| StripeWebhook.NoUserNoChange | app/api/stripe/webhook/route.ts:58-78 | an event without a user in its metadata, or whose write fails, changes no profile |
| StripeWebhook.OnlyEventUserChanges | app/api/stripe/webhook/route.ts:47-119 | every profile other than the event's user is left exactly as it was |
| StripeWebhook.DeletionThenGate | app/api/stripe/webhook/route.ts:107-119 | after a deletion, a user without a future period end is refused by the gate ("no_plan"), although the stored limit is 100 |
| StripeWebhook.DeletionDuringPeriodKeepsAccess | app/api/stripe/webhook/route.ts:107-119 | after a deletion, a user whose period end is still in the future keeps being served, up to the free limit of 100 |
| StripeCheckout.Checkout | app/api/stripe/checkout/route.ts:7-72 | without STRIPE_SECRET_KEY the module `@/lib/stripe` throws on import, so the framework answers 500 before the route's own check can name the key; other missing env vars give 500 and a missing user gives 401, in this order; a missing price gives 500 and names the plan; the session uses the plan's price, quantity 1, the same metadata on session and subscription, and the /hr billing URLs; any later failure is "Checkout failed"; usage counters are never touched |
| StripeCheckout.NormalizePlan | app/api/stripe/checkout/route.ts:22 | the plan is non-empty and lower-case; a missing or empty body plan is "pro"; otherwise it keeps the body plan's length |
| StripeCheckout.PriceFor | app/api/stripe/checkout/route.ts:24-27 | the price is one of the two configured ones, and every plan other than "business", unknown ones included, gets the pro price |
| StripeCheckout.PriceMatchesQuota | app/api/stripe/checkout/route.ts:21-27 | with distinct prices, the business price is charged iff the webhook will grant the 3000-message quota for the same plan |
| StripeCheckout.PriceCaseInsensitive | app/api/stripe/checkout/route.ts:22-27 | plans that differ only in letter case are charged the same price |
| StripeCheckout.SessionPlanReachesWebhook | app/api/stripe/checkout/route.ts:54-66 | the webhook reads back from the session metadata exactly the normalised plan and the signed-in user |
| StripeCheckout.PriceExamples | app/api/stripe/checkout/route.ts:21-27 | "starter" is charged the pro price, "Business" the business price, and a missing or empty plan counts as "pro" |
| StripeCheckout.ExistingCustomerReused | app/api/stripe/checkout/route.ts:36-52 | a stored customer id is used for the session, and no customer is created or written |
| StripeCheckout.MissingCustomerCreated | app/api/stripe/checkout/route.ts:38-52 | when the ensured profile (possibly just inserted for a new user) has no customer id, a customer is created with the user's email and id, its id is stored on that profile and used for the session |
| StripeCheckout.SecondCheckoutReusesCustomer | app/api/stripe/checkout/route.ts:36-52 | a second checkout after one that created a customer reuses that customer and creates none |
| StripeCancel.LocaleFromReferer | app/api/stripe/cancel/route.ts:8-18 | the result is "hr" or "en", and "en" exactly when the referer parses and its first path segment is "en" |
| StripeCancel.ChooseLocale | app/api/stripe/cancel/route.ts:38-42 | a `locale` parameter that lower-cases to a locale wins; otherwise the referer decides |
| StripeCancel.ToIsoFromUnix | app/api/stripe/cancel/route.ts:20-27 | null for a missing or zero timestamp or one outside the Date range; otherwise the same instant in milliseconds |
| StripeCancel.Location | app/api/stripe/cancel/route.ts:49-105 | the redirect path of each outcome under "/{locale}"; `LocationStartsWithLocale` states its shape |
| StripeCancel.LocationStartsWithLocale | app/api/stripe/cancel/route.ts:48-107 | every redirect goes below "/{locale}/" |
| StripeCancel.Cancel | app/api/stripe/cancel/route.ts:29-109 | a missing key gives 500; otherwise a 303 redirect: login without a user, cancel_error on a failed read, cancel_none without a subscription, cancel_requested after the Stripe update, and cancel_error with the referer's locale if Stripe throws; Stripe is called iff a subscription id is stored; only status and period end of that user can change |
| StripeCancel.CancelKeepsEligibility | app/api/stripe/cancel/route.ts:76-100 | cancelling keeps an eligible user eligible: the subscription id is not cleared, cancellation waits for the period end |
| StripeCancel.LocaleExamples | app/api/stripe/cancel/route.ts:8-42 | "/en/billing" gives "en"; "/de/billing" and "/" give "hr"; the parameter "EN" beats an "/hr/..." referer |
| XmlEscape.EscapeXml | app/api/whatsapp/webhook/route.ts:5-12 | the five chained global replacements, "&" first; its meaning is stated by `EscapeXmlIsPerCharacter` and `UnescapeEscape` |
| XmlEscape.EscapeXmlIsPerCharacter | app/api/whatsapp/webhook/route.ts:5-12 | the five passes equal replacing each character by its entity, so "&" is never escaped twice |
| XmlEscape.EscapeXmlOneChar | app/api/whatsapp/webhook/route.ts:5-12 | a single character becomes its predefined XML entity, or itself |
| XmlEscape.EscapeXmlConcat | app/api/whatsapp/webhook/route.ts:5-12 | escaping distributes over concatenation |
| XmlEscape.EscapeXmlHasNoMarkup | app/api/whatsapp/webhook/route.ts:5-12 | the output has no '<', '>', '"' or '\'' |
| XmlEscape.EscapeXmlIdentity | app/api/whatsapp/webhook/route.ts:5-12 | text without special characters is unchanged |
| XmlEscape.UnescapeEscape | app/api/whatsapp/webhook/route.ts:5-12 | decoding the five entities, "&amp;" last, gives back the original text |
| XmlEscape.EscapeXmlInjective | app/api/whatsapp/webhook/route.ts:5-12 | different replies never escape to the same text |
| WhatsAppWebhook.SelectReply | app/api/whatsapp/webhook/route.ts:46-58 | the reply is never empty: a blank message gives the default, otherwise the trimmed completion unless that is absent or blank |
| WhatsAppWebhook.HandleInbound | app/api/whatsapp/webhook/route.ts:14-70 | without an OpenAI key, a fixed 200 TwiML answer and no model call; the model is called iff the message is not blank, with the raw message; the request crashes iff that call throws; every answer is 200 text/xml with the escaped reply in the envelope |
| WhatsAppWebhook.TwimlCarriesReply | app/api/whatsapp/webhook/route.ts:61-64 | the envelope is head + content + tail, the content has no raw markup character, and reading it back gives exactly the reply |
| WhatsAppWebhook.BlankMessageGetsDefault | app/api/whatsapp/webhook/route.ts:46-58 | a blank or absent body gets the default reply and no model call, whatever the model would say |
| WhatsAppWebhook.GuestReadsSelectedReply | app/api/whatsapp/webhook/route.ts:46-69 | when the model answers, the guest reads back exactly the selected reply |
| AdminProperties.NormalizeCode | app/api/admin/properties/route.ts:17 | the code is trimmed and has no lower-case letter; it is empty iff the field is blank or missing |
| AdminProperties.NormalizeText | app/api/admin/properties/route.ts:18-19 | name and knowledge text are trimmed, empty iff blank or missing |
| AdminProperties.NormalizeLanguages | app/api/admin/properties/route.ts:20 | a missing or empty field becomes "auto"; any other value is trimmed |
| AdminProperties.NormalizeEmail | app/api/admin/properties/route.ts:21 | the hand-off email is null iff blank or missing, else trimmed and non-empty |
| AdminProperties.NormalizeForm | app/api/admin/properties/route.ts:17-21 | the row's code is trimmed with no lower-case letter, name and knowledge text are trimmed, and the required fields are present iff none of the three form fields is blank or missing |
| AdminProperties.Authorized | app/api/admin/properties/route.ts:12-13 | the request is authorised only when ADMIN_SECRET is set and non-empty and the form's secret equals it; `UnsetSecretRejectsAll` states the consequence |
| AdminProperties.CreateProperty | app/api/admin/properties/route.ts:9-41 | 401 iff the secret is unset or differs; then 400 iff a required field is empty after normalisation; then 400 with the storage message iff the insert fails; only success appends exactly the normalised row |
| AdminProperties.NormalizeIdempotent | app/api/admin/properties/route.ts:17-21 | resubmitting a stored row gives the same row, except that a languages value of "" comes back as "auto" |
| AdminProperties.BlankLanguagesNotDefaulted | app/api/admin/properties/route.ts:20 | a whitespace-only languages field is stored as "", not "auto" |
| AdminProperties.UnsetSecretRejectsAll | app/api/admin/properties/route.ts:12-15 | with no or an empty ADMIN_SECRET, every request is rejected and nothing is stored |
| AdminProperties.StoredRowsValid | app/api/admin/properties/route.ts:23-33 | if every stored row has code, name and knowledge text and a trimmed code without lower-case letters, that stays true after any request |
| LocalePaths.IsInternal | middleware.ts:10 | a path under "/_next" or "/api", which every filter lets through |
| LocalePaths.HasLocalePrefix | middleware.ts:15 | exactly "/hr" or "/en", or a path below one of them; `LookAlikePrefix` shows "/hrx" is not one |
| LocalePaths.HasExtension | src/middleware.ts:15 | the regular expression's test; `HasExtensionMeansMatch` proves it equals the match |
| LocalePaths.DefaultLocaleTarget | middleware.ts:18-21 | the target starts with "/hr"; "/" goes to "/hr" and any other path is kept whole after "/hr" |
| LocalePaths.TargetHasLocale | middleware.ts:14-21 | the redirect target of a path starting with "/" has a locale prefix |
| LocalePaths.TargetNotInternal | middleware.ts:9-21 | the redirect target of a path starting with "/" is never an internal path |
| LocalePaths.LookAlikePrefix | middleware.ts:15-20 | "/hrx" has no locale prefix and is redirected to "/hr/hrx" |
| LocalePaths.OrdinaryPath | middleware.ts:9-21 | a path whose second character cannot begin "_next", "api", "hr" or "en" is neither internal nor localised, and its target is "/hr" followed by the whole path |
| LocalePaths.TrailingAlnum | src/middleware.ts:15 | the run of ASCII letters and digits at the end of the path, maximal |
| LocalePaths.HasExtensionMeansMatch | src/middleware.ts:15 | the computed extension test holds iff some '.' is followed by one or more letters or digits up to the end |
| RootMiddleware.Middleware | middleware.ts:6-22 | internal and locale paths pass; every other path is redirected to its "/hr" target |
| RootMiddleware.NoRedirectLoop | middleware.ts:6-22 | following a redirect never redirects again |
| RootMiddleware.FaviconRedirected | middleware.ts:6-22 | the root middleware exempts no static file: "/favicon.ico" goes to "/hr/favicon.ico" |
| SrcMiddleware.Middleware | src/middleware.ts:5-39 | internal paths, paths with an extension, the metadata routes and locale paths pass; a redirect happens iff none of the first, second and last holds |
| SrcMiddleware.MetadataRoutesHaveExtension | src/middleware.ts:15-27 | the four metadata routes already pass the extension test, so their own check never decides |
| SrcMiddleware.NoRedirectLoop | src/middleware.ts:29-38 | following a redirect never redirects again |
| Proxy.IsAsset | proxy.ts:7-20 | internal paths, "/favicon-" paths, the six root files and paths with an extension; `FaviconFileDiffers` and `DashedFaviconsDiffer` compare it with the middleware |
| Proxy.ProxyDecision | proxy.ts:22-42 | assets and locale paths pass; a redirect happens iff neither holds, to the "/hr" target |
| Proxy.NoRedirectLoop | proxy.ts:22-42 | following a redirect never redirects again |
| Proxy.FiltersAgreeOffAssets | proxy.ts:7-42 | off the asset list, the three filters decide the same |
| Proxy.DashedFaviconsDiffer | proxy.ts:12 | every `/favicon-` path without an extension passes the proxy but is redirected below `/hr` by src/middleware.ts |
| Proxy.FaviconFileDiffers | proxy.ts:11 | "/favicon.ico" passes the proxy and src/middleware.ts but is redirected by middleware.ts |
| LocaleSwitch.OtherLocale | src/components/locale-switch.tsx:8 | the offered locale is "en" iff the current one is "hr", else "hr" |
| LocaleSwitch.OtherLocaleInvolution | src/components/locale-switch.tsx:8 | switching twice returns to the starting locale |
| LocaleSwitch.Segments | src/components/locale-switch.tsx:11 | the path's segments, all non-empty and free of '/' |
| LocaleSwitch.SwitchPath | src/components/locale-switch.tsx:6-15 | nothing is rendered iff the path has no segment; otherwise the link is "/" + the other locale + the remaining segments, and it does not end with "/" |
| LocaleSwitch.FirstSegmentAlwaysReplaced | src/components/locale-switch.tsx:11-15 | the first segment is replaced even when it is not a locale |
| LocaleSwitch.SwitchBack | src/components/locale-switch.tsx:7-15 | switching and switching back gives the original path with empty segments dropped |
| I18n.GetLocale | src/lib/i18n.ts:3-5 | Croatian exactly for "hr", English for every other input |
| I18n.GetLocaleIdempotent | src/lib/i18n.ts:3-5 | a locale's own name resolves to itself |
| I18n.T | src/lib/i18n.ts:147-149 | the Croatian dictionary exactly for "hr", the English one for every other string |
| I18n.FallbackToEnglish | src/lib/i18n.ts:147-149 | all non-"hr" locales get the same dictionary as "en" |
| I18n.SharedInstructionContent | src/lib/i18n.ts:50-59 | both dictionaries carry the same three English and three Croatian guest steps, so printed instructions match |
| SignupForm.Utf16Length | src/components/signup-form.tsx:20 | a string's UTF-16 length lies between its code-point count and twice that |
| SignupForm.OnSubmit | src/components/signup-form.tsx:17-31 | submission is blocked iff an error is shown; a short password gives the length error before any mismatch check; the error is cleared iff the password is long enough and both entries agree |
| SignupForm.ErrorLanguage | src/components/signup-form.tsx:8-30 | an error is in Croatian iff the locale is "hr" |
| SignupForm.LengthCountsCodeUnits | src/components/signup-form.tsx:20 | the minimum is counted in UTF-16 units: three emoji already reach 6 |
| AnalyticsCharts.FormatDayLabel | src/components/analytics-charts.tsx:23-27 | the day split on '-', third and second parts with a dot after each; its behaviour is stated by the four lemmas below |
| AnalyticsCharts.DayMonthOrder | src/components/analytics-charts.tsx:23-27 | "Y-M-D" becomes "D.M.", whose length is the two parts' plus 2 |
| AnalyticsCharts.YearIgnored | src/components/analytics-charts.tsx:25-26 | the label does not depend on the year |
| AnalyticsCharts.MissingParts | src/components/analytics-charts.tsx:25-26 | missing parts print as "undefined" |
| AnalyticsCharts.LabelSplitsBack | src/components/analytics-charts.tsx:23-27 | splitting the label on '.' gives the day, the month and "" |
| DemoRotator.Items | src/components/demo-rotator.tsx:16-32 | four items in the chosen language, each question prefixed by the code and ": " |
| DemoRotator.CodeOnlyPrefixes | src/components/demo-rotator.tsx:17-29 | the code changes only the question prefixes, never the rest of a question or an answer |
| DemoRotator.Tick | src/components/demo-rotator.tsx:38-41 | the index moves to the next item or wraps to 0, and the animation key grows by 1 |
| DemoRotator.TicksWithinCycle | src/components/demo-rotator.tsx:37-43 | after k <= n ticks the index is the start + k, wrapped once, and the key has grown by k |
| DemoRotator.CycleReturns | src/components/demo-rotator.tsx:39 | n ticks bring the index back, so the rotation has period n |
| DemoRotator.EachItemOncePerCycle | src/components/demo-rotator.tsx:39 | any n consecutive ticks show every item exactly once |
| DemoRotator.AlwaysInRange | src/components/demo-rotator.tsx:34-45 | from the initial state the index always selects an existing item |

## Left out

- Supabase, Stripe, OpenAI and Twilio are not called. Their replies and failures are inputs, so a non-atomic read-then-upsert of the usage counter under concurrent requests is not modelled: the gate is a function of one store state.
- The clock: `monthKey` and the trial check read the current time, passed in as year, month and `now` in milliseconds. The source reads the clock twice; the model allows different values.
- Dates: `current_period_end` is stored as ISO text in the source and as milliseconds here. `new Date(...).toISOString()` and date parsing are not modelled; `StripeCancel.ToIsoFromUnix` keeps only its null cases and the Date range guard.
- `new URL(...)` parsing: the referer arrives already parsed, or as unparsable; the request URL's origin is not modelled (redirects are paths).
- `Number(...)` of non-numeric values (NaN) and non-number timestamps: counters and limits are integers, timestamps `Option<int>`.
- Strings.ToLower: maps only ASCII letters; JavaScript `toLowerCase` also maps other scripts. Plan names and locales are ASCII.
- Strings.ToUpper: maps only ASCII letters; JavaScript `toUpperCase` also maps other scripts and can lengthen a string (e.g. "ß"). Property codes are ASCII.
- The WhatsApp route's system prompt text, its model name, the `From` field (only logged), and all console logging.
- The GET handlers of the webhook, checkout and WhatsApp routes, which answer a fixed "ok".
- The `config.matcher` of both middleware files and of the proxy: the filters are modelled on every path.
- React rendering, state hooks, `setInterval` timing and `intervalMs`, recharts, and the JSX of all components; only the pure logic of each is modelled.
- The sign-up form's other fields and the server route it posts to.
- The checkout's `allow_promotion_codes` and `mode`, and a request body whose `plan` is not a string.
- The webhook's expression `metadata.supabase_user_id || (... ? undefined : undefined)`: both fallbacks are `undefined`, so the user comes from the metadata only.
- The whole dictionary text is modelled in `I18n`. The en and hr dictionaries have the same sections and keys by construction: both are values of one datatype. There is at most one billing profile per user by construction: profiles are a map keyed by user.
- A "starter" plan is charged the pro price at checkout (`StripeCheckout.PriceExamples`) but gets the 100-message limit in the webhook (`StripeWebhook.PlanToLimitExamples`). The model keeps both as written.
- WhatsAppWebhook.HandleInbound: the route builds its OpenAI client at module load (app/api/whatsapp/webhook/route.ts:3). The OpenAI SDK is not part of this model. If its constructor throws on a missing key, the route's own missing-key answer is never reached; the model keeps that answer as the code writes it.
