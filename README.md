# Launchpad admission and display logic, modelled in Dafny

This project models the logic of a meme-token launchpad web app (Next.js routes and React
components) that can be stated and proved without a browser or a blockchain:

- **Launch quota** (`app/api/launch/route.ts`): two module variables, `launchCount` and
  `lastResetTime`, cap launches at 10 per window. `POST` checks that `name` and `ticker`
  are truthy, then renews the window, then checks the cap and counts the launch. `GET`
  renews the window the same way and reports the remaining quota and the time until the
  next renewal. The window is rolling: it is anchored at the last renewal, and it renews
  only when strictly more than 3,600,000 ms have passed. Modelled as the class
  `LaunchRoute.LaunchQuota`, proved against the step functions `PostSpec` and `GetSpec`.
- **Token store** (`app/api/tokens/route.ts`): a list seeded with three records. `GET`
  returns it. `POST` builds `{ id, ...body, launchTime, initialPrice, currentPrice,
  volume24h }` and inserts it at the front. Modelled as the class `TokensRoute.TokenStore`,
  proved against `AddSpec`. Records are maps from property names to JSON values, and spread
  is a right-biased map union.
- **Token creation request** (`app/api/create-token/route.ts`): a stateless guard on
  `name`, `symbol` and `walletAddress`, destructuring defaults for `initialSupply` and
  `decimals`, and the echoed pending token. The generated mint key is an input. The route
  is a function, so identical bodies with the same key always give identical responses.
- **Mint account decode** (`app/lib/token-service.ts`): the fields `getTokenInfo` reads
  from an account's raw bytes, and the amount `createToken` mints.
- **Launchpad page helpers** (`app/launchpad/page.tsx`): the countdown updater, the capped
  launch counter updater, the disabled flag and the remaining figure, and `formatTime`.
- **Address shortening** (`app/components/TokenList.tsx`): `formatAddress`.
- **Typing animation** (`app/components/TypingEffect.tsx`): the `displayedText` /
  `currentIndex` reveal, with timer callbacks made into explicit `Tick` and `Reset`
  calls.

Shared modules: `Options` holds the optional value that stands for `undefined`. `Decimal` holds `Number.prototype.toString()` for non-negative integers,
its inverse, and `padStart(2, '0')`. `JsonValue` holds parsed request bodies, JavaScript
truthiness, property reads, and object spread.

Clocks (`Date.now()`) are integer parameters in milliseconds. `new Date().toISOString()` is
an opaque string parameter. Requests are handled one after another.

What the code does not do, and the model therefore does not either:

- The quota renews on a rolling window anchored at the last renewal. It does not renew
  on the clock hour.
- No route has a per-client rate limiter.
- No route checks field lengths, character classes, URLs, wallet addresses or fee
  signatures.
- Tickers are not upper-cased.
- The launch quota and the token store share no state.

## Model

| member | source | states |
|---|---|---|
| `LaunchRoute.Renew` | app/api/launch/route.ts:22-25 | afterwards the window is current (now − lastReset ≤ 3600000); state changes only when now − lastReset > 3600000, and then count = 0 and lastReset = now |
| `LaunchRoute.RenewBoundary` | app/api/launch/route.ts:22 | exactly 3600000 ms after the last reset nothing renews; one ms later the count restarts and the window moves to now |
| `LaunchRoute.RenewIdempotent` | app/api/launch/route.ts:72-75 | a second renewal at the same clock reading changes nothing |
| `LaunchRoute.MintLabel` | app/api/launch/route.ts:36 | the mint label is `TOKEN_` followed by decimal text that reads back as the clock value |
| `LaunchRoute.PostSpec` | app/api/launch/route.ts:7-67 | unparseable or null body → 500; name or ticker falsy → 400; in both cases the state is unchanged because validation comes before renewal. 429 exactly when the renewed count is ≥ 10, and then the state is unchanged. Otherwise 200: count = renewed count + 1, launchesRemaining = 10 − new count ∈ [0, 9]. The token echoes name, ticker, description, website, x and telegram, and carries prices 0.001 / 0.001 and volume 0. The count stays in [0, 10] |
| `LaunchRoute.GetSpec` | app/api/launch/route.ts:70-83 | the state becomes the renewed window; the report gives count, max 10, and remaining = 10 − count ∈ [0, 10]; timeUntilReset = 3600000 − (now − lastReset), so the `max(0, …)` never clamps; it is in [0, 3600000] when the clock is not behind the last reset |
| `LaunchRoute.RunInBounds` | app/api/launch/route.ts:4 | across any series of POST and GET calls, launchCount stays in [0, 10] |
| `LaunchRoute.FillWindow` | app/api/launch/route.ts:27-32 | in one window, valid POSTs are accepted while count + i < 10 and get 429 afterwards; the final count is min(count + n, 10); the window anchor does not move |
| `LaunchRoute.LaunchQuota.constructor` | app/api/launch/route.ts:4-5 | module load: count 0, window anchored at the load time |
| `LaunchRoute.LaunchQuota.Post` | app/api/launch/route.ts:7-67 | the new state and the response are exactly those of `PostSpec`; launchCount stays in [0, 10] |
| `LaunchRoute.LaunchQuota.Get` | app/api/launch/route.ts:70-83 | the new state and the report are exactly those of `GetSpec`; launchCount stays in [0, 10] |
| `TokensRoute.NewRecord` | app/api/tokens/route.ts:55-62 | keys = {id} ∪ body keys ∪ the four trailing keys; id is the decimal text of (stored + 1) unless the body supplies `id`; launchTime, initialPrice 0.001, currentPrice 0.001 and volume24h 0 override the body; every other body property is copied unchanged |
| `TokensRoute.AddSpec` | app/api/tokens/route.ts:52-77 | unparseable body → 500 and list unchanged; otherwise the list grows by one, the new record is at index 0, the old records follow in order, and the response carries the new record |
| `TokensRoute.Seed` | app/api/tokens/route.ts:4-35 | three records, each with exactly the properties id, name, ticker, address, launchTime, initialPrice, currentPrice and volume24h, their ids the decimal texts of 1, 2 and 3 |
| `TokensRoute.SeedNumbered` | app/api/tokens/route.ts:4-35 | the seeded ids "1", "2", "3" are decimal numbers in 1..3 and distinct |
| `TokensRoute.AddKeepsIdsDistinct` | app/api/tokens/route.ts:56 | a POST whose body has no `id` keeps every id a distinct number in 1..length |
| `TokensRoute.AddAllKeepsIdsDistinct` | app/api/tokens/route.ts:56-64 | the same holds across any series of such POSTs |
| `TokensRoute.NumberedIdsUnique` | app/api/tokens/route.ts:56 | distinct id numbers mean distinct id strings |
| `TokensRoute.SeededIdsStayUnique` | app/api/tokens/route.ts:4-64 | from the seeded list, POSTs without a body `id` never produce two records with the same id |
| `TokensRoute.TokenStore.constructor` | app/api/tokens/route.ts:4-35 | the store starts as the three seeded records |
| `TokensRoute.TokenStore.Get` | app/api/tokens/route.ts:37-42 | returns the stored list unchanged and in order |
| `TokensRoute.TokenStore.Post` | app/api/tokens/route.ts:52-77 | the new list and the response are exactly those of `AddSpec` |
| `JsonValue.Field` | app/api/launch/route.ts:10 | destructuring reads an object's own property; any other value yields `undefined` |
| `JsonValue.Truthy` | app/api/launch/route.ts:13 | `!v` holds exactly for undefined, null, false, 0 and the empty string; every other value, including every array and object, is truthy |
| `JsonValue.Destructurable` | app/api/create-token/route.ts:7-14 | destructuring throws exactly for null; any other non-object value destructures to `undefined` for every property |
| `JsonValue.Spread` | app/api/tokens/route.ts:57 | spreading an object copies its fields; an array gives its elements and a string its one-character strings, each under its index in decimal ("0", "1", …) and nothing else; null, booleans and numbers give nothing |
| `CreateTokenRoute.CreateToken` | app/api/create-token/route.ts:4-66 | 500 exactly for an unparseable or null body. 400 exactly when name, symbol or walletAddress is falsy. Otherwise: mint = the generated key; name, symbol, walletAddress and description are echoed; status = pending_creation, and the token's message is the signature-required notice. initialSupply defaults to 1000000 and decimals to 9 only when absent; a supplied value is kept |
| `CreateTokenRoute.OrDefault` | app/api/create-token/route.ts:11-12 | a present property is kept whatever its value, falsy ones included; the result is the default exactly when the property is absent or already holds the default |
| `CreateTokenRoute.ZeroIsKept` | app/api/create-token/route.ts:11 | an explicit `initialSupply: 0` is not replaced by the default |
| `TokenService.GetTokenInfo` | app/lib/token-service.ts:90-110 | no account → "Token not found". Data shorter than 47 bytes → out-of-range error at the first failing offset (36, 44, 45 or 46). Otherwise: mint echoes the address; supply = little-endian u64 of bytes 36..43, below 2^64; decimals = byte 44 ≤ 255; isInitialized ⇔ byte 45 = 1; freezeAuthority ⇔ byte 46 = 1 |
| `TokenService.LittleEndian` | app/lib/token-service.ts:101 | the first byte is the lowest base-256 digit of the value, and the remaining bytes make up the value divided by 256 |
| `TokenService.LittleEndianLast` | app/lib/token-service.ts:101 | read from the other end, the last byte is the most significant: it contributes byte · 256^(n−1) on top of the value of the bytes before it |
| `TokenService.LittleEndianBound` | app/lib/token-service.ts:101 | an n-byte little-endian field is below 256^n |
| `TokenService.DecodeEncode` | app/lib/token-service.ts:101 | decoding the n-byte encoding of v < 256^n gives v |
| `TokenService.EncodeDecode` | app/lib/token-service.ts:101 | encoding a decoded field gives its bytes back |
| `TokenService.MintAmount` | app/lib/token-service.ts:69 | the minted amount divided by 10^decimals is exactly initialSupply, with no remainder |
| `LaunchpadPage.CountdownStep` | app/launchpad/page.tsx:25-30 | keeps the countdown in [1, 3600]; above 1 it counts down by one; at 1 or below it wraps to 3600 |
| `LaunchpadPage.CountdownDescends` | app/launchpad/page.tsx:25-30 | k < t updates from t give t − k |
| `LaunchpadPage.CountdownInRange` | app/launchpad/page.tsx:14 | from any value in [1, 3600] (3600 initially), any number of updates stays in [1, 3600] |
| `LaunchpadPage.CountdownPeriod` | app/launchpad/page.tsx:25-30 | 3600 updates bring every value in [1, 3600] back: the countdown cycles with period 3600 |
| `LaunchpadPage.LaunchCounterStep` | app/launchpad/page.tsx:141 | keeps the counter in [0, 10]; 10 is a fixed point; below 10 it adds one |
| `LaunchpadPage.LaunchCounterValue` | app/launchpad/page.tsx:13 | after n launches from 0 the counter is min(n, 10) |
| `LaunchpadPage.FormDisabled` | app/launchpad/page.tsx:142 | the form is disabled exactly when one more launch would no longer move the counter up |
| `LaunchpadPage.RemainingShown` | app/launchpad/page.tsx:122 | 10 − count is in [0, 10] for a count in [0, 10]; when it is 0 the form is disabled |
| `LaunchpadPage.DisabledWhenNoneLeft` | app/launchpad/page.tsx:142 | along the counter's history, disabled ⇔ nothing left, and the remaining figure is never negative |
| `LaunchpadPage.Hours` | app/launchpad/page.tsx:36 | the whole hours: h · 3600 ≤ seconds < (h + 1) · 3600 |
| `LaunchpadPage.Minutes` | app/launchpad/page.tsx:37 | below 60, and the whole minutes of what is left after the hours |
| `LaunchpadPage.Secs` | app/launchpad/page.tsx:38 | below 60, and seconds − s is a whole number of minutes |
| `LaunchpadPage.SplitTime` | app/launchpad/page.tsx:36-38 | minutes and seconds are < 60, and h·3600 + m·60 + s = seconds |
| `LaunchpadPage.FieldWidths` | app/launchpad/page.tsx:39 | minutes and seconds print as two characters, hours as at least two, and as exactly two below 100 hours |
| `LaunchpadPage.FormatTime` | app/launchpad/page.tsx:35-40 | the text has colons 6 and 3 places from the end; it is exactly 8 characters for seconds < 360000; the field before the first colon reads back as the whole hours, the two digits between the colons as the minutes (< 60), and the last two as the seconds (< 60) |
| `LaunchpadPage.FormatTimeRoundTrip` | app/launchpad/page.tsx:35-40 | parsing the three fields of formatTime(s) back gives s |
| `Decimal.Dec` | app/api/tokens/route.ts:56 | toString of a non-negative integer: at least one digit, all digits, no leading zero; one digit below 10, two digits in 10..99 |
| `Decimal.PadStart2` | app/launchpad/page.tsx:39 | the result has length max(2, \|s\|), ends with s, and has only '0' before it |
| `Decimal.DecRoundTrip` | app/api/tokens/route.ts:56 | the decimal text of n parses back to n |
| `Decimal.DecInjective` | app/api/tokens/route.ts:56 | distinct numbers give distinct id strings |
| `Decimal.PaddedRoundTrip` | app/launchpad/page.tsx:39 | a zero-padded field parses back to its number |
| `TokenList.Slice` | app/components/TokenList.tsx:44 | never longer than the string; inside the string it is the ordinary subsequence; an end past the string stops at its end; a start in [−\|s\|, 0) counts back from the end; empty when 0 ≤ end ≤ start |
| `TokenList.FormatAddress` | app/components/TokenList.tsx:43-45 | length min(6,\|a\|) + 3 + min(4,\|a\|), so 13 once \|a\| ≥ 6. It starts with a prefix of `a`, has "..." at index min(6,\|a\|), and ends with a suffix of `a`. For \|a\| ≥ 10 it is a[..6] + "..." + a[\|a\|−4..], and the two parts do not overlap |
| `Typing.Step` | app/components/TypingEffect.tsx:32-40 | a tick fires only while index < \|text\|; it advances the index by one and shows text[..index] |
| `Typing.Restart` | app/components/TypingEffect.tsx:21-30 | reset sets the index to 0 and leaves the shown text as it is |
| `Typing.StepKeepsConsistent` | app/components/TypingEffect.tsx:33-36 | with text fixed, index ≤ \|text\| and "shown is a prefix of text" survive ticks and resets |
| `Typing.StepsReveal` | app/components/TypingEffect.tsx:35-36 | k ≥ 1 ticks from index i show text[..i + k] at index i + k |
| `Typing.RevealAll` | app/components/TypingEffect.tsx:33-37 | from index 0, exactly \|text\| ticks show the whole text; no earlier tick does; no tick fires after that |
| `Typing.TypingEffect.constructor` | app/components/TypingEffect.tsx:18-19 | the component starts with nothing shown and index 0 |
| `Typing.TypingEffect.Tick` | app/components/TypingEffect.tsx:32-40 | fires exactly when index < \|text\|; the new state is `Step`'s; after a firing tick, displayedText = text[..currentIndex] |
| `Typing.TypingEffect.Reset` | app/components/TypingEffect.tsx:21-30 | the new state is `Restart`'s; the index stays ≤ \|text\| and the shown text stays a prefix |

## Left out

- Rendering, animation, styling, i18n text and configuration files: these are UI or static data.
- Timer scheduling: `setInterval`, `setTimeout` and the typing `delay` and `speed` handling. Only the updater and step functions are modelled.
- Clipboard I/O in the token display, and `fetch('/api/tokens')` in the token list.
- Wallet and chain calls: the test wallet page, the Meteora service, `createMint` / `mintTo` / `getOrCreateAssociatedTokenAccount`, and `connection.getAccountInfo`. The lookup result is an input to `GetTokenInfo`.
- `new PublicKey(mintAddress)` key parsing: its base58 check lives in a library that is not part of this model.
- `Keypair.generate()`: the generated key's text is an input to `CreateToken`.
- JSON numbers are exact reals. `request.json()` yields IEEE doubles, so double rounding of body numbers is not represented, nor is a literal such as `1e400` overflowing to `Infinity`, which the echoing routes (launch, create-token, and the spread into a new token record) would then serialise as `null`.
- Floating-point display math: `formatPrice`, `formatVolume`, `getPriceChange`, the fee total in the launch form, and lamport conversion. The route constants 0.001 and 0 are exact reals.
- The launch form's simulated submit flow and its form-state reset.
- ISO-8601 formatting of `new Date()`: timestamps are opaque strings.
- Concurrency: overlapping requests against the module state. Requests are sequential here.
- `console.log` / `console.error`.
- The 500 branch of `GET /api/tokens`: serialising JSON-derived records cannot throw, so `TokenStore.Get` has no error path.
- Key order of JavaScript objects, which shows in serialised responses: records are maps.
- Inherited prototype properties: none of the property names the routes read exists on a prototype, so `Field` reads own properties only.
- JavaScript strings are UTF-16 code-unit sequences. Here they are sequences of Dafny characters, which affects `slice` and string spread only outside the Basic Multilingual Plane.
- Decimal.Dec: does not model the exponent notation `toString()` switches to at 10^21. Every number it prints stays far below that: list lengths for token ids, hour, minute and second fields in `formatTime`, and the `Date.now()` reading in the mint label (about 1.7·10^12 ms).
- TokenService.MintAmount: `initialSupply` is a natural number and the product is exact integer arithmetic; the source types the supply as `number` and computes in double precision, which rounds above 2^53 base units and admits fractional or negative supplies.
- LaunchpadPage.FormatTime: takes a natural number of seconds; negative or fractional inputs, which the page never passes, are not modelled.
- Typing.TypingEffect: `text` is fixed per instance; a change of the `text` prop in the middle of an animation is not modelled.
