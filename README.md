# Raffle draw: a verified model of the draw and registration logic

This project models the three client components of the raffle application
that hold its logic. There is no server-side draw engine; the store (a
Postgres database behind Supabase) only keeps rows.

- **The operator's draw screen** (`LiveDrawInterface`). It keeps the prizes
  still to be drawn, the winners so far and whether the raffle is live. It
  asks for the `upcoming -> live` transition, and it runs a draw: a guard,
  31 ticks of a spinning animation, a random pick, the winner insert and
  the prize bookkeeping. Once no prize is left it offers completion.
- **The public viewer** (`PublicLiveDraw`). It is a local replica of the
  draw, kept up to date by two store notifications: a winner was inserted,
  or a prize was updated. It also sets an initial prize.
- **The registration gate** (`handleSubmit` of the registration form).
  - It normalises the email.
  - It refuses a missing raffle, a raffle that is not upcoming, and an
    email already registered.
  - It inserts the participant under an entry code
    `RAFFLE-<last six clock digits>-<zero-padded random number>`.
  - It maps the store's error codes to messages, with one retry when the
    code collides.

Modules and files:

| file | module | what it holds |
|---|---|---|
| `types.dfy` | `RaffleTypes` | raffle, prize, participant and winner records |
| `randomness.dfy` | `Randomness` | `floor(Math.random() * n)` as an index below `n` |
| `prize_book.dfy` | `PrizeBook` | the operator's `map`/`filter` bookkeeping after a win, and its invariants |
| `live_draw.dfy` | `LiveDraw` | the class `DrawSession`: the operator's screen state and its handlers |
| `public_draw.dfy` | `PublicDraw` | the class `Viewer`: the viewer's state and its notification handlers |
| `entry_codes.dfy` | `EntryCodes` | decimal rendering, `slice(-6)`, `padStart`, the entry code and a parser for it |
| `registration.dfy` | `Registration` | email normalisation, the decision function `Submit`, and the class `RegistrationForm` |

The store's replies, the clock and the samples of `Math.random()` are
inputs. A sample is a real number `r` with `0 <= r < 1`. Every write the
operator screen sends is returned as a `StoreWrite`, so the two separate
writes of a win are visible. Each component's state is a class whose
fields the handlers update. The pure parts are functions with lemmas:
- the prize bookkeeping;
- the viewer's prize choice;
- the email normalisation;
- the entry code;
- the registration decision.

`DrawSession.Valid()` keeps two facts:
- The current prize is the head of the available list.
- The draw page loads only prizes with a unit left, and their ids are
  unique. For such prizes, the units left plus the winners recorded stay
  constant.

## Model

| member | source | states |
|---|---|---|
| Randomness.PickIndex | components/admin/live-draw-interface.tsx:115 | for `0 <= r < 1` and `n > 0`, `floor(r * n)` is an index below `n`, so the pick always lands on a list element |
| LiveDraw.DrawSession.constructor | components/admin/live-draw-interface.tsx:33-39 | initial state: the first prize given (or none), the prize list unfiltered, the winners given, live exactly when the raffle's status is live, no spinner and no winner; the session invariant holds |
| LiveDraw.DrawSession.GoLiveEffect | components/admin/live-draw-interface.tsx:41-45 | the go-live request fires exactly when the raffle is upcoming, the screen is not yet live and a start action exists; otherwise nothing changes; when it fires, the screen becomes live only on success without error, and an error reply alerts "Failed to start raffle: " with its message |
| LiveDraw.DrawSession.SetRaffleToLive | components/admin/live-draw-interface.tsx:47-81 | through the server action, an error is alerted with its message and leaves the live flag unchanged, and success without error makes the screen live; through the screen's own update, the status write is sent, an error is alerted, and a returned row makes the screen live |
| LiveDraw.EligibleParticipants | components/admin/live-draw-interface.tsx:83-86 | the eligible list has every participant and nobody else, with the same length |
| LiveDraw.PastWinnerEligible | components/admin/live-draw-interface.tsx:83-86 | a participant who already won stays eligible |
| LiveDraw.DrawSession.BeginSpin | components/admin/live-draw-interface.tsx:88-98 | a draw starts exactly when a prize is up, no draw is spinning and someone is eligible; a refused draw changes nothing; "No more eligible participants!" is alerted exactly when a prize is up, nothing spins and there is no participant |
| LiveDraw.DrawSession.SpinAnimation | components/admin/live-draw-interface.tsx:100-111 | the interval runs exactly 31 ticks (it stops once its counter exceeds 30), and the name shown is the last tick's pick |
| LiveDraw.DrawSession.SelectWinner | components/admin/live-draw-interface.tsx:114-163 | the winner is the participant at `floor(r * n)`, so it is a participant; the winner insert is always sent when a prize is up; only a returned row appends the winner at the end, sends the second write (the prize's count minus one) and replaces the prize list by the bookkeeping result; without a row, winners and prizes are unchanged; the spinner always ends stopped; the session invariant is kept |
| LiveDraw.DrawSession.StartDraw | components/admin/live-draw-interface.tsx:88-163 | the whole draw: a refused draw changes no field, and alerts "No more eligible participants!" exactly when a prize remains, no spin runs and nobody is eligible; an accepted one picks the participant at `floor(r * n)`, shows its name and stops the spinner, sends the winner insert and, only when the insert returned a row, the prize's count minus one; a returned row appends the winner at the end and replaces the prize list by the bookkeeping result, with the next prize its head; no row leaves winners, prizes and the current prize unchanged; when the given prizes had unique ids and a unit each, each recorded winner costs exactly one unit of prize |
| LiveDraw.DrawSession.CompleteDraw | components/admin/live-draw-interface.tsx:165-190 | offered only with no prize up (line 224); through the server action an error is alerted and otherwise the action redirects, with no write from the screen; through the screen's own update the completed-status write is sent, an error is alerted, and otherwise the screen navigates to `/admin/raffles/<id>` |
| PrizeBook.TakeUnit | components/admin/live-draw-interface.tsx:149 | the `map` callback: one unit less on the won id, the prize as it was otherwise; its effect on a whole list is the `PrizeBook.Decrement` row |
| PrizeBook.Decrement | components/admin/live-draw-interface.tsx:148-150 | the `map`: same length and order, only `remaining` changes, lowered by one on prizes with the won id and kept on every other prize |
| PrizeBook.Available | components/admin/live-draw-interface.tsx:151 | the `filter`: a prize survives exactly when it was in the list with a unit left |
| PrizeBook.AfterWin | components/admin/live-draw-interface.tsx:148-151 | the prize list after a win, the `map` then the `filter`; what it keeps is stated by the `PrizeBook.AfterWinBookkeeping` row, and `SelectWinner` sets the screen's list to it |
| PrizeBook.AvailableConcat | components/admin/live-draw-interface.tsx:151 | the filter keeps relative order: it distributes over concatenation |
| PrizeBook.AvailableAllPositive | components/admin/live-draw-interface.tsx:151-152 | no depleted prize survives the filter |
| PrizeBook.FirstOf | components/admin/live-draw-interface.tsx:154-158 | the next prize is none exactly when the list is empty, and otherwise an element of it |
| PrizeBook.TotalAfterDecrement | components/admin/live-draw-interface.tsx:148-150 | the map lowers the units left by the number of prizes carrying the won id |
| PrizeBook.TotalAfterFilter | components/admin/live-draw-interface.tsx:151 | dropping depleted prizes keeps the units left, when no count is negative |
| PrizeBook.CountIdUnique | components/admin/live-draw-interface.tsx:148-150 | with unique ids, the won prize's id occurs exactly once |
| PrizeBook.CountIdAbsent | components/admin/live-draw-interface.tsx:148-150 | an id no prize carries is counted zero times |
| PrizeBook.DecrementUniqueIds | components/admin/live-draw-interface.tsx:148-150 | the map keeps ids unique |
| PrizeBook.AvailableUniqueIds | components/admin/live-draw-interface.tsx:151 | the filter keeps ids unique |
| PrizeBook.AfterWinBookkeeping | components/admin/live-draw-interface.tsx:148-158 | on prizes with unique ids and a unit each, a win lowers the units left by exactly one, leaves no depleted prize and keeps ids unique |
| PublicDraw.Viewer.constructor | components/public-live-draw.tsx:22-25 | the viewer starts with the loaded winners, no prize, no spinner and no winner shown |
| PublicDraw.Viewer.OnWinnerInsert | components/public-live-draw.tsx:39-55 | a fetched row is put in front (newest first, one more entry); a row with its participant shows that participant and stops the spinner; no row changes nothing |
| PublicDraw.DeliverWinnerTwice | components/public-live-draw.tsx:48 | the same notification delivered twice adds the same row twice: no deduplication |
| PublicDraw.TopPrize | components/public-live-draw.tsx:78-86 | the first row of the query (a unit left, by value descending): none exactly when no prize has a unit left, and otherwise a prize of the list with a unit left and no smaller value than any other such prize |
| PublicDraw.Viewer.OnPrizeUpdate | components/public-live-draw.tsx:76-92 | with a prize left, a highest-value prize with a unit left is up, the spinner starts and the shown winner is cleared; with none, or no data, the current prize is cleared and nothing else changes |
| PublicDraw.Viewer.SetInitialPrize | components/public-live-draw.tsx:102-108 | the first given prize with a unit left becomes the current prize; with none, the current prize is left alone |
| PublicDraw.FirstAvailableIsFirst | components/public-live-draw.tsx:104-106 | the head of the filtered list is a prize of the list with a unit left, and every prize before it has none |
| PublicDraw.InitialPrizeIsTop | components/public-live-draw.tsx:102-108 | on prizes loaded by value, highest first, the initial prize meets what a prize-update notification promises of its choice, in any order of equal values: none exactly when no prize has a unit left, otherwise a prize with a unit left and the highest value, the same value as the notification's pick |
| PublicDraw.TopChoicesShareValue | components/public-live-draw.tsx:83-86 | two valid first rows of the prize query (a unit left, no prize with a unit left worth more) have the same value, whatever the order of equal values |
| Registration.Lower | components/registration-form.tsx:34 | `toLowerCase`; its contract is the `Registration.LowerSpec` and `Registration.LowerNoUpper` rows |
| Registration.TrimStart | components/registration-form.tsx:34 | the leading half of `trim`; its contract is the `Registration.TrimStartSpec` row |
| Registration.TrimEnd | components/registration-form.tsx:34 | the trailing half of `trim`; its contract is the `Registration.TrimEndSpec` row |
| Registration.Trim | components/registration-form.tsx:34 | `trim`, both halves; the `Registration.TrimTrimmed` row states it changes nothing on trimmed text |
| Registration.NormaliseEmail | components/registration-form.tsx:34 | the email as the form sends it, lower-cased then trimmed; its contract is the `Registration.NormalisedShape` and `Registration.NormaliseIdempotent` rows |
| Registration.Contains | components/registration-form.tsx:100 | `message.includes(...)`; its contract is the `Registration.ContainsOccurs` row |
| Registration.LowerSpec | components/registration-form.tsx:34 | `toLowerCase` keeps the length and maps each character on its own |
| Registration.TrimStartSpec | components/registration-form.tsx:34 | trimming the start drops only leading white space and stops at the first other character |
| Registration.TrimEndSpec | components/registration-form.tsx:34 | trimming the end drops only trailing white space and stops at the last other character |
| Registration.NormalisedShape | components/registration-form.tsx:34 | a normalised email has no capital letter, no white space at either end, and is no longer than the raw input |
| Registration.LowerNoUpper | components/registration-form.tsx:34 | lower-casing a string with no capital letter changes nothing |
| Registration.TrimTrimmed | components/registration-form.tsx:34 | trimming a string with no white space at either end changes nothing |
| Registration.NormaliseIdempotent | components/registration-form.tsx:34 | normalising a normalised email changes nothing |
| Registration.ContainsOccurs | components/registration-form.tsx:100 | `includes` is true exactly when the text occurs at some position |
| Registration.Submit | components/registration-form.tsx:27-150 | the decision `handleSubmit` takes from the store replies, the clock and the random samples; its contract is the rows from `Registration.RejectedBeforeInsert` to `Registration.InsertSuccess`, and `Registration.RegistrationForm.HandleSubmit` leaves exactly its state |
| Registration.Insert | components/registration-form.tsx:79-146 | the insert stage: the first insert, and a second one exactly when the first collided on its code; its contract is the `Registration.InsertStage` and `Registration.InsertsUseNormalisedEmail` rows |
| Registration.Collided | components/registration-form.tsx:98-100 | the first insert failed with 23505 and a message naming `entry_code`, the one case that retries (`Registration.InsertStage` row) |
| Registration.FirstOutcome | components/registration-form.tsx:92-146 | the outcome of a first insert that did not collide: the lookup used the given email and the inserts are the given ones; its error mapping is the `Registration.FirstInsertErrors` row |
| Registration.RetryOutcome | components/registration-form.tsx:118-130 | the outcome of the retry: the lookup used the given email and the inserts are the given ones; its error mapping is in the `Registration.FirstInsertErrors` row and its success in the `Registration.SuccessShowsStoredCode` row |
| Registration.Stored | components/registration-form.tsx:127-146 | a returned row or no row: success is set, and the row's code is shown or the catch message is; stated by the `Registration.SuccessShowsStoredCode` row |
| Registration.FirstCode | components/registration-form.tsx:75-77 | the first code, random part below 1000 padded to three digits; its contract is the `Registration.InsertCodes` row |
| Registration.RetryCode | components/registration-form.tsx:102-104 | the retry code, random part below 10000 padded to four digits; its contract is the `Registration.InsertCodes` row |
| Registration.RejectedBeforeInsert | components/registration-form.tsx:44-72 | a missing raffle, a live raffle, a completed raffle and an email already registered each get their own message; there is no insert exactly when one of these checks refuses, and then neither success nor a code is set; the email lookup runs only for an upcoming raffle |
| Registration.InsertsUseNormalisedEmail | components/registration-form.tsx:34-116 | the lookup and every insert use the normalised email and the raffle's id; there are at most two inserts, and two exactly when the checks pass and the first code collided |
| Registration.InsertStage | components/registration-form.tsx:79-116 | once the checks pass, the first insert carries the first code; the second insert happens exactly when that code collided, and carries the retry code |
| Registration.InsertCodes | components/registration-form.tsx:75-104 | the first code's random part is below 1000 and has three digits, the retry's is below 10000 and has four; each code reads back as the clock's last six digits and the number drawn |
| Registration.FirstInsertErrors | components/registration-form.tsx:92-139 | 23503 gives "no longer exists"; 23505 without `entry_code` gives "already registered"; another code shows its message or the generic one; a failed retry gives its own message; no success or code is set in these cases |
| Registration.SuccessShowsStoredCode | components/registration-form.tsx:127-143 | a code is shown exactly when the first insert or the retry returned a row; the code shown is that row's; success is set with no error; success without a code comes only with the unexpected-error message |
| Registration.InsertSuccess | components/registration-form.tsx:118-146 | in the insert stage, a code is shown exactly when the first insert or the retry after a collision returned a row; it is that row's code, with success and no error, and success without a code carries the catch message |
| Registration.RegistrationForm.constructor | components/registration-form.tsx:22-25 | the form starts with no loading, no error, no success and no entry code |
| Registration.RegistrationForm.HandleSubmit | components/registration-form.tsx:27-150 | the form's new error, success flag and entry code, the lookup and the inserts are those `Submit` decides; success and the code are only ever set, never cleared; loading is off on every way out |
| Registration.RegistrationForm.TryInsert | components/registration-form.tsx:74-146 | the first insert and its error mapping leave the state `Insert` decides |
| Registration.RegistrationForm.RetryInsert | components/registration-form.tsx:101-130 | the retry sends the second insert under the four-digit code and leaves the state the retry's reply decides |
| Registration.RegistrationForm.RecordStored | components/registration-form.tsx:127-146 | a stored reply sets success; a returned row sets its code with no error, and a missing row shows the unexpected-error message and keeps the code |
| EntryCodes.Decimal | components/registration-form.tsx:75-76 | `toString`: at least one character, all decimal digits; it reads back as the number (`EntryCodes.DecimalRoundTrip` row) |
| EntryCodes.Suffix | components/registration-form.tsx:75 | `slice(-k)` for `k >= 1`: the last `k` characters, or all of a shorter string, as the tail of the string |
| EntryCodes.PadStart | components/registration-form.tsx:76 | `padStart`: the string is kept as the tail, the result is the longer of the string and the width, and everything before it is the fill character |
| EntryCodes.EntryCode | components/registration-form.tsx:77 | `RAFFLE-` + six clock digits + `-` + padded random digits; its contract is the `EntryCodes.EntryCodeRoundTrip`, `EntryCodes.EntryCodeShape` and `EntryCodes.EntryCodeCollision` rows |
| EntryCodes.DecimalRoundTrip | components/registration-form.tsx:75-76 | reading a number's decimal rendering gives the number back |
| EntryCodes.DecimalLength | components/registration-form.tsx:75-76 | a rendering has at most `k` digits exactly when the number is below `10^k` |
| EntryCodes.SuffixValue | components/registration-form.tsx:75 | the last `k` digits of a number's rendering stand for the number modulo `10^k` |
| EntryCodes.PaddedValue | components/registration-form.tsx:76 | the zero-padded random part is all digits and reads back as the random number |
| EntryCodes.PaddedWidth | components/registration-form.tsx:76 | a number below `10^width`, padded to `width`, takes exactly `width` digits |
| EntryCodes.ParseFormatted | components/registration-form.tsx:77 | any prefixed pair of digit runs around a dash reads back as their two numbers |
| EntryCodes.EntryCodeRoundTrip | components/registration-form.tsx:75-77 | a code reads back as the clock modulo `10^6` and the random number |
| EntryCodes.EntryCodeCollision | components/registration-form.tsx:75-104 | two attempts give the same code only when their clocks agree modulo `10^6` and they drew the same number |
| EntryCodes.EntryCodeShape | components/registration-form.tsx:75-77 | a code starts with `RAFFLE-`, has at most six clock digits (exactly six once the clock reads 100000 or more), a dash and exactly `width` random digits |

## Left out

- Store I/O: the queries, inserts, updates and realtime channels. Their results are inputs (`Option`s and reply datatypes). The model does not capture the subscription and teardown of the channels, or the asynchronous interleaving of replies.
- `Math.random()`: a sample is any real in `[0, 1)`. Its uniformity is not modelled. `r * n` is exact real arithmetic, so the floating-point rounding of the product is not modelled.
- `Date.now()` is a natural-number input.
- A prize's value is a `real`, compared exactly. The floating-point rounding of `Number.parseFloat` is not modelled. The value is only ever compared.
- `toLowerCase` is modelled on the letters A to Z only. The rest of Unicode case mapping is not modelled.
- Concurrency between several operator or viewer screens. The model does not capture the lack of atomicity between the winner insert and the prize update; it only shows them as two separate writes.
- The timer behind the spin animation: ticks are a loop, and the 100 ms period is not modelled.
- Confetti, `console.error` and `router.refresh()`: no state of the model depends on them. Alerts and navigation are returned as values.
- The React effect scheduling: an effect is a method the caller invokes, and re-renders are not modelled.
- The operator screen reads the `raffle` prop as given, and does not reload it after going live.
- `selectWinner` reads the `winners` and `availablePrizes` captured when the draw started. The model reads the fields at the time of the call. The two agree because a second draw cannot start while one is spinning.
- The wheel spinner of the viewer (canvas drawing, rotation and easing) is not part of this model.
- Page data loading, forms and rendering elsewhere in the application (the home page, the admin pages, the raffle creation action, the tables and cards) are not part of this model.
- PublicDraw.TopPrize: the store leaves the order of prizes of equal value open. The model takes the earliest such row. The contract states only what every order guarantees: a highest-value prize with a unit left.
- LiveDraw.DrawSession.CompleteDraw: completion is modelled only once no prize is up for draw, because the screen offers the button only then. The draw is not completable at an arbitrary time.
- An insert reply with neither a row nor an error is modelled as the code behaves. Success is set, reading the missing row's code throws, and the unexpected-error message is shown with success still set. The model does not treat this as an error-free outcome.
