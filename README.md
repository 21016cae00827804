# Calendar output gateway, modelled in Dafny

The calendar output gateway (`CalendarOutputGateway.kt`) is the adapter through which an upcoming
refuse or recycling collection becomes an all-day calendar event. It is built from three
configuration values: a calendar name, a summary template and a maximum wait in seconds. Its one
operation, `notify`, then does four things in order. It asks the calendar library
for a duration of that many seconds. It reads the clock once. It creates a library client bounded
by the duration. It asks that client to create an all-day event in the named calendar. The event
starts and ends at the clock reading, and its summary is the template with every `<<serviceType>>`
replaced by a label for the service type, `Refuse` or `Recycling`. The first failure is returned
unchanged, and a success carries no value.

The model has four modules:

- `ArrowCore` (`arrow_core.dfy`): the `Either` type and its `map`, as far as the gateway uses them.
- `Text` (`text.dfy`): the Kotlin string operations the gateway relies on. These are ASCII
  `toLowerCase` and `capitalize`, and `String.replace` with a non-empty pattern. `ReplaceAll`
  replaces literally and case-sensitively, scanning from the left and matching only
  non-overlapping occurrences. It comes with a reference view: the text is split at
  the matched occurrences (`Split`) and the pieces are joined again (`Join`). The module also has
  the proof that the pattern cannot survive a replacement that avoids it.
- `Gateway` (`gateway.dfy`): the source file. It holds the value types, the construction function,
  `ReplaceTokens` (a left fold over the token/replacement pairs), the label, `MakeSubject` and
  `Notify`.
- `Scenarios` (`scenarios.dfy`): worked examples, stated over the model.

The calendar library is foreign code: `createDuration`, `createKalendarApi` and `createEvent`. It
is passed to `Notify` as a `Collaborators` value of three functions. Its duration, client and
event-creation result types are type parameters. The clock is the parameter `now`, which is the
millisecond value `Instant.now().toEpochMilli()` would return. `Notify` returns an
`Outcome` holding the result and the calls it made, in order. The call list is what lets the
contract say what is and is not asked of the library.

Two facts about the code shape the model:

- `createKalendarApi` returns a client, not an `Either`, so getting a client cannot fail. The only
  failures come from `createDuration` and `createEvent`.
- The event date is `EventDate(now)`, an instant in epoch milliseconds, not a date stripped of its
  time of day. What the library does with it is not part of this model.

## Model

| member | source | states |
|---|---|---|
| `Gateway.CreateCalendarOutputGateway` | src/main/kotlin/CalendarOutputGateway.kt:31-36 | construction never fails and validates nothing; the three configuration values are kept exactly as given |
| `Gateway.Token` | src/main/kotlin/CalendarOutputGateway.kt:84 | the placeholder for a name is `<<`, then the name, then `>>`, so it is four characters longer than the name |
| `Gateway.ReplaceTokens` | src/main/kotlin/CalendarOutputGateway.kt:81-87 | an empty pair list leaves the template as it is; a template holding none of the listed placeholders passes through unchanged |
| `Gateway.ReplaceTokensSingle` | src/main/kotlin/CalendarOutputGateway.kt:81-87 | with one pair, substitution is a single replace-all of that pair's placeholder |
| `Gateway.ReplaceTokensAppend` | src/main/kotlin/CalendarOutputGateway.kt:81-82 | the fold applies pairs in list order: substituting with `a + b` is substituting with `a`, then with `b` on the result |
| `Gateway.ReplaceTokensLast` | src/main/kotlin/CalendarOutputGateway.kt:81-82 | the last pair is applied last, to the text all earlier pairs produced |
| `Gateway.Name` | src/main/kotlin/CalendarOutputGateway.kt:76 | `toString()` of a service type is its constant's name, a non-empty word whose first character is an ASCII capital |
| `Gateway.NameIsUpperCase` | src/main/kotlin/CalendarOutputGateway.kt:76 | every character of a constant's name is an ASCII capital |
| `Gateway.Label` | src/main/kotlin/CalendarOutputGateway.kt:24-26 | lower-casing then capitalising the enum name gives exactly the labels the doc comment promises: REFUSE gives "Refuse", RECYCLING gives "Recycling" |
| `Gateway.LabelIsTitleCase` | src/main/kotlin/CalendarOutputGateway.kt:76 | a label is as long as its enum name, keeps the name's capital first letter, and lower-cases every later character, so no capital follows the first |
| `Gateway.LabelAvoidsToken` | src/main/kotlin/CalendarOutputGateway.kt:76 | a label is non-empty, starts with a character absent from `<<serviceType>>`, and contains no `<` |
| `Gateway.MakeSubject` | src/main/kotlin/CalendarOutputGateway.kt:75-78 | the subject is the template with every `<<serviceType>>` replaced by the label; a template without the token comes back unchanged; the token never occurs in a subject |
| `Gateway.Notify` | src/main/kotlin/CalendarOutputGateway.kt:60-73 | createDuration is always the first call, with the configured seconds. If it fails, that failure is the result and nothing else is called. Otherwise the calls are: one clock reading, one client for that duration, one event through that client. The result succeeds exactly when createEvent does, and a createEvent failure is returned unchanged. Every event is all-day, starts and ends at the single clock reading, goes to the configured calendar, and has the rendered subject, which contains no token |
| `ArrowCore.Either.Map` | src/main/kotlin/CalendarOutputGateway.kt:72 | `map` keeps a failure verbatim and transforms only a success |
| `Text.LowerChar` | src/main/kotlin/CalendarOutputGateway.kt:76 | an ASCII capital becomes the small letter 32 code points above it; every other character is kept; no capital comes out |
| `Text.UpperChar` | src/main/kotlin/CalendarOutputGateway.kt:76 | an ASCII small letter becomes the capital 32 code points below it; every other character is kept; no small letter comes out |
| `Text.ToLower` | src/main/kotlin/CalendarOutputGateway.kt:76 | `toLowerCase` keeps the length and lower-cases each character in place |
| `Text.Capitalize` | src/main/kotlin/CalendarOutputGateway.kt:76 | `capitalize` keeps the length, upper-cases the first character and keeps the rest |
| `Text.TitleCase` | src/main/kotlin/CalendarOutputGateway.kt:76 | lower-casing then capitalising gives the first character upper-cased (an existing capital is kept) and every later character lower-cased, with the length unchanged |
| `Text.ReplaceAll` | src/main/kotlin/CalendarOutputGateway.kt:83-86 | replacing in a text that does not contain the pattern, or replacing the pattern by itself, gives the text back unchanged |
| `Text.ContainsIffAtIndex` | src/main/kotlin/CalendarOutputGateway.kt:83-86 | "contains the pattern", used throughout, holds exactly when the pattern is a prefix of some suffix of the text |
| `Text.ReplaceAllLeading` | src/main/kotlin/CalendarOutputGateway.kt:83-86 | a leading occurrence is replaced and the scan resumes after it |
| `Text.JoinSplit` | src/main/kotlin/CalendarOutputGateway.kt:83-86 | splitting at the matched occurrences and joining with the pattern gives the text back (round trip) |
| `Text.ReplaceAllIsJoinSplit` | src/main/kotlin/CalendarOutputGateway.kt:83-86 | replace-all equals joining the split pieces with the replacement: every matched occurrence, and nothing else, is replaced |
| `Text.SplitPiecesFree` | src/main/kotlin/CalendarOutputGateway.kt:83-86 | no piece between matches contains the pattern |
| `Text.SplitFirstIsLeftmost` | src/main/kotlin/CalendarOutputGateway.kt:83-86 | the first piece is a prefix of the text that ends at the leftmost occurrence of the pattern: no occurrence starts inside it, and the pattern starts right after it unless the piece is the whole text |
| `Text.SplitRest` | src/main/kotlin/CalendarOutputGateway.kt:83-86 | after the first piece and the occurrence ending it, the remaining pieces are the split of the rest of the text, so matches are leftmost and do not overlap |
| `Text.OverlappingMatchIsLeftmost` | src/main/kotlin/CalendarOutputGateway.kt:83-86 | with the self-overlapping pattern "aa", "aaa" splits as "" and "a", and replacing "aa" by "b" gives "ba" |
| `Text.SplitSingleIffAbsent` | src/main/kotlin/CalendarOutputGateway.kt:83-86 | there is no replacement at all exactly when the text does not contain the pattern |
| `Text.ReplaceAllLength` | src/main/kotlin/CalendarOutputGateway.kt:83-86 | each replacement changes the length by the replacement's length minus the pattern's |
| `Text.ReplaceAllRemovesPattern` | src/main/kotlin/CalendarOutputGateway.kt:83-86 | the pattern occurs nowhere in the result, provided the replacement is non-empty, starts with a character absent from the pattern and lacks the pattern's first character |
| `Text.ReplaceAllIdempotent` | src/main/kotlin/CalendarOutputGateway.kt:83-86 | under the same conditions, replacing a second time changes nothing |
| `Text.ReplacementCanRebuildPattern` | src/main/kotlin/CalendarOutputGateway.kt:83-86 | dropping any one of those three conditions lets the pattern reappear: an empty replacement, one starting with a pattern character, and one containing the pattern's first character (`x<` on `<b>b>`) each rebuild `<b>` |
| `Scenarios.SubjectOfLeadingToken` | src/main/kotlin/CalendarOutputGateway.kt:75-78 | a template that opens with the token and has no other occurrence renders as the label followed by the rest of the template |
| `Scenarios.RenderRefuseToday` | src/main/kotlin/CalendarOutputGateway.kt:24-26 | "<<serviceType>> today" renders as "Refuse today" for a refuse service |
| `Scenarios.RenderRecyclingToday` | src/main/kotlin/CalendarOutputGateway.kt:24-26 | "<<serviceType>> today" renders as "Recycling today" for a recycling service |
| `Scenarios.RenderWithoutToken` | src/main/kotlin/CalendarOutputGateway.kt:75-78 | "Collection today" is rendered unchanged for either service type |
| `Scenarios.RenderUnknownToken` | src/test/kotlin/CalendarOutputGatewayTests.kt:17 | the unrecognised "<<token>> today" is rendered unchanged for either service type |
| `Scenarios.HouseholdRecycling` | src/main/kotlin/CalendarOutputGateway.kt:60-73 | calendar "Household", template "<<serviceType>> collection", 30 seconds, recycling. Once the duration exists, the calls are exactly: the duration, one clock reading, one client, and one all-day "Recycling collection" event in "Household" at that reading. The outcome succeeds exactly when that event is created |

## Left out

- The calendar library (`createDuration`, `createKalendarApi`, `createEvent`, `EventDate`) is
  foreign code whose behaviour is not shown. It enters only as the functions in
  `Collaborators`, so its own behaviour (duration range checks, the calendar protocol) is not modelled.
- `createDuration` is always called with `TimeUnit.SECONDS`. The unit is fixed in the model, so
  the recorded call carries only the number of seconds.
- The clock: `Instant.now()` is the parameter `now`. The overflow that `toEpochMilli` can raise for
  instants beyond the `Long` millisecond range is not modelled.
- The time-out and blocking behaviour of the calendar call is external and depends on time. A
  time-out shows only as whatever failure `createEvent` returns.
- Case mapping covers ASCII only. Kotlin's `toLowerCase()` uses the default locale, so under a
  Turkish locale `RECYCLING` would lower-case its `I` to a dotless `ı`. Full Unicode and locale
  rules are not modelled.
- `ServiceType` has the two constants the gateway documents, REFUSE and RECYCLING. The enum itself
  and the rest of `ServiceDetails` are not part of this model; `notify` reads only the service type.
- The test file's only assertion is that construction returns a non-null gateway. In Dafny this
  holds by typing, so only its template `"<<token>> today"` is used (`Scenarios.RenderUnknownToken`).
- The `@ExperimentalPathApi` annotations and the privacy of the class and its members have no
  behaviour to model. The wrappers `CalendarName`, `CalendarSummaryTemplate` and
  `MaximumNotifyDurationSeconds` are plain datatypes.
- `Text.ReplaceAll` requires a non-empty pattern. Kotlin's `replace` with an empty pattern inserts
  the replacement before the first character, between every two characters and after the last
  (`"abc".replace("", "-")` is `"-a-b-c-"`). The gateway never does this, because its placeholders
  are at least four characters long.
- `Gateway.Name` assumes that `ServiceType` does not override `toString()`, so that it gives the
  constant's name. The enum's declaration is not part of this model.
