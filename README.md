# Estoicismo Diario: subscription reconciliation and newsletter sending

This project models the two jobs of the Estoicismo Diario mailing list in Dafny
and proves properties of the model.

- **Inbox scan** (`scripts/process-subscriptions.js`, module `Subscriptions`).
  Every unseen message is read in turn. Its subject is upper-cased and trimmed,
  and its first sender address is lower-cased. A subject holding "SUSCRIBIR" or
  "SUBSCRIBE" subscribes the sender: a new record is pushed, or an inactive
  record is reactivated. Otherwise a subject holding "CANCELAR" or "UNSUBSCRIBE"
  deactivates the sender's record and stamps `unsubscribedAt`. Both kinds of
  message are flagged `\Seen`. The list is written back once, at the end, when
  the change counter is positive. The scan is an object (`Scanner`) whose
  fields are the list, the counter and the flagged uids. Its methods are
  proved against a pure specification: `Step` for one message, `Fold` and
  `Run` for the whole inbox. `Reconcile` is the loop of `main`.
- **Newsletter** (`scripts/send-newsletter.js`, module `Newsletter`).
  - The sender keeps every record whose `active` is not `false`.
  - It renders the article once as HTML and once as plain text. This covers
    the Spanish date, the choice of quote text and source for both shapes of
    `quote`, and the tags block.
  - It makes one attempt per active subscriber, in list order, replacing the
    first `{{UNSUB_EMAIL}}` in the HTML with the recipient's address. It
    counts the deliveries that succeed and those that fail.
- **JavaScript string built-ins** (module `Strings`) over `seq<char>`:
  `includes`/`indexOf`, `replace` with a string pattern, `toUpperCase`,
  `toLowerCase`, `trim`, `split` on one character, `parseInt`, and number
  interpolation. `Join` stands for the newline-separated lines of the text
  template; the only `join` call of the scripts, `.join('')` on the tag spans,
  is the concatenation `TagSpans`.

Three things the source does that a reader might not expect:

- **English cancel requests subscribe.** "UNSUBSCRIBE" contains "SUBSCRIBE",
  and the subscribe test comes first. So the English cancel keyword never
  selects the cancel branch: an English cancel request subscribes the sender
  (`UnsubscribeWordSubscribes`, `ClassifyUnsubscribe`). The model keeps this
  behaviour because it is what the code does.
- **Records without `active`.** The two jobs read a missing `active` field
  differently. The scanner tests `!exists.active`, so a SUBSCRIBE reactivates
  such a record and counts one change. The sender tests `s.active !== false`,
  so it mails such a record. The model follows the code on both sides:
  `Truthy` in the scanner, `IsActive` in the sender. This departs from
  the documented convention that a missing field means active for every
  reader.
- **The `replace` call finds no placeholder.** The HTML template holds no
  `{{UNSUB_EMAIL}}`, so the per-recipient `replace` leaves the body unchanged
  whenever neither the article's fields nor the date argument hold a `{`
  (`PersonalizedHtmlUnchanged`). A date argument such as `{{UNSUB_EMAIL}}` is
  shown through `${y}` and would be replaced.

## Model

| member | source | states |
|---|---|---|
| Subscriptions.SenderAddress | scripts/process-subscriptions.js:37-39 | No address exactly when the `from` list is empty, its first entry has no address, or that address is empty. Otherwise the address is the first entry's address lower-cased, and it is non-empty. |
| Subscriptions.NormalizedSubject | scripts/process-subscriptions.js:36 | The upper-cased, trimmed subject ("" when absent). `ClassifyTrim` proves that the trimming never changes the branch. |
| Subscriptions.AsksToSubscribe | scripts/process-subscriptions.js:41 | The subscribe test: "SUSCRIBIR" or "SUBSCRIBE" occurs. `UnsubscribeWordSubscribes` shows that it also holds for "UNSUBSCRIBE". |
| Subscriptions.AsksToCancel | scripts/process-subscriptions.js:60 | The cancel test: "CANCELAR" or "UNSUBSCRIBE" occurs. `ClassifyUnsubscribe` shows when it is reached. |
| Subscriptions.Classify | scripts/process-subscriptions.js:41-69 | The branch of the `if`/`else if`: subscribe first, then cancel, else nothing. `ClassifyUnsubscribe` and `UnsubscribeWordSubscribes` state which subjects reach each branch. |
| Subscriptions.Truthy | scripts/process-subscriptions.js:51 | `!exists.active` is false only for `active: true`. `StepSubscribeReactivates` and `StepSubscribeActive` state its effect. |
| Subscriptions.NewSubscriber | scripts/process-subscriptions.js:44-48 | The pushed record: the address, `active: true`, `subscribedAt: now`, no `unsubscribedAt`. `StepSubscribeNew` states when it is appended. |
| Subscriptions.ApplySubscribe | scripts/process-subscriptions.js:42-57 | Push, reactivate or leave the list, with the change it counts. `ApplySubscribeShape` and `ApplyUnique` state its properties. |
| Subscriptions.ApplyUnsubscribe | scripts/process-subscriptions.js:61-67 | Deactivate and stamp the first matching record, or leave the list. `ApplyUnsubscribeShape` and `ApplyUnique` state its properties. |
| Subscriptions.Apply | scripts/process-subscriptions.js:41-69 | The taken branch on the scan state, flagging the message for either command. `ApplyGrowth`, `ApplyCounter` and `ApplyUnique` state its properties. |
| Subscriptions.Step | scripts/process-subscriptions.js:34-69 | One pass of the loop body. The `Step*` lemmas give its result for every branch, and `StepGrowth`, `StepCounter` and `StepUnique` what it preserves. |
| Subscriptions.Fold | scripts/process-subscriptions.js:34-70 | The loop over the unseen messages in order. `FoldUnique`, `FoldGrowth`, `FoldUnchangedCounter` and `FoldMarked` state what it preserves. |
| Subscriptions.Run | scripts/process-subscriptions.js:28-70 | The loop from the loaded list, counter 0 and nothing flagged. `Reconcile` is proved equal to it. |
| Subscriptions.CommandUids | scripts/process-subscriptions.js:58-68 | The uids of the messages with a sender and a keyword, in order. `FoldMarked` proves they are the flagged uids. |
| Subscriptions.Find | scripts/process-subscriptions.js:42 | `find` by exact email: the index of a record with the address, with no earlier record having it. No index exactly when no record has the address. |
| Subscriptions.Scanner.constructor | scripts/process-subscriptions.js:16-28 | The scan starts from the loaded list, with the counter at 0 and nothing flagged. |
| Subscriptions.Scanner.Process | scripts/process-subscriptions.js:35-69 | One message moves the object's state exactly as `Step` moves the scan state. |
| Subscriptions.Scanner.Dispatch | scripts/process-subscriptions.js:41-69 | The keyword tests select the branch that `Classify` names. The state becomes that branch applied to the old state. |
| Subscriptions.Scanner.SubscribeRecord | scripts/process-subscriptions.js:42-57 | The list and the counter increment are those of `ApplySubscribe`. The counter never decreases and the flagged uids are untouched. |
| Subscriptions.Scanner.UnsubscribeRecord | scripts/process-subscriptions.js:61-67 | The list and the counter increment are those of `ApplyUnsubscribe`. The counter never decreases and the flagged uids are untouched. |
| Subscriptions.Reconcile | scripts/process-subscriptions.js:28-80 | The loop's result is `Run` of the inbox. The list is written exactly when the counter is positive. The flagged uids are those of the command messages, in order. A zero counter means the list is unchanged. Unique emails stay unique. The list grows by at most one record per message. |
| Subscriptions.UnsubscribeWordSubscribes | scripts/process-subscriptions.js:41-60 | Any subject holding "UNSUBSCRIBE" takes the subscribe branch. |
| Subscriptions.ClassifyUnsubscribe | scripts/process-subscriptions.js:41-60 | The cancel branch is taken exactly when "CANCELAR" occurs and neither subscribe keyword does. |
| Subscriptions.ClassifyTrim | scripts/process-subscriptions.js:36 | Leading or trailing white space never changes the branch a subject takes. |
| Subscriptions.StepWithoutSender | scripts/process-subscriptions.js:37-39 | A message without a usable sender address changes nothing and is not flagged. |
| Subscriptions.StepIgnored | scripts/process-subscriptions.js:41-69 | A subject with no keyword changes nothing and is not flagged. |
| Subscriptions.StepSubscribeNew | scripts/process-subscriptions.js:43-50 | SUBSCRIBE from an unlisted address appends `{email, active: true, subscribedAt: now}`, counts one change and flags the message. |
| Subscriptions.StepSubscribeReactivates | scripts/process-subscriptions.js:51-54 | SUBSCRIBE when the first matching record is false or lacks `active` sets only `active` to true, counts one change and flags the message. |
| Subscriptions.StepSubscribeActive | scripts/process-subscriptions.js:55-58 | SUBSCRIBE when the first matching record is active only flags the message. |
| Subscriptions.SubscribeTwice | scripts/process-subscriptions.js:42-57 | A second identical SUBSCRIBE, even later, leaves the list and the counter as the first one left them. |
| Subscriptions.StepUnsubscribeKnown | scripts/process-subscriptions.js:61-68 | A cancel from a listed address sets `active` to false and `unsubscribedAt` to now, whatever `active` was. It counts one change and flags the message. |
| Subscriptions.StepUnsubscribeUnknown | scripts/process-subscriptions.js:61-68 | A cancel from an unlisted address creates nothing and counts nothing, but flags the message. |
| Subscriptions.StepMarked | scripts/process-subscriptions.js:58-68 | A message is flagged exactly when it has a sender and a keyword, whether or not it changed anything. |
| Subscriptions.ApplySubscribeShape | scripts/process-subscriptions.js:42-57 | The subscribe branch adds at most one record and at most one change. With no change the list is as it was. Every existing email stays in its place. |
| Subscriptions.ApplyUnsubscribeShape | scripts/process-subscriptions.js:61-67 | The cancel branch adds no record and at most one change. With no change the list is as it was. Every email stays in its place. |
| Subscriptions.ApplyGrowth | scripts/process-subscriptions.js:41-69 | Either branch, or none, grows the list by at most one record and keeps every email in its place. |
| Subscriptions.ApplyCounter | scripts/process-subscriptions.js:41-69 | Either branch, or none, adds at most one change. A branch that adds none leaves the list unchanged. |
| Subscriptions.StepGrowth | scripts/process-subscriptions.js:34-69 | One message grows the list by at most one record and keeps every email and its place. |
| Subscriptions.StepCounter | scripts/process-subscriptions.js:34-69 | One message adds at most one change. A message that adds none leaves the list as it was. |
| Subscriptions.ApplyUnique | scripts/process-subscriptions.js:42-44 | Both branches keep emails unique: a record is pushed only for an unlisted address. |
| Subscriptions.StepUnique | scripts/process-subscriptions.js:34-69 | One message keeps emails unique. |
| Subscriptions.FoldUnique | scripts/process-subscriptions.js:34-70 | A whole scan keeps emails unique: no duplicate adds. |
| Subscriptions.FoldGrowth | scripts/process-subscriptions.js:34-70 | A whole scan only appends records (at most one per message) and keeps every earlier record's email in its place. |
| Subscriptions.FoldUnchangedCounter | scripts/process-subscriptions.js:76-81 | A scan counts at most one change per message. A scan that counts none leaves the list unchanged, so skipping the write loses nothing. |
| Subscriptions.FoldMarked | scripts/process-subscriptions.js:58-68 | A scan flags exactly the uids of the command messages, in inbox order. |
| Strings.IndexOf | scripts/send-newsletter.js:61 | The first position at which the pattern occurs, or none when it occurs nowhere. |
| Strings.ContainsIndexOf | scripts/process-subscriptions.js:41 | `includes` holds exactly when `indexOf` finds the pattern. |
| Strings.Contains | scripts/process-subscriptions.js:41 | `includes`. `ContainsIff` and `ContainsIndexOf` tie it to an occurrence and to `indexOf`. |
| Strings.ContainsIff | scripts/process-subscriptions.js:41 | `includes` holds exactly when the pattern occurs at some position. |
| Strings.ContainsSuffix | scripts/process-subscriptions.js:41-60 | A string holding a pattern holds every suffix of it. |
| Strings.Upper | scripts/process-subscriptions.js:36 | Upper-casing keeps the length and maps every character through the ASCII upper-case map. |
| Strings.Lower | scripts/process-subscriptions.js:37 | Lower-casing keeps the length and maps every character through the ASCII lower-case map. |
| Strings.IsSpace | scripts/process-subscriptions.js:36 | The ECMAScript white-space and line-terminator code points, which `trim` and `parseInt` skip. `TrimStart` and `TrimEnd` state what is removed. |
| Strings.TrimStart | scripts/process-subscriptions.js:36 | The result is a suffix that does not start with white space, and everything dropped is white space. |
| Strings.TrimEnd | scripts/process-subscriptions.js:36 | The result is a prefix that does not end with white space, and everything dropped is white space. |
| Strings.Trim | scripts/process-subscriptions.js:36 | `trim`: `TrimEnd` after `TrimStart`, whose contracts fix what is removed. |
| Strings.ContainsTrim | scripts/process-subscriptions.js:36 | Trimming never changes whether a keyword without white space occurs in a string. |
| Strings.ReplaceFirst | scripts/send-newsletter.js:61 | With no occurrence the string is unchanged. Otherwise exactly the first occurrence is replaced. |
| Strings.Split | scripts/send-newsletter.js:82 | `split` always yields at least one part. |
| Strings.SplitAround | scripts/send-newsletter.js:82 | A separator splits a string into the parts before it followed by the parts after it. |
| Strings.SplitNoSep | scripts/send-newsletter.js:82 | A string without the separator is a single part. |
| Strings.SplitThree | scripts/send-newsletter.js:82 | `y-m-d` with separator-free fields splits into exactly `[y, m, d]`. |
| Strings.SplitFirst | scripts/send-newsletter.js:82 | The first part is a prefix of the string. |
| Strings.SplitPartsFree | scripts/send-newsletter.js:82 | No part holds the separator. |
| Strings.JoinSplit | scripts/send-newsletter.js:82 | Joining the parts with the separator gives back the original string. |
| Strings.Join | scripts/send-newsletter.js:134 | The lines with the separator between them. `JoinSplit` and `SplitJoin` make it the inverse of `Split`. |
| Strings.NatToString | scripts/send-newsletter.js:83 | The decimal form without leading zeros: non-empty, all digits, of value n, and starting with '0' only for n = 0. |
| Strings.NumberToString | scripts/send-newsletter.js:83 | `${number}`: "NaN" for NaN, else the decimal form, with "-" before a negative value. `ParseNumberToString` is its inverse. |
| Strings.ParseNumberToString | scripts/send-newsletter.js:83 | `parseInt` reads back every interpolated integer, negative ones included. |
| Strings.LeadingDigits | scripts/send-newsletter.js:83 | The longest run of digits at the start of the string. |
| Strings.ParseInt | scripts/send-newsletter.js:83 | NaN exactly when no digit follows the leading white space and optional sign. Otherwise the value of the leading digits, negated after a `-`. |
| Strings.LeadingDigitsAll | scripts/send-newsletter.js:83 | A string of digits is read whole. |
| Strings.ParseNatToString | scripts/send-newsletter.js:83 | `parseInt` reads back the decimal form of every natural number. |
| Strings.TwoDigits | scripts/send-newsletter.js:83 | A two-digit day renders without its leading zero ("05" gives "5", "12" gives "12"). |
| Newsletter.IsActive | scripts/send-newsletter.js:23 | `s.active !== false`: only `active: false` excludes a record. `LegacyRecordsActive` and `NoneActive` state its effect. |
| Newsletter.ActiveSubscribers | scripts/send-newsletter.js:23 | The records kept are exactly the listed ones whose `active` is not `false`, and there are no more of them than listed. |
| Newsletter.ActiveAppend | scripts/send-newsletter.js:23 | The filter keeps list order: it distributes over concatenation. |
| Newsletter.LegacyRecordsActive | scripts/send-newsletter.js:23 | Records without an `active` field are all mailed, in list order. |
| Newsletter.NoneActive | scripts/send-newsletter.js:23-28 | Nobody is mailed exactly when every record says `active: false`. |
| Newsletter.DisplayWellFormedDate | scripts/send-newsletter.js:78-83 | A `YYYY-MM-DD` date with a known month shows as the day without a leading zero, " de ", the Spanish month name, ", " and the year. |
| Newsletter.Shown | scripts/send-newsletter.js:83 | `${v}` of a string that may be undefined: "undefined" when absent. `UndefinedDayName` and `UndefinedMonthName` state its effect on the date. |
| Newsletter.Part | scripts/send-newsletter.js:82 | Destructuring `[y, m, d]`: a missing element is undefined. `DisplayShortDate` and `DisplayWellFormedDate` state its effect. |
| Newsletter.MonthName | scripts/send-newsletter.js:78-83 | `MONTHS[m]`: the Spanish name for "01" to "12", else "undefined". `DisplayWellFormedDate` and `UndefinedMonthName` state its values. |
| Newsletter.DayName | scripts/send-newsletter.js:83 | `${parseInt(d)}`. `TwoDigits` and `UndefinedDayName` state its values. |
| Newsletter.DisplayDate | scripts/send-newsletter.js:82-83 | The date shown in the HTML. `DisplayWellFormedDate`, `DisplayShortDate` and `DisplayUndashedDate` state its values. |
| Newsletter.UndefinedDayName | scripts/send-newsletter.js:83 | A missing day shows as "NaN". |
| Newsletter.UndefinedMonthName | scripts/send-newsletter.js:83 | A missing month shows as "undefined". |
| Newsletter.DisplayShortDate | scripts/send-newsletter.js:82-83 | A date with fewer than three dash-separated parts shows "NaN de ", then the month (or "undefined"), ", " and the first part. |
| Newsletter.DisplayUndashedDate | scripts/send-newsletter.js:82-83 | A date without a dash shows as "NaN de undefined, " followed by the whole string. |
| Newsletter.DisplayDateNoBrace | scripts/send-newsletter.js:82-83 | The displayed date holds no `{` when the date string holds none, whatever its shape. |
| Newsletter.QuoteText | scripts/send-newsletter.js:132 | `quote.text` for an object, the string itself otherwise. `QuoteShapesAgree` ties the two shapes. |
| Newsletter.QuoteSource | scripts/send-newsletter.js:133 | `quote.source` for an object, else the article's `source`, else "". `QuoteShapesAgree` ties the two shapes. |
| Newsletter.TextLines | scripts/send-newsletter.js:131-135 | The lines of the text template. `EmailTextLayout` proves they are the lines of the body. |
| Newsletter.EmailText | scripts/send-newsletter.js:131-135 | `buildEmailText`. `EmailTextLayout` and `EmailTextHeader` state its layout. |
| Newsletter.EmailTextLayout | scripts/send-newsletter.js:131-135 | When its one-line fields hold no newline, the text body's lines are: header, blank, title, author, blank, quote, attribution, blank, the reflection's lines, blank, `---`, the site link and the cancel hint. |
| Newsletter.EmailTextHeader | scripts/send-newsletter.js:134 | The text body opens with the header line and a newline. |
| Newsletter.QuoteShapesAgree | scripts/send-newsletter.js:100-102 | A plain quote with an article `source` renders both bodies exactly as the object form with that `source`. |
| Newsletter.TagSpan | scripts/send-newsletter.js:113 | One `#tag` span. |
| Newsletter.TagSpans | scripts/send-newsletter.js:113 | `tags.map(...).join('')`. `TagSpansAppend` and `TagSpansNoBrace` state its properties. |
| Newsletter.TagsBlock | scripts/send-newsletter.js:112-114 | The block exactly when `tags` is present. `TagsBlockNoBrace` states its property. |
| Newsletter.TagSpansAppend | scripts/send-newsletter.js:113 | Tag spans follow the tag order: rendering distributes over concatenation. |
| Newsletter.TagsBlockNoBrace | scripts/send-newsletter.js:112-114 | The tags block holds no `{` when neither the markup nor any tag does. |
| Newsletter.EmailHtml | scripts/send-newsletter.js:77-129 | `buildEmailHTML`. `HtmlNoBrace` and `QuoteShapesAgree` state its properties. |
| Newsletter.HtmlNoBrace | scripts/send-newsletter.js:77-129 | The HTML body holds no `{` when neither the markup nor any interpolated field does. |
| Newsletter.PersonalizedHtmlUnchanged | scripts/send-newsletter.js:61 | When the markup, every interpolated field of the article, every tag and the date argument hold no `{`, the per-recipient `replace` returns the HTML body unchanged. |
| Newsletter.MailFor | scripts/send-newsletter.js:57-63 | The options of `sendMail` for one recipient. `PersonalizedHtmlUnchanged` states when its HTML is the shared body. |
| Newsletter.CountDelivered | scripts/send-newsletter.js:54-69 | At most n of the first n attempts are delivered. |
| Newsletter.SendAll | scripts/send-newsletter.js:54-72 | One attempt per active subscriber, in order, each with that subscriber's message. `sent` counts the delivered attempts, and `sent + failed` is the number of subscribers. |
| Newsletter.SendNewsletter | scripts/send-newsletter.js:22-74 | The run skips exactly when nobody is active. It fails exactly when someone is active but the article is missing. Otherwise it reports the totals of `SendAll` over the bodies rendered once. |

## Left out

- Mail transport: the IMAP client (search, fetch, `\Seen` flags, lock, logout) and the SMTP transport. The scan takes the envelopes of the unseen messages as a sequence and returns the flagged uids. Each send's outcome is a parameter `delivered(k)`.
- File and JSON I/O:
  - reading the credentials, the subscriber list and the article;
  - writing the list back;
  - the `exists` check and the path of the article.
  Instead, the loaded list, the optional article and the `written` result are values.
- The command line and the clock: `process.argv[2]`, today's date and `new Date().toISOString()` are parameters. One `now` is used for a whole scan, where the source reads the clock at each mutation.
- Pacing, logging and exit codes: the one-second delay, all console output (the per-message logs of scripts/process-subscriptions.js:49,53,56,65, the per-recipient logs of scripts/send-newsletter.js:65,68 and the summaries at the end of each job), and `process.exit` codes.
- Strings.Upper: only ASCII letters are mapped. Full Unicode case mapping, including characters whose upper case is longer, is not modelled.
- Strings.Lower: only ASCII letters are mapped, for the same reason.
- Strings.ParseInt: a `0x` prefix, which `parseInt` without a radix reads as hexadecimal, is not modelled. Nor is the loss of precision above 2^53. Neither can arise for the digit fields of a `YYYY-MM-DD` date.
- Strings.NumberToString: JavaScript renders numbers of 1e21 and above in exponent form ("1e+21"). The model always gives all the digits. A day field of a date argument that long is not modelled.
- Strings.ReplaceFirst: the `$` patterns of a replacement string are not interpreted. An address holding `$&` or `$'` would be expanded by `replace`.
- Newsletter.MonthName: keys inherited from `Object.prototype` (such as `constructor`) are treated like any unknown key and render "undefined".
- Newsletter.EmailHtml: the fixed inline-CSS markup of the template is the parameter `Markup` and is not spelled out. The fact that this markup holds no `{`, and hence no placeholder, is a hypothesis of `HtmlNoBrace` and `PersonalizedHtmlUnchanged`, not a theorem.
- Values of other JSON types: an `active` that is not a boolean, and a `quote`, `tags` or `source` of another shape. The model has booleans, missing fields, string quotes, quote objects and string lists.
- The reload of the written list by a later run. The persisted form of the list is not modelled.
