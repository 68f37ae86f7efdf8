# Dream Definers academy site: the mail queue and the form routes, modelled in Dafny

This project models the server-side core of the Dream Definers training academy
web site. It covers the following parts:

- **The outbound mail queue.** `queueEmail` (`EmailQueue.QueueStore.QueueEmail`)
  inserts jobs into it, though no route among the modelled sources calls it. A
  cron-triggered pass sends the due messages through the mail provider, and each
  failure is scheduled again with exponential backoff. An administrators'
  listing pages through the queue.
- **The six mail templates.**
- **The public form routes:** contact, free consultancy and newsletter subscription.
- **The blog routes:** post creation and listing, and the fan-out that mails every
  active subscriber about a new post in batches of fifty.
- **The category routes, public and administrative,** with the slug normaliser.
- **The create-admin route.**
- **The e-mail check and the user lookup of the authentication library.**
- **The category seed script.**
- **The review card's text truncation, star count and avatar initial.**

## How it is modelled

- **Tables.** Each database table that a route writes is a class with a `seq` of
  rows. The tables are the mail queue, `contact`, `consultancy`,
  `newsletterSubscriber`, `blogCategory`, `blog` and `user`. Every operation that
  changes a table is a method with a `modifies` clause. Its `ensures` ties the new
  rows to a pure function of the old rows, and the properties are lemmas about
  that function.
- **The processor pass and the notification fan-out.** These are loops in the
  source, so they are loops here, carrying invariants: the pass is a `for` loop
  over the batch (`EmailProcessor.RunBatch`), and the fan-out is a `while` loop
  over batches of fifty (`BlogNotify.Notify`).
- **Validation chains and templates.** These are functions. The validation
  chains, the slug normaliser, the templates and the listing queries are pure
  in the source, and they are functions here too.
- **External inputs.** These become parameters:
  - the mail provider: an oracle `Mailer` from the position in the batch of the
    job being sent, and its message, to `Delivered` or `Threw(message)` (a job
    whose metadata does not parse makes no call);
  - the clock: `now`, in milliseconds;
  - the ids the database assigns;
  - the password hash function;
  - the environment variables: a `Config` value, and the cron secret.
- **Mail bodies.** Each HTML body is a sequence of fixed markup blocks, named by
  what they show, and of the interpolated values. The markup text and the styling
  are not modelled.
- **Strings and characters.**
  - Strings are `seq<char>`.
  - `toLowerCase` and `toUpperCase` act on ASCII letters only.
  - `\s` and `trim` use JavaScript's whitespace set.
  - The e-mail pattern is written as a shape predicate and proved equal to a
    computed check (`Auth.ValidateEmail`).
  - The phone pattern is a small matcher over its atoms, optional characters and
    bounded digit runs (`PhonePattern.IsPhone`).

## Where the code and its documentation differ (the model follows the code)

- **Who fills the queue.** The queue is designed to be filled by the form
  handlers, but the contact, consultancy and blog-notification routes call the
  mail provider directly (app/api/contact/route.ts:53-72,
  app/api/consultancy/route.ts:67-86, app/api/admin/blogs/notify/route.ts:49-64),
  and no route calls `queueEmail`. The model follows the code: the routes send
  directly, and only the cron pass and the administrators' listing touch the
  queue.
- **`errorMessage` on sent rows.** A row marked `sent` keeps its `errorMessage`.
  The update does not clear it (`EmailQueue.Transition`).
- **The backoff after the seventh failure.** The comment at lib/email-queue.ts:83
  lists 5, 10, 20, 40, 80 minutes and a six-hour cap, which leaves the later steps
  open. The formula gives 160 for the sixth failure and 320 for the seventh, and
  360 from the eighth on (`EmailQueue.BackoffTable`, `EmailQueue.BackoffCapped`).
- **Trailing dots in e-mail addresses.** The e-mail pattern does not stop an
  address from ending in '.': "a@b.." passes (`Auth.TrailingDotAccepted`). What
  does hold is that a valid address has exactly one '@' and no whitespace, and
  neither starts nor ends with '@' (`Auth.ValidEmailFacts`).
- **Stats and `maxRetries`.** The stats count a failed row only from five retries
  on, whatever the row's own `maxRetries` is. A failed row with fewer retries is
  in no bucket, in any table (`EmailQueue.StatsOmitRetryableFailures`).
- **The unsubscribe link.** It reads `NEXT_PUBLIC_SITE_URL` without a default and
  carries the subscriber's name, not the address. With the variable unset it
  starts with "undefined" (`EmailTemplates.UnsubscribeLinkUnset`).
- **Contact notifications without a message.** The admin notification for a
  contact submission calls `message.replace` on the message. When the message is
  missing, that call throws inside the helper's `try`, so no notification is
  sent at all (`EmailProcessor.AdminNotification`).

## Model

| member | source | states |
|---|---|---|
| Auth.ValidateEmail | lib/auth.ts:18-21 | the computed check (split at the first '@', check both sides and an inner '.') accepts exactly the strings of the pattern's shape: a non-empty local part and domain without whitespace or '@', the domain holding a '.' that is neither its first nor last character |
| Auth.ValidEmailFacts | lib/auth.ts:18-21 | a valid address contains no whitespace, exactly one '@', does not start or end with '@', and has at least five characters |
| Auth.TrailingDotAccepted | lib/auth.ts:19 | "a@b.." passes the pattern, so a valid address may end with '.' |
| Auth.NoAtRejected | lib/auth.ts:19 | a string without '@' never passes |
| Auth.GetUserByEmail | lib/auth.ts:23-27 | finds a user exactly when some stored e-mail equals the lower-cased argument, and the user found has that e-mail |
| Auth.LookupIgnoresCase | lib/auth.ts:23-27 | two addresses that differ only in the case of ASCII letters find the same user |
| Auth.ValidateIgnoresCase | lib/auth.ts:18-21 | two addresses that differ only in the case of ASCII letters pass or fail the pattern together |
| Text.TrimStart | app/api/contact/route.ts:44-48 | drops exactly the leading whitespace: the result is a suffix, what was dropped is all whitespace, and the result does not start with whitespace |
| Text.TrimEnd | app/api/contact/route.ts:44-48 | drops exactly the trailing whitespace, dual to TrimStart |
| Text.TrimSplit | app/api/contact/route.ts:44-48 | every string is whitespace, then its trim, then whitespace |
| Text.TrimIdempotent | app/api/contact/route.ts:44-48 | trimming twice is trimming once |
| Text.TrimAllSpace | app/api/consultancy/route.ts:62 | a string of whitespace only trims to the empty string |
| Text.ToLower | app/api/contact/route.ts:45 | lower-casing keeps the length and maps each character by the ASCII letter mapping |
| Text.ToLowerIdempotent | app/api/newsletter/subscribe/route.ts:27 | lower-casing twice is lower-casing once |
| Text.RemoveSpaces | app/api/contact/route.ts:34 | `replace(/\s/g, '')` leaves no whitespace, never lengthens, and leaves a string without whitespace unchanged |
| Text.RemoveSpacesIgnoresTrim | app/api/contact/route.ts:34-46 | removing the whitespace of the trimmed string gives the same result as removing it from the original |
| Text.StrLeTotal | app/api/admin/categories/route.ts:13-15 | any two names are ordered one way or the other |
| Text.StrLeTrans | app/api/admin/categories/route.ts:13-15 | the name order is transitive |
| Text.StrLeAntisymmetric | app/api/admin/categories/route.ts:13-15 | names ordered both ways are equal |
| PhonePattern.PhoneShape | app/api/contact/route.ts:33 | a number the phone pattern accepts has 3 to 24 characters, each a digit, '+', '(', ')', '-', '.' or whitespace |
| PhonePattern.GroupsAccepted | app/api/contact/route.ts:33 | three groups of 1-4, 1-4 and 1-9 digits written together are accepted |
| PhonePattern.SeparatedGroupsAccepted | app/api/contact/route.ts:33 | the same groups joined by one '-', '.' or whitespace character are accepted |
| PhonePattern.RejectsLetters | app/api/contact/route.ts:33 | no string containing an ASCII letter, lower or upper case, is accepted |
| Seqs.Filter | lib/email-queue.ts:42-53 | a `where`: the kept elements are exactly the elements that satisfy the condition, and there are no more of them than in the input |
| Seqs.FilterMultiset | lib/email-queue.ts:42-53 | filtering keeps no element more often than the input has it |
| Seqs.FindLast | app/api/admin/categories/route.ts:42-44 | `findUnique` on a unique column: the position of the last element with the key, with no later one having it, or none when no element has it |
| Seqs.CountAppend | lib/email-queue.ts:99-105 | one more element adds one to a count exactly when it meets the condition |
| Seqs.CountPartition | lib/email-queue.ts:99-105 | two exclusive conditions that make up a third split its count |
| Seqs.CountExclusive4 | lib/email-queue.ts:99-105 | the counts of four exclusive conditions add up to at most the length |
| Seqs.Take | lib/email-queue.ts:57 | `take` returns the first `n` elements, or all of them when there are fewer |
| Seqs.SortBy | lib/email-queue.ts:54-56 | `orderBy`: a permutation of the input, ordered by any total preorder |
| Pagination.Page | app/api/admin/email-queue/route.ts:28-29 | page `p` is the slice from `(p-1)*limit`, at most `limit` long, cut at the end |
| Pagination.TotalPages | app/api/admin/email-queue/route.ts:41 | `Math.ceil(total/limit)`: the least page count whose pages hold `total` rows |
| Pagination.TotalPagesUnique | app/api/admin/email-queue/route.ts:41 | it is the only page count whose pages hold all rows with no page left empty |
| Pagination.PagesCoverAll | app/api/admin/email-queue/route.ts:28-41 | pages 1 to totalPages, one after the other, are the whole list |
| Pagination.PageNonEmptyIff | app/api/admin/email-queue/route.ts:28-41 | page `p` holds a row exactly when `p` is at most totalPages |
| EmailQueue.StatusName | lib/email-queue.ts:66 | the status is stored as one of "pending", "processing", "sent", "failed" |
| EmailQueue.StatusNameInjective | lib/email-queue.ts:66 | distinct statuses are stored as distinct texts |
| EmailQueue.NewJob | lib/email-queue.ts:18-28 | `queueEmail` stores the given type, recipient, subject and body, status pending, due now, no retries, nothing attempted; the metadata serialised, or null when absent |
| EmailQueue.NewJobDue | lib/email-queue.ts:18-28 | a new job is due at time `t` exactly when `t` is not before its creation and it is allowed at least one try |
| EmailQueue.PendingEmails | lib/email-queue.ts:39-58 | the result holds only due jobs from the table (pending or failed, next retry null or not after now, retries below the maximum), is ordered by creation time ascending, and has min(limit, number due) elements |
| EmailQueue.PendingOldestFirst | lib/email-queue.ts:54-57 | a due job left out is no older than any job selected |
| EmailQueue.PendingTakesAllWhenFew | lib/email-queue.ts:42-57 | when no more than `limit` jobs are due, every one of them is selected |
| EmailQueue.SettledNeverPending | lib/email-queue.ts:42-52 | sent or processing jobs, and jobs out of retries, are never selected |
| EmailQueue.PendingUniqueIds | lib/email-queue.ts:39-58 | with distinct ids in the table, the selected jobs have distinct ids |
| EmailQueue.BackoffMinutes | lib/email-queue.ts:83 | the delay after the `r`-th failure is between 5 and 360 minutes |
| EmailQueue.BackoffTable | lib/email-queue.ts:83 | the delays for failures 1 to 7 are 5, 10, 20, 40, 80, 160 and 320 minutes |
| EmailQueue.BackoffCapped | lib/email-queue.ts:83 | from the eighth failure on the delay is 360 minutes |
| EmailQueue.BackoffMonotone | lib/email-queue.ts:83 | a later failure never waits less |
| EmailQueue.Transition | lib/email-queue.ts:64-93 | every update sets the status and last attempt; processing changes nothing else; sent also sets sentAt and clears nextRetryAt, leaving retries and error untouched; failed records the message or null, adds one retry and schedules the retry after the backoff |
| EmailQueue.RetryCountNeverDecreases | lib/email-queue.ts:74-86 | no update lowers the retry count, and exactly a failure raises it |
| EmailQueue.SentOrProcessingNotDue | lib/email-queue.ts:42-52 | a row just marked sent or processing is not due at any time |
| EmailQueue.FailedDueAfterBackoff | lib/email-queue.ts:77-86 | a row just marked failed is due again exactly once its backoff has elapsed and while it has tries left |
| EmailQueue.FailedWaitBounds | lib/email-queue.ts:83-84 | a failed row waits at least five minutes and at most six hours |
| EmailQueue.FindIndex | lib/email-queue.ts:80 | finds the first row with the id, or reports that none has it |
| EmailQueue.Apply | lib/email-queue.ts:89-92 | the table after one update has the same length; the row with the id makes the transition |
| EmailQueue.ApplyKeepsOthers | lib/email-queue.ts:89-92 | rows of another id are left as they were |
| EmailQueue.ApplyTransitions | lib/email-queue.ts:89-92 | with distinct ids, the row with the id becomes its transition |
| EmailQueue.ApplyAbsent | lib/email-queue.ts:80-92 | an unknown id leaves the table unchanged (where the source's update throws; see "Left out") |
| EmailQueue.ApplyKeepsIds | lib/email-queue.ts:89-92 | ids stay in place and no retry count goes down |
| EmailQueue.ApplyKeepsStamped | lib/email-queue.ts:74-76 | every sent row keeps a send time |
| EmailQueue.ApplyKeepsUnique | lib/email-queue.ts:89-92 | distinct ids stay distinct |
| EmailQueue.Stats | lib/email-queue.ts:98-108 | `total` counts every row, the four buckets together never exceed it, and the empty table has all zeros |
| EmailQueue.StatsAppend | lib/email-queue.ts:98-108 | one more row adds one to the total and one to the bucket of its status (pending, processing, sent, or failed with at least five retries), and changes no other bucket; with the empty table this fixes every bucket of every table |
| EmailQueue.StatsOmitRetryableFailures | lib/email-queue.ts:103 | in any table, one more failed row with fewer than five retries adds to the total only, and to no bucket |
| EmailQueue.QueueStore.QueueEmail | lib/email-queue.ts:16-34 | appends exactly the new pending row and returns it |
| EmailQueue.QueueStore.UpdateStatus | lib/email-queue.ts:64-93 | the table becomes Apply of the old table; reports whether a row had the id |
| EmailProcessor.ParseMetadata | lib/email-processor.ts:34 | absent metadata parses as the empty record; only unparsable text fails, with its parse error |
| EmailProcessor.MetadataRoundTrip | lib/email-queue.ts:24 | the record `queueEmail` is given, or {} when none, is the record the processor reads back; the JSON text in between is not modelled (see "Left out") |
| EmailProcessor.Field | lib/email-processor.ts:49-66 | `metadata.key \|\| fallback`: the stored value when present and non-empty, else the fallback |
| EmailProcessor.Compose | lib/email-processor.ts:34-72 | fails exactly when the metadata does not parse, with its parse error; otherwise sends from FROM_EMAIL to the recipient; a contact, consultancy or blog job gets that template applied to the record's fields, each defaulted as `metadata.x \|\| default` says, and any other type the stored subject and body |
| EmailProcessor.NameDefaultsToUser | lib/email-processor.ts:45-56 | a contact or consultancy job whose record has no name, or an empty one, is composed and greets "User" |
| EmailProcessor.SubscriberNameDefault | lib/email-processor.ts:57-62 | a blog notification whose record has no subscriber name, or an empty one, greets "Subscriber" |
| EmailProcessor.BlankFieldDefaults | lib/email-processor.ts:49-63 | a missing or empty subject or program shows as an empty value, and a missing or empty blog title leaves the bare subject prefix |
| EmailProcessor.ErrorText | lib/email-processor.ts:85 | the recorded error is the thrown message, or "Unknown error" when that is empty |
| EmailProcessor.Attempt | lib/email-processor.ts:29-88 | a job ends in a parse failure, with the parse error, exactly when its message cannot be composed; it is delivered exactly when the provider accepts its message; otherwise it carries the message the provider threw |
| EmailProcessor.Settled | lib/email-processor.ts:31-87 | the row after the job's turn: marked processing, then on delivery sent with the send time, no next retry and the retry count kept; otherwise failed with the parse error or the thrown message (an empty one as "Unknown error"), one more retry and the next try after the backoff |
| EmailProcessor.StepEvents | lib/email-processor.ts:29-88 | each job is first marked processing and last marked sent or failed, with at most one send attempt between, of its own message |
| EmailProcessor.StepJob | lib/email-processor.ts:28-89 | each job adds exactly one to success plus failed |
| EmailProcessor.PassResultOf | lib/email-processor.ts:17-91 | a pass handles at most 20 jobs and reports processed as the batch size, success as the number of batch jobs whose message the provider accepted, and failed as the rest |
| EmailProcessor.RunCountsDeliveries | lib/email-processor.ts:75-87 | after the first n jobs the success counter is the number of them whose message was delivered |
| EmailProcessor.EmptyPassChangesNothing | lib/email-processor.ts:21-23 | with nothing due the pass reports zeros, sends nothing and changes no row |
| EmailProcessor.RunLeavesOthers | lib/email-processor.ts:28-89 | rows no handled job has the id of are untouched |
| EmailProcessor.RunRetryCountsGrow | lib/email-processor.ts:28-89 | ids stay in place and retry counts only grow |
| EmailProcessor.RunKeepsStamped | lib/email-processor.ts:28-89 | every sent row keeps its send time |
| EmailProcessor.RunKeepsUnique | lib/email-processor.ts:28-89 | distinct ids stay distinct |
| EmailProcessor.AttemptsFollowMarking | lib/email-processor.ts:29-75 | every send attempt comes right after its job was marked processing, and carries that job's message |
| EmailProcessor.RunSettlesHandled | lib/email-processor.ts:28-89 | the row of every handled job is its settled row for that job's outcome: sent when delivered, failed otherwise with the error, retry and backoff recorded; none is left processing |
| EmailProcessor.PassSettlesBatch | lib/email-processor.ts:28-89 | after a pass, the row of each batch job is its settled row for that job's outcome, and it is sent exactly when its message was delivered and failed otherwise |
| EmailProcessor.PassRecordsOutcome | lib/email-processor.ts:75-87 | after a pass, a failed row records the parse error or the provider's message (an empty one as "Unknown error"), one more retry and the next try after the backoff; a sent row records the send time and keeps its retry count |
| EmailProcessor.TrySend | lib/email-processor.ts:33-75 | the `try` block's compose and send give the outcome Attempt specifies |
| EmailProcessor.RunBatch | lib/email-processor.ts:28-89 | the loop leaves the store, counters and events as the run specification says after the whole batch |
| EmailProcessor.ProcessEmailQueue | lib/email-processor.ts:17-96 | the result, the new table and the events are those of the specified pass over the due jobs, so success counts the delivered jobs (PassResultOf) and each handled row settles as PassSettlesBatch and PassRecordsOutcome say |
| EmailProcessor.AdminNotification | lib/email-processor.ts:101-135 | at most one message, to the admin address from FROM_EMAIL; one for consultancy, one for contact with a message, none otherwise; the subject carries the contact subject or the program |
| EmailProcessor.SendAdminNotification | lib/email-processor.ts:101-135 | attempts exactly the specified messages and never fails, whatever the provider does |
| CronRoute.NoSecretAlwaysRuns | app/api/cron/process-email-queue/route.ts:13 | with no secret, or an empty one, every request is let through |
| CronRoute.SecretAcceptsOneHeader | app/api/cron/process-email-queue/route.ts:13 | with a secret configured, the only accepted header is "Bearer " followed by the secret |
| CronRoute.MissingHeaderRejected | app/api/cron/process-email-queue/route.ts:10-18 | a missing header never passes a configured secret |
| CronRoute.Get | app/api/cron/process-email-queue/route.ts:6-33 | unauthorised: 401, no pass, nothing sent, no row changed; authorised: one pass, replying its counts and the timestamp |
| CronRoute.Post | app/api/cron/process-email-queue/route.ts:36-38 | behaves exactly as GET |
| EmailQueueRoute.Ordered | app/api/admin/email-queue/route.ts:23-27 | the rows meeting the filter, newest first |
| EmailQueueRoute.List | app/api/admin/email-queue/route.ts:6-44 | page and limit default to 1 and 50; total counts the filtered rows; totalPages is ceil(total/limit); the rows are that page of the filtered rows newest first; the stats are those of the whole table |
| EmailQueueRoute.ListedRowsMatch | app/api/admin/email-queue/route.ts:14-30 | every listed row is in the table and meets the status and type filters that were given |
| EmailQueueRoute.ListedNewestFirst | app/api/admin/email-queue/route.ts:25-27 | the listed rows are newest first |
| EmailQueueRoute.NoFilterCountsAll | app/api/admin/email-queue/route.ts:14-20 | with no filter given, total is the number of rows |
| EmailQueueRoute.StatsIgnoreQuery | app/api/admin/email-queue/route.ts:32 | the stats do not depend on the query |
| EmailQueueRoute.PagesListEverything | app/api/admin/email-queue/route.ts:23-41 | pages 1 to totalPages together list every matching row once, newest first |
| EmailTemplates.BrLines | lib/email-templates.ts:86 | the rendered message holds no newline, is three characters longer per newline, and equals the input when that has none |
| EmailTemplates.BrLinesConcat | lib/email-templates.ts:86 | rendering a concatenation renders each part |
| EmailTemplates.BlogUrl | lib/email-templates.ts:211 | the site base (default https://dreamdefiners.com), then "/blogs/", then the slug |
| EmailTemplates.BlogUrlInjective | lib/email-templates.ts:211 | on one site, equal URLs come only from equal slugs |
| EmailTemplates.ContactConfirmation | lib/email-templates.ts:3-59 | the fixed subject; the body shows the name and the subject |
| EmailTemplates.ConsultancyConfirmation | lib/email-templates.ts:98-163 | the fixed subject; the body shows the name and the program |
| EmailTemplates.PrefixedDetermines | lib/email-templates.ts:68 | a prefixed subject determines its argument |
| EmailTemplates.ContactAdminNotification | lib/email-templates.ts:61-96 | the subject is the prefix plus the contact subject; the body shows the name, e-mail, phone and the message with its newlines rendered |
| EmailTemplates.ConsultancyAdminNotification | lib/email-templates.ts:165-202 | the subject is the prefix plus the program; the message block appears exactly when a non-empty message is given, rendered |
| EmailTemplates.NewBlogNotification | lib/email-templates.ts:204-266 | the subject is the prefix plus the title; the cover block appears exactly when a non-empty cover image is given; the body shows the name, title, excerpt and post URL |
| EmailTemplates.UnsubscribeLinkUnset | lib/email-templates.ts:254 | with the site variable unset the link starts with "undefined" and carries the name |
| EmailTemplates.PasswordReset | lib/email-templates.ts:268-316 | the fixed subject; the reset link and the name appear verbatim |
| EmailTemplates.ConstantSubjects | lib/email-templates.ts:4-269 | the two confirmation subjects and the reset subject do not depend on the arguments |
| EmailTemplates.PrefixedSubjectsInjective | lib/email-templates.ts:68-214 | whatever the other arguments, the two admin subjects and the blog subject determine the argument they carry |
| Newsletter.FindEmail | app/api/newsletter/subscribe/route.ts:26-28 | finds the row with the address, or reports that none has it |
| Newsletter.StoredName | app/api/newsletter/subscribe/route.ts:53 | the trimmed name, or null when absent or blank |
| Newsletter.Subscribe | app/api/newsletter/subscribe/route.ts:4-60 | missing e-mail and bad e-mail are refused in that order; an active subscriber is refused; an inactive one is set active with nothing else changed; an unknown one is appended lower-cased and active, with the stored name; refusals leave the table unchanged |
| Newsletter.SubscribeKeepsUnique | app/api/newsletter/subscribe/route.ts:26-55 | every request keeps the e-mail column unique |
| Newsletter.SubscribedIsActive | app/api/newsletter/subscribe/route.ts:36-55 | after an accepted request the lower-cased address has an active row |
| Newsletter.OthersUnchanged | app/api/newsletter/subscribe/route.ts:38-41 | rows for other addresses are never touched |
| Newsletter.SubscribeTwiceRefused | app/api/newsletter/subscribe/route.ts:26-35 | subscribing an accepted address again, in the same or any other ASCII case, is refused and changes nothing |
| Newsletter.CaseInsensitive | app/api/newsletter/subscribe/route.ts:17-52 | addresses that differ only in the case of ASCII letters get the same reply and the same table, whether they are valid or not |
| Newsletter.SubscriberTable.Post | app/api/newsletter/subscribe/route.ts:4-60 | replies and changes the table as Subscribe says, keeping it keyed |
| Contact.Validate | app/api/contact/route.ts:16-39 | missing field, bad e-mail and bad phone (whitespace removed) are refused in that order, each exactly when the earlier checks pass and it fails; an accepted form gives its normalised values |
| Contact.StoredEmailIsLowered | app/api/contact/route.ts:45 | an accepted address is stored lower-cased and otherwise as given |
| Contact.StoredFieldsTrimmed | app/api/contact/route.ts:44-48 | every stored field is free of surrounding whitespace |
| Contact.StoredPhoneStillMatches | app/api/contact/route.ts:34-46 | the stored number still passes the check that was made |
| Contact.ContactEmails | app/api/contact/route.ts:53-72 | two messages: the confirmation to the stored address and the notification to the admin address with the subject, both from FROM_EMAIL |
| Contact.Handle | app/api/contact/route.ts:9-91 | a refused form replies the first failing check and stores and sends nothing; a unique conflict replies 409; otherwise the normalised record is stored with the new id, which the reply returns, and the two messages are sent |
| Contact.ContactTable.Store | app/api/contact/route.ts:42-50 | appends the stored record, if any, under the next id |
| Contact.Submit | app/api/contact/route.ts:9-98 | replies, sends and changes the table as Handle says, whatever the provider does with the messages |
| Consultancy.StoredMessage | app/api/consultancy/route.ts:62 | the trimmed message when one is given, null otherwise |
| Consultancy.Validate | app/api/consultancy/route.ts:22-53 | missing field, program off the list, bad e-mail and bad phone are refused in that order, each exactly when the earlier checks pass and it fails; an accepted form gives its normalised values |
| Consultancy.PaddedProgramRefused | app/api/consultancy/route.ts:30 | a listed program with surrounding spaces is refused, since the list is checked before trimming |
| Consultancy.StoredProgramIsListed | app/api/consultancy/route.ts:30-61 | an accepted program is stored exactly as given, and it is on the list |
| Consultancy.StoredEmailIsLowered | app/api/consultancy/route.ts:59 | an accepted address is stored lower-cased and otherwise as given |
| Consultancy.BlankMessageStoredEmpty | app/api/consultancy/route.ts:62-83 | a whitespace-only message is stored as empty text, not null, and the notification has no message block |
| Consultancy.ConsultancyEmails | app/api/consultancy/route.ts:67-86 | two messages: the confirmation to the stored address and the notification to the admin address with the program, both from FROM_EMAIL |
| Consultancy.NotificationMessageBlock | app/api/consultancy/route.ts:83 | the notification has the message block exactly when a message was given whose trim is not empty |
| Consultancy.Handle | app/api/consultancy/route.ts:15-105 | a refused form replies the first failing check and stores and sends nothing; a unique conflict replies 409; otherwise the normalised record is stored with the new id, which the reply returns, and the two messages are sent |
| Consultancy.ConsultancyTable.Store | app/api/consultancy/route.ts:56-64 | appends the stored record, if any, under the next id |
| Consultancy.Submit | app/api/consultancy/route.ts:15-112 | replies, sends and changes the table as Handle says, whatever the provider does with the messages |
| Slug.DropRunIsSuffix | app/api/categories/route.ts:43 | a run of characters outside [a-z0-9] is dropped from the front |
| Slug.CollapseRuns | app/api/categories/route.ts:43 | the result has only [a-z0-9-] and no "--", and starts with '-' exactly when the input starts outside [a-z0-9] |
| Slug.StripDashes | app/api/categories/route.ts:44 | on a string without "--" the result neither starts nor ends with '-' |
| Slug.GenerateSlug | app/api/categories/route.ts:41-44 | every generated slug has only [a-z0-9-], no '-' at either end and no "--" |
| Slug.SlugIsFixedPoint | app/api/categories/route.ts:41-44 | a well-formed slug is its own slug |
| Slug.SlugIdempotent | app/api/categories/route.ts:41-44 | slug(slug(x)) = slug(x) |
| Slug.SlugIgnoresTrim | app/api/categories/route.ts:41-48 | the slug of the untrimmed name is the slug of the trimmed name that is stored |
| Categories.FindSlug | app/api/admin/categories/route.ts:42-44 | finds a row with the slug, or reports that none has it |
| Categories.PublicCreate | app/api/categories/route.ts:27-62 | a missing name gives 400; a taken slug or another unique conflict gives 409; either leaves the table unchanged; otherwise one row with the trimmed name and the generated slug is appended and returned |
| Categories.PublicSlugIsCanonical | app/api/categories/route.ts:41-49 | the stored slug is well formed and is the slug of the stored name |
| Categories.AdminCreate | app/api/admin/categories/route.ts:29-63 | a missing name or slug gives 400; an existing slug gives 409; either leaves the table unchanged; otherwise exactly one row with the name and slug as given is appended |
| Categories.AppendKeepsUnique | app/api/admin/categories/route.ts:42-58 | appending a row with a free slug keeps the slugs unique |
| Categories.AdminCreateKeepsUnique | app/api/admin/categories/route.ts:42-58 | the administrators' route keeps the slugs unique |
| Categories.PublicCreateKeepsUnique | app/api/categories/route.ts:46-62 | the public route keeps the slugs unique |
| Categories.AdminStoresVerbatim | app/api/admin/categories/route.ts:53-58 | the administrators' route stores a padded name and a malformed slug unchanged |
| Categories.ByNameIsTotalPreorder | app/api/admin/categories/route.ts:13-15 | the name order is a total preorder |
| Categories.Listing | app/api/admin/categories/route.ts:7-16 | one entry per category, a permutation of the rows with their counts, ordered by name |
| Categories.Entries | app/api/categories/route.ts:7-14 | each row with the number of its posts, published only for the public route |
| Categories.ListsEveryCategory | app/api/categories/route.ts:7-14 | a category is listed, by either route, exactly when it is in the table |
| Categories.PublishedCountAtMostAll | app/api/categories/route.ts:11 | a category's public count never exceeds the administrators' count |
| Categories.CategoryTable.PublicPost | app/api/categories/route.ts:27-69 | replies and changes the table as PublicCreate says, keeping the slugs unique |
| Categories.CategoryTable.AdminPost | app/api/admin/categories/route.ts:29-71 | replies and changes the table as AdminCreate says, keeping the slugs unique |
| SeedCategories.SeedKeepsRows | scripts/seed-categories.ts:14-26 | the seed only appends: existing rows stay, unmodified and in place |
| SeedCategories.SeedKeepsSlugs | scripts/seed-categories.ts:14-26 | a slug that is present stays present |
| SeedCategories.SeedHasSlugs | scripts/seed-categories.ts:8-26 | after the seed every one of its three slugs exists |
| SeedCategories.SeedKeepsUnique | scripts/seed-categories.ts:15-22 | the seed keeps the slugs unique |
| SeedCategories.SeedOnSeeded | scripts/seed-categories.ts:19-22 | on a table that holds all three slugs, the seed changes nothing |
| SeedCategories.SeedIdempotent | scripts/seed-categories.ts:19-22 | running the seed a second time inserts nothing |
| SeedCategories.Seed | scripts/seed-categories.ts:5-32 | the loop over the three entries leaves the table the seed specification gives, keeping the slugs unique |
| Blogs.FindSlug | app/api/admin/blogs/route.ts:87-89 | finds a post with the slug, or reports that none has it |
| Blogs.FindId | app/api/admin/blogs/notify/route.ts:21-23 | finds a post with the id, or reports that none has it |
| Blogs.NewBlog | app/api/admin/blogs/route.ts:99-110 | published only when asked; a publication time exactly when published, and then it is now; the given cover image, or null when empty; the given id, title, slug, excerpt, content, author and category |
| Blogs.Post | app/api/admin/blogs/route.ts:64-138 | a missing required field gives 400, then a taken slug gives 409; both change nothing and notify nobody; otherwise the new post is appended and returned, and its subscribers are notified exactly when it is published |
| Blogs.PostKeepsInvariant | app/api/admin/blogs/route.ts:86-110 | slugs stay unique and every post is stamped exactly when published |
| Blogs.SlugTakenAfterCreate | app/api/admin/blogs/route.ts:86-96 | a second post with the same slug is refused and changes nothing |
| Blogs.Ordered | app/api/admin/blogs/route.ts:24-38 | the posts meeting the filter, newest first |
| Blogs.List | app/api/admin/blogs/route.ts:5-53 | page and limit default to 1 and 10; total counts the filtered posts; totalPages is ceil(total/limit); the posts are that page of the filtered posts newest first |
| Blogs.ListedPostsMatch | app/api/admin/blogs/route.ts:13-25 | every listed post is in the table and meets the given published and category filters |
| Blogs.ListedNewestFirst | app/api/admin/blogs/route.ts:36-38 | the listed posts are newest first |
| Blogs.PublishedSplitsCount | app/api/admin/blogs/route.ts:15-17 | "true" and any other value of `published` split the count of the unfiltered listing |
| Blogs.BlogTable.Create | app/api/admin/blogs/route.ts:64-146 | replies, changes the table and notifies as Post says, keeping slugs unique and stamps consistent |
| BlogNotify.Active | app/api/admin/blogs/notify/route.ts:33-35 | exactly the active subscribers, in table order |
| BlogNotify.NotifyEmail | app/api/admin/blogs/notify/route.ts:50-59 | from FROM_EMAIL to the subscriber, with the title subject, the greeting, the post URL, and the cover block exactly when the post has a cover image |
| BlogNotify.NotifyEmails | app/api/admin/blogs/notify/route.ts:49-64 | one message per subscriber, in order |
| BlogNotify.NotifyEmailsConcat | app/api/admin/blogs/notify/route.ts:46-64 | the messages of consecutive batches are the messages of the whole list |
| BlogNotify.InactiveNotMailed | app/api/admin/blogs/notify/route.ts:33-35 | no inactive subscriber is mailed when addresses are unique |
| BlogNotify.BatchIsPage | app/api/admin/blogs/notify/route.ts:47 | `slice(i, i + 50)` at `i = 50k` is page `k + 1` |
| BlogNotify.Notify | app/api/admin/blogs/notify/route.ts:8-72 | a missing id gives 400 and an unknown post 404, both with no sends; no active subscriber gives success with no sends; otherwise the batches are the pages of fifty active subscribers, concatenating to the active list, and each active subscriber gets exactly one message, in order |
| BlogNotify.BatchesBounded | app/api/admin/blogs/notify/route.ts:45-47 | every batch sent holds between one and fifty subscribers |
| CreateAdmin.FindId | app/api/admin/create-admin/route.ts:18-20 | finds the user with the id, or reports that none has it |
| CreateAdmin.Create | app/api/admin/create-admin/route.ts:5-85 | no requester 401, unknown requester 403, missing field 400, bad e-mail 400, password under 8 characters 400, taken address 409, in that order, each exactly when the earlier checks pass and it fails; errors insert nothing; otherwise one user with the lower-cased e-mail, the trimmed name and the hashed password is appended |
| CreateAdmin.CreateKeepsWellKeyed | app/api/admin/create-admin/route.ts:53-79 | stored e-mails stay lower-case and distinct |
| CreateAdmin.CreatedIsFound | app/api/admin/create-admin/route.ts:54-69 | the new administrator is found by its address in any case |
| CreateAdmin.SecondCreateTaken | app/api/admin/create-admin/route.ts:53-61 | a second request for the same address, in any case, is refused as taken once the other checks pass |
| CreateAdmin.UserTable.Post | app/api/admin/create-admin/route.ts:5-93 | replies and changes the table as Create says, keeping it well keyed |
| ReviewCard.Truncate | components/reviews/review-card.tsx:14-16 | up to 90 characters: unchanged; longer: the first 90 characters and "..." |
| ReviewCard.TruncateBounds | components/reviews/review-card.tsx:14-16 | the shown text is at most 93 characters and starts with the first min(90, length) characters |
| ReviewCard.TruncateIdempotent | components/reviews/review-card.tsx:14-16 | truncating a shown text again changes nothing |
| ReviewCard.FilledAmongClamps | components/reviews/review-card.tsx:56-63 | among the first n stars, the rating clamped to [0, n] are filled |
| ReviewCard.FilledStars | components/reviews/review-card.tsx:56-63 | the filled stars out of five are the rating clamped to [0, 5] |
| ReviewCard.AvatarFor | components/reviews/review-card.tsx:36-47 | the picture when given; otherwise the upper-cased first character, or nothing for an empty name |
| ReviewCard.InitialIgnoresCase | components/reviews/review-card.tsx:46 | the initial does not depend on the case of the name |

## Left out

- **The mail provider and the database.** These are outside the model. Sends go to an oracle, and the tables are in-memory sequences. Every path that answers 500 because the database or the request parsing threw is not modelled, and neither is the mail wrapper library that only forwards to the provider.
- **Concurrency.** Several things are sequential in the model:
  - the `Promise.all` fan-outs in the contact, consultancy and notification routes, and the listing queries;
  - the unawaited sends of the contact and consultancy routes;
  - the background `fetch` of the notification route;
  - overlapping cron passes;
  - the gap between a uniqueness check and the insert that follows it.
- **Clocks.** `new Date()` and `Date.now()` are the parameter `now`. The response timestamp of the cron route is a parameter. The footer years of the templates are part of the fixed footer block.
- **The manual retry endpoint.** It is referenced from the admin page, but its route is not part of this model.
- **JSON request bodies.** Their fields are `Option<string>`, and the `published` flag is `Option<bool>`. Values of other JSON types are not modelled.
- **`parseInt`.** Its `NaN` and non-positive results are outside the model: page and limit are positive whole numbers.
- **Metadata.** The `metadata` column is modelled as the record it holds, a map from field names to strings, or as a text that `JSON.parse` rejects, with its error. The JSON text, `JSON.stringify` and values of other JSON types (`Record<string, any>`) are not modelled.
- Field: only a missing field or the empty string falls back to the default. Since values are strings here, `metadata.x || default` treating `0`, `false` or `null` as missing is not modelled.
- MetadataRoundTrip: with metadata stored as the record itself, it holds by construction. It says that the processor reads the record `queueEmail` was given; it says nothing about JSON serialisation.
- UpdateStatus: for an id with no row, `prisma.emailQueue.update` throws (lib/email-queue.ts:89-92), and so does the caller. The model instead returns `found == false` and leaves the table unchanged (`EmailQueue.ApplyAbsent`). The processor only updates ids it has just read from the table, so this does not arise in a pass.
- **Column defaults.** The schema is not part of this model, so three defaults the creates rely on are assumed: a new subscriber is active (`Newsletter.Subscribe`; app/api/newsletter/subscribe/route.ts:50-55 does not set `active`), a new queue job has `retryCount` 0 and `createdAt` now (`EmailQueue.NewJob`; lib/email-queue.ts:18-28 sets neither), and a new post has `createdAt` now (`Blogs.NewBlog`; app/api/admin/blogs/route.ts:99-110 does not set it).
- **The processor's outer `catch`.** It returns all zeros, but it is unreachable here: the store never throws and a parse failure is caught per job.
- **Row order.** Rows with equal `createdAt` are ordered by table order. Names compare by character code, whatever collation the database uses.
- **Unicode.**
  - Case mapping covers ASCII letters only.
  - Lengths count Dafny characters, not UTF-16 code units.
- **The review rating.** It is an integer; fractional ratings are not modelled.
- **Unique constraints behind `P2002` (contact, consultancy, public category).** Which constraints the schema declares is not part of this model. A boolean parameter says whether the insert conflicts; for the public category route that is on top of a taken slug.
- **The phone pattern.** `PhonePattern.IsPhone` decides every input, but only some rejections are stated as lemmas: letters, and anything outside 3 to 24 characters or with a character that is not a digit, '+', '(', ')', '-', '.' or whitespace. No lemma describes the other rejected inputs, such as too many digit groups.
- **Passwords and reset tokens.** Hashing is a function parameter. Verifying passwords and generating reset tokens are not modelled.
- **Joins.** The author and category records that the blog listing joins in are left out.
- **Ids.** The ids the database assigns are parameters. The foreign keys of a new blog post are not checked against other tables.
- **BlogNotify.Notify:** it records the messages handed to the provider but does not call it. What the provider does with a message changes nothing in the route, since every failure is mapped to null.
- **The create-admin command-line script.** It repeats the route's checks, which are modelled once, for the route.
- **The React pages and components,** except the review card's three expressions, are not modelled.
