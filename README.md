# Git Logs webhook relay: a verified model of its decision logic

Git Logs relays GitHub webhook deliveries to Discord channels. A delivery goes through these stages:

1. **Ontos** (`HandleWebhookRoute`) admits it through a chain of guards: the `id` parameter, the webhook secret, the `X-Hub-Signature-256` HMAC, the `ping` event, JSON decoding, and the repository lookup.
2. Ontos hands the delivery to **Pneuma** (`HandleEvents`).
3. Pneuma logs the run in the webhook log table (`updateLogEntries`).
4. It asks the **event-modifier rule engine** (`CheckEventAllowed`) whether the event is allowed and whether it is redirected.
5. It picks the channels: the modifier's override, or the channels configured for the repository.
6. It renders the message with the event's formatter (for example push, branch protection rule, Dependabot alert or discussion).
7. It cuts every embed down to Discord's size limits (`applyEmbedLimits`).
8. It sends the message to every channel, and posts a plain-text notice where a send fails.

Ontos also serves the audit page (`AuditEvent`), which prints a run's log.

The project models each of these parts on its own terms.

- **Rule engine.** Both revisions of the engine are modelled, together with a lemma relating them:
  - `LogosModifiers`: the current revision, with the `Overriden` short-circuit;
  - `Modifiers`: the older revision;
  - `ModifierRevisions`: how the two relate.

  Each revision has:
  - a `GetEventModifiers` method with its row loop, proved against a specification function;
  - a `CheckEventAllowed` method with its nested match loop, proved against a recursive `Walk` function;
  - lemmas that characterise `Walk`: who decides, which redirect survives, and well-formedness.
- **Pneuma.**
  - `EmbedLimits` models `applyEmbedLimits` as a `MessageEmbed` class whose methods cut the fields in place, as the Go code does. It uses a `SliceMode`:
    - `AsWritten` follows the code, including its panics;
    - `Clamped` is the corrected slice.
  - `LogTables` models the log table as a class holding a `map` from `(log_id, webhook_id, guild_id)` to entries.
  - `Pneuma` models `HandleEvents` as a method over that table. It is proved against a trace function `Handle` that records the log writes and the Discord sends in order.
- **Ontos.** `Ontos` models `HandleWebhookRoute` as a pure decision function. Its response follows net/http's rules for the status code: the first `Write` or `WriteHeader` fixes it. `Ontos` also models `AuditEvent`.
- **Formatters.** `EventsCommon`, `BranchProtection`, `DependabotAlert`, `Push` and `Discussion` model the formatter logic that branches or accumulates:
  - the methods follow the Go code's loops and reassignments;
  - each method is proved equal to a function, and the lemmas state what the text contains.
- **Shared modules.**
  - `GoStrings` holds the Go library behaviour relied on: `strings.Join`, `strings.Split` for one byte, `fmt.Sprintln`, `strings.ReplaceAll` of spaces, ASCII `strings.ToLower`, the truncate-if-longer idiom, and `fmt.Sprint` of integers.
  - `PgTypes` holds the database row shapes.
  - `Discord` holds the message and embed records.

A Dafny `string` stands for a Go string with one `char` per byte. So `|s|` is `len(s)`, and `s[..n]` is `s[:n]`, which panics in Go when `n > len(s)`.

Where the code as written differs from what it evidently means, two things happen:
- both versions are modelled and the difference is proved (see "## Findings");
- the operations that the rest of the model builds on use the corrected version.

The exception is the log writes at `webserver/pneuma/pneuma.go` lines 167, 180 and 249. These put their message in the `webhook_id` and `guild_id` slots. They are modelled exactly as written, and `Pneuma.ChannelFetchErrorMisfiled` shows the effect: that run's own log holds only the processing line.

## Model

| member | source | states |
|---|---|---|
| GoStrings.Join | webserver/logos/events/branch_protection_rule.go:58 | no parts join to "", one part to itself, and more parts start with the first part and the separator |
| GoStrings.JoinSnoc | webserver/logos/events/branch_protection_rule.go:172 | joining one more part appends the separator and that part |
| GoStrings.Split | webserver/ontos/ontos.go:244-245 | the reference for reading a join back: there is always at least one piece, and a text without the separator is a single piece |
| GoStrings.SplitJoin | webserver/ontos/ontos.go:244-245 | splitting a join on its one-byte separator gives back the parts, when no part contains it |
| GoStrings.Sprintln | webserver/pneuma/pneuma.go:48 | a log entry ends in a newline, and what precedes it is the operands joined by single spaces |
| GoStrings.EscapeSpaces | webserver/events/internal_common__.go:64 | no space is left, each space grows by two bytes, and a text without spaces is unchanged |
| GoStrings.EscapeSpacesIdempotent | webserver/events/internal_common__.go:64 | escaping an escaped text changes nothing |
| GoStrings.LowerChar | webserver/ontos/ontos.go:182 | the result is never an upper-case ASCII letter, and any other byte is kept |
| GoStrings.ToLower | webserver/ontos/ontos.go:182 | the length is kept, and every byte is folded on its own |
| GoStrings.ToLowerIdempotent | webserver/ontos/ontos.go:182 | lower-casing twice is lower-casing once, and leaves no upper-case ASCII letter |
| GoStrings.Truncate | webserver/logos/events/push.go:51-53 | a text within `n` bytes is kept; a longer one becomes exactly `n + len(suffix)` bytes, starting with its first `n` bytes and ending with the suffix |
| GoStrings.NatToString | webserver/events/internal_common__.go:137-139 | `fmt.Sprint` of a natural number is a non-empty string of decimal digits |
| GoStrings.ParseNatToString | webserver/events/internal_common__.go:137-139 | reading the printed digits back gives the number |
| GoStrings.IntToString | webserver/events/internal_common__.go:137-139 | the printed integer starts with '-' exactly when it is negative |
| PgTypes.FirstScanFailure | webserver/logos/eventmodifiers/handlemods.go:59-63 | gives the first row whose scan failed, with every earlier row scanned; -1 exactly when every row scanned |
| PgTypes.IsNull | webserver/logos/eventmodifiers/handlemods.go:9-11 | an invalid text is null whatever its bytes; a valid one is null exactly when it is empty |
| PgTypes.Rows | webserver/logos/eventmodifiers/handlemods.go:50-83 | a result set in which every row scanned yields its rows, one per scan, in order |
| PgTypes.FirstScanFailureAt | webserver/logos/eventmodifiers/handlemods.go:59-63 | the failure the row loop meets first is the one FirstScanFailure names |
| PgTypes.RowsSnoc | webserver/logos/eventmodifiers/handlemods.go:74-82 | one more scanned row appends that row |
| Discord.OneEmbed | webserver/logos/events/push.go:72-100 | a formatter's message holds exactly the one embed and no text content |
| Discord.PlainText | webserver/pneuma/pneuma.go:245-247 | a notice message has the given content and no embed |
| EventsCommon.SupportedEventsListed | webserver/events/internal_common__.go:20-45 | the dispatch table has 24 kinds, among them branch_protection_rule, push and dependabot_alert |
| EventsCommon.SupportedEventsAbsent | webserver/events/internal_common__.go:20-45 | "ping" and "page_build" have no formatter |
| EventsCommon.DiscussionUnsupported | webserver/events/internal_common__.go:20-45 | "discussion" and "discussion_comment" have no formatter |
| EventsCommon.AuthorEmbed | webserver/events/internal_common__.go:56-61 | the author is named by the login, with the avatar as its icon and no URL |
| EventsCommon.LinkShape | webserver/events/internal_common__.go:63-65 | a user link is the escaped login in brackets, then the profile URL in parentheses; its text has no space |
| EventsCommon.LinkDeterminedByEscapedLogin | webserver/events/internal_common__.go:63-65 | two users with the same profile URL whose logins escape alike get the same link |
| EventsCommon.Commit | webserver/events/internal_common__.go:80-82 | the link text is the seven-byte short id, and it links to `<repo URL>/commit/<full id>`; requires an id of at least seven bytes, as Go's `id[:7]` does |
| EventsCommon.Visibility | webserver/events/internal_common__.go:84-89 | "Private" exactly for a private repository, "Public" exactly for a public one |
| EventsCommon.Sprint | webserver/events/internal_common__.go:137-139 | a string prints as itself, a bool as "true"/"false" according to its value, and an int with a leading '-' exactly when negative |
| EventsCommon.KeyValueString | webserver/events/internal_common__.go:137-139 | the key, then " => ", then the printed value, with exactly that length |
| EventsCommon.StringMD | webserver/events/internal_common__.go:141-143 | the key in bold, then " => ", then the printed value |
| EventsCommon.StringMDBoldsKey | webserver/events/internal_common__.go:137-143 | the Markdown form is the plain form with the key wrapped in `**`, four bytes longer |
| Modifiers.ScopedStep | webserver/eventmodifiers/handlemods.go:66-78 | one more scanned row is kept exactly when it applies to the repository |
| Modifiers.Scoped | webserver/eventmodifiers/handlemods.go:66-78 | scoping never adds modifiers, and without a repository id it keeps every row |
| Modifiers.Fetched | webserver/eventmodifiers/handlemods.go:31-82 | a failed query passes its error on; the result is a success exactly when every row scanned, and is then no longer than the rows; a failure otherwise carries the error of a row that failed to scan |
| Modifiers.GetEventModifiers | webserver/eventmodifiers/handlemods.go:31-82 | returns the query error, or the error of the first row that fails to scan; otherwise the rows that apply to the repository, in query order |
| Modifiers.ScopedMembers | webserver/eventmodifiers/handlemods.go:66-69 | a modifier is kept exactly when some in-scope row produces it: no repository asked, a null or empty repository id, or the asked one |
| Modifiers.ScopedOrder | webserver/eventmodifiers/handlemods.go:71-78 | two kept rows keep their relative query order |
| Modifiers.Walk | webserver/eventmodifiers/handlemods.go:100-134 | a walk that starts admitted ends either admitted or with a denial that carries no override |
| Modifiers.Step | webserver/eventmodifiers/handlemods.go:110-131 | one modifier never touches the denial reason; it either leaves the check alone or, when it matches, sets the override to its non-empty redirect channel; a matching modifier with a redirect always sets it |
| Modifiers.Evaluate | webserver/eventmodifiers/handlemods.go:98-136 | the check is well formed (a denied event carries no override); no modifiers admit the event unchanged; a denial needs at least one modifier |
| Modifiers.CheckEventAllowed | webserver/eventmodifiers/handlemods.go:84-137 | a fetch error is returned with no check; otherwise the result of walking the fetched modifiers in order |
| Modifiers.LastRedirectStep | webserver/eventmodifiers/handlemods.go:128-131 | a step that does not decide moves the modifier's redirect, if it matches and names one, into the running override |
| Modifiers.WalkUndecided | webserver/eventmodifiers/handlemods.go:110-131 | with no modifier deciding, the walk admits with the last redirect of a matching modifier |
| Modifiers.WalkDecided | webserver/eventmodifiers/handlemods.go:110-126 | the first deciding modifier ends the walk: a blacklist denial if it matched, a whitelist denial if not, citing its id |
| Modifiers.AdmittedWithLastRedirect | webserver/eventmodifiers/handlemods.go:98-136 | with no modifier deciding the event (an empty list included), it is admitted with the last redirect of a matching modifier, or none |
| Modifiers.FirstDeciderDenies | webserver/eventmodifiers/handlemods.go:110-126 | the first deciding modifier denies, citing its id, whatever redirect was set before it |
| LogosModifiers.ScopedStep | webserver/logos/eventmodifiers/handlemods.go:69-82 | one more scanned row is kept exactly when it applies to the repository |
| LogosModifiers.Scoped | webserver/logos/eventmodifiers/handlemods.go:65-82 | scoping never adds modifiers, and without a repository id it keeps every row |
| LogosModifiers.GlobalRowsKept | webserver/logos/eventmodifiers/handlemods.go:69 | a row whose repository id is null is kept for every repository |
| LogosModifiers.Fetched | webserver/logos/eventmodifiers/handlemods.go:35-86 | a failed query passes its error on; the result is a success exactly when every row scanned, and is then no longer than the rows; a failure otherwise carries the error of a row that failed to scan |
| LogosModifiers.GetEventModifiers | webserver/logos/eventmodifiers/handlemods.go:35-86 | returns the query error, or the error of the first row that fails to scan; otherwise the rows that apply to the repository, in query order |
| LogosModifiers.ScopedMembers | webserver/logos/eventmodifiers/handlemods.go:65-72 | a modifier is kept exactly when some row produces it that has a null or empty repository id, names the asked repository, or is fetched with no repository asked |
| LogosModifiers.ScopedAllWithoutRepo | webserver/logos/eventmodifiers/handlemods.go:69 | without a repository id every row is kept, in order |
| LogosModifiers.ScopedByPriority | webserver/logos/eventmodifiers/handlemods.go:40-82 | filtering keeps the query's priority-descending order |
| LogosModifiers.Walk | webserver/logos/eventmodifiers/handlemods.go:104-142 | from a well-formed admitted start, the result is well formed: `overriden` exactly when there is an override, and a denial carries none |
| LogosModifiers.Step | webserver/logos/eventmodifiers/handlemods.go:112-140 | one modifier never touches the denial reason; it either leaves the check alone or, when it matches, sets its non-empty redirect channel and marks the check overridden; a matching modifier with a redirect always does; a well-formed admitted check stays well formed |
| LogosModifiers.Evaluate | webserver/logos/eventmodifiers/handlemods.go:100-145 | the check is well formed (overridden exactly when there is an override, and no override on a denial); no modifiers admit the event unchanged; a denial needs at least one modifier |
| LogosModifiers.CheckEventAllowed | webserver/logos/eventmodifiers/handlemods.go:88-146 | a fetch error is returned with no check; otherwise the result of walking the fetched modifiers in order |
| LogosModifiers.LastRedirectStep | webserver/logos/eventmodifiers/handlemods.go:136-140 | a step that does not decide moves the modifier's redirect, if it matches and names one, into the running override |
| LogosModifiers.WalkUndecided | webserver/logos/eventmodifiers/handlemods.go:112-140 | with no modifier deciding, the walk admits, overridden exactly when some matching modifier names a redirect, with the last such one |
| LogosModifiers.WalkDecided | webserver/logos/eventmodifiers/handlemods.go:112-134 | the first deciding modifier ends the walk: a blacklist denial if it matched; if it missed, the earlier override if there is one, else a whitelist denial citing its id |
| LogosModifiers.AdmittedWithLastRedirect | webserver/logos/eventmodifiers/handlemods.go:100-145 | with no modifier deciding, the event is admitted with the redirect of the last matching modifier that names one (the lowest priority); an empty list admits with no override |
| LogosModifiers.FirstDeciderSettles | webserver/logos/eventmodifiers/handlemods.go:112-134 | the first deciding modifier settles the result, and no later modifier is looked at; a whitelist miss lets an earlier override stand |
| LogosModifiers.EvaluateWellFormed | webserver/logos/eventmodifiers/handlemods.go:94-145 | every result is well formed, and a denial cites one of the modifiers by id |
| LogosModifiers.WalkCites | webserver/logos/eventmodifiers/handlemods.go:121-133 | a denial the walk returns is a whitelist or blacklist text naming one of the walked modifiers |
| ModifierRevisions.OlderAll | webserver/eventmodifiers/handlemods.go:22-29 | each current-revision modifier is read as the older revision's, in the same order |
| ModifierRevisions.OlderRows | webserver/eventmodifiers/handlemods.go:22-29 | the older rows are the current rows one by one, each keeping every column but the priority column, which the older revision does not select |
| ModifierRevisions.ScopedOlder | webserver/eventmodifiers/handlemods.go:66-78 | scoping the older rows gives the older form of the current revision's scoped modifiers |
| ModifierRevisions.FetchedAgree | webserver/logos/eventmodifiers/handlemods.go:35-86 | both revisions fetch the same modifiers from the same query, or fail with the same error |
| ModifierRevisions.WalksAgree | webserver/logos/eventmodifiers/handlemods.go:112-128 | the two walks agree on every denial and every result without override; where they differ, the older one gives a whitelist denial of one of the modifiers |
| ModifierRevisions.RevisionsDifferOnlyOnOverride | webserver/logos/eventmodifiers/handlemods.go:116-119 | the revisions differ only where the current one admits with an override that survived a whitelist miss; the older one then denies, citing a whitelist-only modifier |
| ModifierRevisions.OverrideSurvivesWhitelistMissOnlyInCurrent | webserver/logos/eventmodifiers/handlemods.go:116-119 | a matching redirect followed by an unmatched whitelist-only rule: the current revision admits to the redirect, the older one denies citing that rule |
| ModifierRevisions.WhitelistOnlyDenies | webserver/logos/eventmodifiers/handlemods.go:121-123 | a lone whitelist-only rule that does not match denies, citing its id |
| ModifierRevisions.BlacklistBeatsLowerRedirect | webserver/logos/eventmodifiers/handlemods.go:130-134 | a matching blacklisted rule of highest priority denies, whatever the lower-priority rules say |
| ModifierRevisions.LowerPriorityRedirectWins | webserver/logos/eventmodifiers/handlemods.go:136-140 | of two matching redirects, the lower-priority one, met last, is the override |
| LogTables.AppendEntry | webserver/pneuma/pneuma.go:50-56 | the key then holds its old entries plus the new one at the end; a new key holds just `[entry]` |
| LogTables.AppendEntryOtherKeys | webserver/pneuma/pneuma.go:50-56 | every other key is neither added, removed nor changed |
| LogTables.EntriesFor | webserver/pneuma/pneuma.go:38-58 | a key gains at most one entry per call |
| LogTables.Replay | webserver/pneuma/pneuma.go:38-58 | replaying calls never loses a log, and the last call's log is present |
| LogTables.ReplayKeys | webserver/pneuma/pneuma.go:38-58 | after a replay, the log of every call is present |
| LogTables.ReplaySnoc | webserver/pneuma/pneuma.go:38-58 | one more call inserts or appends its `Sprintln` entry under its own key |
| LogTables.ReplayConcat | webserver/pneuma/pneuma.go:38-58 | replaying two batches of calls is replaying one after the other |
| LogTables.EntriesForSnoc | webserver/pneuma/pneuma.go:48-56 | a call adds its entry to its own key only |
| LogTables.EntriesForConcat | webserver/pneuma/pneuma.go:38-58 | a key's entries from two batches of calls are those of the first batch, then those of the second |
| LogTables.ReplayEntries | webserver/pneuma/pneuma.go:38-58 | the log only grows: each key keeps its entries and gains its calls' entries at the end, in call order |
| LogTables.ReplayOtherKeys | webserver/pneuma/pneuma.go:38-58 | a key no call names keeps exactly what it had |
| LogTables.LogTable.UpdateLogEntries | webserver/pneuma/pneuma.go:38-58 | the table becomes the old one with `Sprintln(ops)` inserted or appended under `(logId, webhookId, guildId)`, and nothing else changes |
| LogTables.Record | webserver/pneuma/pneuma.go:38-58 | a `updateLogEntries` call extends the replayed history by that call |
| EmbedLimits.CharLimit | webserver/pneuma/pneuma.go:63-70 | 0 once the total reaches the maximum; otherwise `min(limit, max - total)` |
| EmbedLimits.Kept | webserver/pneuma/pneuma.go:63-82 | the bytes a completed slice keeps: a prefix of the text, exactly `min(charLimit, len)` long |
| EmbedLimits.KeptWhole | webserver/pneuma/pneuma.go:63-82 | a text within its own limit and within what is left of 6000 is kept whole |
| EmbedLimits.SliceChars | webserver/pneuma/pneuma.go:72-82 | a completed slice is exactly the first `min(charLimit, len)` bytes (`Kept`), a prefix within the limit and adds its length to the total, which then stays within 6000; past 6000 it is empty; as written it panics exactly when the text is shorter than the computed limit, and clamped it never panics |
| EmbedLimits.TitleStage | webserver/pneuma/pneuma.go:84-87 | the clamped limiter never panics; as written it panics exactly on a non-empty title shorter than its limit; otherwise only the title changes, to exactly its first `min(charLimit, len)` bytes (`Kept`), a prefix within the limit, and the running total grows by its length |
| EmbedLimits.DescriptionStage | webserver/pneuma/pneuma.go:89-92 | the same for the description: it becomes exactly `Kept` of itself at the running total |
| EmbedLimits.FieldsStage | webserver/pneuma/pneuma.go:95-105 | the clamped limiter never panics; a panic needs the as-written limiter and at least one field; otherwise only the fields change |
| EmbedLimits.FieldsStageKeeps | webserver/pneuma/pneuma.go:95-105 | a completed fields stage keeps the first 25 fields (`CutFields`), each name and then each value kept exactly as `Kept` at the running total (`KeptFields`), and the total grows by what was kept |
| EmbedLimits.FooterStage | webserver/pneuma/pneuma.go:107-110 | the clamped limiter never panics; as written it panics exactly on a non-empty footer text shorter than its limit; otherwise a missing footer stays missing with the total unchanged, and a present one keeps everything but its text, cut to exactly `Kept` of itself at the running total, with the total grown by its length |
| EmbedLimits.AuthorStage | webserver/pneuma/pneuma.go:112-115 | the same for the author name, kept exactly as `Kept` of itself at the running total |
| EmbedLimits.LimitEmbed | webserver/pneuma/pneuma.go:60-118 | the clamped limiter never panics; a completed run keeps the url, colour and timestamp, cuts title and description to prefixes, and keeps whether there is a footer and an author |
| EmbedLimits.Normalize | webserver/pneuma/pneuma.go:60-118 | the normalised embed is within every Discord limit and is a truncation of the original |
| EmbedLimits.FieldsStepKeeps | webserver/pneuma/pneuma.go:99-105 | a completed field loop keeps each field's flag, and exactly `Kept` of its name at the total so far and then of its value after the name; its total counts what it kept |
| EmbedLimits.KeptFieldsCons | webserver/pneuma/pneuma.go:99-105 | one field kept from the running total, ahead of fields kept from after it, is a correctly kept list |
| EmbedLimits.FieldStepFitting | webserver/pneuma/pneuma.go:99-105 | a field within its name and value limits and within what is left of 6000 comes through its step unchanged |
| EmbedLimits.FieldsStepFitting | webserver/pneuma/pneuma.go:99-105 | fields that each fit, and together fit what is left of 6000, come through the loop unchanged |
| EmbedLimits.MessageEmbed.LimitFields | webserver/pneuma/pneuma.go:99-105 | the field loop rewrites each name then value in place; it completes exactly when the specification walk does, leaves the fields and total that walk gives, and changes nothing else |
| EmbedLimits.MessageEmbed.LimitTitle | webserver/pneuma/pneuma.go:84-87 | the title step in place: completes exactly when the title stage does, with that embed and total |
| EmbedLimits.MessageEmbed.LimitDescription | webserver/pneuma/pneuma.go:89-92 | the description step in place: completes exactly when the description stage does, with that embed and total |
| EmbedLimits.MessageEmbed.LimitFieldsStage | webserver/pneuma/pneuma.go:95-105 | the cut to 25 fields, then the field loop, as the fields stage gives them |
| EmbedLimits.MessageEmbed.LimitFooter | webserver/pneuma/pneuma.go:107-110 | the footer step in place: completes exactly when the footer stage does, with that embed and total |
| EmbedLimits.MessageEmbed.LimitAuthor | webserver/pneuma/pneuma.go:112-115 | the author step in place: completes exactly when the author stage does, with that embed and total |
| EmbedLimits.MessageEmbed.ApplyEmbedLimits | webserver/pneuma/pneuma.go:60-118 | the whole in-place walk completes exactly when the as-written specification does, and then leaves the embed it gives |
| EmbedLimits.FieldsStepFacts | webserver/pneuma/pneuma.go:99-105 | every field keeps its inline flag; its name and value are prefixes within 256 and 1024 bytes; the total counts them; everything past 6000 is empty |
| EmbedLimits.TitleStageFacts | webserver/pneuma/pneuma.go:84-87 | only the title changes: it becomes a prefix within 256 bytes, counted in the total; it is empty past 6000, and below 6000 it is empty exactly when the input title was |
| EmbedLimits.DescriptionStageFacts | webserver/pneuma/pneuma.go:89-92 | only the description changes: it becomes a prefix within 4096 bytes, counted in the total; it is empty past 6000, and below 6000 it is empty exactly when the input was |
| EmbedLimits.FieldsStageFacts | webserver/pneuma/pneuma.go:95-105 | only the fields change: `min(n, 25)` of them remain, each a bounded prefix of the original field, counted in the total |
| EmbedLimits.FooterStageFacts | webserver/pneuma/pneuma.go:107-110 | only the footer text changes, and only when there is a footer: a prefix within 2048 bytes, empty past 6000, with the icon kept |
| EmbedLimits.AuthorStageFacts | webserver/pneuma/pneuma.go:112-115 | only the author name changes, and only when there is an author: a prefix within 256 bytes, empty past 6000, with the URL and icon kept |
| EmbedLimits.LimitEmbedBounded | webserver/pneuma/pneuma.go:84-115 | a completed walk keeps every component within its Discord limit, at most 25 fields and at most 6000 counted bytes, and its total is exactly what Discord counts |
| EmbedLimits.LimitEmbedTruncates | webserver/pneuma/pneuma.go:84-115 | a completed walk only shortens components to prefixes, keeps the first 25 fields in order, and changes nothing else |
| EmbedLimits.LimitEmbedBlanks | webserver/pneuma/pneuma.go:84-115 | after a completed walk, every component processed once the total has reached 6000 is empty |
| EmbedLimits.LimitEmbedKeeps | webserver/pneuma/pneuma.go:60-118 | a completed walk keeps exactly the first `min(limit, what is left of 6000)` bytes of each component, counted from what was kept before it, and the first 25 fields as the field loop keeps them (`KeptFrom`) |
| EmbedLimits.ClampedKeeps | webserver/pneuma/pneuma.go:60-118 | the same for the corrected walk, which always completes |
| EmbedLimits.FrontKeeps | webserver/pneuma/pneuma.go:84-92 | the title and then the description are each kept exactly as `Kept`, the total counts both, and nothing else changes |
| EmbedLimits.BackKeeps | webserver/pneuma/pneuma.go:107-115 | the footer text and then the author name are each kept exactly as `Kept` from the total before them, and nothing else changes |
| EmbedLimits.LimitEmbedKeepsBounded | webserver/pneuma/pneuma.go:60-118 | an embed already within every limit comes through the corrected walk unchanged, with the total Discord counts |
| EmbedLimits.LimitEmbedDropsTail | webserver/pneuma/pneuma.go:95-97 | the corrected walk of an embed with more than 25 fields is the walk of its first 25 |
| EmbedLimits.LimitEmbedBounds | webserver/pneuma/pneuma.go:60-118 | a completed walk, in either mode, gives a bounded truncation of its input whose components run out at 6000 |
| EmbedLimits.LimitEmbedNeverPanicsClamped | webserver/pneuma/pneuma.go:72-82 | the corrected walk always completes |
| EmbedLimits.FieldsStepNeverPanicsClamped | webserver/pneuma/pneuma.go:99-105 | the corrected field loop always completes |
| EmbedLimits.AsWrittenAgreesWhenComplete | webserver/pneuma/pneuma.go:72-82 | wherever the code as written completes, it gives what the corrected walk gives |
| EmbedLimits.FieldsStepAgree | webserver/pneuma/pneuma.go:99-105 | wherever the field loop as written completes, it gives what the corrected loop gives |
| EmbedLimits.SliceCharsIdempotent | webserver/pneuma/pneuma.go:72-82 | slicing a sliced text again from the same total gives the same text and total |
| EmbedLimits.FieldsStepIdempotent | webserver/pneuma/pneuma.go:99-105 | running the field loop again on its output gives the same fields and total |
| EmbedLimits.TitleStageIdempotent | webserver/pneuma/pneuma.go:84-87 | the title stage leaves an already-limited title as it is, with the same total |
| EmbedLimits.DescriptionStageIdempotent | webserver/pneuma/pneuma.go:89-92 | the description stage leaves an already-limited description as it is, with the same total |
| EmbedLimits.FieldsStageIdempotent | webserver/pneuma/pneuma.go:95-105 | the fields stage leaves already-limited fields as they are, with the same total |
| EmbedLimits.FooterStageIdempotent | webserver/pneuma/pneuma.go:107-110 | the footer stage leaves an already-limited footer as it is, with the same total |
| EmbedLimits.AuthorStageIdempotent | webserver/pneuma/pneuma.go:112-115 | the author stage leaves an already-limited author as it is, with the same total |
| EmbedLimits.LimitEmbedIdempotent | webserver/pneuma/pneuma.go:60-118 | limiting a limited embed again changes nothing, in either mode |
| EmbedLimits.ShortTitlePanics | webserver/pneuma/pneuma.go:72-87 | as written, the three-byte title "abc" panics, because it is sliced to 256 |
| EmbedLimits.EmptyFieldNamePanics | webserver/pneuma/pneuma.go:99-105 | as written, even an empty field name is sliced, and panics |
| EmbedLimits.NormalizeKeeps | webserver/pneuma/pneuma.go:60-118 | the corrected normaliser keeps exactly `min(limit, len)` of each component at the running total (`KeptFrom`), so whatever fits is kept whole |
| EmbedLimits.NormalizeFixesBounded | webserver/pneuma/pneuma.go:60-118 | an embed already within every limit is its own normal form |
| EmbedLimits.NormalizeSound | webserver/pneuma/pneuma.go:60-118 | the corrected limiter gives a bounded truncation of its input whose components run out at 6000, and is idempotent |
| EmbedLimits.ExtraFieldsDropped | webserver/pneuma/pneuma.go:95-97 | beyond 25 fields, 25 remain, in order, each keeping its flag with its name and value prefixes of the original's; the tail is dropped and plays no part: the result is that of the first 25 fields alone |
| Pneuma.Note | webserver/pneuma/pneuma.go:133 | a run's ordinary log write goes under its own `(logId, webhookId, guildId)` key |
| Pneuma.ScannedChannels | webserver/pneuma/pneuma.go:174-186 | at most one channel per row |
| Pneuma.ScannedChannelsSound | webserver/pneuma/pneuma.go:174-186 | every collected channel is a row that scanned; when every row scanned, the channels are all the rows, in order |
| Pneuma.ScanErrorNotes | webserver/pneuma/pneuma.go:180 | at most one log write per row, each under the run's log id and with no operands |
| Pneuma.SelectChannels | webserver/pneuma/pneuma.go:156-187 | an override gives exactly that one channel, with nothing logged and no channel query |
| Pneuma.NormalizeAll | webserver/pneuma/pneuma.go:236-238 | each embed is replaced by its limited form, in place and in order |
| Pneuma.Limited | webserver/pneuma/pneuma.go:236-238 | the content is kept, and each embed is replaced by its limited form |
| Pneuma.LimitAllAsWritten | webserver/pneuma/pneuma.go:72-82 | the as-written limiter gets through all the embeds exactly when it completes on each one |
| Pneuma.LimitAllAsWrittenAgrees | webserver/pneuma/pneuma.go:72-82 | where the as-written limiter gets through, its embeds are the clamped ones |
| Pneuma.LimitedAsWritten | webserver/pneuma/pneuma.go:236-238 | the as-written limiter finishes the message exactly when it finishes every embed, and the result is then the clamped message |
| Pneuma.ShortTitleStopsRun | webserver/pneuma/pneuma.go:72-87 | any message whose first embed has the title "abc" stops the run in the as-written limiter |
| Pneuma.LimitedSound | webserver/pneuma/pneuma.go:236-238 | every embed of a limited message is a bounded truncation of the original |
| Pneuma.Notice | webserver/pneuma/pneuma.go:245-247 | the fallback notice is plain text with no embed |
| Pneuma.CollectChannels | webserver/pneuma/pneuma.go:174-186 | the row loop collects the scanned channel ids and logs each scan error as line 180 writes it |
| Pneuma.LimitMessage | webserver/pneuma/pneuma.go:236-238 | the loop over the embeds gives the limited message |
| Pneuma.AttemptLogs | webserver/pneuma/pneuma.go:241-250 | an attempt first sends the message; it logs the sending line, then the failure line when the send failed |
| Pneuma.AttemptChannel | webserver/pneuma/pneuma.go:241-250 | one loop iteration makes exactly the sends and log writes of one attempt |
| Pneuma.Attempt | webserver/pneuma/pneuma.go:241-250 | one channel gets the message first, with its log line; it gets a second, embed-free send exactly when the first send fails; every send goes to that channel |
| Pneuma.FanOut | webserver/pneuma/pneuma.go:240-251 | every channel is tried once or twice, with one log line per send; every send goes to one of the channels, carrying the message or a plain-text notice |
| Pneuma.Deliver | webserver/pneuma/pneuma.go:240-251 | the fan-out loop makes exactly the sends and log writes of attempting every channel in order |
| Pneuma.ChooseChannels | webserver/pneuma/pneuma.go:156-187 | succeeds exactly when the selection does, with its channels, and logs its notes |
| Pneuma.RenderAndSend | webserver/pneuma/pneuma.go:189-251 | the early return, the render and its log lines, the limits and the fan-out, as the dispatch trace gives them |
| Pneuma.Dispatch | webserver/pneuma/pneuma.go:189-251 | no channels give no logs and no sends; otherwise the first log line is the render note; a render failure sends nothing; a rendered message is tried on every channel, once or twice each; every send goes to a listed channel with the limited rendered message or a plain-text notice |
| Pneuma.LimitAndDeliver | webserver/pneuma/pneuma.go:236-251 | limits the embeds, then fans the limited message out |
| Pneuma.DispatchLogs | webserver/pneuma/pneuma.go:189-251 | with channels, a render error logs the render note and the error and sends nothing; a rendered message logs the render note, then the fan-out of the limited message |
| Pneuma.HandleEvents | webserver/pneuma/pneuma.go:120-252 | the run makes exactly the sends of the trace `Handle`, and the log table ends as the old table with the trace's log writes replayed in order |
| Pneuma.Handle | webserver/pneuma/pneuma.go:120-252 | the first log line is the processing note; something is sent only when the modifiers were fetched, the event was not denied and it rendered; every send carries the limited rendered message or a plain-text notice |
| Pneuma.DeniedEventIsNotSent | webserver/pneuma/pneuma.go:136-154 | a modifier error or an ACL failure sends nothing; it logs two lines under the run's key and never looks at the channels, the renderer or Discord |
| Pneuma.HandleOverride | webserver/pneuma/pneuma.go:160-251 | with an override, the run is the processing note, the render note and one attempt on that channel |
| Pneuma.OverrideIsTheOnlyChannel | webserver/pneuma/pneuma.go:158-161 | with an override, the channel table plays no part, and the message goes to that channel alone |
| Pneuma.NoChannelsNoRender | webserver/pneuma/pneuma.go:189-192 | with no channel, nothing is sent, and the renderer's result and Discord play no part |
| Pneuma.FanOutSingle | webserver/pneuma/pneuma.go:240-251 | a fan-out over one channel is one attempt |
| Pneuma.AttemptSends | webserver/pneuma/pneuma.go:241-250 | an attempt sends the message once, plus one notice exactly when the send failed, and nothing else |
| Pneuma.FanOutAttemptsEveryChannel | webserver/pneuma/pneuma.go:240-251 | every channel receives the message once, in order, whatever failed before it, and each failure adds exactly one notice |
| Pneuma.FanOutSendsOnlySanctioned | webserver/pneuma/pneuma.go:240-251 | nothing is sent but the message and the notices of its failures, and only to the given channels |
| Pneuma.SentEmbedsBounded | webserver/pneuma/pneuma.go:236-251 | every embed that is sent respects Discord's limits |
| Pneuma.ChannelFetchErrorMisfiled | webserver/pneuma/pneuma.go:166-170 | a failed channel query sends nothing; its one log write goes under a key made of the log id, the message and the error, with an entry that is a bare newline; unless the webhook id happens to be that message, the run's own log holds only the processing line |
| Ontos.Reply | webserver/ontos/ontos.go:228-232 | `WriteHeader(code)` then `Write(text)` answers with that status and exactly that text |
| Ontos.Admit | webserver/ontos/ontos.go:120-205 | a delivery is handed off exactly when it is admissible, with the accepted response; any other delivery gets one of the rejection statuses 200, 206, 400, 401 or 404 |
| Ontos.HandleWebhookRoute | webserver/ontos/ontos.go:120-205 | a delivery is handed off exactly when it is admissible, and as written no delivery is ever answered 202 |
| Ontos.HandleWebhookRouteIntended | webserver/ontos/ontos.go:191-196 | with the header written first, a delivery is answered 202 exactly when it is handed off, which is exactly when it is admissible |
| Ontos.MissingIdRejected | webserver/ontos/ontos.go:125-131 | a missing id is answered 400 with no hand-off, before any lookup: the rest of the request and the environment do not matter |
| Ontos.UnknownIdNotFound | webserver/ontos/ontos.go:133-139 | an id with no secret is answered 404 with no hand-off |
| Ontos.BadSignatureUnauthorized | webserver/ontos/ontos.go:148-158 | 401 exactly when the id has a secret and the header differs from "sha256=" plus the hex digest, compared as plain strings |
| Ontos.PingAnsweredAfterSignature | webserver/ontos/ontos.go:160-164 | a ping that passes the signature check is answered 200 "pong" with no hand-off; the decoder and the repository lookup play no part |
| Ontos.BadJsonRejected | webserver/ontos/ontos.go:166-175 | a body the decoder rejects is answered 400 with the decoder's message and no hand-off |
| Ontos.UnconfiguredRepositoryIgnored | webserver/ontos/ontos.go:177-189 | a repository not configured for the webhook is answered 206 with no hand-off |
| Ontos.HandoffExactlyWhenAdmissible | webserver/ontos/ontos.go:120-205 | delivery goes to Pneuma exactly when every guard passes, with the body, the decoded name, the repository id of the lower-cased name, the log id, the event and the webhook id |
| Ontos.RepositoryNameCaseInsensitive | webserver/ontos/ontos.go:182 | names that differ only in ASCII case get the same response and the same hand-off decision |
| Ontos.AdmittedStatus | webserver/ontos/ontos.go:191-196 | as written, an admitted delivery is answered 200, not 202, with the audit line and the processing line |
| Ontos.IntendedAdmittedStatus | webserver/ontos/ontos.go:191-196 | with the status written first, an admitted delivery is answered 202 with the same text, and every other outcome is unchanged |
| Ontos.AuditMissingId | webserver/ontos/ontos.go:228-232 | a missing log id is answered 400 before the database is asked |
| Ontos.AuditEvent | webserver/ontos/ontos.go:225-246 | a missing log id is answered 400; the page is answered 200 exactly when the id is given and the lookup succeeds; a failed lookup is answered 500 |
| Ontos.LogLines | webserver/pneuma/pneuma.go:48 | one entry per logged call, each the `Sprintln` of its operands |
| Ontos.JoinLogLines | webserver/ontos/ontos.go:245 | joining `Sprintln` entries on newlines is joining, on newlines, each call's operands joined by spaces followed by an empty piece |
| Ontos.AuditLookupFailed | webserver/ontos/ontos.go:238-242 | a failed lookup is answered 500 with the error text |
| Ontos.AuditListsEntries | webserver/ontos/ontos.go:225-246 | when the stored entries are the `Sprintln` lines Pneuma logs, the page is answered 200 and reads back, line by line, as each call's operands joined by spaces, each followed by the empty piece its trailing newline leaves |
| BranchProtection.Settings | webserver/logos/events/branch_protection_rule.go:39-116 | the 19 settings in their fixed key order, with the actor and status-check lists joined by ", " |
| BranchProtection.Lines | webserver/logos/events/branch_protection_rule.go:126 | the text of one or more settings ends in a newline |
| BranchProtection.SettingsString | webserver/logos/events/branch_protection_rule.go:118-129 | the accumulator loop with its `break` gives the settings text |
| BranchProtection.SettingsFrom | webserver/logos/events/branch_protection_rule.go:120-127 | the text from position `i` on starts with the lines before `i`, and is either all the lines or ends in the overflow marker |
| BranchProtection.LinesGrow | webserver/logos/events/branch_protection_rule.go:126 | appending settings never shortens the text |
| BranchProtection.LinesSnoc | webserver/logos/events/branch_protection_rule.go:126 | the lines of the first `j` settings are those of the first `j - 1` followed by the `j`-th setting's line |
| BranchProtection.SettingsFromComplete | webserver/logos/events/branch_protection_rule.go:120-127 | when the budget is never exceeded before the last setting, every setting is appended |
| BranchProtection.SettingsFromCut | webserver/logos/events/branch_protection_rule.go:120-124 | past the budget, the text stops at the first prefix exceeding 2500 bytes, followed by the marker |
| BranchProtection.LinesNoMarker | webserver/logos/events/branch_protection_rule.go:126 | appended settings never end with the marker |
| BranchProtection.SettingsTruncation | webserver/logos/events/branch_protection_rule.go:118-129 | the text ends with "\n..." exactly when the budget was exceeded; nothing follows the marker; without a cut it is every setting |
| BranchProtection.BranchProtectionRuleFn | webserver/logos/events/branch_protection_rule.go:140-192 | the formatter gives the message the rule's specification builds |
| BranchProtection.RuleMessage | webserver/logos/events/branch_protection_rule.go:140-192 | one embed and no content; the description starts with the settings block, and is exactly that block when there are no changes |
| BranchProtection.RuleMessageShape | webserver/logos/events/branch_protection_rule.go:150-190 | one embed: green "New ..." for created, yellow "... edited" for edited, red "... deleted" otherwise; the repository URL, the sender as author, one "User" field |
| BranchProtection.DescriptionShape | webserver/logos/events/branch_protection_rule.go:163-173 | the settings heading and text come first; the changes section follows exactly when there are changed keys |
| DependabotAlert.AddOpt | webserver/events/dependabot_alert.go:66-84 | an optional line only appends |
| DependabotAlert.AddScope | webserver/events/dependabot_alert.go:58-64 | the scope line and its warning only append |
| DependabotAlert.AddFix | webserver/events/dependabot_alert.go:86-88 | the fix line only appends |
| DependabotAlert.AppendOpt | webserver/events/dependabot_alert.go:66-84 | one conditional append step |
| DependabotAlert.BuildScope | webserver/events/dependabot_alert.go:56-64 | the package line, then the scope and its runtime warning |
| DependabotAlert.BuildDetails | webserver/events/dependabot_alert.go:49-92 | the colour reassignments give the alert colour, and the details are built and capped |
| DependabotAlert.BuildSummary | webserver/events/dependabot_alert.go:94-110 | the capped summary with its description cut |
| DependabotAlert.BuildVulns | webserver/events/dependabot_alert.go:112-120 | the loop gives one block per vulnerability, in order, then the cap |
| DependabotAlert.BuildDismissed | webserver/events/dependabot_alert.go:122-138 | the dismissal text with the reason capped like the other fields |
| DependabotAlert.Dismissed | webserver/events/dependabot_alert.go:122-138 | the dismissal text is never empty, and within the cap plus "..." when no dismisser is named |
| DependabotAlert.DismissedAsWritten | webserver/events/dependabot_alert.go:122-138 | as written the text is never empty, equals the corrected one while the reason line fits, and exceeds the cap plus "..." once it does not |
| DependabotAlert.AlertCard | webserver/events/dependabot_alert.go:140-180 | six fields, holding the state and the four given texts in order |
| DependabotAlert.AlertEmbed | webserver/events/dependabot_alert.go:140-180 | six inline fields; details, summary and vulnerabilities within the cap plus "...", and the dismissal too when no dismisser is named; url, colour and state from the alert |
| DependabotAlert.DependabotAlertFn | webserver/events/dependabot_alert.go:39-181 | the formatter gives the one-embed card of the alert, with the corrected dismissal cap |
| DependabotAlert.ColorRule | webserver/events/dependabot_alert.go:49-76 | dark red exactly for high or critical; otherwise red exactly when closed, and green for anything else |
| DependabotAlert.DetailsShape | webserver/events/dependabot_alert.go:56-88 | the details open with the package and ecosystem, then the scope line; later lines only append |
| DependabotAlert.ScopeWarning | webserver/events/dependabot_alert.go:58-64 | the runtime warning follows the scope exactly for a runtime scope |
| DependabotAlert.FieldsCapped | webserver/events/dependabot_alert.go:90-120 | details, summary and vulnerabilities are each at most 1023 bytes, and are kept as they are when they fit in 1020 |
| DependabotAlert.DescriptionCut | webserver/events/dependabot_alert.go:100-106 | an over-long advisory description adds exactly its first 996 bytes and "..." at the end of the summary |
| DependabotAlert.VulnsEmptyIff | webserver/events/dependabot_alert.go:112-116 | the vulnerabilities text is empty exactly when there are none |
| DependabotAlert.NotDismissedIff | webserver/events/dependabot_alert.go:122-138 | "Not dismissed" exactly when there is neither a reason nor a dismisser, both as written and as corrected |
| DependabotAlert.DismissedCapped | webserver/events/dependabot_alert.go:128-130 | as corrected, the reason part is at most 1023 bytes, and the dismisser line follows it |
| DependabotAlert.DismissedAsWrittenGrows | webserver/events/dependabot_alert.go:128-130 | as written, a 1000-byte reason grows the text to 2046 bytes, where the cap would give 1023 |
| DependabotAlert.CardShape | webserver/events/dependabot_alert.go:140-180 | six inline fields in order URL, State, Details, Summary, Vulnerabilities, Dismissal Details, under the repository and state title |
| DependabotAlert.MessageShape | webserver/events/dependabot_alert.go:140-180 | the alert's own card has that shape and the alert colour |
| Push.DisplayName | webserver/logos/events/push.go:46-49 | the username, or the author's name when the username is empty |
| Push.FormatCommit | webserver/logos/events/push.go:43-56 | one pass of the loop body gives the commit's line |
| Push.FormatCommits | webserver/logos/events/push.go:42-56 | the loop builds exactly the commit lines, one per commit, in order |
| Push.CapCommitList | webserver/logos/events/push.go:58-64 | capping the built lines gives the commit list |
| Push.FormatBranchInfo | webserver/logos/events/push.go:66-70 | the branch text built step by step is the intended one |
| Push.PushFn | webserver/logos/events/push.go:32-102 | the formatter gives the one-embed push message, with the branch text as intended |
| Push.CommitLineShape | webserver/logos/events/push.go:51-55 | the message cut to at most 103 bytes (kept when within 100), the seven-byte short id linking to the commit, the display name, and a final newline |
| Push.CommitLinesConcat | webserver/logos/events/push.go:42-56 | the lines follow the commits' order |
| Push.CommitLinesEnd | webserver/logos/events/push.go:55 | a non-empty list ends in a newline |
| Push.CommitList | webserver/logos/events/push.go:58-64 | "No commits?" exactly when there are no commits; otherwise within the cap plus "..." |
| Push.BranchInfoAsWritten | webserver/logos/events/push.go:66-70 | as written the text starts with the ref only without a base ref; with one it starts with a newline and ends with the base ref |
| Push.BranchInfo | webserver/logos/events/push.go:66-70 | the text always starts with the ref, and ends with the base ref on its own line when there is one |
| Push.PushEmbed | webserver/logos/events/push.go:72-100 | four fields and the repository url; the branch field starts with the ref; the commit field is "No commits?" exactly when there are none, and otherwise within the cap plus "..." |
| Push.CommitListShape | webserver/logos/events/push.go:58-64 | "No commits?" exactly when there are no commits; otherwise at most 1027 bytes, kept whole when within 1024 |
| Push.BaseRefHidesRef | webserver/logos/events/push.go:66-70 | as written, a base ref hides the ref: pushes differing only in the ref get the same branch text, where the intended text tells them apart |
| Push.BranchInfoShape | webserver/logos/events/push.go:66-70 | as intended, the branch text opens with the ref and ends with the base ref when there is one; without a base ref it is the text as written |
| Push.PushEmbedShape | webserver/logos/events/push.go:72-100 | one green embed with fields Branch, Commits, Commit Sender, Pusher in order; only the last two are inline |
| Discussion.ActionOf | webserver/events/discussion.go:46 | the switch picks the case whose name is the action; any other action is untracked |
| Discussion.ActionOfName | webserver/events/discussion.go:46-628 | each of the twelve action names selects its own case |
| Discussion.UntrackedIff | webserver/events/discussion.go:593-627 | an action reaches the default case exactly when it is none of the twelve names |
| Discussion.TitleField | webserver/events/discussion.go:46-628 | every card but the deleted one shows the title, cut with the plain "..." when closed and with the view link otherwise |
| Discussion.TitleShown | webserver/events/discussion.go:65-67 | a title over 190 bytes keeps its first 190 and gains the suffix; a shorter one is shown as it is |
| Discussion.BodyShown | webserver/events/discussion.go:61-63 | in the five cases that show the body, it is the description, cut at 3000 bytes plus the view link |
| Discussion.AnsweredLockText | webserver/events/discussion.go:53-59 | an answered discussion reports "Discussion is now Closed: " and its reason, or that it is still open |
| Discussion.LockedReasonShown | webserver/events/discussion.go:414-422 | as corrected, the reason is shown, cut at 999 bytes plus the view link; an empty one is "No reason provided" |
| Discussion.LockedReason | webserver/events/discussion.go:414-422 | an empty reason reads "No reason provided"; a reason within the cap is shown as is; a longer one keeps its first 999 bytes and ends with the view link |
| Discussion.LockedReasonAsWritten | webserver/events/discussion.go:414-422 | as written the card fails (Go panics) exactly when the reason is over the cap and the answer body is shorter than the cap; within the cap it shows the corrected text |
| Discussion.LockedReasonAsWrittenIgnoresReason | webserver/events/discussion.go:418-419 | as written, an over-long reason is replaced by the answer body's first 999 bytes, whatever it says; a shorter body panics |
| Discussion.LockedReasonIntendedShowsReason | webserver/events/discussion.go:414-422 | as corrected, reasons that differ in their first 999 bytes give different texts, each starting with its reason |
| Discussion.LabeledDefault | webserver/events/discussion.go:350-356 | "Default Label?" is "Yes" exactly for a default label, "No" otherwise |
| Discussion.DeletedDescription | webserver/events/discussion.go:287-289 | a deletion names the whole title, however long, and the sender's login, in one field card |
| Discussion.UnknownAction | webserver/events/discussion.go:593-627 | an unknown action gives the red "Discussion Updated" card whose third field is the action |
| Discussion.UpdatedCards | webserver/events/discussion.go:46-628 | only the edited and untracked cards are titled "Discussion Updated", and of those only the edited one is yellow |
| Discussion.CardFrame | webserver/events/discussion.go:46-628 | every card carries the repository URL, the sender as author, the discussion date, and only inline fields |
| Discussion.CardFor | webserver/events/discussion.go:46-628 | every card has a field and one of the three colours; the title field exists for every action but deletion; the cards that show the body show it cut |
| Discussion.CardEmbed | webserver/events/discussion.go:46-628 | the embed links the repository, credits the sender, carries the discussion date, and keeps the card's fields, all inline |
| Discussion.DiscussionEmbed | webserver/events/discussion.go:46-628 | the embed links the repository and credits the sender; an unknown action gives the red "Discussion Updated" card whose third field names the action |

## Left out

- EmbedLimits.FieldsStage: its own contract does not say which bytes of each field are kept. `EmbedLimits.FieldsStageKeeps` states it. Carrying that quantified statement in the function's own contract makes every proof about a Pneuma run much more expensive.
- EmbedLimits.LimitEmbed, EmbedLimits.Normalize: their own contracts state only the bounds and the truncation. The exact bytes kept are stated by `EmbedLimits.LimitEmbedKeeps` and `EmbedLimits.NormalizeKeeps`, and that a bounded embed is unchanged by `EmbedLimits.LimitEmbedKeepsBounded` and `EmbedLimits.NormalizeFixesBounded`. Putting these into the functions' own contracts doubles the cost of every proof about a Pneuma run.
- Concurrency. This covers the per-webhook lock (`state.MapMutex`, pneuma.go:130-131) and the `go` statement that hands off to Pneuma (ontos.go:198). A run is modelled as one sequential call.
- Cryptography and encoding. The HMAC-SHA256 digest and its hex encoding are a parameter (`hexHmac`). The model keeps the plain string comparison of the signature.
- JSON decoding. The decoder is a parameter in Ontos, and the formatters take already-decoded records.
- The database. Every query result is an input: a `Result` of scanned rows, with the driver's error text. `ORDER BY priority DESC` is the input order. The count-then-insert-or-update of `updateLogEntries` is one map update, and a database error in it is not modelled.
- Discord and the logger. The outcome of each `ChannelMessageSendComplex` call is an input function of channel and message. The zap logger and `fmt.Println` are unmodelled side effects.
- `isMatch`. Its definition is not part of this model, so both revisions of the rule engine take it as a parameter.
- The generic embed that Pneuma builds for an event with no formatter (pneuma.go:209-223). It depends on Go's map iteration order (line 214) and on `cases.Title` Unicode casing. It is part of the `render` input, as is the formatter call of line 227.
- The event formatters dispatched from Pneuma. The table of webserver/logos/events, whose common file is not part of this model, is a parameter. `EventsCommon.Supported`, the table of webserver/events/internal_common__.go, stands in for its key set in the render log notes.
- `GetWebhookRoute` (ontos.go:24-118). It is a database report printed in Go map iteration order. `IndexPage` is a constant text.
- The order of the branch-protection `changes` keys (branch_protection_rule.go:167) comes from map iteration, so it is an input sequence.
- Timestamps. `time.Format(time.RFC3339)` in the discussion cards is the already formatted `discussionDate` string.
- Unicode. Strings are bytes, and `ToLower` folds ASCII letters only.
- Ontos.HandoffExactlyWhenAdmissible: the `go` call of ontos.go:198-205 passes six arguments to a seven-parameter `HandleEvents`. The hand-off records the six that are passed, and `Pneuma.Invocation` carries all seven parameters on their own terms.
- Ontos.AuditEvent: the query at ontos.go:236 selects by an `id` column, while `updateLogEntries` writes rows keyed by `log_id`. The lookup is a parameter from the log id to the stored entries or an error, so the model does not tie the audit page to the log table.
- Pneuma.HandleEvents: the `modres == nil` branch (pneuma.go:144-148) cannot be taken, because `CheckEventAllowed` returns a check whenever it returns no error. It is not modelled.
- Pneuma.HandleEvents, Pneuma.Limited: a run uses the corrected (clamped) limiter. As written, `_sliceChars` panics inside the goroutine started at ontos.go:198; nothing recovers the panic, so the whole server process exits before any channel is sent to. `Pneuma.LimitedAsWritten` states exactly when that happens, and `Pneuma.ShortTitleStopsRun` gives an input.
- Ontos.AuditListsEntries: it requires log operands without a newline, since an operand holding one would be split into several lines of the page.
- Pneuma.ScannedChannels: its own contract only bounds the length; the content is stated by `Pneuma.ScannedChannelsSound`.
- Push.PushFn, EventsCommon.Commit: Go's `id[:7]` panics on an id shorter than seven bytes. The model requires seven-byte ids instead of modelling the panic.
- Discussion: the formatter has no loops and reassigns only local copies before returning a literal. It is modelled as functions, one card per case.
- Discussion.LockedReasonShown uses the corrected reason text; the as-written text is `Discussion.LockedReasonAsWritten` (see Findings).

## Findings

| source | as written | input that shows it | evidently intended | confidence | as-written member | corrected member |
|---|---|---|---|---|---|---|
| webserver/pneuma/pneuma.go:72-82 | `_sliceChars` slices to the computed limit, so `s[:n]` panics whenever the component is shorter than that limit (every non-empty title under 256 bytes, every field name) | an embed with title "abc", or one field with an empty name | slice to `min(limit, len(s))`, so the limiter always completes | not executed | EmbedLimits.ShortTitlePanics | EmbedLimits.NormalizeKeeps |
| webserver/ontos/ontos.go:191-196 | the audit link is written before `WriteHeader(http.StatusAccepted)`, so net/http has already sent 200 and ignores the 202 | any admissible delivery | answer 202 Accepted, then the two lines | not executed | Ontos.AdmittedStatus | Ontos.IntendedAdmittedStatus |
| webserver/events/dependabot_alert.go:128-130 | `dismissed += dismissed[:1020] + "..."` appends the cut copy to the text instead of replacing it | a 1000-byte dismissal reason and no dismisser: 2046 bytes instead of 1023 | `dismissed = dismissed[:1020] + "..."`, like the other three caps | not executed | DependabotAlert.DismissedAsWrittenGrows | DependabotAlert.DismissedCapped |
| webserver/logos/events/push.go:66-70 | `branchInfo = "\n" + "**Base Ref:** " + ...` replaces the ref line instead of appending to it | two pushes with a base ref that differ only in the ref | keep the ref and add the base ref on the next line | not executed | Push.BaseRefHidesRef | Push.BranchInfoShape |
| webserver/events/discussion.go:414-422 | an over-long lock reason is replaced by `AnswerRespBody[:999]`, which is the wrong field and panics on a body shorter than 999 bytes | a 1000-byte lock reason with an empty answer body | cut the reason itself to 999 bytes plus the view link | not executed | Discussion.LockedReasonAsWrittenIgnoresReason | Discussion.LockedReasonIntendedShowsReason |
