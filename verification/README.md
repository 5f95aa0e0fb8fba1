# A verified model of the WhatsApp sales agent

The repository runs sales agents for many tenants: a business signs up, gets a slug, a phone-number id and a runtime,
and from then on every WhatsApp message to its number is routed to its agent, answered from its own facts, and
remembered. This project models the parts of that system whose correctness spans several functions, and proves what
every input, every run or every interleaving keeps. Nothing was executed: everything stated here is proved by the Dafny
verifier (`dafny verify dfyconfig.toml`).

## The cores and their main results

**Secret redaction** (`LogFilter`, `RedactionRegex`, `RedactionScan`, `Alphabets`, `RedactionConservation`,
`AssignmentConservation`, `RedactionMatches`, `RedactLines`, `RedactionShapes`, `RedactionPasses`, `SignaturePass`,
`RedactionIdempotence`, `RedactionWitness`, `SecretFilter`). `redact` is four scan-and-replace passes. Each pattern is
a deterministic scanner; `ScannerIsTheRegex` proves each scanner against the language of its regular expression, where
backtracking could in principle choose other splits. What a pattern matches is also said from outside, with every
alphabet written out: four `...MatchIff` theorems give the exact shape of a match, and four conservation theorems
(`AuthorizationIsRedacted` and its like) say that a secret anywhere in a text gives way to the marker whole, and
nothing else does. One pass is proved equal to the unique scan that replaces the value spans of the leftmost disjoint
matches and copies all other text. The interaction between the passes is the hard part: a later pass may not create a
match for an earlier one. The docstring promises idempotence for every text. That is false: redacting
`X-Hub-Signature-256: sha256=1G_TOKEN=x` removes the word character that kept `G_TOKEN` from being a key, so the second
call finds a new match (`RedactNotIdempotent`). `RedactIdempotentIff` gives the exact condition: the second call is a
no-op if and only if, in the text that enters the last pass, no matched signature is directly followed by something
that one of the first three patterns would match there with a value other than the marker.
`RedactIdempotentWhenUnglued` gives a condition on the raw text: no signature's hex run is directly followed by a word
character. Two calls always reach a fixed point (`RedactTwiceIsEnough`).

**Tenant provisioning** (`Slug`, `SlugWords`, `Tenancy`, `Provisioning`, `ProvisioningSafety`, `Schedules`,
`PhoneWrites`, `ProvisioningRuns`, `Announcements`, `ProvisioningWitness`, `RoutableSlugs`, `PatchDurability`,
`Stranding`, `Lifecycle`, `OnboardingFlow`, `EventBus`, `EventOrder`). `run`, `bring_up` and `bring_down` are cut at
their awaits, and any number of calls may interleave with admin creates and updates, with failures at any await, and
with stale snapshots written back. Under every interleaving slugs stay distinct. Several other guarantees fail under
some interleavings, and for each the exact condition is proved over all continuations, in both directions, as a check
that could be made before the step:

- phone-number ids stay distinct if and only if a phone is only changed to one that nobody has, and only while no call on
  the tenant is in flight (`PhonesStayDistinctIff`); the endpoints check neither;
- a phone has at most one event and at most one `is_new` result if and only if in addition the old phone has had no
  event (`StaysAtMostOnceIff`); otherwise a signup for it can record a second one;
- status and runtime agree if and only if no start meets a stop in flight, no stop meets a start in flight, and no
  action of the spawner is abandoned (`StaysInAgreementIff`);
- a model update lasts if and only if every call in flight on the tenant holds that model already (`PatchLastsIff`);
- a tenant's `tenant.onboarded` event can still come if and only if the `run` that created it is still open
  (`CanBeAnnouncedIff`), so onboarding is at-most-once and not exactly-once: a `run` that fails half way strands its phone;
- subscribers receive events in publication order if and only if no publication begins while another one has handlers to
  call (`StaysInOrderIff`); in whatever order, each event is received exactly once unless a handler raises.

Every event is traced back, field by field, to the signup that created its tenant (`EventsTellTheirSignup`). A slug is
proved to be the words of the name joined by hyphens (`SlugIsItsWords`). The collision loop ends by a pigeonhole
argument over the printed suffixes. The classes of the sequential system are proved to be one uninterrupted path
through the protocol.

**Conversations** (`BuyerMemory`, `AgentLoop`, `Conversation`, `ConversationRuns`, `ConversationOrder`,
`ConversationSends`, `ConversationReplies`, `Webhook`). A bounded buffer a buyer refines an unbounded log. The
webhook's handling of one message is cut at its awaits, and both the model and the gateway may fail. The model's
failures never show; a send that raises ends the turn and leaves its message unanswered. Over all interleavings a
buyer's log alternates if and only if no message of that buyer is started while another one is in flight or after one
was left unanswered (`AlternatesIff`). In such runs the agent texts of an idle buyer are exactly the texts sent, in
order; without any such condition they are still the texts sent, each as often (`RepliesAreThoseSent`). Every body sent
is the model's answer to its own turn's prompt, or the apology exactly when the model failed on it
(`SentBodiesAreAnswers`), and what a turn cites, asks and answers depends on its own tenant's facts alone
(`OwnFactsDecideDeliveries`). Two tenants share a conversation only through nested slugs, and for every write it is
proved exactly when it keeps routable tenants apart (`PutKeepsIsolatedIff`).

**Token framing** (`Base64Url`, `Base64Meaning`, `TokenCipher`). Unpadded URL-safe base64 (sections 3.2, 4 and 5 of RFC
4648) through a model of the standard library's lenient decoder, nonce prefixing, and an abstract AEAD.

**Sales closer** (`SalesCloser`, `SalesWords`). Closed forms for every stage after any number of messages, with the
exact languages of closed and escalated conversations, the words that move them, and the skill's string interface.

**Ingestion and facts** (`Hindsight`, `Ingestion`). A queue drain refines a fold. Queries of one tenant never depend on
another tenant's facts. Drains do depend on other tenants' jobs, because a raising job ends the drain
(`RaisingJobStarvesOthers`); `TenantsDrainIndependentlyIff` says exactly when a tenant ends up with what it would have
got alone.

## Where the code and its documentation differ

The model follows the code.

- `redact` is documented as idempotent (`src/sample/security/log_filter.py:48-51`), and installing the filter twice as a
  no-op (`src/sample/security/log_filter.py:95-98`); both hold exactly under the condition above.
- `GatewayError` says that webhook handlers should swallow it (`src/sample/whatsapp/gateway.py:38-39`);
  `webhook_receive` calls the gateway outside its `try` (`services/api/main.py:316-318`), so a failing send leaves an
  unanswered message and the buyer's next message makes two buyer turns in a row (`FailedSendBreaksPairs`).
- The prompt's dialogue is described as alternating user and assistant turns (`src/sample/agent/loop.py:105-106`); the
  webhook remembers the inbound text before the turn, so the prompt ends in the same user message twice
  (`PromptReadsTheLog`).
- `TokenCipher` says that `decrypt` returns the plaintext or raises `CryptoError`
  (`src/sample/security/crypto.py:73-74`); a decrypted blob that is not UTF-8 raises the codec's own error
  (`src/sample/security/crypto.py:108`), exactly on the tokens of `DecryptLeaksUnicodeErrorIff`.
- Buyer ids are described as keeping the memories of different tenants apart (`src/sample/memory/buyer.py:7-8`); the admin
  endpoint accepts slugs with colons, and two nested ones share buyers, exactly as `IsolatedIff` says.
- The objections prompt asks to escalate when an objection is repeated (`src/sample/skills/sales_closer.py:32-35`); the
  machine escalates on escalation words only (`EscalatedIff`).
- The onboarding flow is described as idempotent provisioning that ends in the `tenant.onboarded` event
  (`src/sample/onboarding/flow.py:66-75`); after a `run` that raises before its write-back, every retry is answered as a
  no-op and the event never comes (`FailedRunIsNeverMadeUp`).
- A `PATCH` of a tenant while `bring_up` awaits the spawner is overwritten by the stale snapshot
  (`src/sample/tenant/supervisor.py:31-34`), exactly as `PatchLastsIff` says.

## Reading guide

Strings are `seq<char>`. White space is the full set that `str.isspace` and `\s` accept. `str.lower` maps ASCII letters
and leaves other ASCII characters alone; what it does to a non-ASCII character is a parameter (`Lowering`), and every
theorem holds for all choices of it. Fresh ids, nonces, the model's answers, the spawner's timing, the stop signal and
extractors are parameters too. The repository's dictionary is a sequence in insertion order whose keys are kept distinct.
Ghost fields record full logs, deliveries and subscription times; no program step reads them.

## Model

| member | source | states |
|---|---|---|
| `RedactionRegex.ScannerIsTheRegex` | src/sample/security/log_filter.py:27-42 | Each scanner succeeds exactly when some prefix of the text is in the language of its pattern; all matches agree on where the last group starts, and the scanner returns the longest one |
| `RedactionRegex.KeyIsKey` | src/sample/security/log_filter.py:31-34 | The scanner's key test is exactly the regular expression's alternation on strings of word characters, and no key is empty |
| `RedactionConservation.ClassesAre` | src/sample/security/log_filter.py:27-42 | Every character class is the alphabet that its brackets list, written out character by character |
| `RedactionMatches.KeyIsSecretName` | src/sample/security/log_filter.py:31-33 | The keys are exactly the six listed names and the names that start with a letter and end in `_token`, `_secret` or `_password`, in any case |
| `RedactionMatches.AssignmentMatchIff` | src/sample/security/log_filter.py:29-35 | The first pattern matches at the start of a text if and only if the text is a secret's name, a colon or equals sign with white space around it, at most one quote, a value up to white space, a quote or a comma, and the rest; that value is replaced |
| `RedactionMatches.HeaderMatchIff` | src/sample/security/log_filter.py:37 | The second one if and only if the text is an `Authorization` header in any case with bearer or basic credentials over the written-out alphabet, and something that does not continue them |
| `RedactionMatches.KeyMatchIff` | src/sample/security/log_filter.py:39 | The third one if and only if the text is `sk-`, at least sixteen key characters, and something that does not continue them |
| `RedactionMatches.SignatureMatchIff` | src/sample/security/log_filter.py:41 | The fourth one if and only if the text is the signature header in any case, `sha256=` with at least one hexadecimal digit, and something that does not continue them, whatever stands in front |
| `RedactionMatches.OnlySignaturesInWords` | src/sample/security/log_filter.py:27-42 | Directly behind a word character only signatures match |
| `RedactionConservation.AuthorizationIsRedacted` | src/sample/security/log_filter.py:37 | In a text that has named no header before, the pass keeps everything up to the credentials and replaces all of them by the marker; if the rest names no header either, it is copied |
| `RedactionConservation.NakedKeyIsRedacted` | src/sample/security/log_filter.py:39 | The same for a naked key, which is replaced whole |
| `RedactionConservation.ShortKeyIsKept` | src/sample/security/log_filter.py:39 | `sk-` with fewer than sixteen key characters is no secret |
| `RedactionConservation.SignatureIsRedacted` | src/sample/security/log_filter.py:41 | The same for a signature: the header name stays, the whole signature goes |
| `AssignmentConservation.AssignmentIsRedacted` | src/sample/security/log_filter.py:29-35 | The same for an assigned secret, with either separator and any quote: name, separator and quote stay, the whole value goes |
| `LogFilter.Redact` | src/sample/security/log_filter.py:52-66 | The loop applies every pattern once, in order, each to the previous pass's output; what a pass does is said by the rows around this one |
| `RedactLines.PlainLineIsKept` | src/sample/security/log_filter.py:45-66 | `redact` copies every text that names no secret, no header and no key prefix |
| `RedactLines.AssignmentLine` | src/sample/security/log_filter.py:45-66 | `redact` on a line with one assigned secret and nothing else of interest: exactly the value is replaced |
| `RedactLines.AuthorizationLine` | src/sample/security/log_filter.py:45-66 | The same for a line with one authorization header |
| `RedactLines.NakedKeyLine` | src/sample/security/log_filter.py:45-66 | The same for a line with one naked key |
| `RedactLines.SignatureLine` | src/sample/security/log_filter.py:45-66 | The same for a line with one signature |
| `RedactionScan.PassIsAScan` | src/sample/security/log_filter.py:55-65 | One substitution pass replaces the value spans of genuine, ordered, disjoint matches outside of which nothing matches, and copies all other text verbatim |
| `RedactionScan.PassIsTheScan` | src/sample/security/log_filter.py:55-65 | There is only one such scan, so any list of matches with these properties determines the pass's output |
| `RedactionPasses.PassCleansItsPattern` | src/sample/security/log_filter.py:55-65 | After a pass, at every position where its pattern still matches the value is the marker |
| `RedactionPasses.PassIsIdempotent` | src/sample/security/log_filter.py:48-51 | Each single pass is idempotent on every text |
| `RedactionPasses.FixedIffClean` | src/sample/security/log_filter.py:55-65 | A pass changes nothing if and only if every match of its pattern already has the marker as its value |
| `RedactionPasses.PassKeepsClean` | src/sample/security/log_filter.py:24-42 | No pass creates a match for a pattern that was clean before it; for the signature pass and another pattern this needs that no signature is glued to a secret |
| `SignaturePass.CleanMeansNoFusedSecret` | src/sample/security/log_filter.py:40-41 | Conversely, if the earlier patterns are clean after the signature pass, no signature was glued to a secret |
| `RedactionIdempotence.FirstThreeClean` | src/sample/security/log_filter.py:45-66 | For every text, the first three passes together leave nothing for the first three patterns but markers |
| `RedactionIdempotence.RedactLeaves` | src/sample/security/log_filter.py:45-66 | After `redact` no signature matches anywhere; and no authorization header and no naked key match anywhere and every assignment carries the marker, if and only if no signature was glued to a secret |
| `RedactionIdempotence.FixedByRedact` | src/sample/security/log_filter.py:45-66 | `redact` leaves a text alone if and only if every match of every pattern has the marker as its value |
| `RedactionIdempotence.RedactIdempotentIff` | src/sample/security/log_filter.py:48-51 | `redact(redact(t)) == redact(t)` if and only if no signature in the text that enters the last pass is glued to a secret |
| `RedactionIdempotence.RedactTwiceIsEnough` | src/sample/security/log_filter.py:48-51 | For every text a third call changes nothing |
| `RedactionIdempotence.PassKeepsUnglued` | src/sample/security/log_filter.py:55-65 | No pass makes a signature's hex run run into a word character |
| `RedactionIdempotence.RedactIdempotentWhenUnglued` | src/sample/security/log_filter.py:48-51 | When no signature's hex run in the input is directly followed by a word character, `redact` is idempotent and leaves no value but the marker |
| `RedactionWitness.RedactNotIdempotent` | src/sample/security/log_filter.py:48-51 | The documented unconditional idempotence fails for `X-Hub-Signature-256: sha256=1G_TOKEN=x` |
| `SecretFilter.SecretRedactingFilter.Filter` | src/sample/security/log_filter.py:81-86 | The record is rewritten in place to the redacted formatted message without arguments, so no later formatting changes it, and the record is kept |
| `SecretFilter.RunTwice` | src/sample/security/log_filter.py:89-102 | Two installed filters leave what one leaves if and only if no signature in the formatted message is glued to a secret |
| `SecretFilter.SecondFilterIsNoOp` | src/sample/security/log_filter.py:95-98 | Two or more filters all leave the same text, and it is the text that one filter leaves if and only if no signature is glued to a secret |
| `Slug.SlugifyIsSlug` | src/sample/onboarding/flow.py:52-62 | Every name yields a non-empty string over `[a-z0-9-]` without leading, trailing or doubled hyphens |
| `Slug.SlugIffFixed` | src/sample/onboarding/flow.py:52-62 | The strings of that form are exactly the fixed points of `slugify` |
| `Slug.SlugifyIsIdempotent` | src/sample/onboarding/flow.py:52-62 | `slugify` is idempotent |
| `Slug.SlugSpellsTheName` | src/sample/onboarding/flow.py:52-62 | The slug's letters and digits are those of the lower-cased, stripped name, in order; a name without any becomes `tenant`; where its hyphens stand is said by the next two rows |
| `SlugWords.SlugIsItsWords` | src/sample/onboarding/flow.py:58-62 | The slug is the words of the lower-cased, stripped name joined by single hyphens, where spaces and hyphens end a word and other characters vanish; `tenant` if there is no word |
| `SlugWords.SlugHyphens` | src/sample/onboarding/flow.py:58-61 | Two neighbouring letters or digits of that name are neighbours in the slug, or have one hyphen between them if a space or a hyphen stands between them; what is left and right of them is rewritten on its own |
| `SlugWords.GapIsHyphen` | src/sample/onboarding/flow.py:58-61 | Cutting a text at a gap without letters and digits: both sides are rewritten on their own, with a hyphen between them if and only if the gap has a space or a hyphen |
| `Alphabets.LowerOfAscii` | src/sample/onboarding/flow.py:58 | Lower-casing an ASCII text changes the case of its letters and nothing else, and leaves no capital |
| `Slug.DecimalRoundTrip` | src/sample/onboarding/flow.py:132 | The printed suffix parses back to its number, so different suffixes print differently |
| `Slug.CandidatesDiffer` | src/sample/onboarding/flow.py:128-134 | `base`, `base-2`, `base-3`, ... are pairwise distinct |
| `Slug.CandidateIsNumbered` | src/sample/onboarding/flow.py:129-133 | The first candidate is the base itself and the `k`-th after it is the base, a hyphen and the number `k + 1` |
| `Slug.CandidateIsSlug` | src/sample/onboarding/flow.py:128-134 | A numbered slug is again in normal form |
| `Tenancy.BySlugIsFirst` | src/sample/tenant/repository.py:41-42 | The slug lookup answers with the earliest inserted tenant that has the slug |
| `Tenancy.ByPhoneIsFirst` | src/sample/tenant/repository.py:44-48 | The phone lookup answers with the earliest inserted tenant that has the phone-number id |
| `Tenancy.PutGet` | src/sample/tenant/repository.py:34-39 | A stored tenant is read back under its id and no other id's answer changes |
| `Tenancy.InMemoryTenantRepository.Add` | src/sample/tenant/repository.py:34-36 | The dictionary gains or replaces exactly the tenant's entry |
| `Tenancy.InMemoryTenantRepository.Update` | src/sample/tenant/repository.py:53-57 | An unknown id is an error and changes nothing; a known one is overwritten in place |
| `Tenancy.InMemoryTenantSpawner.Spawn` | src/sample/tenant/spawner.py:30-31 | The running set gains exactly the tenant's id |
| `Tenancy.InMemoryTenantSpawner.Stop` | src/sample/tenant/spawner.py:33-34 | The running set loses exactly the id |
| `Provisioning.TakenNeedTenants` | src/sample/onboarding/flow.py:131-133 | If the first `k` candidates are all taken there are at least `k` tenants |
| `Provisioning.FirstFree` | src/sample/onboarding/flow.py:128-134 | The first free candidate at or after a given one exists, comes within as many steps as there are tenants, and all before it are taken |
| `ProvisioningSafety.StepKeepsInv` | src/sample/tenant/supervisor.py:30-40 | Every step of every call, including stale-snapshot writes, failures and unchecked phone writes, keeps slugs distinct and every tenant under its slug |
| `ProvisioningSafety.StepKeepsPhoneInv` | src/sample/onboarding/flow.py:92-126 | Every step, with phone writes that are checked, keeps phones distinct, one open `run`, one event and one new result a phone, and every event and new result naming the phone's owner |
| `ProvisioningSafety.PhoneWriteKeepsDistinctIff` | services/api/main.py:183-186 | At the moment of the write, phones stay distinct if and only if no other tenant has the phone |
| `PhoneWrites.StepKeepsPhonesOk` | services/api/main.py:159-187 | Every step, with phone writes that are guarded, keeps phones distinct and every call in flight holding its tenant's current phone |
| `PhoneWrites.StaleSnapshotBreaks` | src/sample/tenant/supervisor.py:31-40 | Any call in flight that does not hold its tenant's current phone has a continuation without phone writes that ends with two tenants sharing a phone |
| `PhoneWrites.PhonesStayDistinctIff` | services/api/main.py:159-187 | A step keeps phones distinct in every guarded continuation if and only if it is guarded: it writes no new phone, or one that nobody has while no call on the tenant is in flight |
| `PhoneWrites.OwnerStays` | src/sample/tenant/supervisor.py:30-40 | A tenant keeps its phone in every step that does not write it another one |
| `ProvisioningRuns.SlugsStayDistinct` | src/sample/tenant/manager.py:33-38 | Slugs are pairwise distinct in every state of every interleaving |
| `ProvisioningRuns.PhonesAreDistinct` | src/sample/onboarding/flow.py:92-126 | Phones are pairwise distinct in every interleaving whose phone writes are guarded |
| `ProvisioningRuns.OnboardingIsAtMostOnce` | src/sample/onboarding/flow.py:92-126 | In every interleaving whose phone writes are checked: phones distinct, at most one `tenant.onboarded` event and at most one `is_new` result a phone, and a new result's event recorded |
| `ProvisioningRuns.StaysAtMostOnceIff` | services/api/main.py:159-187 | A step keeps that guarantee in every checked continuation if and only if it is checked: guarded, and the old phone has had no event |
| `ProvisioningRuns.UncheckedWriteBreaks` | services/api/main.py:183-186 | A guarded write that gives away a phone with an event has a continuation, a signup for that phone, that ends with two events for it |
| `ProvisioningRuns.RecordsNameOwners` | src/sample/onboarding/flow.py:92-126 | In every checked run every event and every new result names the tenant that owns its phone |
| `Announcements.StepTells` | src/sample/onboarding/flow.py:92-126 | Every step keeps every tenant's slug and name, and keeps every event and every suspended call true to the signup that created its tenant |
| `Announcements.EventsTellTheirSignup` | src/sample/onboarding/flow.py:113-124 | In every run, checked or not, each recorded event carries the id that its tenant's signup created, that signup's phone, business name and both account ids, and the first slug that was free for that name then; ever after the tenant has the event's slug and name, and the event stays recorded |
| `Announcements.EventsNameTheirOwners` | src/sample/onboarding/flow.py:113-124 | In every checked run the phone of each event resolves to the tenant with the event's id, slug and business name |
| `ProvisioningRuns.ResultsResolveIff` | src/sample/onboarding/flow.py:93-95 | A checked step keeps all results, replays included, naming the owner of their phone if and only if it moves no phone that a result carries |
| `ProvisioningWitness.TwoWritesShareAPhone` | services/api/main.py:159-187 | A run of four steps from the empty system ends with two tenants on one phone |
| `ProvisioningWitness.StaleWriteSharesAPhone` | src/sample/tenant/supervisor.py:31-34 | So does a run in which every phone that is written is one that nobody has, through a stale snapshot |
| `ProvisioningWitness.PatchIsLost` | src/sample/tenant/supervisor.py:31-34 | A run of five steps from the empty system loses a model update |
| `Stranding.CanBeAnnouncedIff` | src/sample/onboarding/flow.py:92-126 | A tenant's event is recorded or can still be recorded in some continuation if and only if it is recorded or the `run` that created the tenant has not written back yet |
| `Stranding.FailStrands` | src/sample/onboarding/flow.py:103-111 | A `run` that fails before its write-back leaves its phone owned, without event, new result or open `run` |
| `Stranding.FailedRunIsNeverMadeUp` | src/sample/onboarding/flow.py:92-111 | After that, in every guarded continuation that leaves the tenant its phone, there is never an event and never a new result for it, and every retry is answered as already onboarded |
| `ProvisioningRuns.RoutingIsStable` | src/sample/tenant/router.py:26-33 | Once a phone-number id resolves to a tenant it resolves to that tenant, under the same slug, in every later state of a guarded run that does not write that tenant another phone |
| `ProvisioningRuns.ReplayIsSilent` | src/sample/onboarding/flow.py:93-95 | A callback for an owned phone, also while the first `run` for it is still in flight, leaves repository, running set, event log and calls in flight unchanged and names the owner |
| `ProvisioningRuns.CreateInsideRunSucceeds` | src/sample/onboarding/flow.py:97-105 | The slug chosen in `run` is the first free candidate, found within the number of tenants, and in normal form; `create` accepts it, so the error branch is unreachable |
| `PatchDurability.StepKeepsModel` | src/sample/tenant/supervisor.py:30-40 | Once a tenant and all calls in flight on it hold one model, no step but a model update changes it |
| `PatchDurability.StaleModelWins` | src/sample/tenant/supervisor.py:31-34 | Any call in flight can overwrite the tenant's model by the one in its snapshot |
| `PatchDurability.PatchLastsIff` | services/api/main.py:174-187 | A model update lasts until the next one in every continuation if and only if every call in flight on the tenant already holds that model |
| `RoutableSlugs.RoutedSlugsAreNormal` | src/sample/onboarding/flow.py:97-105 | Tenants with a phone have slugs in normal form in every run whose phone writes go to such slugs |
| `Lifecycle.StepKeepsLife` | src/sample/tenant/supervisor.py:30-40 | Harmless steps keep status and liveness in agreement, tenant by tenant, however calls interleave, including overlapping calls of one direction |
| `Lifecycle.StatusAgreesWithRuntime` | src/sample/tenant/manager.py:52-57 | In every harmless run a tenant without a half-finished call is ACTIVE exactly when it is running, and only repository tenants run |
| `Lifecycle.HarmfulBreaks` | src/sample/tenant/supervisor.py:30-40 | After any other step the calls in flight can finish so that a settled tenant disagrees, whatever phase the opposed call is in and whichever direction it has |
| `Lifecycle.StaysInAgreementIff` | src/sample/tenant/supervisor.py:30-40 | A step keeps agreement in every harmless continuation if and only if it is harmless: no start against a stop in flight, no stop against a start in flight, no abandoned action |
| `Lifecycle.OverlapBreaksAgreement` | src/sample/tenant/supervisor.py:30-40 | The plainest case: an overlapping start and stop leave a running tenant recorded as SUSPENDED |
| `OnboardingFlow.TenantManager.Create` | src/sample/tenant/manager.py:33-38 | A slug that some tenant has is an error and changes nothing; otherwise the repository gains a provisioning tenant without a phone, with the given name, slug and model, or the default model for a missing or empty one |
| `OnboardingFlow.TenantSupervisor.BringUp` | src/sample/tenant/supervisor.py:30-34 | An unknown id changes nothing; otherwise the shared stores end where the protocol's three steps end |
| `OnboardingFlow.TenantSupervisor.BringDown` | src/sample/tenant/supervisor.py:36-40 | The same for stopping, ending SUSPENDED |
| `OnboardingFlow.Flow.FreeSlug` | src/sample/onboarding/flow.py:128-134 | The loop ends and returns the first free name among `base`, `base-2`, `base-3`, ... |
| `OnboardingFlow.Flow.Run` | src/sample/onboarding/flow.py:92-126 | An uninterrupted call ends where the protocol says, as an error exactly when the template does not render the new tenant; a fresh call that succeeds leaves one active tenant with the payload's name and phone under the first free slug, and one more event, all of whose fields are given, and answers as new |
| `OnboardingFlow.UnrenderedRunIs` | src/sample/onboarding/flow.py:103-109 | A first callback whose tenant cannot be rendered leaves the tenant with the phone, and nothing else |
| `OnboardingFlow.FreshRunIs` | src/sample/onboarding/flow.py:97-126 | A fresh call leaves the activated tenant, its runtime, one event with the tenant's id and slug and the payload's phone, business name and account ids, and one new result |
| `OnboardingFlow.AloneIsARun` | src/sample/onboarding/flow.py:92-126 | An uninterrupted call is one of the protocol's interleavings, so all results about runs hold of it |
| `EventBus.InMemoryEventBus.Subscribe` | src/sample/events/bus.py:50-51 | A new subscription has received nothing and is entitled to the events published from now on |
| `EventBus.InMemoryEventBus.Publish` | src/sample/events/bus.py:43-48 | With handlers that subscribe further handlers, every earlier subscription receives the event once, new ones do not, and every subscription has received exactly the events whose publication began after it, in order |
| `EventOrder.DeliveredExactlyOnce` | src/sample/events/bus.py:43-51 | With overlapping publications, and handlers that subscribe, publish or raise: no subscription receives an event twice or one from before its time, and when nothing is under way it has received each other event exactly once unless a handler raised |
| `EventOrder.DeliveredInOrder` | src/sample/events/bus.py:43-51 | Every subscription receives its events in publication order in every run in which no publication begins while another has handlers to call |
| `EventOrder.StaysInOrderIff` | src/sample/events/bus.py:43-51 | A step keeps publication order in every such continuation if and only if it does not begin such a publication |
| `EventOrder.EventOvertaken` | src/sample/events/bus.py:43-48 | A run of five steps from the empty bus delivers the second event first |
| `BuyerMemory.InMemoryBuyerMemory.Remember` | src/sample/memory/buyer.py:54-58 | Appending and trimming keeps every bucket equal to the last `max_items` of its buyer's full log, for every `max_items`, and touches no other bucket |
| `BuyerMemory.InMemoryBuyerMemory.Recall` | src/sample/memory/buyer.py:60-66 | Without a limit the last `max_items` of the full log, with one the last `min(limit, max_items)`, none for a non-positive limit |
| `BuyerMemory.InMemoryBuyerMemory.Summary` | src/sample/memory/buyer.py:68-73 | The rendering of the last `2 * dialectic_depth` turns of the full log that are kept, or the fixed text when there are none |
| `BuyerMemory.RenderedMore` | src/sample/memory/buyer.py:68-73 | A rendering is one part a turn, `[buyer]` or `[agent]` and the text, with ` | ` between the parts |
| `BuyerMemory.LogIsTheBuyersCalls` | src/sample/memory/buyer.py:54-58 | After any interleaving of calls a buyer's log is exactly the subsequence of that buyer's turns |
| `BuyerMemory.Replay` | src/sample/memory/buyer.py:41-66 | Run over any list of calls for any buyers, the buffer answers from the last entries of the buyer's own calls |
| `AgentLoop.RenderFacts` | src/sample/agent/loop.py:114-119 | The heading, then one numbered line a fact with its source, joined by line breaks |
| `AgentLoop.FactLinesAre` | src/sample/agent/loop.py:114-119 | One line more than there are facts: the heading, and then number, source in brackets and content of the `i`-th fact |
| `AgentLoop.BlockGrows` | src/sample/agent/loop.py:114-119 | One more fact adds one line break and its numbered, sourced line to the block |
| `AgentLoop.ComposePrompt` | src/sample/agent/loop.py:91-111 | One system message with the facts block only when there are facts, the role-mapped history, the inbound text |
| `AgentLoop.PromptSays` | src/sample/agent/loop.py:91-111 | A system message with the rendered template and, if there are facts, an empty line and their block; then one message a turn of the history, by the assistant exactly when the agent spoke; then the inbound text by the user |
| `AgentLoop.CitedSelects` | src/sample/agent/loop.py:81 | A turn cites facts of its own tenant only: the first of the stored facts that match the message, in insertion order, as many as the limit leaves |
| `AgentLoop.OwnFactsDecide` | src/sample/agent/loop.py:80-82 | On two stores that hold the same facts of the tenant, a turn cites the same facts and asks the model the same prompt |
| `AgentLoop.Loop.Respond` | src/sample/agent/loop.py:72-89 | The model is asked once, with the prompt read off the unbounded log and the tenant's facts; the turn carries its reply, model and cited facts, each of which is in the store, belongs to the tenant and matches the message, and a history count that is the prompt's length less two; nothing else is written |
| `Conversation.BuyerIdsCollideIff` | src/sample/client.py:33-35 | Two different slugs can yield one buyer id if and only if one slug followed by a colon begins the other |
| `Conversation.BuyerIdsDetermine` | src/sample/client.py:33-35 | Under colon-free slugs a buyer id determines slug and number |
| `Conversation.StepKeeps` | services/api/main.py:288-327 | Every step of a message, in any interleaving in which a buyer's messages wait for each other and none follows an unanswered one, keeps logs paired and sends remembered, whatever the model and the gateway do |
| `ConversationRuns.ConversationsAreComplete` | services/api/main.py:288-327 | In every such run the agent texts of an idle buyer's log are exactly the bodies sent to that buyer, in order, and the log is complete pairs, buyer first, but for one last message whose send failed |
| `ConversationRuns.StoredHistoryPairedIff` | src/sample/memory/buyer.py:54-58 | The stored part of a paired log is itself complete pairs exactly when `max_items` is even, non-positive or not exceeded |
| `ConversationRuns.OverlapBreaksPairs` | services/api/main.py:292-299 | Two overlapping messages of one buyer leave two buyer turns in a row |
| `ConversationRuns.FailedSendBreaksPairs` | services/api/main.py:316-318 | A message whose send fails and the buyer's next message leave two buyer turns in a row |
| `ConversationOrder.AlternatesIff` | services/api/main.py:288-327 | Over all interleavings, with failing models and failing sends, a buyer's log alternates if and only if no message of that buyer was started while another was in flight or after one was left unanswered |
| `ConversationSends.StepBalances` | services/api/main.py:316-327 | Every step keeps, for every number and every text, the bodies sent equal to the agent texts remembered plus those sent and not remembered yet |
| `ConversationSends.RepliesAreThoseSent` | services/api/main.py:288-327 | Over all interleavings, with overlapping messages and failing sends, an idle buyer's agent texts are a permutation of the bodies sent to it |
| `ConversationReplies.SentBodiesAreAnswers` | services/api/main.py:303-318 | Over all interleavings, with overlapping messages and failing sends, each body sent is the text of the model's answer to the prompt that its own turn had read off the log when it asked, or the apology exactly when the model failed on it, and goes to that turn's sender under its tenant's id |
| `ConversationRuns.TurnPromptSays` | src/sample/agent/loop.py:80-111 | On any logs and any store the prompt is the template with the block of the cited facts, the last `min(history_turns, max_items)` turns of the full log under their speakers, and the inbound text |
| `ConversationRuns.PromptReadsTheLog` | src/sample/agent/loop.py:105-111 | While a message is in flight its prompt has two messages more than the recalled history and ends in two equal messages exactly when `min(history_turns, max_items)` is positive |
| `ConversationRuns.ProvisionedTenantsAreADirectory` | src/sample/client.py:33-35 | In every provisioning run whose phone writes go to colon-free slugs, routable tenants have distinct, colon-free slugs, so no two of them share a conversation |
| `ConversationRuns.IsolatedIff` | src/sample/memory/buyer.py:7-8 | Routable tenants never share a buyer id if and only if no routable slug, followed by a colon, begins another one |
| `ConversationRuns.PutKeepsIsolatedIff` | src/sample/client.py:33-35 | Storing a routable tenant, by whatever step, keeps that if and only if its slug is nested with no other routable tenant's |
| `ConversationRuns.PhoneWriteKeepsIsolatedIff` | services/api/main.py:183-186 | A phone write keeps it if and only if no other routable slug is nested with the slug of the tenant it goes to |
| `ConversationRuns.SignupKeepsIsolatedIff` | src/sample/onboarding/flow.py:97-105 | A signup keeps it if and only if no routable slug starts with the new slug and a colon |
| `Webhook.ParseMessages` | src/sample/whatsapp/webhook.py:49-70 | One message for each place in the document that holds a text and for no other, in document order, with the raw message's sender, body and id and the tenant's id |
| `Webhook.ExtractPhoneNumberId` | src/sample/whatsapp/webhook.py:34-46 | The first phone-number id in document order that is there and not empty; none exactly when every change has none or an empty one |
| `Webhook.InMemoryGateway.SendText` | src/sample/whatsapp/gateway.py:68-79 | Exactly the message is appended to the record |
| `Webhook.Endpoint.Receive` | services/api/main.py:271-328 | A delivery is handled if and only if it is signed and its first phone-number id resolves; then logs, sends and model calls are those of handling its messages one after the other for exactly that tenant, and the answer counts them; otherwise nothing changes and the answer says which check failed |
| `Webhook.Endpoint.HandleMessage` | services/api/main.py:289-327 | One message is the four steps of its turn; the body sent is the model's answer to the prompt read off the log and the tenant's facts, or the apology exactly when the model fails |
| `Webhook.DeliveriesKeepConversations` | services/api/main.py:288-327 | Every delivery without a message of a buyer who is owed a reply keeps the conversation invariant |
| `Webhook.OneMessage` | services/api/main.py:289-327 | One message makes one send, of the model's answer or of the apology exactly when the model fails, and one buyer/agent pair with the sent text, and touches no other buyer |
| `Webhook.SendsMatchMessages` | services/api/main.py:288-328 | Sends match the parsed messages one for one, in order, and the last sent text ends its buyer's conversation |
| `Webhook.BodiesAreAnswers` | services/api/main.py:288-318 | In a delivery the `i`-th body sent is the text of the model's answer to the `i`-th message's prompt, asked in the state that the messages before it leave, or the apology exactly when the model fails on it |
| `Webhook.OwnFactsDecideDeliveries` | services/api/main.py:288-328 | On two stores that hold the same facts of the tenant a delivery leaves the same logs, sends and model calls |
| `Webhook.ConversationsGainExchanges` | services/api/main.py:288-327 | Every conversation gains exactly one pair for each of its messages, in order, whose agent turn is the body sent for that message |
| `Webhook.DeliveriesAreIsolated` | services/api/main.py:288-327 | A delivery for one tenant changes no conversation of another slug or another number |
| `Base64Url.DigitsShape` | src/sample/security/crypto.py:92 | Unpadded output is over the URL-safe alphabet and its length never leaves one digit over |
| `Base64Meaning.DigitIsTable` | src/sample/security/crypto.py:92 | Encoding uses the URL-safe table of section 5 of RFC 4648, written out |
| `Base64Meaning.ValueIsTable` | src/sample/security/crypto.py:96 | Decoding reads a character as its position in the standard or the URL-safe table, and no other character |
| `Base64Meaning.UrlDigitsAre` | src/sample/security/crypto.py:23-25 | The characters of unpadded output are those of the URL-safe table |
| `Base64Meaning.GroupIsTwentyFourBits` | src/sample/security/crypto.py:92 | Three bytes are the four digits of the same 24-bit number, high digits first, and the rest follows |
| `Base64Meaning.OneByteLeft` | src/sample/security/crypto.py:92 | One byte left over is two digits, with four zero bits at the end, and two pads |
| `Base64Meaning.TwoBytesLeft` | src/sample/security/crypto.py:92 | Two bytes left over are three digits, with two zero bits at the end, and one pad |
| `Base64Meaning.ForeignIsSkipped` | src/sample/security/crypto.py:96 | A character outside both tables, such as a line break, does not matter to decoding, wherever it stands |
| `Base64Url.PadRestores` | src/sample/security/crypto.py:63-67 | Stripping the padding leaves the digits and `_pad` restores exactly what was stripped |
| `Base64Url.UnpaddedRoundTrip` | src/sample/security/crypto.py:63-67 | Encoding, stripping, padding and decoding gives every byte string back |
| `Base64Url.UnpaddedIsInjective` | src/sample/security/crypto.py:92 | Different byte strings have different unpadded encodings |
| `Base64Url.UnpaddedDecodesIff` | src/sample/security/crypto.py:94-98 | A string over the URL-safe alphabet decodes after `_pad` exactly when its length is not one more than a multiple of four, to as many whole bytes as its digits have bits for |
| `TokenCipher.KeyRoundTrip` | src/sample/security/crypto.py:36-60 | A generated key is 43 characters of the URL-safe alphabet and one pad, and loads back with or without that pad |
| `TokenCipher.KeyLoadsIff` | src/sample/security/crypto.py:45-60 | A key loads if and only if it decodes after padding to exactly 32 bytes, and it is those bytes; everything else, an unset variable included, is the documented error |
| `TokenCipher.KeyLengthIff` | src/sample/security/crypto.py:45-60 | Over the URL-safe alphabet the strings that load are those of exactly 43 characters |
| `TokenCipher.DecryptInvertsEncrypt` | src/sample/security/crypto.py:86-108 | What was encrypted decrypts to itself under the same key and associated data |
| `TokenCipher.DecryptsIffSealed` | src/sample/security/crypto.py:94-108 | A token is accepted exactly when it frames a nonce and a ciphertext sealed under this key, nonce and associated data for valid UTF-8 |
| `TokenCipher.DecryptLeaksUnicodeErrorIff` | src/sample/security/crypto.py:94-108 | The codec's error escapes exactly on tokens that frame a ciphertext sealed under this key, nonce and associated data for bytes that are not UTF-8 |
| `TokenCipher.TokenIsAsBoundAsTheCiphertext` | src/sample/security/crypto.py:94-107 | Under another key or other associated data a token is rejected exactly when the AEAD rejects its ciphertext there |
| `TokenCipher.FreshNonceFreshToken` | src/sample/security/crypto.py:87-92 | Different nonces give different tokens, even for the same text |
| `TokenCipher.TokenIsUrlSafe` | src/sample/security/crypto.py:23-25 | Every token is over `[A-Za-z0-9_-]` |
| `SalesCloser.StageIs` | src/sample/skills/sales_closer.py:43-65 | After any number of messages of any conversation the stage is the one named by the languages of agreement, payment and escalation |
| `SalesCloser.ClosedIff` | src/sample/skills/sales_closer.py:43-65 | A conversation ends CLOSED if and only if it agrees (at once, or through an objections block without an escalation word up to a buying message), then has a payment message, then at least one more message |
| `SalesCloser.EscalatedIff` | src/sample/skills/sales_closer.py:51-58 | A conversation ends ESCALATED if and only if its second message doubts and an escalation word comes no later than the first buying message |
| `SalesCloser.RunsOnlyClimb` | src/sample/skills/sales_closer.py:43-65 | From any stage the rank never decreases and every change climbs, so there are at most five changes |
| `SalesCloser.TerminalIff` | src/sample/skills/sales_closer.py:87 | The stages reported as terminal are exactly those that no later conversation leaves |
| `SalesCloser.FeedingBackIsARun` | src/sample/skills/sales_closer.py:73-89 | A caller that starts without a stage and feeds `next_stage` back sees no failure, follows the machine's run, and gets the flags of the stage reached |
| `SalesWords.WordsDecide` | src/sample/skills/sales_closer.py:43-65 | For every ASCII message, in any mixture of cases, the next stage from each stage is given by which of the listed words it says |
| `SalesWords.DoubtAnywhere` | src/sample/skills/sales_closer.py:47-50 | In any message, whatever stands around it, each doubting word leads from PRESENT to OBJECTIONS |
| `SalesWords.EscalateAnywhere` | src/sample/skills/sales_closer.py:51-55 | Each escalating word leads from OBJECTIONS to ESCALATED, whatever else is said |
| `SalesWords.BuyAnywhere` | src/sample/skills/sales_closer.py:56-58 | Each buying word, the accented one included, ends the objections |
| `SalesWords.PaidAnywhere` | src/sample/skills/sales_closer.py:59-62 | Each paying word, the accented one included, leads from CONFIRM to NOTIFY |
| `SalesWords.SkillAnswers` | src/sample/skills/sales_closer.py:73-89 | One invocation on ASCII strings: stage names are taken in any case, an unknown one fails, and otherwise the answer's two names and two flags are given for each stage by the words of the message |
| `SalesWords.SkillDefaults` | src/sample/skills/sales_closer.py:74-80 | A missing or empty stage is the first one and a missing message is an empty one |
| `Hindsight.InMemoryHindsight.AddFact` | src/sample/ingestion/hindsight.py:40-42 | The fact goes to the end of the store |
| `Hindsight.InMemoryHindsight.Query` | src/sample/ingestion/hindsight.py:44-52 | The answer is the specification's, nothing for a blank text, with Python's meaning of a negative limit |
| `Hindsight.InMemoryHindsight.AllFor` | src/sample/ingestion/hindsight.py:54-55 | The answer lists the facts at exactly the positions that hold the tenant's, in insertion order |
| `Hindsight.ScopeSelects` | src/sample/ingestion/hindsight.py:46-50 | A scope selects exactly the positions of facts in scope, in increasing order |
| `Hindsight.TenantsDoNotInterfere` | src/sample/ingestion/hindsight.py:44-52 | A tenant-scoped query answers the same on all stores that hold the same facts of that tenant, and as an unscoped query on those facts alone |
| `Hindsight.AnswersAreMatches` | src/sample/ingestion/hindsight.py:44-52 | Answers hold only the tenant's matching facts, all of them when not cut, and an answer for a larger limit extends one for a smaller limit |
| `Hindsight.AnswerSelects` | src/sample/ingestion/hindsight.py:44-52 | A whole answer: the first of the facts in scope whose lower-cased content contains the trimmed, lower-cased text, in insertion order, as many as the limit leaves, with Python's meaning of a negative limit |
| `Ingestion.Preprocessor.Process` | src/sample/ingestion/preprocessor.py:69-94 | All chunks become facts, in order; an unsupported suffix or a failing extractor adds none |
| `Ingestion.FactsCarryTheTenant` | src/sample/ingestion/preprocessor.py:84-93 | One fact a chunk, in order, each with the job's tenant, the chunk's text and metadata, and the label, or the file's name when the label is missing or empty |
| `Ingestion.JobFactsAre` | src/sample/ingestion/preprocessor.py:76-94 | A job whose lower-cased suffix has no extractor raises, one whose extractor raises passes its error on, and any other yields exactly those facts for the chunks of its file |
| `Ingestion.DrainedFactsTell` | services/preprocessor/worker.py:51-63 | A drain stores a fact if and only if the extractor of some job that it handled finds a chunk which the fact tells, with that job's tenant and source |
| `Ingestion.IngestionQueue.Take` | services/preprocessor/worker.py:33-34 | The oldest job is taken and the rest keep their order |
| `Ingestion.Drain` | services/preprocessor/worker.py:43-63 | The drain ends, and store, queue and result are those of the fold over the queue |
| `Ingestion.DrainHandlesAPrefix` | services/preprocessor/worker.py:51-63 | Exactly the jobs before the first stop signal, raising job or end contribute, in order; a raising job is consumed and adds nothing; the count or the error is returned |
| `Ingestion.FactsOfTenant` | services/preprocessor/worker.py:51-63 | A tenant's share of the facts of a list of jobs is the facts of its own jobs in the list |
| `Ingestion.HandledIsFirstRaising` | services/preprocessor/worker.py:51-63 | Without a stop signal a drain handles everything exactly up to the first job that raises |
| `Ingestion.TenantsDrainIndependentlyIff` | services/preprocessor/worker.py:51-63 | After a mixed drain a tenant's facts are those of a drain of its own jobs if and only if its jobs between the points where the two drains end yield none, for all stop signals |
| `Ingestion.AnswersAfterDrain` | src/sample/ingestion/hindsight.py:44-52 | Under that condition all its queries answer the same as well |
| `Ingestion.OthersOnlyDelay` | services/preprocessor/worker.py:51-63 | Without stop signals a tenant never gets more from a mixed drain than from its own: what it gets is a prefix |
| `Ingestion.RaisingJobStarvesOthers` | services/preprocessor/worker.py:55-61 | One tenant's raising job leaves the next tenant's job in the queue and that tenant without facts |

## Left out

- `RedactionRegex.ScannerIsTheRegex`: letters, digits, word characters and case folding are ASCII, because the patterns' non-ASCII case partners and word characters are Unicode table data.
- `LogFilter.Redact`: pattern lists other than selections of the four default ones, and patterns without a group, are not modelled.
- `ConversationRuns.ConversationsAreComplete`: needs one buyer's messages not to overlap and none to follow an unanswered one; `AlternatesIff` proves that alternation fails otherwise, and `RepliesAreThoseSent` says what still holds.
- `Webhook.Endpoint.Receive`: the in-memory gateway never fails; a failing send is the step `Drop` of `Conversation`. Handling is uninterrupted here; interleavings are the subject of `Conversation`. A payload with several phone ids is attributed to the first id's tenant, as in the source.
- `EventBus.InMemoryEventBus.Publish`: this sequential method has handlers that subscribe but neither publish nor raise; `EventOrder` has all of these. `by_type` is a one-line filter and is left out.
- `TokenCipher.DecryptInvertsEncrypt`: the AEAD is ideal (it opens exactly what it sealed); AES-GCM itself, HMAC signatures and constant-time comparison are not modelled.
- `Ingestion.Drain`: jobs that are put while another job is being processed, which the source drains too, facts of other producers arriving during one job's processing, and the long-running `run_forever` loop with its polling, are not modelled.
- `SalesCloser.FeedingBackIsARun`: the stage prompts are fixed texts and are not part of the answer.
- Metadata and timestamps of interactions, events and outbound messages carry no logic. Tenant ids are parameters assumed fresh.
- HTTP routing, JSON typing of payloads, rate limiting, CORS, environment variables, the dashboard and the infrastructure scripts.
- The Kapso, OpenRouter, Honcho and Postgres adapters are foreign calls; the model port is an arbitrary function that may fail.
- The SOUL template is a parameter that renders a tenant or does not; its text is not modelled.
- `health`, `list`, the skill registry, the lead qualifier, the catalog lookup, the goal judge, the extractors and the command line would add only easy members.
