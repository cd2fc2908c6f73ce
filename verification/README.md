# NoirPlan bookkeeping core, in Dafny

NoirPlan is a browser tool that helps a host plan a murder-mystery party. A language model
writes the story, the suspects, the timeline, the clues, the dossiers and the audit. Everything
around those requests is deterministic, and that is what this project models:

- the single working document (`MysteryData`) and its shallow-merge update;
- the document's default, its restore from storage, and the reset;
- the seven-stage navigation;
- how each stage turns a backend reply into a document update;
- the two loops that write dossiers one by one and commit after every step;
- the busy flags that keep at most one generation in flight;
- the retry policy wrapped around every backend request.

Every backend request is an oracle parameter. An `Outcome<T>` is either `Ok(value)` or
`Err(status)`. A run of several requests is a function from the request's ordinal number to its
outcome, so the model quantifies over every possible sequence of backend answers.

## Layout

One module per source file:

| module | file | source |
|---|---|---|
| `Types` | types.dfy | `types.ts` |
| `Seqs` | seqs.dfy | the filter-by-id shared by the delete handlers |
| `Gateway` | gateway.dfy | `services/geminiService.ts` |
| `App` | app.dfy | `App.tsx` |
| `StoryBuilder` | story_builder.dfy | `components/StoryBuilder.tsx` |
| `CharacterManager` | character_manager.dfy | `components/CharacterManager.tsx` |
| `BlueprintManager` | blueprint_manager.dfy | `components/BlueprintManager.tsx` |
| `ClueManager` | clue_manager.dfy | `components/ClueManager.tsx` |
| `DossierManager` | dossier_manager.dfy | `components/DossierManager.tsx` |
| `AuditManager` | audit_manager.dfy | `components/AuditManager.tsx` |

Records of the source become datatypes:

- `MysteryData` becomes `Mystery`. An absent `killerId`/`saboteurId` and a null report are `None`.
- A `Partial<MysteryData>` becomes `MysteryPatch`, with one `Option` per key. The keys that may be
  set to absent or null carry a nested `Option`.

`Field`, `Get`, `PatchGet` and `Keys` describe a document key by key. With them, "this update
touches only these keys" is stated by `SameOutside` without reference to the merge's own body.

State that the source changes in place becomes classes:

- `App.Store` holds the document, the current view, the Lucky run's current step, and the two
  storage entries. Its invariant `Valid()` says that restoring from storage at any moment gives
  back the current document and view: the two persistence effects keep storage in step.
- `DossierManager.Panel` and `AuditManager.Panel` hold the components' busy flags.
- The handlers of the two panels and the Lucky run are methods: each sets its flag, takes the
  oracle's replies, commits through `Store.Update`, and clears the flag.
- The draft, refine, cast, timeline, clue and edit handlers change no state of their own. Each is
  a function from the document and the oracle's reply to the patch it commits.
- `DossierManager.Panel.FleshAll` walks a copied `array` of characters, as the source walks its
  copied list.

The two dossier loops and the retry loop are methods with loop invariants. Each is proved
against a recursive specification function:

- `GenerateWithRetry` against `Retry`;
- `FleshAll` against `FleshAllRun`;
- Lucky's loop against `Progress`, stopped at `Reached`, the first failing reply.

The lemmas about those functions carry the source's promises.

## Model

| member | source | states |
|---|---|---|
| `Types.ViewFromName` | types.ts:71-79 | a string is accepted iff it is the value of one of the seven views, and the view found is the one with that value |
| `Types.MergeCharacter` | components/CharacterManager.tsx:33 | `{...c, ...u}`: each of the 13 fields takes the changes' value when they carry one and keeps the character's otherwise; no changes give back the character |
| `App.UpdateDataFieldwise` | App.tsx:51 | after a merge, every key present in the partial holds the partial's value and every omitted key holds its old value |
| `App.UpdateDataChangesOnlyKeys` | App.tsx:51 | a merge leaves the document unchanged outside the partial's keys |
| `App.UpdateDataComposes` | App.tsx:51 | two successive merges equal one merge of their combination, where the later value wins; its keys are the union of both; the empty partial is the identity |
| `App.CastPatch` | App.tsx:94 | a `{ characters }` update has exactly one key, holding the given list |
| `App.InitialMystery` | App.tsx:28-41 | a parsed blob is used as-is; a missing or unparsable one gives the default: no characters, clues or beats, null report, no roles, empty timeline, 6 guests |
| `App.InitialView` | App.tsx:43-46 | a saved view is adopted iff it names one of the seven views; otherwise the view is SETUP |
| `App.NavigationFollowsSteps` | App.tsx:129-155 | the selector lists the seven views once each in the order Concept, Casting, Timeline, Clues, Dossiers, Audit, Print; "next" and "back" move one step along it and undo each other |
| `App.ConceptPatchKeys` | components/StoryBuilder.tsx:59-66 | the concept update has exactly the six keys title, victimName, environment, coreStory, generalParties, twist |
| `App.Prepared` | App.tsx:93 | marking a cast unfleshed keeps its length, and each entry is the original with `isFleshed` cleared and every other field kept |
| `App.PreparedSkeletons` | App.tsx:93 | fresh skeletons are already unfleshed, so preparing them changes nothing |
| `App.Fleshed` | App.tsx:111 | a written dossier is fleshed; blurb, background, relationships, connection and both rounds come from the reply where it carries them; id, name, gender, archetype, motive and secrets are kept |
| `App.ProgressShape` | App.tsx:107-113 | every intermediate Lucky commit has the cast's length and ids in order; exactly its first m entries are fleshed; the last commit has every character fleshed |
| `App.WrittenNext` | App.tsx:110-112 | pushing the next dossier onto `fullCharacters` extends the written prefix by exactly that character's dossier |
| `App.Store.constructor` | App.tsx:24-49 | startup adopts the restored document and view, and storage then agrees with both |
| `App.Store.Update` | App.tsx:48-51 | the document becomes the merge of the old one with the partial; view and step are untouched; storage stays in step |
| `App.Store.SetView` | App.tsx:49 | the view changes and is saved; the document is untouched |
| `App.Store.NewMystery` | App.tsx:53-68 | only after confirmation: the default document, SETUP, both storage entries removed, which still restore to the same state; without confirmation nothing changes |
| `App.Reached` | App.tsx:106-113 | the number of dossier requests that succeed before the first failure: every reply before it succeeds, and the one at it fails unless all n succeeded |
| `App.Store.FleshInOrder` | App.tsx:106-113 | the dossier loop commits the dossiers written before the first failing reply, followed by the untouched skeletons; it finishes iff every reply succeeds; only the characters change |
| `App.Store.LuckyRest` | App.tsx:96-113 | timeline, clues and dossiers are committed in that order; a failed timeline keeps the old timeline and clues, a failed clue request keeps the old clues; the dossiers written before the first failing reply stay; the view is kept |
| `App.Store.Lucky` | App.tsx:70-124 | see the list below this table |
| `Gateway.GenerateWithRetry` | services/geminiService.ts:7-15 | the retry loop yields exactly the recursive wrapper's outcome and waits, with at most 3 waits |
| `Gateway.RetryShape` | services/geminiService.ts:7-14 | at most `retries` waits, doubling from the first delay; every earlier attempt failed with 429 or ≥500; the result is the last attempt's outcome unchanged; it stopped on success, on a status that is not retried, or with the budget spent |
| `Gateway.GatewayPolicy` | services/geminiService.ts:7-13 | at most 3 retries, with waits of 2000, 4000 and 8000 ms in that order; a success is returned and a final error is rethrown unchanged |
| `Gateway.TwoRetryableFailuresThenSuccess` | services/geminiService.ts:7-11 | two retryable failures and then a success give that success after waits of 2000 and 4000 ms |
| `Gateway.NonRetryableFailsFast` | services/geminiService.ts:8-13 | a failure with a status that is not retried is rethrown at once, without waiting |
| `Gateway.Skeletons` | services/geminiService.ts:145-150 | one skeleton per reply entry, in order, keeping id, name, gender, archetype and motive; narrative fields and both rounds are empty and isFleshed is false |
| `Gateway.SkeletonsKeepEntries` | services/geminiService.ts:145-146 | the backend's casting fields can be read back from the skeletons unchanged |
| `Gateway.WithDossier` | services/geminiService.ts:268 | blurb, background, relationships, connection and both rounds take the reply's value where it carries one and keep the old one otherwise; id, name, gender, archetype, motive, secrets and the fleshed flag are kept; an empty reply changes nothing |
| `Gateway.WithDossierIdempotent` | services/geminiService.ts:268 | merging the same reply twice equals merging it once |
| `Gateway.OtherGuests` | services/geminiService.ts:208 | the other-guests names are exactly the names of the cast members whose id differs from the character's |
| `Gateway.OtherGuestsInOrder` | services/geminiService.ts:208 | the list is built in cast order: the names for a split cast are those of the first part followed by those of the second, and one member contributes its name iff its id differs |
| `Gateway.OtherGuestsCount` | services/geminiService.ts:208 | with unique ids, the list has one name fewer than the cast |
| `Gateway.AuditDigest` | services/geminiService.ts:312 | one digest entry per character, in cast order, with its name and round-1 lists |
| `Gateway.FindById` | components/CharacterManager.tsx:38 | `find` returns the first character with the id, and nothing iff no character has it |
| `Gateway.ReportOf` | services/geminiService.ts:357 | a stored audit reply keeps its verdict and notes, and each issue keeps its id, description and suggestion, in order, and starts unfixed |
| `StoryBuilder.InitialForm` | components/StoryBuilder.tsx:16-20 | the form takes the document's theme, location and count where they are set, and otherwise exactly the defaults "Victorian Gothic Estate", "A decaying mansion in the moors" and 6; it never opens blank; details and suggestion start empty |
| `StoryBuilder.DraftPatch` | components/StoryBuilder.tsx:24-44 | a draft updates the document iff the request succeeds |
| `StoryBuilder.DraftEffect` | components/StoryBuilder.tsx:28-37 | a draft maps title, victim, atmosphere, incident, parties and twist onto title, victimName, environment, coreStory, generalParties and twist; it also sets theme and numGuests from the form, and touches nothing else |
| `StoryBuilder.ConceptRoundTrip` | components/StoryBuilder.tsx:50-66 | reading back a committed concept gives the same concept; committing the current concept changes nothing |
| `StoryBuilder.Refine` | components/StoryBuilder.tsx:46-74 | a blank suggestion makes no request and no update; otherwise the current concept is sent together with the suggestion; an update happens iff the request succeeds, and only then is the suggestion cleared |
| `StoryBuilder.RefineEffect` | components/StoryBuilder.tsx:59-66 | a refinement replaces the six concept fields with the reply and leaves theme, count, cast, clues, roles, beats and report unchanged |
| `StoryBuilder.BlankPadding` | components/StoryBuilder.tsx:47 | `trim` semantics: whitespace padding on either side never changes whether a text is blank, and a text followed by padding is blank iff both are |
| `StoryBuilder.BlankExamples` | components/StoryBuilder.tsx:47 | examples only: the empty text and " \t\n" are blank; " x " is not |
| `CharacterManager.GenerateCastPatch` | components/CharacterManager.tsx:16-29 | regenerating updates the document iff the request succeeds, and then only the character list |
| `CharacterManager.GenerateCastEffect` | components/CharacterManager.tsx:20-22 | the new list is the reply's skeletons in order, all unfleshed; killerId, saboteurId and every other field are untouched |
| `CharacterManager.UpdateChar` | components/CharacterManager.tsx:32-35 | the changes are merged into the characters with the id; every other character and the length are unchanged |
| `CharacterManager.UpdateCharKeepsIds` | components/CharacterManager.tsx:32-35 | an edit that does not set the id keeps every id in place, so unique ids stay unique |
| `CharacterManager.ToggleGender` | components/CharacterManager.tsx:37-42 | an unknown id gives no update; otherwise the list keeps its length and every other character |
| `CharacterManager.ToggleGenderFlips` | components/CharacterManager.tsx:37-42 | with unique ids, a toggle flips exactly that character's gender |
| `CharacterManager.ToggleGenderTwice` | components/CharacterManager.tsx:37-42 | toggling the same id twice restores the list; an unknown id changes nothing |
| `CharacterManager.RemoveChar` | components/CharacterManager.tsx:44-46 | the result holds exactly the characters whose id differs |
| `CharacterManager.RemoveCharShape` | components/CharacterManager.tsx:44-46 | removal distributes over a split of the list, so the others keep their relative order; an absent id changes nothing |
| `CharacterManager.RemoveCharCount` | components/CharacterManager.tsx:45 | with unique ids, removing a listed id drops exactly one entry |
| `CharacterManager.RemoveKeepsRoles` | components/CharacterManager.tsx:44-46 | removal commits only the list; killerId and saboteurId stay as they were, even if they now name no one |
| `CharacterManager.NewSuspect` | components/CharacterManager.tsx:129-137 | the hand-added suspect has the given id, is female, and is an unwritten skeleton |
| `CharacterManager.AddSuspect` | components/CharacterManager.tsx:127-138 | adding is offered iff 0 < count < 12, and appends one suspect at the end with the list before it unchanged |
| `CharacterManager.AddSuspectKeepsInvariants` | components/CharacterManager.tsx:127-138 | adding never exceeds 12 suspects, and a fresh id keeps ids unique |
| `CharacterManager.CanProceedAfterCasting` | components/CharacterManager.tsx:151 | a non-empty casting enables "next", and adding a suspect keeps it enabled |
| `BlueprintManager.OrEmpty` | components/BlueprintManager.tsx:19 | a missing role is sent as the empty string and a present one as itself |
| `BlueprintManager.TimelineRequestFor` | components/BlueprintManager.tsx:19 | the request carries the incident, the cast, the environment and both roles, with missing roles as "" |
| `BlueprintManager.TimelinePatch` | components/BlueprintManager.tsx:16-27 | an update happens iff the request succeeds, and it has the single key timeline |
| `BlueprintManager.TimelineEffect` | components/BlueprintManager.tsx:19-24 | generating changes the timeline and nothing else; after loading, "next" is enabled iff the timeline is non-empty; a failure makes no update |
| `ClueManager.InitialTools` | components/ClueManager.tsx:15 | the tools box opens with the document's tools, or the built-in default when they are empty; it is never blank |
| `ClueManager.ToolsPatch` | components/ClueManager.tsx:77-80 | editing the tools commits exactly the key clueTools, with the edited text |
| `ClueManager.GeneratePatches` | components/ClueManager.tsx:17-31 | generation always commits the tools first, and commits the clues second only on success |
| `ClueManager.GenerateEffect` | components/ClueManager.tsx:21-28 | afterwards the document holds the box's tools; the clue list is the reply on success and unchanged on failure; nothing else changes |
| `ClueManager.DeleteClue` | components/ClueManager.tsx:33-35 | the result holds exactly the clues whose id differs |
| `ClueManager.DeleteClueShape` | components/ClueManager.tsx:34 | deletion keeps the remaining clues in order and drops exactly as many clues as carry the id |
| `ClueManager.CanProceedAfterGenerate` | components/ClueManager.tsx:130 | a failed generation leaves the gate as it was; a successful one enables "next" iff it returned clues |
| `DossierManager.RequestFor` | components/DossierManager.tsx:20-28 | the killer flag is exactly `id == killerId` and the saboteur flag exactly `id == saboteurId`; incident, timeline, twist and the whole cast come from the document |
| `DossierManager.FleshOne` | components/DossierManager.tsx:30 | single fleshing replaces exactly the entries with the id by the fleshed dossier; the other entries and the length are unchanged |
| `DossierManager.FleshOneAt` | components/DossierManager.tsx:30 | with unique ids that is one slot; ids stay unique, and fleshing the last unfleshed character makes the cast complete |
| `DossierManager.FleshFromShape` | components/DossierManager.tsx:40-66 | Generate All keeps length, ids and order; each slot ends untouched or fleshed; a finished run leaves every slot fleshed |
| `DossierManager.FleshFromKeeps` | components/DossierManager.tsx:44-50 | Generate All leaves already-fleshed characters, and the slots it has passed, exactly as they were |
| `DossierManager.FleshFromRequests` | components/DossierManager.tsx:44-52 | Generate All makes at most one request per slot, and never one for a character already fleshed |
| `DossierManager.FleshFromStops` | components/DossierManager.tsx:40-66 | Generate All never rolls back: the run stops at some slot k, k being the end iff it finished; a stop slot is unfleshed and its reply failed; before k every unfleshed slot holds `Fleshed` of its own reply and every fleshed one is kept; from k on every slot is unchanged |
| `DossierManager.FleshFromNothingToDo` | components/DossierManager.tsx:46 | on a list with nothing left to write, Generate All makes zero requests and changes nothing |
| `DossierManager.FleshAllProperties` | components/DossierManager.tsx:44-60 | a finished run fleshes every character, enables "next", and makes a second run a no-op with zero requests; an all-fleshed cast needs zero requests |
| `DossierManager.Panel.constructor` | components/DossierManager.tsx:15-16 | the panel starts idle |
| `DossierManager.Panel.FleshDossier` | components/DossierManager.tsx:17-36 | callable only when idle; sends the request for the character; commits the by-id replacement on success and nothing on failure; ends idle |
| `DossierManager.Panel.FleshAll` | components/DossierManager.tsx:38-66 | callable only when idle; the stored characters become the run's result, including partial progress when a request fails; the requests are the run's requests; ends idle |
| `AuditManager.AnalysisPatch` | components/AuditManager.tsx:18-32 | analysis updates the document iff both requests succeed, and then exactly the report and the beats together |
| `AuditManager.AnalysisEffect` | components/AuditManager.tsx:22-25 | a successful analysis stores the reply as the report with every issue open, and stores the beats; nothing else changes |
| `AuditManager.MarkFixed` | components/AuditManager.tsx:40-42 | the issues with the id are marked fixed and take the summary as suggestion; every other issue, the order and the length are unchanged |
| `AuditManager.FixReport` | components/AuditManager.tsx:44-50 | a missing report stays missing; otherwise the verdict is kept, the issues are marked, and the notes gain the "(Fixed: …)" marker |
| `AuditManager.FixPatch` | components/AuditManager.tsx:44-50 | a fix updates exactly the timeline, to the reply's timeline, and the report, to the old report with the issue marked fixed and the summary recorded |
| `AuditManager.FixEffect` | components/AuditManager.tsx:40-50 | a fix replaces the timeline even without a report; the stored report is the old one with the issue marked fixed and the summary recorded; the old notes are a prefix of the new; the issue count is kept; nothing else changes |
| `AuditManager.ApplyFixesProperties` | components/AuditManager.tsx:49 | after N fixes the notes are the original followed by the N markers in fix order; verdict, issue count and ids are kept; a fixed issue stays fixed |
| `AuditManager.FixClosesOne` | components/AuditManager.tsx:40-42 | fixing an open issue with a unique id closes exactly that issue |
| `AuditManager.LowerChar` | components/AuditManager.tsx:167 | an upper-case ASCII letter becomes the letter 32 code points later; every other character is kept |
| `AuditManager.Lower` | components/AuditManager.tsx:167 | lower-casing keeps the length and lowers each letter |
| `AuditManager.LowerIdempotent` | components/AuditManager.tsx:167 | lower-casing twice equals lower-casing once |
| `AuditManager.GuiltHooks` | components/AuditManager.tsx:167 | the guilt-hook list is exactly the disclosures whose lower-case form contains poison, tamper, stab, blood, weapon, took or left |
| `AuditManager.GuiltHooksAppend` | components/AuditManager.tsx:167 | the filter distributes over concatenation, so it keeps the disclosures' order |
| `AuditManager.GuiltHookIgnoresCase` | components/AuditManager.tsx:167 | a disclosure is a hook iff its lower-cased form is |
| `AuditManager.GuiltHookInContext` | components/AuditManager.tsx:167 | a disclosure containing a hook as any substring is a hook, since `includes` looks anywhere in the lower-cased text |
| `AuditManager.GuiltHookExamples` | components/AuditManager.tsx:167 | examples only: "Hid the WEAPON" is a hook; "Hid a fox" is not |
| `AuditManager.BeatBadgeBoundary` | components/AuditManager.tsx:200 | three clues pass the Rule-of-Three badge and two do not; adding a clue never fails a passing beat |
| `AuditManager.Panel.constructor` | components/AuditManager.tsx:15-16 | the panel starts neither loading nor fixing |
| `AuditManager.Panel.RunAnalysis` | components/AuditManager.tsx:18-32 | sends the current document; commits the combined update iff both replies succeed; clears loading |
| `AuditManager.Panel.FixIssue` | components/AuditManager.tsx:34-57 | callable only for an open issue while nothing is loading or being fixed; sends the document and the issue's description; commits the fix on success and nothing on failure; fixingId is always cleared |
| `AuditManager.Panel.Mount` | components/AuditManager.tsx:59-63 | opening the stage runs the audit only when there is no report; a successful audit commits the report and the beats through the analysis update; otherwise the document is unchanged; view and step are kept |

`App.Store.Lucky` (App.tsx:70-124) is callable only when no run is in progress, and both role
picks must index the cast. It ensures:

- The run succeeds iff the concept request succeeds, the cast is non-empty, and the timeline,
  clue and dossier requests all succeed. A successful run ends on OUTPUT; a failed one keeps the
  view and always clears the step.
- A failed concept request leaves the document unchanged.
- A committed concept is the nine-key merge of App.tsx:76-86: title, victimName, environment,
  coreStory, generalParties and twist from the reply, and theme, numGuests and clueTools from the
  run's settings. It holds even when a later step fails; when the cast request fails or
  returns no one, it is the whole change.
- Once the cast is committed, the document is that merge with:
  - killerId and saboteurId the ids of the picked members, which may be the same member;
  - the timeline from the reply, or the old one when the timeline request fails;
  - the clues from the reply, or the old ones when the timeline or clue request fails;
  - the skeletons when the timeline or clue request fails, and otherwise the dossiers written
    before the first failing dossier reply (`Reached`) followed by the untouched skeletons.
- Beats and report are never touched.

## Left out

- Prompt texts, model names, response schemas and `JSON.parse` of replies are not modelled:
  each backend request is an oracle whose `Ok` value is already well-typed. The `"[]"`/`"{}"`
  fallbacks for an empty reply are covered by arbitrary oracle values.
- The real `setTimeout` waits are not modelled. The retry waits are recorded as a sequence of
  delays. The 1000 ms pause between Generate All steps is not represented.
- `Promise.all` parallelism appears only as "both succeed or nothing is committed".
- Concurrency is left out. Interleavings during an `await` are not modelled: each handler runs
  from start to commit as one step. In particular, "Re-run audit" stays enabled while a fix is
  in flight, and a fix then commits a report built from the document it started with.
- `localStorage` is two abstract fields of `App.Store`. After a reset, the persistence effect
  writes the default document back. `Valid()` holds either way, since both restore to the
  default document and SETUP, but that second write is not represented.
- `Math.random` is replaced by parameters: the two role picks in Lucky and the id of a manual
  suspect. Uniqueness of the random id is a hypothesis of `AddSuspectKeepsInvariants`, not a
  guarantee.
- Unique character ids are a hypothesis of the lemmas that need them (`UniqueIds`). The source
  never checks them, because the backend chooses them.
- `AuditManager.Lower`: only ASCII letters are lowered. The full Unicode mapping of
  `toLowerCase` is not modelled.
- `StoryBuilder.Refine`: the blank test treats as whitespace only space, tab, line feed, carriage
  return, vertical tab, form feed, no-break space and the byte-order mark. The other Unicode
  spaces that `trim` removes are not.
- `StoryBuilder.InitialForm`: the suspect count is an integer. `parseInt` yielding `NaN`, and
  `NaN` being falsy, are not modelled.
- Only the handlers' state changes are modelled: the loading message texts, alerts, console
  output, tabs, and the rendering of every stage are left out. The print stage (`OutputView`)
  has no logic and is not modelled.
- The inline field edits of the setup and casting stages are single-key updates. They are
  covered by `App.UpdateDataFieldwise` and `CharacterManager.UpdateChar`, and have no members of
  their own.
- The audit digest is modelled as a list of entries, not as the joined prompt string.
