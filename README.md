# Tactician dice roller: roll evaluation and pool state

This project is a Dafny model of the engine behind the Tactician dice-pool
roller (`App.tsx`, with the record types of `types.ts`). It covers:

- **Dice pools.** Each pool holds entries that say which die to roll, how
  many times, and how to judge each face. A judging rule is "at least",
  "at most", "exactly" or "match any of these targets", or the pool has no
  rule.
- **Two roll modes.** A standard pool rolls every entry's dice. A blind-bag
  pool pulls coloured tokens out of a bag without putting them back, and
  rolls its first entry's die once for each token.
- **Custom dice.** A registry of user-defined dice whose faces are free text.
- **Roll records.** Each roll writes a history event. A merged global
  history shows the newest events of all pools.
- **Supporting pieces.** The editor's face list, and the migration of old
  saves that kept one rule per pool.

Randomness comes from a sequence of draws given as a parameter, where the
source calls `Math.random`:

- A standard roll uses one draw per die.
- A blind pull uses two draws: first the position of the token in the
  bag, then the face.

Identifiers and the clock are parameters too: `generateId` gives the
`eventId`, `poolId`, `entryId` and side ids, and `Date.now` gives `now`.
React's `setPools(prev => ...)` updates are functions from the old pool list
to the new one.

The files, one Dafny module each:

- `wrappers.dfy`: the `Option` type.
- `text.dfy`: trim and upper-case, number printing and parsing, and code-unit
  string order.
- `types.dfy`: the records of `types.ts` and the constants of `App.tsx`.
- `threshold.dfy`: `calculateIsSuccess`.
- `registry.dfy`: the custom-dice registry handlers.
- `bag.dfy`: bag definitions and `refillBag`.
- `roll.dfy`: `rollPool` in both modes.
- `history.dfy`: `globalHistory`.
- `faces.dfy`: `getEntryUniqueFaces`.
- `store.dfy`: the pool and entry handlers, `deleteCustomDie`, `rollPool`
  by id and `rollAllPools`.
- `migration.dfy`: the legacy-save migration.
- `seqs.dfy`: a generic `filter`.

Where the source holds a loop, the model holds a loop:

- the standard roll loop
- the blind-bag pull loop
- the refill loop
- the face collection loop
- the sort
- `rollAllPools`

The roll loops, the refill loop, the face collection loop and
`rollAllPools` are each proved equal to a function, and the properties are
proved about that function. The sort (`Faces.SortFaces`) and the face list it
returns (`Faces.GetEntryUniqueFaces`) are not tied to one function. They are
proved to return a permutation of their input in which each face compares no
greater than the next.

Three quirks of the source are kept on purpose:

- **The total reads text faces as numbers.** A roll's total reads a text face
  as a number when it starts with one (`parseFloat`), and as 0 otherwise.
- **A missing custom die rolls by its id read as a number.** An entry can
  name a custom die that no longer exists. Its id then goes through
  `parseInt`, and what happens depends on how the id starts:
  - An id that starts with a letter does not parse. It rolls as a d6, but
    the face list of that entry is empty.
  - An id that starts with digits rolls with as many sides as its whole run
    of leading digits reads: "4e5f…" is a d4, "05ab…" a d5 and "012…" a d12
    (`Roll.SidesReadLeadingDigits`).
  - An id whose leading digits read as 0, such as "0ab…" or "00f…", or a die
    type such as "-2", reads as 0 sides or fewer. It rolls a face of at most 1 (`Math.floor(Math.random() * 0) + 1`
    is 1), and its face list is empty (`Faces.RolledFaceIsListed`,
    `Faces.ZeroSidedDieRollsOne`).
- **The editor and the roller disagree on "custom".** The entry editor treats
  a die type as custom by its shape: a string that is not one of
  "2","4",…,"20". The roller treats it as custom by looking it up in the
  registry. So a registered die with id "6" is rolled as that custom die,
  yet keeps a numeric rule (`Store.ShapeAndLookupDisagree`).

## Model

| member | source | states |
|---|---|---|
| Threshold.CalculateIsSuccess | App.tsx:300-319 | No rule gives no verdict, and every other rule gives one. What each rule means is stated by Threshold.MatchAnyMeaning and Threshold.NumericMeaning. |
| Threshold.MatchAnyMeaning | App.tsx:302-305 | "Match any" succeeds exactly when some target equals the face after trimming and upper-casing both. |
| Threshold.NumericMeaning | App.tsx:306-318 | With a numeric face, "at least", "at most" and "exactly" compare it with the threshold, and fail when the threshold is not a number. With a text face, "at least" and "at most" fail, and "exactly" compares the normalized texts. |
| Threshold.AtLeastAndAtMostIsExactly | App.tsx:307-312 | On a numeric face, "at least t" together with "at most t" holds exactly when "exactly t" holds. |
| Threshold.NumberAndItsTextClassifyAlike | App.tsx:302-312 | The text "n" is judged like the number n under every rule. |
| Threshold.MatchIgnoresCaseAndPadding | App.tsx:302-305 | The face "hit" matches the target "HIT ". |
| Text.LocaleCompare | App.tsx:398 | Returns 0 exactly on equal strings, and a negative value exactly when the first string is smaller. |
| Text.ParseNumber | App.tsx:336 | Gives a number exactly when a digit follows the leading white space and the optional sign; otherwise it gives none (NaN). |
| Text.ParseNumberReadsLeadingDigits | App.tsx:336 | An optional sign, a run of digits and any text not starting with a digit read as the signed value of the whole digit run, leading zeros included. |
| Text.ParseNumberSkipsPad | App.tsx:336 | White space in front of a text does not change how it reads. |
| Text.ParseIntToString | App.tsx:307 | Parsing the printed form of an integer gives the integer back. |
| Text.LexLessTransitive | App.tsx:398 | The text order used for faces is transitive. |
| Text.LexLessTotal | App.tsx:398 | Any two distinct strings are ordered one way or the other. |
| Registry.FindDie | App.tsx:329 | Finds a registered die whose id is the die type exactly when one exists. A numeric die type finds nothing. |
| Registry.FindDieIndex | App.tsx:329 | Returns the first die with that id, or none when no die has it. |
| Registry.AddCustomDie | App.tsx:239-248 | Appends one die, "Asset n+1", in the next preset colour. It has six faces whose texts are exactly "1" to "6", which read back as 1 to 6. The old registry is a prefix of the new one. |
| Registry.RemoveDie | App.tsx:250-257 | Drops every die with that id and keeps every copy of every other die, in their order. Looking up the id then finds nothing. |
| Registry.UpdateCustomDie | App.tsx:259-261 | Only the named die changes, and only its name and colour. |
| Registry.UpdateSideContent | App.tsx:263-267 | Only the named face of the named die changes, and only its text. |
| Registry.AddSideToDie | App.tsx:269-273 | The named die gains one face at the end, whose text is exactly the printed new face count, which reads back as that count. Other dice are unchanged. |
| Registry.AddedSideParses | App.tsx:271 | The text of an added face reads back as the new face count. |
| Registry.RemoveSideFromDie | App.tsx:275-279 | Drops the named face unless the die has a single face. The other faces keep their order. A rollable die stays rollable. |
| Registry.RemovingOneSideKeepsRollable | App.tsx:277 | Removing a face from a die with several faces leaves at least one face, with distinct ids. |
| Registry.AddThenRemoveSide | App.tsx:269-279 | Adding a face with a fresh id and then removing it gives the registry back. |
| Registry.ApplyTemplate | App.tsx:281-298 | The named die's faces become the template's faces with the given ids. Nothing else changes. |
| Registry.NumbersTemplateIsNumbered | App.tsx:284-286 | The "numbers" template writes the same faces as a newly added die. |
| Bag.Lookup | App.tsx:234 | Finds a colour's quantity exactly when the definition lists that colour. |
| Bag.RefillBag | App.tsx:134-140 | The live bag becomes the expansion of the definition. No other field changes. |
| Bag.ExpandCounts | App.tsx:134-140 | A refilled bag holds max(0, qty) copies of each defined colour, and nothing else. |
| Bag.ExpandLength | App.tsx:134-140 | A refilled bag's size is the sum of the clamped quantities. |
| Bag.UpdateQuantity | App.tsx:234 | The colour's quantity becomes max(0, qty). Every other colour keeps its quantity, and the colours stay distinct. |
| Bag.RefillAfterUpdate | App.tsx:231-237 | After an edit, a refill holds max(0, qty) of the edited colour and as many of every other colour as before. |
| Roll.StandardSides | App.tsx:336-337 | A numeric die type has its own number of sides. A text type has what `parseInt` reads from it, or 6 when it reads nothing. |
| Roll.SidesReadLeadingDigits | App.tsx:336-337 | A text die type starting with a run of digits has as many sides as that whole run reads ("05ab" has 5). |
| Roll.FaceValue | App.tsx:333-337 | A draw shows one of the custom die's face texts, or a number k whose k-1 a random floor can give for the side count: 1 to n for n > 0, at most 1 otherwise. |
| Roll.ResultColor | App.tsx:340 | The entry's own colour wins. Without one, the custom die's colour is used, and there is no colour only when neither exists. |
| Roll.PullCount | App.tsx:344-345 | The number of pulls is the smaller of the bag size and the total entry count (0 when that total is negative). |
| Roll.TotalCount | App.tsx:344 | With non-negative counts, the total is the number of draws a standard roll of the same entries makes. With counts of at least 1, it is at least the number of entries. |
| Roll.RemoveAt | App.tsx:351-352 | `splice(idx, 1)` shortens the bag by one and removes exactly one copy of the colour at `idx`. |
| Roll.RemoveAtSlices | App.tsx:352 | The splice leaves the colours before and after `idx`, in order. |
| Roll.RollPool | App.tsx:321-380 | One roll of a pool equals `Rolled`, the specification below. |
| Roll.DrawStandard | App.tsx:326-342 | The standard loop over entries produces the specified results. |
| Roll.DrawEntry | App.tsx:330-341 | The inner loop rolls `count` dice of one entry. |
| Roll.StandardRollShape | App.tsx:326-342 | A standard roll gives count results per entry, entry after entry, and leaves the bag alone. Each result of entry k carries k's die type, custom flag and verdict. Its value is a face of k's die: one of the custom die's faces, or a number in 1..sides (at most 1 when the side count is 0 or less). |
| Roll.DrawFromBag | App.tsx:344-363 | The pull loop produces the specified pulls and the specified remaining bag. |
| Roll.BlindPullPermutes | App.tsx:349-352 | The pulled colours plus the bag that remains are exactly the old bag, as a multiset. |
| Roll.BlindPullResults | App.tsx:354-362 | Every pulled result has a colour, the template's die type and custom flag, and the template's verdict. Its value is a face of the template's die: a side's text for a registered die, or a number in the range the side count allows. |
| Roll.BlindRollDrawsFromBag | App.tsx:344-363 | A blind roll pulls min(total count, bag size) results. The bag shrinks by that many, and no colour is lost or gained. Every result is judged with the first entry, and its value is a face of the first entry's die, as in standard mode. |
| Roll.FaceNumberOfText | App.tsx:366 | In the total, a text face that is a printed number counts as that number, and any other text counts as 0. |
| Roll.Sum | App.tsx:366 | The total of faces that all read as 0 or more is 0 or more, and the total of faces that all read as 0 (text that is not a number) is 0. |
| Roll.SumBounds | App.tsx:366 | When every face reads between lo and hi, the total lies between lo and hi times the number of results. |
| Roll.Successes | App.tsx:367 | Counts the successes. The count is 0 exactly when no result succeeded, and is the number of results exactly when all of them did. |
| Roll.PushEvent | App.tsx:378 | The new event goes first, followed by the old history, cut to 30 events. |
| Roll.Commit | App.tsx:365-378 | Stores the results, the time, the bag and a new event with the sum and successes. No other field changes. |
| Roll.RollKeepsNewestFirst | App.tsx:371-378 | A roll no earlier than every recorded event keeps the pool history newest first. |
| Faces.NumberFaces | App.tsx:392-393 | The faces of an n-sided die are exactly 1..n, in order. |
| Faces.Dedup | App.tsx:388-393 | A `Set` keeps each face once and loses none. |
| Faces.FaceCountOfStandard | App.tsx:392 | A numeric die type reads back as its side count. |
| Faces.Compare | App.tsx:395-399 | When both faces read as numbers, they compare as those numbers. Otherwise they compare in text order, and equal only when their texts are equal. |
| Faces.CompareFlips | App.tsx:395-399 | The comparator is antisymmetric in sign. |
| Faces.SortFaces | App.tsx:395-399 | The sort returns a permutation of its input in which each face compares no greater than the next. |
| Faces.GetEntryUniqueFaces | App.tsx:387-400 | Returns each face of the entry's die once, in sorted order. |
| Faces.AddSideFaces | App.tsx:390 | Adding the custom die's side texts to a set gives their first occurrences, in order. |
| Faces.AddNumberFaces | App.tsx:392-393 | Adding 1..sides to a set gives 1..sides in order, and nothing when the side count is 0 or less. |
| Faces.FaceListIsTheFaces | App.tsx:388-394 | The list has no duplicates and holds exactly the custom die's faces, or 1..n. |
| Faces.NumericFacesAscend | App.tsx:396-397 | When every face reads as a number, the list ascends numerically. |
| Faces.TextFacesAscend | App.tsx:398 | When no face reads as a number, the list ascends in text order. |
| Faces.RolledFaceIsListed | App.tsx:329-337 | Any face a roll can produce is in the face list, with two exceptions. A die type that is neither a registered die nor a number rolls as a d6 but lists no faces. A die type that reads as 0 sides or fewer rolls a face of at most 1 and lists no faces either. |
| Faces.ZeroSidedDieRollsOne | App.tsx:336-337 | A dangling id whose leading digits read as 0 ("0ab") rolls a 1 and has an empty face list. |
| History.AllEvents | App.tsx:385 | Holds every event of every pool's history, each as often as there. The first pool's events come first, in their order. |
| History.InsertByTime | App.tsx:385 | Inserting into a newest-first list keeps it newest first and adds exactly that event. |
| History.SortNewestFirst | App.tsx:385 | The sort returns a newest-first permutation of the events. |
| History.GlobalHistory | App.tsx:385 | Returns min(all events, 30) events, newest first, all taken from the pools. No event left out is newer than one kept. |
| History.SortKeepsTies | App.tsx:385 | The sort is stable: for every timestamp, the events stamped with it come out in the order they went in. |
| History.GlobalHistoryKeepsTiesInOrder | App.tsx:385 | Of the events sharing a timestamp, the global history keeps the ones listed first (pool order, then history order), in that order. |
| History.GlobalHistoryFromPools | App.tsx:385 | Every event in the global history belongs to some pool. |
| Store.AddPool | App.tsx:142-168 | Appends one pool: "Combat Pool", or "Logistics Bag" with no rule. It has a default d6 entry, five of each preset colour in its definition, and a full bag only in blind-bag mode. |
| Store.PresetColorsDistinct | App.tsx:38-41 | The ten preset colours are distinct. |
| Store.NewBagHoldsFiveOfEach | App.tsx:161-167 | A new blind bag holds 50 tokens, five of each preset colour. |
| Store.FreshPoolFirstRoll | App.tsx:142-168 | A new standard pool's first roll, with a draw x in 0..5, gives one d6 face x+1. It succeeds exactly when x+1 ≥ 4, and records one event whose sum is x+1 and whose success count matches. |
| Store.DeletePool | App.tsx:170-172 | Drops exactly the pools with that id and keeps every copy of every other pool, in their order. |
| Store.UpdatePool | App.tsx:174-176 | Renames the pools with that id. Nothing else changes. |
| Store.ResetBag | App.tsx:178-180 | The pool's bag becomes a refill holding the wanted number of each colour. Nothing else changes. |
| Store.UpdateBagDefinition | App.tsx:231-237 | Sets one colour's quantity to max(0, qty) in the definition. It leaves other colours and the live bag alone. |
| Store.ClearGlobalHistory | App.tsx:382 | Empties every pool's history. Nothing else changes. |
| Store.ClearedHistoryIsEmpty | App.tsx:382-385 | After clearing, the merged and global histories are empty. |
| Store.ClearResults | App.tsx:383 | Empties every pool's results and last-roll time. Nothing else changes. |
| Types.DefaultEntry | App.tsx:142-149 | A default entry has the given id and die type, count 1, no colour, "at least 4" and no targets. |
| Store.DefaultEntryVerdict | App.tsx:142-149 | A default entry accepts a face that reads as a number from 4 up, and rejects any other text. |
| Store.AddDiceEntry | App.tsx:186-191 | Appends a default entry: a d6 with count 1 and "at least 4". |
| Store.RemoveEntry | App.tsx:193-198 | Does nothing to a pool with at most one entry. Otherwise it drops exactly the entries with that id and keeps every copy of the others, in their order. |
| Store.RemoveDiceEntry | App.tsx:193-198 | Removes an entry from the named pool only. |
| Store.RemoveKeepsAnEntry | App.tsx:193-198 | With distinct entry ids, a pool never loses its last entry and loses exactly one. |
| Store.AddThenRemoveEntry | App.tsx:186-198 | Adding an entry and then removing it by its fresh id gives the pools back. |
| Store.Merge | App.tsx:205 | Every field the update carries replaces the entry's field, every other field and the id are kept. |
| Store.EditEntry | App.tsx:203-211 | The update is merged in. A die type shaped like a custom id keeps only "none" or "match any", and a numeric rule on it becomes "match any". Any other die type keeps the merged rule. |
| Store.UpdateDiceEntry | App.tsx:200-214 | Only the named entry of the named pool is edited. |
| Store.ShapeAndLookupDisagree | App.tsx:206 | A die type "6" keeps an "at least" rule when edited, yet rolls as a registered die with id "6". |
| Store.ToggleTarget | App.tsx:220-226 | A value already among the targets, after normalizing, is removed: every target of that form is dropped, and the others keep their order and their copies. Any other value is appended. |
| Store.ToggleFlipsMatch | App.tsx:220-226 | Toggling a value flips whether it is among the targets. |
| Store.ToggleTwiceRestores | App.tsx:220-226 | Toggling an absent value twice gives the targets back. |
| Store.ToggleFlipsSuccess | App.tsx:216-230 | On a "match any" entry, toggling a value reverses that value's verdict. |
| Store.ToggleEntryTargetValue | App.tsx:216-230 | Only the named entry's targets change. |
| Store.DeleteCustomDie | App.tsx:250-257 | Removes the die from the registry, and every entry naming it becomes a d6. Every other entry is unchanged. |
| Store.FindDieAfterRemove | App.tsx:250-257 | Every other die type finds the same die after a deletion. |
| Store.DeletedDieRollsAsD6 | App.tsx:250-257 | An entry that named the deleted die rolls as a plain d6. Every other entry rolls as before. |
| Store.RollPoolById | App.tsx:321-380 | Rolls exactly the pools with that id, each with its own draws. |
| Store.RollAllPools | App.tsx:384 | Rolls every pool once, each with its own draws. |
| Migration.MigrateEntry | App.tsx:77-82 | Fills only the rule fields the entry lacks, from the pool and then from the defaults: "at least", 4, no targets. A falsy pool threshold does not count. |
| Migration.MigratePool | App.tsx:75-89 | A pool with a pool-level rule and entries loses the pool-level fields and has every entry migrated. Other pools are unchanged. |
| Migration.MigratePools | App.tsx:75 | Migrates each stored pool. |
| Migration.MigrationIsIdempotent | App.tsx:75-89 | Migrating twice equals migrating once. |

## Left out

- Numbers are integers. `parseFloat` and `parseInt` are modelled as an
  optional sign followed by a digit prefix. Fractions, exponents,
  `Infinity` and hexadecimal prefixes are not modelled.
  - A text threshold or text face that starts with digits and goes on with
    a fraction or an exponent is read as its integer part: "2.5" reads as 2, so "at least 2.5" accepts a rolled 2,
    which the engine rejects.
  - The total reads "2.5" as 2, and "1e3" as 1.
  - A fraction without a leading digit, such as ".5" or "-.5", reads as no
    number (NaN), where `parseFloat` gives 0.5 and -0.5. So the face ".5"
    fails "at least 0" in the model though the engine accepts it, and the
    total adds 0 for it instead of 0.5.
- `trim` strips the ASCII blanks, U+00A0, U+2028, U+2029 and U+FEFF. It
  does not strip the other Unicode space separators (U+1680,
  U+2000–U+200A, U+202F, U+205F, U+3000). `toUpperCase` maps only a-z;
  other case mapping is not modelled.
- `localeCompare` is modelled as code-unit order (`Text.LexLess`).
  Locale collation is not modelled.
- Faces.SortFaces: the engine's `Array.prototype.sort` is replaced by a
  stable insertion sort. When numeric and text faces are mixed, the
  comparator is not a consistent order. The engine's output then depends on
  its algorithm, and the model promises only that each face compares no
  greater than the next.
- History.SortNewestFirst is an insertion sort, proved stable
  (`History.SortKeepsTies`). `Array.prototype.sort` is stable too, so events
  rolled in the same millisecond keep their merged order in both.
- Store.RollAllPools requires distinct pool ids. With repeated ids, the
  source rolls such a pool once per copy, which `Store.RollPoolById` covers
  one call at a time.
- Roll.RollPool requires draws in range (`Roll.RollFits`). It also excludes
  two cases where the source throws:
  - a blind-bag pool without entries while custom dice exist, where the
    source reads a field of `undefined`;
  - a custom die without faces, where `sides[0]` is `undefined`.
- Store.UpdatePool models only the `name` update the editor sends. The
  other `Partial<DicePool>` updates are not modelled.
- Store.EntryUpdate has no `id` field, so an update cannot change an entry's
  identifier.
- Registry.UpdateCustomDie models only the name and colour updates.
- A `bagDefinition` object is a sequence of colour slots with distinct
  colours, in insertion order. JavaScript lists integer-like keys first;
  colour strings never are integer-like, so this is not modelled.
- The migration's stored records use optional fields. JSON `null`, and
  fields of the wrong type, are not modelled.
- Rendering, `localStorage`, JSON, the sidebar resize handlers,
  `togglePoolHistory`, the custom-die editor selection and other UI state
  are not modelled.
- `generateId`, `Date.now` and `Math.random` become parameters.
