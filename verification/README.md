# A verified model of dftracer's aggregation, rules, generator and small state machines

This project states and proves, in Dafny 4.11, what the hardest parts of dftracer promise. `dafny verify dfyconfig.toml`
checks all of it.

- **Aggregation.** `StringTable`, `Interval` and `PackedAggregator` are classes with the program's own fields and loops:
  an open-addressing interner, hash chains threaded through a vector of buckets, one flat key vector, accumulators
  updated in place. `Rollup` is the plain meaning: a map from interval to a map from full key (category, name, type,
  thread, set of key fields) to count and statistics. Each `Aggregate` and `Drain` refines one step of that map, for
  every hash and mixing function. `Conversions` spells out what a key keeps of a number of each type. `Rollup`,
  `Conservation` and `Summaries` say what runs of the map mean, and `DrainedRows` what the rows of a whole run of the class
  tell.
- **Agreement.** `Aggregators.Aggregator` is the older map-based aggregator. It works on logged values, each with its C++
  type, width and, for C strings, address; `MetadataValues` has those values and their encoding into what the packed
  aggregator sees, `NativeValues` what becomes of them type by type. `Agreement` and `RunAgreement` say exactly when the
  two agree, `AgreementCases` where they always do and where they do not. `SameRows` drives both classes side by side and
  compares the rows they write.
- **Rules.** `RuleLanguage` is the recursive splitter as a method proved against a function; `PrintedRules` proves that
  parsing undoes printing, which shapes the splitter can produce, and what AND, OR and NOT mean in a flat text.
  `RuleMeanings` goes by the letters: each operator as it is written, and the texts that are no rule.
- **Generated guards.** `Versions` merges version ranges, `Guards` builds preprocessor conditions from contexts and
  gives them their meaning, `HeaderContexts` collects methods over the parses of a header.
- **C regions and list arguments.** `Regions` has the registry's locked sections as atomic steps of threads that
  interleave freely, and the tracer object that hands its metadata over or deletes it. `ArgLists` is the list builder.
- **Service.** `ProcText` reads NUL-separated blocks. `Captures` interleaves the steps of `start`, of ticks, captures and
  completions, and of stops by any thread at any time; `Stopping` says what stops do to a run, `Services` is the class.
- **Probe and logger.** `PapiProbe` groups counters by family; `HashCache` caches and declares string hashes.

`Wrappers`, `Bits`, `Text` and `Grouping` are shared vocabulary.

## How the parts fit

`PackedLayout.Represents` ties a packed interval to a map of buckets through the interner: decoding ids is injective, so
the sorted key vector is a canonical form of a set of fields, and the chain walk may trust its exact comparison.
`Interval.Take` is one step of that map. `PackedAggregator.Valid` keeps the tie for every interval at once while the
shared table of names grows. What a run means is then proved once, on the plain map, and holds for the class by its
contracts: `Abstract() == AfterEvent(...)` and `Abstract() == AfterDrain(...)`; `DrainedRows.Execute` drives it through a
list of operations.

`Agreement.Mirrors` ties an interval of the map-based aggregator to the plain one: the same partition into buckets once
keys are encoded, and the same statistics. One event keeps that tie exactly when `RunAgreement.OpFits` holds, which reads
only the map-based aggregator's state before the event.

The concurrent parts (`Regions`, `Captures` with `Stopping`) have a state, a step function, and lemmas over every sequence of enabled
steps. Their classes carry the program's fields and a ghost copy of that state; each method is proved to take exactly the
steps it stands for.

## What the proofs found

- "The same rows" (`src/dftracer/core/aggregator/packed_aggregator.h:34-48`) fails for events the interface accepts.
  `RunAgreement.RunsAgree` has the exact condition, event by event: the bucket met is that of the event's encoded key, and
  each number has the C++ type its key already keeps and a sum that type can hold.
  - Another number type under one value key, be it another sign or only another width: one aggregator converts the number
    to the key's first type, the other drops it (`AgreementCases.MixedTypesDisagree`, `AgreementCases.MixedWidthsDisagree`).
    A number named `dur` is such a case too: either its type is not the duration's, or it raises the duration's count past
    the row's.
  - One narrow type throughout: sums overflow at its width in one aggregator and at 64 bits in the other
    (`AgreementCases.NarrowSumsDisagree`).
  - Keys: the map-based aggregator tells values of two C++ types apart, be they `int` 5 and `long` 5
    (`NativeValues.TypesSplit`), and compares C strings by address (`AgreementCases.TwoAddressesDisagree`).
  - Raw JSON, lists and other uncompared types, and floating numbers that do not equal themselves: such a key is never
    found again, so every value inserted makes a new bucket, the event's own duration and numbers apart from each other
    (`AgreementCases.FindsOwnBucket`, `AgreementCases.RawJsonSplits`, `Agreement.InsertsAppend`).
  - Positive and negative zero are two keys in the packed form, which compares bits. In the other they are one only if
    their printed forms hash alike, since the stored hashes are compared too (`AgreementCases.ZeroKeys`).
- A rule text without any operator, and `NOT` before blanks, is an empty rule, which always holds: as an exclusion rule it
  leaves nothing (`RuleMeanings.NothingIff`, `RuleMeanings.AlwaysDecides`). `IN {}` accepts the empty string
  (`RuleLanguage.ParseItems`), and a pattern behind `LIKE` loses its first and last letter, quotes or not
  (`RuleMeanings.LikeCutsEnds`).
- An MPI header without implementation macros gets no guard at all, so its methods are compiled in every build
  (`Guards.GuardMeansContextsIff`).
- `stop` finalizes at once, whatever other threads do. While the loop runs that is beside it, and a later completion writes
  to a cleared task (`Stopping.StopBesideLoop`); as the loop is left, two threads may run the body
  (`Stopping.FinalizedTwice`); between the tests of `start` and the loop, the loop is entered all the same and captures go
  on after the body has ended (`Stopping.StopInsideStart`). `Stopping.SafeIffDisciplined` says exactly which calls are safe.
- A stop ends the captures exactly when `running` has been set before, or `start` refuses: otherwise `start` may set
  it afterwards (`Stopping.NoCaptureAfterStopIff`). It also excludes late queueing exactly when, besides, the loop thread is
  between ticks or in a tick that will find its collector busy (`Stopping.QueuedAfterStopIff`).
- Only the first request tells the loop to close, and a loop whose handles are not armed by then drops it
  (`src/dftracer/core/common/event_loop.cpp:179-195`): the loop is then entered and can never be left
  (`Stopping.LostStop`; `Stopping.CanLeaveIff` has the exact condition).
- Without a buffer manager `update_log_file` caches the host's hash and never declares it
  (`HashCache.HostDeclaredIff`).

## Assumptions taken from the program

- An event's fields come from a map: no key is listed twice.
- Hash and mixing functions are arbitrary; nothing depends on their quality. Double and float arithmetic, comparison and
  printing are arbitrary functions on bit patterns; only that widening a float to a double keeps its order is used.
- Region addresses and metadata addresses are not reused, and values are set on live regions only.
- The event loop runs its callbacks one at a time, and closing its handles lets it return once nothing is under way. Only
  one thread at a time gets past the tests of `start`, which blocks it until the loop is left; `stop` may come from any
  thread at any time, between any two of the modelled steps.
- A trace exists when a string is hashed and stored, as the logger dereferences its buffer manager.

## Model

| member | source | states |
|---|---|---|
| Interning.StringTable.Intern | src/dftracer/core/aggregator/packed_aggregator.cpp:10-25 | the old id of a known string, the next id of a new one; no other id changes and `at(intern(s)) == s`; the table stays duplicate-free, at most half full, every id in exactly one slot behind a gap-free probe path |
| Interning.StringTable.Probe | src/dftracer/core/aggregator/packed_aggregator.cpp:12-24 | the probe loop ends: at the one slot of a known string, or at the empty slot where a new one belongs |
| Interning.StringTable.NotInterned | src/dftracer/core/aggregator/packed_aggregator.cpp:14-22 | an empty slot reached on the probe path proves the string unknown, for any hash function |
| Interning.StringTable.Grow | src/dftracer/core/aggregator/packed_aggregator.cpp:27-36 | rehashing doubles the slots (64 at first), keeps every id and string, and re-establishes the placement |
| Interning.ProbeStep | src/dftracer/core/aggregator/packed_aggregator.cpp:14-24 | each probe step over a full slot comes strictly closer to any empty slot, round the end of the table too |
| Interning.PlaceNext | src/dftracer/core/aggregator/packed_aggregator.cpp:16-22 | storing the next id at the end of its probe path keeps all ids placed |
| Interning.SomeEmpty | src/dftracer/core/aggregator/packed_aggregator.cpp:11-14 | fewer ids than slots leave an empty slot, so both probe loops terminate |
| Bits.AndMask | src/dftracer/core/aggregator/packed_aggregator.cpp:13-14 | masking with a power of two less one is the remainder |
| PackedLayout.EncodingUnique | src/dftracer/core/aggregator/packed_aggregator.cpp:144-167 | the sorted, interned key vector is a canonical encoding: equal sets of key fields give equal vectors |
| PackedLayout.SortByKeySorts | src/dftracer/core/aggregator/packed_aggregator.cpp:166-167 | sorting by key id yields the same fields in strictly ascending key order |
| PackedLayout.MatchIsKey | src/dftracer/core/aggregator/packed_aggregator.cpp:174-190 | the exact comparison accepts a bucket if and only if it has the event's full key, whatever the mixing function |
| PackedLayout.RepresentsUnique | src/dftracer/core/aggregator/packed_aggregator.h:92-107 | a packed interval stands for one map from full keys to buckets and no other; no two buckets share a full key |
| PackedLayout.BucketAdded | src/dftracer/core/aggregator/packed_aggregator.cpp:193-206 | appending a bucket and relinking its chain adds one empty cell; every bucket stays reachable from its signature's head by strictly decreasing indices |
| PackedLayout.BucketChanged | src/dftracer/core/aggregator/packed_aggregator.cpp:111-133 | changing a bucket's count and accumulators changes that bucket's cell and nothing else |
| PackedLayout.TablesGrow | src/dftracer/core/aggregator/packed_aggregator.cpp:109-110 | interning more strings leaves what an interval stands for |
| PackedLayout.Fold | src/dftracer/core/aggregator/packed_aggregator.cpp:209-248 | one fold is one map update: a new key starts, a known one converts to its first type and accumulates; keys stay distinct and in place |
| Intervals.Interval.CollectKeys | src/dftracer/core/aggregator/packed_aggregator.cpp:143-167 | the scratch vector encodes exactly the event's MT_KEY fields |
| Intervals.Interval.SameKeys | src/dftracer/core/aggregator/packed_aggregator.cpp:174-182 | the field-by-field comparison is equality of the two key vectors |
| Intervals.Interval.Find | src/dftracer/core/aggregator/packed_aggregator.cpp:183-191 | the chain walk ends, and misses no matching bucket of the whole interval |
| Intervals.Interval.Lookup | src/dftracer/core/aggregator/packed_aggregator.cpp:138-191 | the bucket of the event's full key is found if and only if there is one |
| Intervals.Interval.FindOrAdd | src/dftracer/core/aggregator/packed_aggregator.cpp:138-207 | the returned bucket is the one of the event's full key; a missing one is added empty |
| Intervals.FoldEvent | src/dftracer/core/aggregator/packed_aggregator.cpp:111-134 | duration first, then the numbers in listed order; the first accumulator is always the duration's |
| Intervals.Interval.Take | src/dftracer/core/aggregator/packed_aggregator.cpp:109-134 | an interval takes an event exactly as the plain map of buckets does |
| PackedAggregators.PackedAggregator.constructor | src/dftracer/core/aggregator/packed_aggregator.cpp:38-53 | a width of zero becomes one; the state is the empty one |
| PackedAggregators.PackedAggregator.Aggregate | src/dftracer/core/aggregator/packed_aggregator.cpp:100-136 | refines one step of the plain roll-up map, for any hash and mixing function, and answers whether a later interval was opened |
| PackedAggregators.PackedAggregator.Open | src/dftracer/core/aggregator/packed_aggregator.cpp:105-107 | an interval is created only when missing; all others stay |
| PackedAggregators.PackedAggregator.WriteInterval | src/dftracer/core/aggregator/packed_aggregator.cpp:254-259 | one row per bucket, each showing its own bucket |
| PackedAggregators.PackedAggregator.Drain | src/dftracer/core/aggregator/packed_aggregator.cpp:250-262 | the early break hands out exactly the intervals a full scan would, as rows with pairwise distinct (interval, full key), and keeps the rest |
| PackedAggregators.PackedAggregator.First | src/dftracer/core/aggregator/packed_aggregator.cpp:252-253 | the iteration starts at the earliest interval held |
| PackedAggregators.RowShows | src/dftracer/core/aggregator/packed_aggregator.cpp:264-323 | the structured row of a bucket shows its interval, full key, count and statistics |
| PackedAggregators.RowLosesNothing | src/dftracer/core/aggregator/packed_aggregator.cpp:285-320 | a row of a bucket whose accumulators are collapsible determines the interval, full key, count and all statistics |
| DrainedRows.HeldCollapsible | src/dftracer/core/aggregator/packed_aggregator.cpp:304-309 | in every reachable state every accumulator of every bucket is collapsible: folded once, its sum, minimum and maximum are one number |
| DrainedRows.DrainedRowsLoseNothing | src/dftracer/core/aggregator/packed_aggregator.cpp:285-320 | hence every row any drain of any run writes, the collapsed form included, determines its bucket's interval, full key, count and statistics |
| DrainedRows.RowsTotal | src/dftracer/core/aggregator/packed_aggregator.cpp:250-262 | the counts, and the sums under `dur`, on the rows of a drain add up to those of the buckets handed out |
| DrainedRows.Execute | src/dftracer/core/aggregator/packed_aggregator.cpp:100-136 | the class driven through any list of operations ends in the plain run's state; the counts written plus the counts held equal the number of events aggregated, and the durations written plus those held are all durations modulo 2^64 |
| Rollup.RunMeaning | src/dftracer/core/aggregator/packed_aggregator.cpp:100-136 | over every run: held intervals are those with pending events, each holding its pending events grouped by full key; the latest interval is the maximum seen |
| Rollup.IntervalsHeld | src/dftracer/core/aggregator/packed_aggregator.cpp:103-107 | every interval held is a multiple of the width and at most the latest |
| Rollup.OpensMeaning | src/dftracer/core/aggregator/packed_aggregator.h:57-59 | `aggregate` answers true if and only if there were earlier events and all of them lie in earlier intervals |
| Rollup.DrainLeaves | src/dftracer/core/aggregator/packed_aggregator.cpp:250-262 | a drain of the complete intervals leaves at most the latest; a drain of all leaves nothing |
| Conservation.EveryEventInOneBucket | src/dftracer/core/aggregator/packed_aggregator.cpp:250-262 | over every run, late events included: the events of a bucket identity fall, in order, into one group per bucket drained plus the group still held, and each bucket is its group's |
| Conservation.CountsConserved | src/dftracer/core/aggregator/packed_aggregator.cpp:111-111 | per bucket identity, drained counts plus held count equal the matching events |
| Conservation.DurationsConserved | src/dftracer/core/aggregator/packed_aggregator.cpp:112-134 | the same for what is accumulated under `dur`: the durations, and any numbers logged under that name, modulo 2^64 |
| Conservation.OwnDurations | src/dftracer/core/aggregator/packed_aggregator.cpp:112-114 | events that log no number under `dur` contribute exactly their durations |
| Conservation.TotalConserved | src/dftracer/core/aggregator/packed_aggregator.cpp:250-262 | all counts drained plus all counts held equal the number of events aggregated |
| Conservation.TotalDurationsConserved | src/dftracer/core/aggregator/packed_aggregator.cpp:112-134 | all sums under `dur` drained plus all held equal the durations aggregated, modulo 2^64 |
| Summaries.CellMeaning | src/dftracer/core/aggregator/packed_aggregator.cpp:209-248 | a bucket's accumulators are its events' numbers accumulated key by key |
| Summaries.OneTypeSummary | src/dftracer/core/aggregator/packed_aggregator.cpp:227-238 | for one integer type: exact count, minimum, maximum, and the sum modulo 2^64 |
| Summaries.NoOverflow | src/dftracer/core/aggregator/packed_aggregator.cpp:227-238 | without overflow the sum is exact and between count times minimum and count times maximum |
| Summaries.OrderIrrelevant | src/dftracer/core/aggregator/packed_aggregator.cpp:227-238 | rearranged numbers of one integer type have the same summary |
| Summaries.SingleValue | src/dftracer/core/aggregator/packed_aggregator.cpp:304-309 | count one means sum, minimum and maximum are that number, for any type |
| Summaries.HeldSummary | src/dftracer/core/aggregator/packed_aggregator.cpp:209-248 | in every reachable state a held accumulator of one integer type has the exact statistics of the pending numbers |
| Summaries.ListingIrrelevant | src/dftracer/core/aggregator/packed_aggregator.cpp:141-142 | the order in which an event lists its fields changes neither its bucket nor the result |
| Conversions.NumberTaken | src/dftracer/core/aggregator/packed_aggregator.cpp:209-248 | for each pair of number types, spelled out: what a key of the one keeps of a number of the other in sum, minimum and maximum, with the casts on doubles and plain 64-bit arithmetic; a first number begins the key |
| Conversions.EventTaken | src/dftracer/core/aggregator/packed_aggregator.cpp:109-134 | an event raises its bucket's count by one and has each of its numbers taken that way under its key, the duration first under `dur`; all other keys and buckets stay |
| Conversions.RunTagged | src/dftracer/core/aggregator/packed_aggregator.cpp:209-248 | in every reachable state the buckets keep numbers only, so this holds of the next event of any run |
| Rollup.SlotHolds | src/dftracer/core/aggregator/packed_aggregator.cpp:103-104 | an event falls into the interval that it starts in |
| MetadataValues.EncodedIn | src/dftracer/core/ipc/event_codec.h:146-193 | encoding a record keeps every field, one for one |
| Aggregators.CopyKeys | src/dftracer/core/aggregator/aggregator.h:50-59 | a stored key owns exactly the event's MT_KEY fields, the C++ values included |
| Aggregators.Aggregator.Insert | src/dftracer/core/aggregator/aggregator.h:64-79 | one value into the first bucket whose key compares equal, by C++ type, stored hash and value with C strings by address, or a new bucket |
| Aggregators.Aggregator.Aggregate | src/dftracer/core/aggregator/aggregator.cpp:17-62 | the duration, then every number and string of the event, each looking its bucket up anew and kept under its own C++ type and width; the same answer about a later interval |
| Aggregators.MoveOut | src/dftracer/core/aggregator/aggregator.cpp:68-76 | the scan of all intervals moves out those before the latest, or all, and keeps the others |
| Aggregators.Aggregator.GetPreviousAggregations | src/dftracer/core/aggregator/aggregator.cpp:63-78 | the full scan hands out every interval before the latest, or all |
| Agreement.EncodedKeyOf | src/dftracer/core/ipc/event_codec.h:146-193 | encoding an event and then taking its bucket identity is encoding the reference's key |
| Agreement.StatsAgree | src/dftracer/core/common/datastructure.h:352-357 | one more number of the same C++ type keeps count, sum, minimum and maximum equal on both sides if and only if the sum is exact |
| Agreement.NumberAgrees | src/dftracer/core/common/datastructure.cpp:5-18 | one number under one name: both sides stay equal if and only if it has the C++ type its key already keeps and its sum is exact |
| Agreement.CellAgrees | src/dftracer/core/common/datastructure.cpp:5-18 | one event into one bucket: the statistics stay equal if and only if each of its numbers fits |
| Agreement.EventIntoOne | src/dftracer/core/aggregator/aggregator.h:64-79 | an event whose bucket exists, or whose key equals itself, goes into one bucket, each value where the one before went |
| Agreement.InsertsAppend | src/dftracer/core/aggregator/aggregator.h:64-79 | no stored key changes; an inserted value whose key cannot be found appends a bucket |
| Agreement.IntervalAgrees | src/dftracer/core/aggregator/aggregator.cpp:36-59 | one event into one interval: same partition and statistics if and only if the bucket met is that of the encoded key, or none when there is none, and every number fits |
| NativeValues.EqualIff | src/dftracer/core/common/datastructure.h:153-159 | two key values count as one exactly when of one C++ type and, type by type, one value (integers by value, C strings by address, strings by text, floating numbers by their `==`), with equal stored hashes |
| NativeValues.TypesApart | src/dftracer/core/common/datastructure.h:153-154 | values of different C++ types never count as one, whatever the hash |
| NativeValues.TypesSplit | src/dftracer/core/common/datastructure.h:237-250 | two events alike in all but the C++ type of one key value leave two buckets in the reference, and one packed where both are encoded alike |
| NativeValues.IntAndLongKeys | src/dftracer/core/common/datastructure.h:153-154 | a key logged as `int` 5 and as `long` 5: two buckets in the reference, one packed |
| NativeValues.SameTypeJoins | src/dftracer/core/common/datastructure.h:352-357 | a number of the type a key keeps joins count, sum in the type's own width, minimum and maximum |
| NativeValues.OtherTypesDropped | src/dftracer/core/common/datastructure.cpp:5-18 | a value of another C++ type leaves the key as it is; a text of the kind kept is counted |
| NativeValues.FieldKept | src/dftracer/core/aggregator/aggregator.cpp:42-58 | numbers and texts logged as values begin or join their key in the event's bucket, and no other field leaves a trace |
| NativeValues.EncodedTexts | src/dftracer/core/ipc/event_codec.h:155-190 | texts of every kind are encoded as their text, JSON and lists as JSON, a value without encoding as the empty text |
| RunAgreement.EventAgrees | src/dftracer/core/aggregator/aggregator.cpp:17-62 | one event: the aggregators stay in agreement if and only if it fits; both give the same answer about a later interval |
| RunAgreement.DrainAgrees | src/dftracer/core/aggregator/aggregator.cpp:63-78 | a drain hands out the same intervals with the same buckets and keeps the agreement |
| RunAgreement.RunsAgree | src/dftracer/core/aggregator/packed_aggregator.h:34-48 | over every run of logged events, whatever their key and value types, the aggregators agree all along if and only if every event meets its own bucket and fits there when it arrives |
| AgreementCases.SameKeyIsEncodedKey | src/dftracer/core/common/datastructure.h:237-250 | when key values compare equal exactly if their encodings are, key equality of the reference is equality of the full keys |
| AgreementCases.TypedRunsAgree | src/dftracer/core/aggregator/packed_aggregator.h:34-48 | with such keys, and value keys that each keep one 64-bit number type or one kind of text, the aggregators agree |
| AgreementCases.SteadyKeysFaithful | src/dftracer/core/common/datastructure.h:153-159 | keys of one integer or text type per name, C strings at one address per text, are such keys, for any hash function |
| AgreementCases.FindsOwnBucket | src/dftracer/core/common/datastructure.h:153-159 | the reference finds an event's own bucket again if and only if no key value is of an uncompared type or a floating number unequal to itself |
| AgreementCases.TwiceAgrees | src/dftracer/core/aggregator/packed_aggregator.h:34-48 | an event seen twice is aggregated alike if and only if its key equals itself in the reference and its numbers fit both times |
| AgreementCases.RawJsonSplits | src/dftracer/core/common/datastructure.h:153-159 | a raw JSON key: two sightings make two buckets or more in the reference and one in the packed form |
| AgreementCases.ZeroKeys | src/dftracer/core/common/datastructure.h:69-81 | positive and negative zero are two packed keys, and one key of the reference if and only if their printed forms hash alike |
| AgreementCases.MixedTypesDisagree | src/dftracer/core/aggregator/packed_aggregator.cpp:213-226 | a key logged as signed 5 and then unsigned 7: one aggregator converts (sum 12), the other drops the second number |
| AgreementCases.MixedWidthsDisagree | src/dftracer/core/common/datastructure.cpp:8-11 | a key logged as `int` 5 and then as `int64_t` 7: encoded alike and summed to 12, while the reference drops the second number |
| AgreementCases.NarrowSumsDisagree | src/dftracer/core/common/datastructure.h:352-355 | 3000000000 logged twice as `unsigned int`: 6000000000 packed, 1705032704 in the reference |
| AgreementCases.TwoAddressesDisagree | src/dftracer/core/common/macros.h:63-66 | one text at two addresses as a C-string key: two buckets in the reference, one packed |
| SameRows.WriteEntry | src/dftracer/core/common/macros.h:14-39 | the reference's record of one bucket: its key fields, the count of durations, every number as sum, minimum and maximum or alone, and nothing of texts |
| SameRows.WriteReference | src/dftracer/core/serialization/json_line.cpp:276-313 | one record per bucket of every interval, none twice and none missing |
| SameRows.EntryPrints | src/dftracer/core/serialization/json_line.cpp:283-310 | buckets with the same statistics have the same row on both sides, keys and numbers encoded |
| SameRows.DrainPrints | src/dftracer/core/aggregator/packed_aggregator.h:34-48 | a drain of agreeing aggregators writes the same rows on both sides: a one-to-one and onto pairing of rows that say the same |
| SameRows.ExecuteBoth | src/dftracer/core/aggregator/packed_aggregator.h:34-48 | both classes driven through one list of logged events and drains: each takes its own steps, and where every event fits as it arrives they agree in the end and every drain wrote the same rows |
| RuleLanguage.ParseRule | src/dftracer/core/aggregator/rules.cpp:3-100 | the recursive parser terminates on every text (each call has a shorter one) and computes the rule tree |
| RuleLanguage.ParseItems | src/dftracer/core/aggregator/rules.cpp:44-51 | the scanning loop yields exactly the comma-separated items, unquoted; an empty set text yields the empty string |
| RuleLanguage.Rules.AddRule | src/dftracer/core/aggregator/rules.h:25-28 | appends the parsed rule |
| RuleLanguage.Rules.Satisfies | src/dftracer/core/aggregator/rules.h:30-35 | holds if and only if some rule evaluates to true |
| RuleLanguage.ShouldAggregate | src/dftracer/core/aggregator/packed_aggregator.cpp:85-98 | no rules at all, or some inclusion rule and no exclusion rule |
| PrintedRules.ParseShape | src/dftracer/core/aggregator/rules.cpp:12-36 | from any text: below OR there is no AND, the left of OR is an atom, the left of AND is free of AND and not headed by NOT |
| PrintedRules.RoundTrip | src/dftracer/core/aggregator/rules.cpp:3-100 | parsing a printed rule gives the tree back, for every tree of that shape over clean atoms, values bare or in quotes of either kind |
| PrintedRules.SegmentsMeaning | src/dftracer/core/aggregator/rules.cpp:20-36 | without NOT a rule holds if and only if every AND segment has an OR alternative that holds |
| PrintedRules.NotHeadsTheTail | src/dftracer/core/aggregator/rules.cpp:12-18 | a NOT heading a segment negates all that follows, ANDs included |
| PrintedRules.NotEndsWithItsSegment | src/dftracer/core/aggregator/rules.cpp:20-36 | a NOT behind an OR negates only the rest of its segment |
| PrintedRules.NotTakesTheRest | src/dftracer/core/aggregator/rules.cpp:12-18 | a leading NOT negates the parse of the whole rest if and only if the rest is not blank |
| PrintedRules.BlankNot | src/dftracer/core/aggregator/rules.cpp:8-18 | NOT before blanks parses to no rule at all |
| RuleMeanings.OperatorsRead | src/dftracer/core/aggregator/rules.cpp:71-95 | letter by letter: `==`, `!=`, `>=`, `<=`, `>` and `<` between a field and a value, bare or in quotes of either kind, are read as equal, unequal, at least, at most, above and below |
| RuleMeanings.SmallWordsComparable | src/dftracer/core/aggregator/rules.cpp:71-95 | which holds of all words without capital A, I, L, N, O, quotes, blanks and operator letters |
| RuleMeanings.LongDurations | src/dftracer/core/aggregator/rules.cpp:71-95 | `dur > 1000` is read as above |
| RuleMeanings.BlanksAround | src/dftracer/core/aggregator/rules.cpp:8-10 | blanks and tabs around a rule do not matter |
| RuleMeanings.LikeCutsEnds | src/dftracer/core/aggregator/rules.cpp:60-69 | a pattern without quotes loses its first and last letter |
| RuleMeanings.NothingIff | src/dftracer/core/aggregator/rules.cpp:38-99 | a text is no rule at all exactly when, between its blanks, no NOT heads it and no AND, OR, closed set behind IN, LIKE or comparison operator is in it |
| RuleMeanings.NoOperatorHolds | src/dftracer/core/aggregator/rules.cpp:102-103 | and then it holds of every event, whatever the atoms mean |
| RuleMeanings.NotNothing | src/dftracer/core/aggregator/rules.cpp:12-18 | NOT before blanks holds of every event, NOT before any other such text of none |
| RuleMeanings.AlwaysDecides | src/dftracer/core/aggregator/packed_aggregator.cpp:85-98 | once such a rule is added some rule holds: as an inclusion rule it selects all that no exclusion rule takes, as an exclusion rule it leaves nothing |
| RuleMeanings.BareWord | src/dftracer/core/aggregator/packed_aggregator.cpp:85-98 | the text `posix` alone: included everything is aggregated, excluded nothing |
| Versions.NextMinorIsLeast | tools/generate_interfaces_from_brahma.py:219-222 | the least multiple of 100 above the version |
| Versions.SeriesIs | tools/generate_interfaces_from_brahma.py:219-222 | below the next minor series means in the version's own hundred |
| Versions.MergeRanges | tools/generate_interfaces_from_brahma.py:225-236 | the union is kept exactly; the result is sorted, non-empty ranges with a gap between neighbours |
| Versions.MergeOne | tools/generate_interfaces_from_brahma.py:230-235 | one loop step adds exactly the next range to the union |
| Versions.CanonicalUnique | tools/generate_interfaces_from_brahma.py:225-236 | two canonical lists with the same union are the same list |
| Versions.MergeIsCanonical | tools/generate_interfaces_from_brahma.py:225-236 | two results are equal if and only if the unions are; merging again changes nothing |
| Guards.BuildVersionCondition | tools/generate_interfaces_from_brahma.py:239-246 | none for no versions, else one disjunct per merged range |
| Guards.VersionGuardMeans | tools/generate_interfaces_from_brahma.py:239-246 | the condition holds at a version if and only if some listed version has its minor series and is at most it |
| Guards.VersionGuardUnique | tools/generate_interfaces_from_brahma.py:239-246 | the versions as a set decide the condition |
| Guards.SortedKeys | tools/generate_interfaces_from_brahma.py:265-265 | the implementations in ascending order |
| Guards.BuildCondition | tools/generate_interfaces_from_brahma.py:249-275 | no guard if and only if no context is usable; otherwise the guard holds if and only if some context has the implementation, the minor series and a version at most that of the build |
| Guards.ConditionUnique | tools/generate_interfaces_from_brahma.py:249-275 | the iteration order of the context set leaves no trace in the guard |
| Guards.GuardMeansContextsIff | tools/generate_interfaces_from_brahma.py:249-275 | what is compiled is what the contexts say if and only if some context is usable: an MPI header without implementation macros gives unguarded code |
| Guards.ShownWhereFoundIff | tools/generate_interfaces_from_brahma.py:254-263 | every method is compiled wherever it was found if and only if MPI contexts all carry an implementation or none does |
| Guards.ExclusiveIff | tools/generate_interfaces_from_brahma.py:249-275 | two guards are mutually exclusive, with at most one implementation defined, if and only if they share no implementation and minor series |
| HeaderContexts.BuildContexts | tools/generate_interfaces_from_brahma.py:527-542 | all versions, crossed with the implementations for an MPI header that names some; otherwise no context carries one |
| HeaderContexts.CollectMethods | tools/generate_interfaces_from_brahma.py:545-589 | the table: every method seen, its first declaration, and exactly the contexts it was seen in |
| HeaderContexts.TraceMeans | tools/generate_interfaces_from_brahma.py:561-576 | a method is recorded for a context if and only if that parse yields it |
| HeaderContexts.GeneratedGuards | tools/generate_interfaces_from_brahma.py:545-589 | end to end: each collected method is compiled in every build it was found in, and its guard says exactly its contexts unless the header is an MPI one without implementation macros |
| Regions.Tracer.Finalize | src/dftracer/core/dftracer.cpp:211-241 | one record to an active core, of a data event its start and a duration that ends now; the metadata, case by case, to a core that consumes or records it or else to the allocator |
| Regions.Tracer.Dispose | src/dftracer/core/dftracer.cpp:243-246 | the destructor does nothing more after finalize |
| Regions.Tracer.Release | src/dftracer/core/dftracer.cpp:59-67 | finalize and destroy together: still one record and one fate of the metadata, with the same cases |
| Regions.EachRegionOnce | src/dftracer/core/dftracer.cpp:265-348 | over every interleaving each region is in exactly one of registry, pending lists and released list, so it is released at most once |
| Regions.MetadataOnce | src/dftracer/core/dftracer.cpp:211-241 | metadata is handed over or deleted exactly once, with its region's release and not before |
| Regions.HandedIff | src/dftracer/core/dftracer.cpp:211-241 | over every run a core keeps a piece of metadata exactly when its region's release met an active core that consumes a data event's or records a metadata event's fields; otherwise the release deletes it |
| Regions.StaysOut | src/dftracer/core/dftracer.cpp:315-342 | a region taken out of the registry never returns |
| Regions.SecondEndIsNothing | src/dftracer/core/dftracer.cpp:319-325 | ending a region again does nothing, whatever happened in between |
| Regions.SnapshotIsReleased | src/dftracer/core/dftracer.cpp:69-84 | every region live when the registry is emptied is released once the threads have caught up |
| Regions.Registry.Insert | src/dftracer/core/dftracer.cpp:265-293 | the locked section of creation; the debug table describes exactly the live regions, under distinct ids |
| Regions.Registry.Withdraw | src/dftracer/core/dftracer.cpp:319-339 | the locked section of an end: found if and only if live; region and debug entry go together |
| Regions.Registry.TakeAll | src/dftracer/core/dftracer.cpp:69-79 | the locked section of the bulk release lists each live region once and empties both tables |
| Regions.Registry.FinalizeRegion | src/dftracer/core/dftracer.cpp:315-342 | uninterrupted: the first end withdraws and releases, any other changes nothing |
| Regions.Registry.FinalizeRegionCleanup | src/dftracer/core/dftracer.cpp:344-348 | the scope guard ends its region and clears the variable |
| Regions.Registry.ReleaseAll | src/dftracer/core/dftracer.cpp:69-84 | uninterrupted: exactly the live regions are released |
| ArgLists.AppendValue | src/dftracer/core/dftracer.cpp:166-183 | finds the key's list and the sub of that name, or adds them; the wrong shape or another value changes nothing |
| ArgLists.TracerArgs.Append | src/dftracer/core/dftracer.cpp:185-209 | a finalized tracer or a missing key ignores the call |
| ArgLists.HistoryMeaning | src/dftracer/core/dftracer.cpp:163-183 | over every history of appends and updates: an updated key holds that value for good; any other holds the stable group-by of the appends of the first one's shape |
| ArgLists.PlainIsOneGroup | src/dftracer/core/dftracer.cpp:176-182 | a plain list has one group with every value in call order |
| ArgLists.GroupsShape | src/dftracer/core/dftracer.cpp:176-182 | groups have distinct names, all of the list's own kind |
| Grouping.GroupNext | src/dftracer/core/dftracer.cpp:176-182 | one more item joins its key's group at the end, or starts the last group |
| ProcText.EnvironOf | src/dftracer/service/service.cpp:53-68 | the value of the first entry beginning with the name and an equals sign, else empty |
| ProcText.SplitArguments | src/dftracer/service/service.cpp:109-116 | exactly the non-empty pieces between NULs, in order |
| ProcText.DefinesInPlace | src/dftracer/service/service.cpp:60-64 | the in-place comparison is the prefix test on the entry cut out of the text |
| ProcText.JoinedBack | src/dftracer/service/service.cpp:53-68 | both parsers undo the joining of any NUL-free entries, with the last NUL or without |
| ProcText.FirstValueIs | src/dftracer/service/service.cpp:53-68 | the earliest defining entry wins |
| ProcText.Matches | src/dftracer/service/service.cpp:100-120 | the decision about one process |
| ProcText.FoundByOwnArguments | src/dftracer/service/service.cpp:103-120 | a process counts by its own arguments and environment, never by text that contains the words |
| ProcText.BaseNameIs | src/dftracer/service/service.cpp:21-24 | the part behind the last slash, for every path |
| ProcText.StartCounts | src/dftracer/service/service.cpp:117-120 | started as `start` from any directory with its log file in the environment a process counts, as `stop` it does not |
| PapiProbe.FindFamily | cmake/probes/papi_probe.c:94-102 | the category of the first matching row, else PAPI |
| PapiProbe.LongerComesFirst | cmake/probes/papi_probe.c:42-91 | no prefix in the table begins a later one |
| PapiProbe.FirstIsLongest | cmake/probes/papi_probe.c:94-102 | the first match is the longest prefix, for every event name |
| PapiProbe.FloatingCounters | cmake/probes/papi_probe.c:64-65 | counters beginning with `PAPI_FP_` are operations, but for the stalls |
| PapiProbe.MemoryCounters | cmake/probes/papi_probe.c:81-84 | counters beginning with `PAPI_MEM_` are of memory, but for the cycles stalled on it |
| PapiProbe.TotalCounters | cmake/probes/papi_probe.c:50-53 | counters beginning with `PAPI_TOT_` are cycles or instructions, any other of no family |
| PapiProbe.CacheCounter | cmake/probes/papi_probe.c:69-69 | a cache counter by name |
| PapiProbe.BranchCounter | cmake/probes/papi_probe.c:77-77 | a branch counter by name |
| PapiProbe.ForeignCounters | cmake/probes/papi_probe.c:94-102 | counters outside the table are of the family PAPI |
| PapiProbe.PrintMembers | cmake/probes/papi_probe.c:163-171 | the counters of one family, in order, separated by commas |
| PapiProbe.PrintEvents | cmake/probes/papi_probe.c:141-173 | the printed text is that of the stable grouping of the counters by family |
| PapiProbe.GroupsOfEvents | cmake/probes/papi_probe.c:144-173 | every counter is printed once, under its own family; no family comes twice and none is empty |
| PapiProbe.PrintedGroupsReadBack | cmake/probes/papi_probe.c:142-143 | splitting the text recovers the groups, for names free of the separators |
| PapiProbe.CategoriesPlain | cmake/probes/papi_probe.c:49-91 | no category holds a separator |
| Grouping.GroupsPartition | cmake/probes/papi_probe.c:144-173 | grouping keeps every value as often as it came |
| Captures.InFlightExact | src/dftracer/service/service.h:192-211 | over every interleaving `in_flight` is set if and only if one capture of the collector is under way, and there are never two |
| Captures.AlwaysOk | src/dftracer/service/service.h:112-241 | over every interleaving: nothing is under way outside the loop, whoever leaves the loop finalizes unless someone has, and only an entered loop is ever told to close |
| Stopping.StaysSafeIff | src/dftracer/service/service.h:227-241 | from any reachable state, whatever is already set in motion ends with one finalize body at most, the loop never running during or after one, and no write to a cleared task, if and only if at most one thread is on its way to the body, in it or past the tests of `start`, and none is past those tests once the service is finalized |
| Stopping.CalmKeptIff | src/dftracer/service/service.h:112-167 | a call of `start` or `stop` keeps that so if and only if the flags allow it: `stop` when all is finalized, or with no thread past the tests of `start` and nobody finalizing; `start` with nobody finalizing or when it does nothing |
| Stopping.SafeIffDisciplined | src/dftracer/service/service.h:112-167 | over every run: safe at every point if and only if every call was made when the flags allowed it |
| Stopping.FinalizedOnce | src/dftracer/service/service.h:227-241 | in such a run the body runs once at most, with no thread inside `start` before the loop or in the loop, with nothing under way and no flag set |
| Stopping.StopBesideLoop | src/dftracer/service/service.h:164-167 | a reachable run of `stop` while the loop runs: the body overlaps the loop and a completion writes to a cleared task |
| Stopping.FinalizedTwice | src/dftracer/service/service.h:227-241 | a reachable run in which the thread leaving the loop and a `stop` both run the body |
| Stopping.StopInsideStart | src/dftracer/service/service.h:112-161 | a reachable run with a whole `stop` between the tests of `start` and the loop: captures are carried out after the body has ended |
| Stopping.NoCaptureAfterStop | src/dftracer/service/service.h:192-225 | once `running` has been set, or `start` refuses, exactly the captures already past their check are carried out after a stop, however the run goes on |
| Stopping.NoCaptureAfterStopIff | src/dftracer/service/service.h:192-225 | from any reachable state a stop ends the captures if and only if `running` has been set before or `start` refuses |
| Stopping.QueuedAfterStop | src/dftracer/service/service.h:192-225 | from any reachable state with a tick past the point of finding its collector busy, a stop can be followed by one more queueing |
| Stopping.QueuedAfterStopIff | src/dftracer/service/service.h:192-225 | from any reachable state a stop excludes late queueing if and only if `running` will not be set any more and the loop thread is between ticks or in one that will find its collector busy |
| Stopping.NothingQueuedAfterSignal | src/dftracer/service/service.h:146-147 | nothing is ever queued after a stop by signal |
| Stopping.CanLeaveIff | src/dftracer/core/common/event_loop.cpp:147-156 | from any reachable state the loop can be left, now or later, if and only if it has been left or told to close or, unless `start` refuses by now, no stop was requested or a thread is still to ask |
| Stopping.LostStop | src/dftracer/core/common/event_loop.cpp:179-195 | a reachable run with a stop after `running` is set and before the handles are armed: the loop is entered, and no continuation ever leaves it |
| Services.Service.TestStart | src/dftracer/service/service.h:112-119 | a running service is left alone, a finalized one refuses to start, any other is past the tests |
| Services.Service.ObtainLoop | src/dftracer/service/service.h:126-139 | the loop object is there, with a fresh task for every collector and none in flight |
| Services.Service.ArmHandles | src/dftracer/core/common/event_loop.cpp:84-98 | the handles are armed whatever was requested before |
| Services.Service.StartLoop | src/dftracer/service/service.h:112-161 | uninterrupted, `start` passes its tests exactly when neither running nor finalized, and then enters the loop in its four steps |
| Services.Service.QueueCapture | src/dftracer/service/service.h:192-211 | a tick queues a capture if and only if the service runs and the collector has none; a failed queueing leaves no mark |
| Services.Service.PoolWork | src/dftracer/service/service.h:201-205 | the pool captures if and only if the service still runs |
| Services.Service.Complete | src/dftracer/service/service.h:207-207 | the completion frees the collector |
| Services.Service.CloseHandles | src/dftracer/core/common/event_loop.cpp:234-239 | the loop thread closes the handles it was told to close |
| Services.Service.RequestStop | src/dftracer/service/service.h:213-225 | uninterrupted: the loop closes at the first request if its handles are armed by then, else the request is lost; repeated requests only clear `running` |
| Services.Service.FinalizeService | src/dftracer/service/service.h:227-241 | the body runs only for who finds the service not finalized, in whatever state the loop is |
| Services.Service.StopService | src/dftracer/service/service.h:164-167 | in whatever state the loop is: finalizes unless someone has, beside the loop if and only if the loop runs |
| HashCache.FixStr | src/dftracer/core/df_logger.h:532-536 | the buffer is rewritten in place to its safe form |
| HashCache.FixedIsSafe | src/dftracer/core/df_logger.h:514-536 | no unsafe character is left before the NUL, nothing moves, a second pass changes nothing, and only unsafe texts change |
| HashCache.FixedSpelled | src/dftracer/core/df_logger.h:514-536 | character by character: all from the blank on stay but brackets, backslash, quotes and bar, up to the NUL, and nothing after it changes |
| HashCache.CacheAgrees | src/dftracer/core/df_logger.h:349-359 | over every sequential run: cached hashes equal hashing anew, no string is declared twice by `hash_and_store_str`, and while there is a trace every cached hash is declared in it |
| HashCache.HostDeclaredIff | src/dftracer/core/df_logger.h:239-249 | `update_log_file` caches the host's hash always and declares it if and only if there is a buffer manager |
| HashCache.OneDeclared | src/dftracer/core/df_logger.h:538-554 | a text hashed and stored is declared under its own kind, unless it has been met |
| HashCache.StartDeclares | src/dftracer/core/df_logger.h:225-290 | the records a trace begins with: the host, and with metadata the directory as a file and command and executable as strings, each unless met before |
| HashCache.Logger.HashAndStore | src/dftracer/core/df_logger.h:538-554 | the returned hash is the text's own and is declared in the trace; a missing text has none |
| HashCache.Logger.UpdateLogFile | src/dftracer/core/df_logger.h:225-290 | the host, then directory, command and executable, each cached and declared |
| HashCache.Logger.FinalizeLogger | src/dftracer/core/df_logger.h:640-662 | the cache ends with the trace |

## Left out

- Interning.StringTable.Intern: ids, slots and indices are unbounded here, so the truncation to 32 bits after 2^32 strings or buckets is not modelled; strings are values, so the stability of views into the table is not either.
- PackedAggregators.PackedAggregator.Aggregate: counts are unbounded, where the program's wrap at 2^64; signed sums that overflow are taken to wrap in two's complement; conversions of doubles out of range are whatever the conversion function gives.
- PackedAggregators.PackedAggregator.Drain: rows are structured values; their text, JSON escaping, size limit, process id and host hash are not modelled, nor two value keys whose written names coincide (`x_sum` beside `x`).
- PackedLayout.SortByKeySorts: an insertion sort stands for `std::sort`; keys are distinct, so every sort gives the same vector.
- Intervals.Interval.Take: buckets and accumulators are sequences held in fields, updated by replacing one element; references into the vectors, which a growing vector could invalidate, are not modelled. The fold over an event runs on the bucket's accumulators taken out and put back.
- Aggregators.Aggregator.Insert: the unordered map's search is the first equal entry in insertion order; which of several equal entries a hash table would meet first is not modelled. Locks are left out: runs are sequential. A C string's text is taken not to change once logged, and null C strings as keys, which the program's hashing does not survive, are not modelled.
- RunAgreement.RunsAgree: the encoded record's limits (lengths over 16 bits of keys and names, more than 65535 fields, texts over 32 bits) are not modelled, nor is the text a list is written as; signed sums narrower than 64 bits are taken to wrap in two's complement.
- RuleLanguage.ParseRule: `stringToValue` keeps the text of a comparison's value; the number it may parse to, field lookup, `compareValues` and `likeMatch` are one arbitrary predicate on atoms. A quote standing alone as a value is taken as the code's `substr` leaves it.
- PrintedRules.RoundTrip: atoms hold no reserved word, operator or blank edge, bare values do not look quoted, and patterns are quoted; for other atoms printing is not meant to be undone.
- Guards.BuildCondition: the guard is a tree; its text is not modelled. Regular expressions that extract versions and macros from a header are parameters, as are libclang's parses.
- HeaderContexts.CollectMethods: argument lists and the return kind kept with a method are one declaration text; whitespace normalisation is part of the given key.
- Regions.Tracer.Finalize: what the core does with a record is not modelled beyond whether it keeps the metadata; the type and timestamps of records are only passed on. `enter_event` and `exit_event` do nothing in the program.
- Regions.Registry.FinalizeRegion: the tracer's part of a release is `Regions.Tracer.Release`; the registry records that it happened, to which region, and the fate of its metadata.
- ArgLists.HistoryMeaning: that `update` needs an active core is a matter of whether a call reaches the history; strings are kept by value, not by pointer.
- ProcText.Matches: walking `/proc`, reading its files and the exclusion of the own process are left out.
- PapiProbe.PrintEvents: finding the countable events is left out; the number of groups is bounded by the number of counters.
- Stopping.SafeIffDisciplined: that the loop drains and returns is a step it may take. The finalize body is its beginning and its end, with `finalized` set at the end, and the loop object and the tasks come in one step; what the collectors and the buffers do is not modelled, nor are unordered reads of the plain flags by several threads. A request by a signal handler is one step on the loop thread.
- Stopping.CanLeaveIff: a loop that other parts of the process run or stop is not modelled, nor one that libuv fails to set up.
- SameRows.ExecuteBoth: rows are records; how numbers of each type are printed is not modelled, nor value or key names that coincide once written (`x_sum` beside `x`, or `dft_cnt`), where one side writes both and the other keeps the first. The two classes take each operation one after the other.
- HashCache.CacheAgrees: runs are sequential, so the gap between checking and inserting is not modelled; hashes are values, so freeing and the leak of a replaced host hash are not; texts are shorter than PATH_MAX.
- HashCache.Logger.UpdateLogFile: only the records that declare hashes are kept; the event index, the mask of used layers and application metadata are left out as easy.
- The shared-memory ring protocol: the code that reserves, commits and drains blocks is not part of this model.
- Interceptors, daemonizing, signals, MPI rank discovery, core affinity, file writing, compression, build and test scripts, Python bindings: foreign or plumbing.
