# Miroxy, modelled and proved

Miroxy is a proxy between clients and large-language-model providers. Before a request leaves, it can
replace sensitive values by tokens, and it undoes that in the answer. It picks a credential for each
attempt and takes failing keys out of service. It translates streamed answers between the dialects of
OpenAI, Anthropic, Gemini and the Responses API. This project models those parts and proves what they
promise, together with the checksum detectors and the AWS EventStream decoder.

Code that works by changing state is a class or a method proved against a function; the promises are
then proved about that function, for every input or every run.

## The modules

| modules | what they hold |
|---|---|
| `ByteStrings`, `TokenPattern`, `Resolve` | bytes, the token pattern matched by hand, whole-text resolution and the places where a text can be cut |
| `Drain`, `StreamResolver` | the streaming resolver with its held-back buffer, and the reader built on it |
| `Decimals`, `Vault`, `VaultRuns` | the token vault, and what every run of it keeps |
| `Spans`, `Sanitize`, `Reversal` | deduplication in place, right-to-left splicing, and the whole way there and back |
| `LiveText`, `GrowingVault`, `Disclosure` | texts that already hold tokens, a vault that mints while the stream arrives, and what a screened text still tells |
| `Luhn`, `Iban` | the two checksums and the errors they detect |
| `EventStream` | the frame decoder and its inverse |
| `PoolModel`, `CredPool`, `PoolFacts`, `PoolChoice` | a credential pool, step by step, and which key one selection takes |
| `PoolRuns`, `PoolStory`, `PoolWindow`, `TokenWindow`, `PoolFairness` | what every run of a pool keeps |
| `Routing`, `RoutingRuns`, `InFlight`, `Retry`, `PoolRetry` | the routing selector step by step and over whole runs, conservation of loads under any interleaving, and the retry loops |
| `StreamIR` | the grammar and the meaning of the neutral event stream |
| `OpenAIStream`, `OpenAIFacts`, `OpenAIPrinter`, `OpenAIContent` | the OpenAI parser and printer, their composition, and what the chunks carry |
| `AnthropicStream`, `AnthropicGrammar`, `AnthropicWire`, `GeminiStream`, `GeminiContent`, `ResponsesStream`, `StreamChains` | the other dialects, and streams across two of them |
| `Options` | an optional value |

## Where the code and its documentation part

* The resolver gives up on an open bracket after 64 bytes. A token of 65 bytes still survives every
  chunking, one of 66 does not; `Drain.ChunkIndependentIff` has the exact bound. No vault mints one that long.
* Tokens are meant to be reversible. A number above 999 no longer fits the pattern, and such a token stays
  in the text: a field comes back exactly when each of its values is among the first 999 of its kind
  (`Reversal.EndToEndIff`, `Reversal.ThousandthIsLost`). Two kinds with one upper-cased label share tokens,
  and no others do (`VaultRuns.NeverSharesIff`). A text that already holds a token issued in its request comes back
  changed, the token replaced by the value it names (`LiveText.AnyTextComesBackIff`, `LiveText.IssuedTokenIsChanged`).
* Deduplication is documented to keep the higher-scored of two overlapping findings. A finding that lost to
  another may end up covered by none, when that other loses in turn (`Spans.DroppedMayBeUncovered`). This
  happens exactly when a finding takes another's place after one of their cluster has ended (`Spans.CoversIff`).
* Rewriting slices the text at each end of a span on its own: an offset outside the text panics, a span that ends
  before it starts does not, and its bytes come twice (`Spans.CrossedSpanRepeats`).
* A read error other than end-of-file reaches the reader's caller exactly when nothing was left to deliver at
  that moment; otherwise a broken body looks complete (`StreamResolver.Relay`, `BrokenBodyLooksComplete`).
* The IBAN check moves four characters to the end. A swap of the fourth and fifth, a digit and a letter, can
  go unnoticed though they do not read alike (`Iban.DetectsTransposition`, `Iban.MissedAcross`).
* A negative requests-per-minute limit without a soft limit makes every key ineligible for good and leaves no
  backstop: `PoolFacts.NoSelectionIff`.
* A probe whose fetch fails relabels its key rate-limited whatever happened meanwhile, which can hide a broken
  circuit: `PoolRuns.SoundStepIff`, `PoolRuns.ProbeHidesBrokenCircuit`.
* Round robin is fair across the wrap of its counter only for one key or when a full turn divides 2^64; otherwise a
  new pool that has made enough selections is not: `PoolFairness.AlwaysFairIff`, `PoolFairness.UnfairRun`.
* Sticky bindings are documented to expire when idle. In the routing selector a use through the binding does not
  refresh it (`RoutingRuns.RefreshedIff`), so a selection is served through the binding exactly when it comes within
  the TTL of when the binding was made (`RoutingRuns.StuckIff`). That is what the documentation says exactly when no
  stretch of use outlasts the TTL (`RoutingRuns.ExpiresWhenIdleIff`); `RoutingRuns.BusySessionMoves` is a run in which
  it is not.
* Round robin over no targets divides by zero, and nothing else does: `Routing.PanickedIff`.
* A response the upstream refuses for its own sake (a 4xx other than 429) counts as a success for the key, and
  so clears its strikes: `Retry.KeyClearedIff` has the replies that do.
* The Responses writer tracks one current block, and takes a reasoning item from its signature when that unpacks.
  Its items are properly paired exactly when no two blocks are open at once and no reasoning block's signature unpacks
  to something else than the block said (`ResponsesStream.PairedIff`, `ResponsesStream.SaysAnother`). A reasoning item
  whose signature does not unpack is done under another id than it was announced under (`ResponsesStream.IdsKeptIff`).
  An OpenAI stream reaches such a client whole exactly when it makes at most one call and no text follows it
  (`StreamChains.OpenAIPairedIff`).
* The EventStream header walk accepts a block that ends inside its last fixed-width value: `EventStream.CutBlockAccepted`
  has one that ends before it.

## Model

| member | source | states |
|---|---|---|
| TokenPattern.TokenLenIsMatch | internal/warden/vault.go:18 | the hand-written matcher finds a token at the start of a text exactly when some prefix matches the pattern, and no other prefix does |
| TokenPattern.TokenShape | internal/warden/vault.go:18 | a token holds the bracket bytes at its ends and nowhere else |
| Resolve.ResolveCut | internal/warden/vault.go:71-84 | resolution distributes over every cut that no token straddles |
| Resolve.SeparableBeforeOpen | internal/warden/stream.go:62-116 | no token straddles a cut just before an opening bracket |
| Resolve.SeparableAfterClose | internal/warden/stream.go:62-116 | no token straddles a cut just after a closing bracket |
| Resolve.ResolveOnlyTokens | internal/warden/vault.go:78-83 | table entries that are not tokens are never looked up |
| Drain.EmitSound | internal/warden/stream.go:62-116 | what one turn of the drain loop emits is final: resolving it apart from everything that may still arrive changes nothing |
| Drain.GiveUp | internal/warden/stream.go:62-116 | the give-up branch is harmless: an opening bracket without its closing one after 64 bytes starts no token of at most 64 |
| Drain.DrainSound | internal/warden/stream.go:62-116 | emitted text followed by the resolution of what is held and what comes later is the resolution of the whole |
| Drain.HeldIsShort | internal/warden/stream.go:62-126 | after every feed the buffer is empty, one or two bytes of a delimiter, or an open bracket with no closing one and at most 64 bytes |
| Drain.ChunkIndependence | internal/warden/stream.go:33-126 | for every chunking of every byte string, feeds and a final flush give exactly the whole-text resolution, when no token of the table is longer than 64 bytes |
| Drain.ChunkIndependentIff | internal/warden/stream.go:62-126 | the streaming and the whole-text form agree on every chunking if and only if no token the table rewrites is longer than 65 bytes |
| StreamResolver.StreamResolver.Feed | internal/warden/stream.go:33-39 | a feed emits and holds what the drain function says of the buffer and the chunk |
| StreamResolver.StreamResolver.Flush | internal/warden/stream.go:41-50 | a flush emits the resolution of what is held and holds nothing |
| StreamResolver.StreamResolver.DrainBuffer | internal/warden/stream.go:62-116 | the loop over the buffer, with its hold-back, give-up and stray-bracket branches, is the drain function; it ends because the buffer shrinks |
| StreamResolver.StreamResolver.PartialDelimiterSuffixLen | internal/warden/stream.go:119-126 | the length found is that of the first proper prefix of the opening bracket that ends the text |
| StreamResolver.ResolvingReader.Read | internal/warden/stream.go:154-175 | a read loses, adds and reorders nothing, an error comes only after the last byte, and it is the one the body's read results determine |
| StreamResolver.Relay | internal/warden/stream.go:138-175 | copying any body, whatever its read results, through buffers of any size delivers exactly its resolution; the caller sees the body's own error if and only if it is end-of-file or nothing was left to deliver when it came, and end-of-file otherwise |
| StreamResolver.LastHeldIsFed | internal/warden/stream.go:154-175 | what is held when the first error comes is what a resolver holds after being fed the earlier reads |
| StreamResolver.BrokenBodyLooksComplete | internal/warden/stream.go:154-175 | a body that breaks while a byte comes with the error ends for the caller in end-of-file |
| StreamResolver.BrokenTokenLooksComplete | internal/warden/stream.go:154-175 | so does one that breaks in an empty read while the beginning of a token is held |
| Decimals.ParsePad3 | internal/warden/vault.go:62-64 | a zero-padded counter reads back as its number, so padding is injective |
| Decimals.Pad3Width | internal/warden/vault.go:18 | three digits hold exactly the numbers up to 999 |
| Vault.MintInjective | internal/warden/vault.go:53-69 | two kinds and numbers mint the same token only when their upper-cased labels and their numbers are the same |
| Vault.MintIsToken | internal/warden/vault.go:18-64 | a minted token fits the pattern if and only if its number is at most 999 |
| Vault.ValueKeyInjective | internal/warden/vault.go:53-58 | the joined key names one category, type and value |
| Vault.BuiltinVault.Tokenize | internal/warden/vault.go:53-69 | a known value gets its token again; a new one the next number of its kind, recorded in both tables |
| Vault.BuiltinVault.Resolve | internal/warden/vault.go:71-84 | the early exits change nothing: the result is the whole-text resolution |
| VaultRuns.RunInverse | internal/warden/vault.go:53-69 | after any run of calls the two tables are inverse to each other |
| VaultRuns.RunGrows | internal/warden/vault.go:53-69 | no call loses or changes a row of either table |
| VaultRuns.TokensNameValues | internal/warden/vault.go:53-69 | one value of one kind has one token, two values never share one, and the token leads back to its value |
| VaultRuns.CountersCountValues | internal/warden/vault.go:62-68 | after any run each counter is the number of distinct values of its kind |
| VaultRuns.VaultTokensShort | internal/warden/vault.go:20-26 | every token of a vault that the pattern matches is at most 64 bytes long |
| VaultRuns.MintResolves | internal/warden/vault.go:71-84 | a token resolves to its value while its number has three digits, and to itself after that |
| VaultRuns.NumberIsRank | internal/warden/vault.go:62-68 | the number in a value's token is its rank: how many distinct values of its kind were tokenised up to and with its first call |
| VaultRuns.SharedLabelOverwrites | internal/warden/vault.go:62-68 | any two kinds sharing an upper-cased label mint one token, and the second value replaces the first |
| VaultRuns.NeverSharesIff | internal/warden/vault.go:53-69 | for kinds whose labels fit the pattern: in every run no two values share a token, if and only if no two of the kinds share an upper-cased label |
| VaultRuns.DetectorKindsDisciplined | internal/warden/pii.go:141-170 | the kinds the detectors report share no label, so the vault's promises hold for all of them |
| Spans.DedupeOverlapping | internal/warden/builtin.go:143-161 | sorting and compacting in the same array never overwrites an unread finding and leaves the compaction of the sorted findings in front |
| Spans.CompactChained | internal/warden/builtin.go:143-161 | the kept findings are in order and pairwise disjoint |
| Spans.CompactSubset | internal/warden/builtin.go:143-161 | the kept findings are a sub-multiset of the reported ones |
| Spans.CompactKeepsBest | internal/warden/builtin.go:141-161 | a finding that strictly outscores all others is kept |
| Spans.CompactKeepsIsolated | internal/warden/builtin.go:149-158 | a finding that overlaps no other is kept |
| Spans.CoversIff | internal/warden/builtin.go:141-161 | every reported finding overlaps a kept one if and only if none is overtaken: no displacing finding starts after the least end of its cluster |
| Spans.DroppedMayBeUncovered | internal/warden/builtin.go:141-161 | a key that is the local part of an address whose domain starts with a card number: the three findings leave the key overlapping nothing kept |
| Spans.CrossedSpanRepeats | internal/warden/builtin.go:203-205 | a span inside the text that ends before it starts is spliced without a panic, and the bytes between its ends come twice |
| Spans.SpliceIsSubstitution | internal/warden/builtin.go:198-205 | right-to-left splicing of disjoint spans is simultaneous substitution in the original text |
| Sanitize.BuiltinWarden.Sanitize | internal/warden/builtin.go:184-207 | for any findings: it panics if and only if an offset, negative or past the end, lies outside the text as earlier replacements have left it; a span that ends before it starts does not panic; spans that lie apart never panic, are replaced as if all at once by vault token or mask, and all other bytes stay; block-only mode changes nothing |
| Sanitize.BuiltinWarden.Replacement | internal/warden/builtin.go:173-179 | the vault's token in tokenize mode with a vault, the mask otherwise, with the vault's new tables |
| Sanitize.ReplaceMasks | internal/warden/builtin.go:173-179 | without a vault the replacements are the masks and the tables stay |
| Sanitize.ReplaceTokens | internal/warden/builtin.go:173-207 | in tokenize mode the replacements are the tokens the final tables hold, and the vault saw exactly those calls |
| Reversal.ReversalIff | internal/warden/builtin.go:173-207 | resolving a tokenised text returns the text if and only if every token fits the pattern |
| Reversal.EndToEndIff | internal/warden/stream.go:33-126 | a tokenised field echoed in any chunks comes back as the original text if and only if each of its values is among the first 999 distinct ones of its kind in the request |
| Reversal.ThousandthIsLost | internal/warden/vault.go:62-64 | in a request of a thousand values of one kind, a text that is the last of them does not come back |
| Reversal.EndToEnd | internal/warden/stream.go:33-126 | with at most 999 distinct values of a kind in a request, a tokenised field echoed in any chunks comes out of the resolver as the original text |
| Reversal.DedupedIsPlaced | internal/warden/builtin.go:138-161 | however the reported spans overlap, what remains to rewrite after deduplication can be spliced |
| Reversal.ScreenedTextComesBack | internal/warden/builtin.go:101-207 | reported findings, deduplicated, sanitised, echoed in any chunks and resolved give the original text, if and only if each rewritten value is among the first 999 of its kind |
| LiveText.ResolveFixedIff | internal/warden/vault.go:71-84 | resolution leaves a text as it is if and only if no live token occurs in it, and otherwise differs from it at some byte both have, for values told from an opening bracket by their first bytes |
| LiveText.AnyTextReversalIff | internal/warden/builtin.go:173-207 | for any text, brackets included: its tokenised form resolves to it if and only if every token minted for it fits the pattern and no live token lies between the spans |
| LiveText.AnyTextComesBackIff | internal/warden/stream.go:33-126 | any text, tokenised and echoed in any chunks, comes back if and only if each of its values is among the first 999 of its kind and no token issued in the request lies between its spans |
| LiveText.IssuedTokenIsChanged | internal/warden/vault.go:71-84 | a text that is nothing but a token already issued does not come back |
| GrowingVault.MintingMeanwhile | internal/warden/stream.go:33-126 | each chunk resolved with the table of its moment: when no token arrives whole before it is minted, the stream comes out as if the final vault had resolved the whole text |
| GrowingVault.TooEarly | internal/warden/vault.go:30-36 | a token that arrives before it is minted passes unresolved, though the final vault would resolve it |
| Disclosure.MaskGenericIff | internal/warden/pii.go:112-117 | two values have one generic mask if and only if they agree in length and, from five bytes on, in two bytes at each end |
| Disclosure.MaskGenericShows | internal/warden/pii.go:112-117 | a generic mask is as long as its value and shows, byte for byte, two bytes at each end of a value of five bytes or more, and stars |
| Disclosure.MaskEmailShows | internal/warden/pii.go:89-98 | an address's mask shows its first byte and all from the first at sign on, with a star for each byte between, three for a lone byte |
| Disclosure.MaskCardShows | internal/warden/pii.go:103-109 | a card's mask shows its first six and last four digits and a star for each digit between |
| Disclosure.RedactionHides | internal/warden/builtin.go:173-207 | two texts alike around their spans, whose values agree in what their masks show, are redacted to one text |
| Disclosure.TokensTellEquality | internal/warden/vault.go:53-69 | two runs are answered with the same tokens if and only if their calls name the same kinds and have equal values at the same places: tokens tell which values are equal and nothing else |
| Disclosure.TokenizationHides | internal/warden/builtin.go:173-207 | two requests alike around their spans, in the findings' kinds and in which values are equal send the same tokenised text, whatever the values and their lengths |
| Luhn.LuhnValid | internal/warden/pii.go:42-61 | the loop decides whether the weighted digit sum is divisible by ten, for at least twelve digits |
| Luhn.DetectsSingleError | internal/warden/pii.go:42-61 | changing one digit of a valid number makes it invalid |
| Luhn.DetectsTransposition | internal/warden/pii.go:42-61 | swapping two unequal neighbours goes unnoticed if and only if they are 0 and 9 |
| Luhn.PlacesWeigh | internal/warden/pii.go:47-59 | changing one digit moves the sum by the difference of the digits in the last place and every second one from there, and by that of their doubles, less nine from five on, in the others |
| Luhn.KnownNumbers | internal/warden/pii.go:42-61 | a four and fifteen ones is accepted, a two and fifteen ones is not |
| Iban.IbanValid | internal/warden/pii.go:63-85 | the text is accepted exactly when it normalises to 15 to 34 digits and capital letters whose rearranged decimal expansion is 1 modulo 97 |
| Iban.LayoutDoesNotMatter | internal/warden/pii.go:64 | spaces and the case of letters make no difference anywhere, and a text without them is taken as it is |
| Iban.Remainder | internal/warden/pii.go:76-84 | the running remainder is the whole number modulo 97 |
| Iban.DetectsSubstitution | internal/warden/pii.go:63-85 | changing one digit for another or one letter for another in a valid identifier is detected |
| Iban.DetectsTransposition | internal/warden/pii.go:63-85 | a swap of unequal neighbours in a valid identifier goes unnoticed if and only if they are confusable: away from the fourth and fifth place, their expansions read alike both ways round; there, one is a digit, the other a letter, and the number slips by a multiple of 97 |
| Iban.OrderOfTen | internal/warden/pii.go:76-84 | no power of ten up to the 68th is 1 modulo 97, so two digits or two letters in the fourth and fifth place are never confused |
| Iban.MissedAcross | internal/warden/pii.go:68-85 | NO53D5988178504 and NO5D35988178504 are both accepted |
| EventStream.EventStreamDecoder.Next | internal/upstream/bedrock_eventstream.go:34-131 | one call decodes what the frame function decodes of the bytes left, and leaves the rest |
| EventStream.EventStreamDecoder.ScanHeaders | internal/upstream/bedrock_eventstream.go:71-131 | the header walk stays in bounds, ends, and is the walk function |
| EventStream.StreamBack | internal/upstream/bedrock_eventstream.go:34-131 | decoding the concatenated encodings of any frames, with any mix of the ten header types within the size limit, gives exactly those frames and then a clean end |
| EventStream.TruncationDetected | internal/upstream/bedrock_eventstream.go:34-68 | a stream cut inside a frame gives all earlier frames and then an error |
| EventStream.DecodesIff | internal/upstream/bedrock_eventstream.go:34-68 | a frame is decoded if and only if both lengths fit, both checksums are those of the bytes before them and the headers can be walked; its payload and what is left are those of the frame |
| EventStream.WrongChecksumRefused | internal/upstream/bedrock_eventstream.go:34-68 | a whole frame with a wrong prelude or message checksum is refused as such |
| EventStream.LastNameCounts | internal/upstream/bedrock_eventstream.go:71-131 | the message type is the value of the last string header of that name |
| EventStream.WalkAcceptsIff | internal/upstream/bedrock_eventstream.go:71-131 | the walk accepts exactly the encodings of headers of the ten types, whole or cut inside a last fixed-width value |
| EventStream.CutBlockAccepted | internal/upstream/bedrock_eventstream.go:71-131 | the three bytes of a named sixteen-byte header whose value is missing are accepted |
| CredPool.Defaults | core/selector/credpool.go:167-237 | whatever the configuration, the pool's own is valid: positive threshold, cooldown, window and batch, at least one tier |
| CredPool.UnsetMeans | core/selector/credpool.go:96-132 | what the documentation says of settings left unset |
| CredPool.CredPool.Select | core/selector/credpool.go:240-332 | the first mutex section of Select is one step of the model: recover, prune, choose, bind, take |
| CredPool.CredPool.ChooseCred | core/selector/credpool.go:267-315 | the sticky choice, then the proactive pass, then the backstop pass |
| CredPool.CredPool.RoundRobinFiltered | core/selector/credpool.go:671-685 | the first admitted key in cyclic order from the counter's place; the counter moves by one, modulo 2^64 |
| CredPool.CredPool.LeastRequestsFiltered | core/selector/credpool.go:687-698 | the earliest of the least loaded admitted keys |
| CredPool.CredPool.FallbackFiltered | core/selector/credpool.go:660-667 | the earliest admitted key |
| CredPool.CredPool.PruneWindow | core/selector/credpool.go:542-549 | the loop drops exactly the leading timestamps before the cutoff |
| CredPool.CredPool.SourceError | core/selector/credpool.go:334-347 | the section after a failed fetch undoes the take, counts a failure and trips at the threshold |
| CredPool.CredPool.Release | core/selector/credpool.go:373-457 | a release changes one key as its outcome says and no other; an unknown id changes nothing |
| CredPool.CredPool.TakeRateLimited | core/selector/credpool.go:480-495 | exactly the rate-limited keys are lifted, taken and listed, in order |
| CredPool.CredPool.ProbeSourceError | core/selector/credpool.go:500-506 | a failed probe fetch marks its key rate-limited unconditionally and undoes the take |
| CredPool.CredPool.RecordTokens | core/selector/credpool.go:630-645 | a positive count is appended to the first key of that id, when there is a token limit |
| CredPool.CredPool.EarliestCooldown | core/selector/credpool.go:524-540 | the least end among rate-limited keys still cooling, or none exactly when there is no such key |
| PoolFacts.PickIsRight | core/selector/credpool.go:647-698 | each strategy picks an admitted key whenever there is one: the earliest, the earliest least loaded, the next in turn |
| PoolChoice.SelectionIsRight | core/selector/credpool.go:240-330 | of the pool as it was given: a session's own key while it can serve it; else, of the keys not cooling and within their limits, the earliest, the earliest least loaded, or the next in the ring from the counter's place; with limits and none such, the same of all keys not cooling; else none |
| PoolChoice.BindingPrunes | core/selector/affinity.go:50-69 | binding a session dates it now and touches no other, except that past 4096 sessions exactly the expired ones go |
| PoolFacts.SelectSound | core/selector/credpool.go:243-330 | a selected key is not cooling, its load grows by one, and no other load changes |
| PoolFacts.OverCapsOnlyAsBackstop | core/selector/credpool.go:267-315 | a key over its request or token limit is chosen only when every key that is not cooling is over one |
| PoolFacts.NoSelectionIff | core/selector/credpool.go:267-315 | Select finds nothing if and only if every key is cooling, or the limits are such that none can ever be met and there is no backstop |
| PoolFacts.NegativeLimitStarves | core/selector/credpool.go:194-199 | a negative limit starves a pool of a healthy key |
| PoolFacts.SessionSticks | core/selector/credpool.go:273-319 | within the TTL a session's next selection is the same key while that key is admitted, and the counter stays |
| PoolRuns.NoSelectionInRuns | core/selector/credpool.go:240-315 | after every run of a servable pool, Select finds nothing if and only if every key is cooling |
| PoolRuns.SoundStepIff | core/selector/credpool.go:245-254 | a step keeps the invariant that a key not circuit-broken has fewer failures than the threshold, unless it is a failed probe of a key at the threshold |
| PoolRuns.SoundInRuns | core/selector/credpool.go:336-447 | the invariant holds after every run without such a probe |
| PoolRuns.ProbeHidesBrokenCircuit | core/selector/credpool.go:500-506 | a run of six sections after which a key past the threshold is not circuit-broken |
| PoolRuns.StrikesCounted | core/selector/credpool.go:386-447 | the escalation counter is the number of 429 answers since the last success, across recoveries, probes, overloads and expired budgets |
| PoolStory.RunTold | core/selector/credpool.go:240-447 | in every run the events alone tell a key's failures, strikes, health and the end of its pause |
| PoolStory.FailuresCounted | core/selector/credpool.go:245-330 | in every run a key's failures are its failed fetches and failed attempts since its last success or recovery |
| PoolStory.BreaksAtThreshold | core/selector/credpool.go:432-441 | in every run a failure that is the threshold's or a later one in a row leaves the key circuit-broken until a cooldown after it, and no selection takes it before; an earlier one leaves its health and pause alone |
| PoolStory.FewerNeverBreak | core/selector/credpool.go:432-441 | in every run without a success, fewer failures in a row leave a key unbroken |
| PoolStory.RowOfFailures | core/selector/credpool.go:432-441 | a new key that fails n times in a row has n failures, and is out until a cooldown after the last if and only if n is at least the threshold |
| PoolRuns.EscalatingCooldown | core/selector/credpool.go:396-412 | the k-th 429 since the last success parks a healthy key for the k-th tier, or the last, or for the delay the answer asked for |
| PoolRuns.SitsOutItsPause | core/selector/credpool.go:373-447 | a healthy key given back after a 429, an overload or its last permitted failure is picked by no selection until its pause is over, and then no longer cools; after any other outcome it never cools |
| PoolRuns.NoPenalty | core/selector/credpool.go:390-430 | a corollary of the outcome table: overloads and expired budgets leave both counters and all samples as they were |
| PoolWindow.PruneIsFilter | core/selector/credpool.go:542-549 | on timestamps in order, dropping from the front is filtering by age |
| PoolWindow.WindowIsFilteredLog | core/selector/credpool.go:256-324 | after every run a key's window is its selection log filtered by age |
| PoolWindow.SoftLimitCapsEveryWindow | core/selector/credpool.go:267-324 | in every run in which the backstop never picks a key, no closed interval as long as the window holds more of its selections than the soft limit |
| TokenWindow.CountsRecentTokens | core/selector/credpool.go:552-569 | the tokens a selection counts against a key are exactly those recorded for it within the window, in every run |
| TokenWindow.TokenLimitKept | core/selector/credpool.go:267-304 | in every run a key picked outside the backstop had fewer tokens recorded within the window than the limit |
| PoolFairness.RoundRobinFair | core/selector/credpool.go:669-685 | with all keys eligible, n times batch selections return each of n keys exactly batch times, whatever happens in between, when the counter does not wrap meanwhile or a full turn divides 2^64 |
| PoolFairness.AlwaysFairIff | core/selector/credpool.go:673-679 | without limits and sessions every full turn in every run of a new pool is fair, across the wrap as well, if and only if there is one key or a full turn divides 2^64 |
| PoolFairness.UnfairRun | core/selector/credpool.go:673-679 | with more keys and an uneven wrap, a new pool that only selects comes to a full turn that gives some key another share |
| Routing.RoutingSelector.Select | core/selector/routing_selector.go:70-79 | a routing selection is one step of the model, for every strategy |
| Routing.RoutingSelector.Try | core/selector/routing_selector.go:89-162 | targets are tried in order; only NoSelection moves on, an error ends the selection, a plan is counted and bound |
| Routing.RoutingSelector.TrySticky | core/selector/routing_selector.go:175-190 | a live binding to an existing target is served when that target has a plan; any failure of it falls through |
| Routing.OrderCovers | core/selector/routing_selector.go:89-162 | every strategy tries every target |
| Routing.PanickedIff | core/selector/routing_selector.go:111-112 | a selection divides by zero if and only if the strategy is round robin and there are no targets |
| Routing.NothingIff | core/selector/routing_selector.go:89-162 | nothing is selected if and only if the session's target does not serve it, no target has anything to select, and it is not round robin over none |
| Routing.FallbackServesEarliest | core/selector/routing_selector.go:89-101 | fallback serves the earliest target, and all before it had nothing to select |
| Routing.RoundRobinServesNext | core/selector/routing_selector.go:111-129 | unless the session's target serves it, round robin serves the first target from its place on, once round, that has anything to select |
| Routing.LeastRequestsServesLeast | core/selector/routing_selector.go:131-162 | unless the session's target serves it, no target with anything to select carries less load than the one served, whatever the session's target answered |
| RoutingRuns.RefreshedIff | core/selector/routing_selector.go:103-190 | a selection that serves a session with an older binding dates it anew if and only if it is not served through the binding |
| RoutingRuns.StuckIff | core/selector/routing_selector.go:103-190 | in every run, whatever other sessions do in between, while a session can be served: a selection is served through its binding if and only if it comes within the TTL of when the binding was made, however often it was used since |
| RoutingRuns.ExpiresWhenIdleIff | core/selector/affinity.go:23-58 | every use is served through the binding just when the documented idle expiry says so, if and only if no stretch of uses without an idle TTL is itself longer than the TTL |
| RoutingRuns.BusySessionMoves | core/selector/routing_selector.go:173-190 | with a TTL of 10 and uses at 0, 8 and 16 the second is served through the binding and the third is not |
| RoutingRuns.CountersCountServed | core/selector/routing_selector.go:89-201 | over every run without releases a target's counter grows by exactly the selections it served |
| RoutingRuns.ServesInTurn | core/selector/routing_selector.go:103-129 | while every target has plans and the counter does not wrap, unkeyed selections serve the targets in turn, starting after the counter's place |
| InFlight.MoveConserves | core/selector/routing_selector.go:194-201 | every atomic section, of any pool or the router, keeps each load equal to the tickets on its key and each counter equal to the wrapped tickets on its target |
| InFlight.InFlightConserved | core/selector/credpool.go:240-360 | in every reachable interleaving of selections, fetches, releases and probes loads and counters equal the tickets out; with none out, all are zero |
| InFlight.HeldKeyIsLoaded | core/selector/credpool.go:382-384 | a plan given back is always one its pool counts, so the guard against negative loads never matters |
| Retry.UpstreamExecutor.ExecuteNonStream | internal/server/upstream.go:136-287 | it stops at the first turn that brings a good answer (2xx passed through, or a readable response below 500) and returns that answer, if and only if one comes before the keys, the budget or the ten turns run out or a request cannot be built; each plan before is given back once with the blame its reply deserves and listed with its status and body; when all failed the exit carries the last listed status and body, or 503 |
| Retry.UpstreamExecutor.ExecuteStream | internal/server/upstream.go:300-438 | the same with an answer below 400 opening the stream, which leaves exactly one plan outstanding, its own |
| Retry.UpstreamExecutor.TryKey | internal/server/upstream.go:154-283 | one attempt gives its plan back once, with the outcome and the verdict of its reply |
| Retry.UpstreamExecutor.TryKeyStream | internal/server/upstream.go:336-397 | the same for the streaming loop |
| Retry.UpstreamExecutor.FinishStream | internal/server/upstream.go:417-436 | the stream's release callback leaves nothing outstanding |
| Retry.JudgeTold | internal/server/upstream.go:166-397 | the reply's status, body and parsed body alone say whether the loop goes on, gives up or answers, what is listed of the attempt, and what its key is blamed for |
| Retry.RateLimitedIff429 | internal/server/upstream.go:189-256 | a corollary of the judgement: an attempt counts against the rate limit if and only if a 429 was answered, or relayed in a body that was translated |
| Retry.KeyClearedIff | internal/server/upstream.go:166-397 | in either loop a reply clears the failures and strikes of a key that has any, if and only if the request could not be built, or the upstream answered below 500 other than 429 and the body, where it is read, is readable and relays nothing worse |
| Retry.RefusalClearsKey | internal/server/upstream.go:205-254 | a corollary of the judgement: in either loop, and for a refusal relayed in a translated body, a refused request is retried elsewhere and its key comes out cleared and as healthy as before |
| PoolRetry.NoKeyTwice | internal/server/upstream.go:151-203 | over one pool, when every attempt parks its key for longer than the loop lasts, no key is taken twice, so n keys take at most n attempts |
| StreamIR.ScanSound | core/ir/stream.go:8-87 | along every stream the grammar accepts, no two calls share a block and every open tool block carries a call |
| OpenAIStream.StreamParser.StreamToIR | internal/wireformat/openai.go:533-724 | the nested loops emit exactly the stream of the parser function |
| OpenAIFacts.StreamWellFormed | internal/wireformat/openai.go:551-721 | for every sequence of chunks the stream is well-formed: blocks open as 0, 1, 2, ..., deltas name open blocks of their kind, each block closes once, there is at least one, then finish, usage, end |
| OpenAIFacts.StreamKeepsContent | internal/wireformat/openai.go:551-721 | the text arrives joined; one call for each tool index in order of appearance, named by its first piece, with all its arguments; the last usage; the last reason unless there is a call |
| OpenAIContent.ChunksArrive | internal/wireformat/openai.go:551-721 | of the chunks before the end marker: the text of all choices joined; one call for each tool index as its pieces spell it; the usage of the last chunk that has one, with choices or without; tool use with a call, else what the last reason given means |
| OpenAIPrinter.StreamPrinter.StreamIRToOAI | internal/wireformat/openai.go:1064-1178 | the loop reads up to the first end event and writes exactly the lines of the printer function |
| OpenAIPrinter.ThereAndBack | internal/wireformat/openai.go:1046-1178 | any well-formed stream printed as OpenAI chunks and read back keeps its text, its calls in order and its usage; the stop reason becomes tool use with a call, and else survives as far as OpenAI can say it |
| OpenAIContent.ClientIsSent | internal/wireformat/openai.go:1046-1178 | for every well-formed stream the chunks written hold its text, one tool index for each call whose pieces spell it, its usage, and "length", "tool_calls" or "stop" for its stop reason |
| AnthropicStream.StreamFromIR | internal/wireformat/anthropic.go:381-505 | the loop sends exactly the wire events of the writer function, up to the first end event |
| AnthropicStream.AnthropicSSEToIR | internal/upstream/passthrough.go:269-383 | the loop emits exactly the events of the reader function, up to the first message stop |
| AnthropicStream.RoundTrip | internal/upstream/passthrough.go:269-383 | every stream that ends, written and read back, is event for event what `Back` says, with one finish and one usage folded to the end and input tokens zero |
| AnthropicStream.SurvivesIff | internal/wireformat/anthropic.go:414-471 | a block event comes back as it was if and only if its kind is not a wire kind and it does not carry reasoning text and signature at once |
| AnthropicStream.WellFormedRoundTrip | internal/wireformat/anthropic.go:381-505 | a well-formed stream with one field in each reasoning delta comes back with the same block events in the same order |
| AnthropicStream.ReturnsWellFormed | internal/upstream/passthrough.go:269-383 | what comes back is well-formed |
| AnthropicWire.ClientIsSent | internal/wireformat/anthropic.go:293-505 | for every well-formed stream the events sent are in Anthropic's order and hold its text, calls and thinking; the last two are the one message delta, with "tool_use", "max_tokens" or "end_turn" for the stream's stop reason and its last usage, and the stop |
| AnthropicWire.StopComesBack | internal/wireformat/anthropic.go:280-302 | every stream that ends comes back with its stop reason, collapsed to tool use, token limit or an ordinary stop |
| AnthropicWire.WordDecides | internal/wireformat/anthropic.go:280-289 | whatever is read, the last message delta's word decides the stop reason: "tool_use", "max_tokens", or an ordinary stop |
| AnthropicWire.ReaderHears | internal/upstream/passthrough.go:269-383 | of every stream in Anthropic's order the reader keeps the text, the calls with their arguments, and the tokens |
| AnthropicGrammar.ReadsWellFormedIff | internal/upstream/passthrough.go:269-383 | for every stream in Anthropic's order of events, what the reader emits is well-formed if and only if there is a block and every block is of a type the neutral stream knows |
| AnthropicGrammar.ReadToTheEnd | internal/upstream/passthrough.go:376-378 | a stream in Anthropic's order is read to its last event |
| GeminiStream.StreamParser.StreamToIR | internal/wireformat/gemini.go:123-272 | the nested loops emit exactly the stream of the parser function |
| GeminiStream.StreamSequential | internal/wireformat/gemini.go:142-269 | for every sequence of chunks the stream is well-formed and no two blocks are open at once |
| GeminiStream.StreamKeepsContent | internal/wireformat/gemini.go:142-269 | visible text arrives joined, every call whole and in order under its own id; signatures are cached for the call they come with or the latest before |
| GeminiContent.ChunksArrive | internal/wireformat/gemini.go:142-269 | of the chunks: the text of the parts that are no thoughts, joined; their calls in order, each under its own id; their signatures; the last usage that counts anything; tool use with a call, else what the last finish reason means |
| GeminiContent.ThoughtsLeaveNoTrace | internal/wireformat/gemini.go:167-171 | chunks that differ in their thought parts alone give the same stream, event for event |
| ResponsesStream.ResponsesWriter.WriteStream | internal/downstream/openai_responses.go:633-655 | all events of the stream are translated, in order |
| ResponsesStream.ResponsesWriter.TranslateEvent | internal/downstream/openai_responses.go:661-801 | one event changes the writer's state and output as the translation function says |
| ResponsesStream.PairedIff | internal/downstream/openai_responses.go:446-801 | for every well-formed stream the items are paired at output index 0, 1, 2, ..., pieces come under the announced id, done text equals joined deltas and one completion comes last, if and only if no two blocks are open at once and every reasoning block's last signature unpacks to nothing or to the block's joined text |
| ResponsesStream.IdsKeptIff | internal/downstream/openai_responses.go:446-801 | the items of a paired stream are done under the ids they were announced under if and only if every reasoning block's signature unpacks to an item of the id drawn for that block |
| ResponsesStream.SaysAnother | internal/downstream/openai_responses.go:446-463 | a sequential well-formed stream of one reasoning block whose signature unpacks to another text is not paired |
| StreamChains.SequentialArrives | internal/downstream/openai_responses.go:661-801 | of a sequential stream the client receives the text, every call whole, and the usage last of all; its items are paired if and only if no reasoning block's signature unpacks to something else than it said |
| StreamChains.ThoughtlessPairedIff | internal/downstream/openai_responses.go:661-801 | without reasoning blocks the items are paired, and keep their ids, if and only if no two blocks are open at once |
| StreamChains.GeminiReachesResponses | internal/wireformat/gemini.go:123-272 | whatever the chunks, what a Gemini stream shows reaches a Responses client whole, its items paired and done under their own ids |
| StreamChains.OpenAIPairedIff | internal/wireformat/openai.go:606-700 | an OpenAI stream reaches a Responses client properly paired, and with its items' ids kept, if and only if it makes at most one call and says nothing after that call has begun |

## Left out

- PoolStory.FewerNeverBreak: runs in which the key succeeds are left out, because a success while the key is circuit-broken clears its failures and not its pause; PoolStory.RunTold covers them.
- Retry.UpstreamExecutor.TryKey: stated through the judgement of a reply, whose meaning is Retry.JudgeTold.
- Vault.BuiltinVault.Tokenize: labels are modelled for ASCII type names; the vault's own lock is not, so calls are atomic.
- CredPool.CredPool.Select: one clock reading serves the whole section, where the sticky map reads its own; the session key is a parameter.
- StreamResolver.Relay: closing the body is left out.
- CredPool.CredPool.Release: reporting the outcome to a leased credential source is left out.
- Iban.IbanValid: letters are upper-cased in ASCII only; the source's Unicode upper-casing also takes 'ſ' to S and 'ı' to I, and so accepts some text with these that the model rejects.
- Routing.RoutingSelector.Select: what the inner selectors answer is a parameter, and the counters are read at one moment; the order among equally loaded targets is the listed one.
- InFlight.InFlightConserved: ids are unique within a pool, and a selector is routed once; nested routers and probes taken through a router, which carry no release hook, are not covered.
- PoolFairness.RoundRobinFair: sticky sessions are off.
- Retry.UpstreamExecutor.ExecuteNonStream: credential sources succeed and the selector reports no error but NoSelection; messages are not trimmed or joined into one text.
- OpenAIStream.StreamParser.StreamToIR: lines are given decoded, and the client does not cancel; the sends at the tail ignore cancellation.
- ResponsesStream.ResponsesWriter.TranslateEvent: the random parts of ids and the decoding of a signature are parameters; the parts of an unpacked summary are plain texts; the response's own id is not modelled.
- RoutingRuns.ServesInTurn: sessions and the counter's wrap are left out.
- LiveText.AnyTextComesBackIff: values must be told from an opening bracket by one of their first three bytes, as every non-empty ASCII value is; Reversal.EndToEndIff has no such condition for texts without brackets.
- GeminiStream.StreamParser.StreamToIR: call ids come from a parameter, arguments are given as rendered, the signature cache is a log without expiry.
- Resolving event streams: one resolver serves text and reasoning deltas and drops what it still holds, so it is no exact refinement.
- Phrase findings, whose offsets index a normalised copy of the text.
- Restoring health from a snapshot, which can set any counters.
- HTTP, JSON and SSE framing, the regular-expression engine, configuration files, persistence, signing, OAuth and the admin interface.
- Re-framing decoded EventStream messages as server-sent events.
- Compression heuristics, statistics and caches, which would only add easy members.
