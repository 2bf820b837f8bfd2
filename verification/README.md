# A verified model of the knowledge tool's core

The knowledge tool ingests documents into datasets and answers queries against them. Ingestion
loads a file, splits its text into chunks (two markdown splitters), filters and transforms the
chunks (dropping heading-only documents, adding or manipulating metadata) and stores them in a
vector store, with an index of files and documents kept beside it. Retrieval runs a flow: query
modifiers rewrite the query, a retriever asks the vector store for the top K documents, and
postprocessors filter them by similarity score, cut them to the best K, or keep those with (or
without) given substrings. Flows are chosen from a configuration file by dataset.

This Dafny project models that core, one module per source file, and proves what each part
promises:

- **Tokenizing** (`TiktokenBpe`, `TiktokenEncoding`, `TiktokenCodec`, `TiktokenModels`, with
  `Base64` and `Utf8`): byte-pair merging and encoding, decoding, the special-token checks of
  `Encode`, loading rank files and the GPT-2 vocabulary, and the model-to-encoding lookup.
- **Splitting and filtering** (`MarkdownRolling`, `MarkdownBasic`, `MarkdownFilters`): the
  heading stack and chunk packing of the rolling splitter, the hierarchical titles of the basic
  splitter, and both versions of the heading-only filter.
- **Metadata** (`MetadataTransformers`, `DatasetMetadata`, `LoadOutput`): the extra-metadata
  and manipulator transforms, dataset metadata clean-up, and the metadata shared by all
  documents in the `load` command's structured and markdown outputs.
- **Retrieval** (`Retrievers`, `Keywords`, `Postprocessors`, `Chromem`, `Flows`,
  `FlowsConfig`): the retriever registry and the basic retriever, quoted-keyword extraction, the
  three postprocessors, the chromem store's document conversion and guarded search, ingestion and
  retrieval flows, and flow configuration.
- **Index bookkeeping** (`IndexStore`): deleting documents and files, pruning, finding files
  and the duplicate checks, over in-memory tables.
- **Helpers** (`Filetypes`, `DatastorePaths`, `GitClone`, `Embeddings`, `Redact`): file-type
  detection, default datastore paths, the ref handling of a repository clone, embedding provider
  configuration and export, and redaction of sensitive configuration fields.
- **Vendored libraries**: the textractor document model (`TextractorTable`,
  `TextractorTableCell`, `TextractorKeyValue`, `TextractorSelection`, `TextractorBlockParser`,
  `TextractorTypes`, `TextractorUtil`, `TextractorLevenshtein`), the peeking reader over memory
  (`PeekingMemReader`, `PeekingRead`) and the PostScript interpreter of the PDF reader (`PdfPs`).
- **Python helpers** (`EvalUtils`, `KnowledgeOutput`): merging a streamed chat completion and
  the early paths of the answer judge in `tests/utils.py`, and the message `output.py` builds
  from the retrieval output.

The shared modules `Wrappers` (Option and Result), `GoStrings` (Go's `strings` functions),
`Seqs`, `DocTypes` (documents and their `any`-typed metadata) and `ReflectValues` (structs as
lists of tagged fields) hold definitions used by several of these.

Parts of the system that are not Go or Python code in these files are parameters of the model:
the vector store's search, the token counter, the regular-expression pre-tokenizer, MIME
sniffing, the git library, JSON encoding, the judge model's ruling, and the components plugged
into a flow. Objects whose fields the source updates (the markdown splitters' state, the memory
reader, the PostScript stack and interpreter, the chromem store, the index, the flows) are
classes whose methods are proved against specification functions. The properties proved about
those functions are listed below.

## Model

| member | source | states |
|---|---|---|
| Base64.Encode | vendor/github.com/hupe1980/go-tiktoken/codec.go:164 | the padded standard encoding: only alphabet characters and padding, a multiple of four long |
| Base64.DecodeEncode | vendor/github.com/hupe1980/go-tiktoken/codec.go:164 | decoding the standard encoding of any bytes gives those bytes back |
| TiktokenBpe.BytePairMerge | vendor/github.com/hupe1980/go-tiktoken/bpe.go:190-253 | the tokens are exactly Segmentation(piece, ranks), the spans left by merging at the first lowest rank until no rank is below MaxUint; they concatenate back to the piece; each id is the token's rank or 0; a non-empty piece gives between 1 and len(piece) non-empty tokens, an empty piece none; every token is a single byte or a ranked token; no two neighbouring tokens join into a token of rank below MaxUint |
| TiktokenBpe.MinPart | vendor/github.com/hupe1980/go-tiktoken/bpe.go:220-227 | the search over the first n parts settles on the first part of lowest rank below MaxUint, or on MaxUint when every rank is at least MaxUint; every earlier part has a strictly higher rank |
| TiktokenBpe.InitialOf | vendor/github.com/hupe1980/go-tiktoken/bpe.go:198-217 | one part per byte plus the end sentinel |
| TiktokenBpe.GreedyMerge | vendor/github.com/hupe1980/go-tiktoken/bpe.go:219-241 | repeating "merge at the first lowest rank" until one part is left or no rank is below MaxUint ends in well-formed, current parts, no more of them than at the start, none of which can be merged any more |
| TiktokenBpe.TokensOf | vendor/github.com/hupe1980/go-tiktoken/bpe.go:243-250 | one token per pair of consecutive boundaries, the span between them |
| TiktokenBpe.GreedyStep | vendor/github.com/hupe1980/go-tiktoken/bpe.go:229-240 | one round of the loop (merge at the index the minimum search found, when its rank is below MaxUint) keeps the parts well formed and does not change what the merge ends with |
| TiktokenBpe.GreedyStops | vendor/github.com/hupe1980/go-tiktoken/bpe.go:219-232 | with one part left, or no rank below MaxUint, the merge ends with the parts as they are |
| TiktokenBpe.SegmentationIs | vendor/github.com/hupe1980/go-tiktoken/bpe.go:197-250 | the tokens of the parts the merge ends with, from the starting parts, are the segmentation |
| TiktokenBpe.MergeParts | vendor/github.com/hupe1980/go-tiktoken/bpe.go:219-241 | the loop ends with exactly the parts GreedyMerge gives for the starting parts, every span still a single byte or a ranked token |
| TiktokenBpe.GreedyMergeExample | vendor/github.com/hupe1980/go-tiktoken/bpe.go:219-241 | with ranks [1,2]:0, [3,4]:1, [2,3]:2, [1,2,3,4]:3 the piece 1 2 3 4 becomes the single token [1,2,3,4], and not the split [1] [2,3] [4], which is equally made of known, unmergeable tokens |
| TiktokenBpe.MinRank | vendor/github.com/hupe1980/go-tiktoken/bpe.go:220-227 | the loop's result is MinPart over the parts before the last: the first minimal rank, MaxUint exactly when none is lower, the index found the leftmost holding it |
| TiktokenBpe.InitialParts | vendor/github.com/hupe1980/go-tiktoken/bpe.go:198-217 | equals InitialOf: one part per byte plus the end sentinel, each scored with the rank of the pair it starts, so the boundaries are well formed and every rank current |
| TiktokenBpe.ScoredParts | vendor/github.com/hupe1980/go-tiktoken/bpe.go:198-217 | parts at every byte scored with the rank of the pair they start are a valid starting state for the merge |
| TiktokenBpe.MergeKeepsRanks | vendor/github.com/hupe1980/go-tiktoken/bpe.go:234-240 | removing the boundary after the minimal part and re-scoring it and its left neighbour keeps the boundaries ascending from 0 to len(piece) and every stored rank equal to the rank of the span it starts |
| TiktokenBpe.MergeKeepsKnown | vendor/github.com/hupe1980/go-tiktoken/bpe.go:234-240 | the merged span is a token of known rank, so every span between boundaries stays a single byte or a ranked token |
| TiktokenBpe.ConcatTokens | vendor/github.com/hupe1980/go-tiktoken/bpe.go:243-250 | the spans between consecutive boundaries concatenate to the piece up to the boundary reached |
| TiktokenBpe.PartsTokens | vendor/github.com/hupe1980/go-tiktoken/bpe.go:243-252 | the tokens are TokensOf the final parts: the spans between the final boundaries concatenate to the piece, each with its rank or 0, each non-empty, and no neighbouring pair has a rank below MaxUint |
| TiktokenBpe.FinalTokensUnmergeable | vendor/github.com/hupe1980/go-tiktoken/bpe.go:229-232 | when the loop stops, no two neighbouring tokens join into a ranked token below MaxUint |
| TiktokenBpe.FinalTokensKnown | vendor/github.com/hupe1980/go-tiktoken/bpe.go:243-250 | every final token is non-empty and is a single byte or a token of the ranks |
| TiktokenBpe.BytePairEncode | vendor/github.com/hupe1980/go-tiktoken/bpe.go:257-264 | the tokens are Segmentation(piece, ranks) in every case, the one-byte shortcut included; a one-byte piece is its own token with its rank (0 when absent); other pieces get the merge's guarantees: round trip to the piece, ids are ranks, 1..len(piece) tokens |
| TiktokenBpe.CutText | vendor/github.com/hupe1980/go-tiktoken/bpe.go:303-313 | the cut is no longer than the text, and is the whole text when the bounds cover it; bounds left out of order after clamping are excluded because Go panics on them |
| TiktokenBpe.CutTextSplits | vendor/github.com/hupe1980/go-tiktoken/bpe.go:303-313 | cutting at a point in between and concatenating the two cuts gives the cut of the whole range |
| TiktokenBpe.Invert | vendor/github.com/hupe1980/go-tiktoken/bpe.go:43-46 | the reverse map built by later keys overwriting earlier ones maps every value to a key that has it, and has exactly the encoder's values as keys |
| TiktokenBpe.ValuesCount | vendor/github.com/hupe1980/go-tiktoken/bpe.go:43-50 | the reverse map has as many entries as the encoder exactly when no two tokens share a rank |
| TiktokenBpe.ValuesOfRest | vendor/github.com/hupe1980/go-tiktoken/bpe.go:43-50 | removing one key of the encoder leaves the other values, plus the removed one, as its values |
| TiktokenBpe.LessAsymmetric | vendor/github.com/hupe1980/go-tiktoken/bpe.go:62-64 | bytes.Compare order is asymmetric |
| TiktokenBpe.LessTotal | vendor/github.com/hupe1980/go-tiktoken/bpe.go:62-64 | bytes.Compare order is total on distinct byte strings |
| TiktokenBpe.Insert | vendor/github.com/hupe1980/go-tiktoken/bpe.go:62-64 | inserting into an ascending list keeps it ascending and adds exactly the one element |
| TiktokenBpe.Sort | vendor/github.com/hupe1980/go-tiktoken/bpe.go:62-64 | the sorted keys are ascending and a permutation of the input |
| TiktokenBpe.StrictlyAscending | vendor/github.com/hupe1980/go-tiktoken/bpe.go:57-64 | an ascending list without repeats is strictly increasing |
| TiktokenBpe.DistinctCount | vendor/github.com/hupe1980/go-tiktoken/bpe.go:57-60 | a list without repeats holds each value at most once |
| TiktokenBpe.RepeatCounts | vendor/github.com/hupe1980/go-tiktoken/bpe.go:57-60 | two equal positions make the value occur at least twice |
| TiktokenBpe.DistinctPreserved | vendor/github.com/hupe1980/go-tiktoken/bpe.go:62-64 | sorting a list without repeats leaves no repeats |
| TiktokenBpe.NewCoreBpe | vendor/github.com/hupe1980/go-tiktoken/bpe.go:27-75 | fails with "encoder and decoder map sizes are different" exactly when two tokens share a rank; otherwise the decoders invert the encoders and sortedTokenBytes holds every token once in strictly increasing byte order |
| TiktokenBpe.Keys | vendor/github.com/hupe1980/go-tiktoken/bpe.go:57-60 | map iteration yields every key of the encoder exactly once |
| TiktokenBpe.SortedKeys | vendor/github.com/hupe1980/go-tiktoken/bpe.go:57-64 | sorting the distinct keys gives every token once, strictly increasing |
| TiktokenBpe.Decode | vendor/github.com/hupe1980/go-tiktoken/bpe.go:171-186 | the result is each id's bytes concatenated, from the decoder or else the special decoder, ids in neither adding nothing |
| TiktokenBpe.DecodeKnownTokens | vendor/github.com/hupe1980/go-tiktoken/bpe.go:171-186 | decoding the ids of known tokens with a decoder that inverts an injective encoder gives back the concatenated tokens |
| TiktokenBpe.EncodeDecodeRoundTrip | vendor/github.com/hupe1980/go-tiktoken/bpe.go:171-186 | when every single byte is a token and the decoder inverts the ranks, decoding what bytePairEncode produced gives the piece back |
| TiktokenEncoding.SpecialTokensSet | vendor/github.com/hupe1980/go-tiktoken/encoding.go:55-58 | the special-token set is exactly the keys of the codec's special-token table |
| TiktokenEncoding.NewEncoding | vendor/github.com/hupe1980/go-tiktoken/encoding.go:49-65 | fails exactly when the byte-pair tables cannot be built (two tokens share a rank); otherwise carries the codec's name, the special-token keys and the built tables |
| TiktokenEncoding.NewEncodingByName | vendor/github.com/hupe1980/go-tiktoken/encoding.go:20-46 | the five known names load their codec and build the encoding, a loader error is passed on, and any other name is the error "unknown encoding: <name>" |
| TiktokenEncoding.ByNameKnownNames | vendor/github.com/hupe1980/go-tiktoken/encoding.go:26-39 | the "unknown encoding" error is returned exactly for the names other than cl100k_base, p50k_base, p50k_edit, r50k_base and gpt2 |
| TiktokenEncoding.ListedSet | vendor/github.com/hupe1980/go-tiktoken/encoding.go:85-94 | the set built from a list holds exactly the listed strings |
| TiktokenEncoding.Difference | vendor/github.com/hupe1980/go-tiktoken/encoding.go:120-130 | the result holds exactly the keys of the first set that are not in the second |
| TiktokenEncoding.ShortestAt | vendor/github.com/hupe1980/go-tiktoken/encoding.go:133-144 | the alternation of the sorted tokens, tried at one position, matches exactly when some token occurs there, and then matches the shortest one |
| TiktokenEncoding.FindRegexMatch | vendor/github.com/hupe1980/go-tiktoken/encoding.go:147-154 | no match exactly when no token occurs anywhere in the text; otherwise the leftmost position's shortest token |
| TiktokenEncoding.EmptyMatch | vendor/github.com/hupe1980/go-tiktoken/encoding.go:103-104 | the first match is the empty string exactly when the empty string is one of the tokens |
| TiktokenEncoding.NoMatchNoOccurrence | vendor/github.com/hupe1980/go-tiktoken/encoding.go:100-107 | the regular expression finds nothing exactly when no disallowed token occurs in the text |
| TiktokenEncoding.SpecialSets | vendor/github.com/hupe1980/go-tiktoken/encoding.go:81-98 | ["all"] allows the whole special set and otherwise exactly the listed strings are allowed; ["all"] disallows the special tokens minus the allowed ones and otherwise exactly the listed strings |
| TiktokenEncoding.DisallowedMatch | vendor/github.com/hupe1980/go-tiktoken/encoding.go:100-107 | a non-empty match is found exactly when the empty string is not disallowed and some disallowed token occurs in the text, and it is the first match |
| TiktokenEncoding.Encode | vendor/github.com/hupe1980/go-tiktoken/encoding.go:80-112 | an error exactly when a disallowed token occurs in the text (and "" is not disallowed), naming the first match; otherwise the core encoder's result for the allowed set |
| TiktokenEncoding.AllAllowedNeverFails | vendor/github.com/hupe1980/go-tiktoken/encoding.go:82-98 | allowing "all" and disallowing "all" leaves nothing disallowed, so Encode never fails |
| TiktokenEncoding.SpecialTokenInTextDisallowed | vendor/github.com/hupe1980/go-tiktoken/encoding.go:91-107 | with nothing allowed and "all" disallowed, any special token in the text makes Encode fail |
| TiktokenModels.EncodingForModel | vendor/github.com/hupe1980/go-tiktoken/tiktoken.go:75-87 | the resolved name is always one of the five encodings, and the only error is "no encoding for model <model>" |
| TiktokenModels.ResolveModel | vendor/github.com/hupe1980/go-tiktoken/tiktoken.go:76-86 | the lookup loop, whatever order it meets the prefixes in, settles on the exact entry, else a matching prefix's encoding, else the error |
| TiktokenModels.NewEncodingForModel | vendor/github.com/hupe1980/go-tiktoken/tiktoken.go:75-87 | a resolved name is handed to NewEncodingByName with its outcome; an unresolved model returns the lookup error |
| TiktokenModels.ExactNameFirst | vendor/github.com/hupe1980/go-tiktoken/tiktoken.go:76-77 | an exact table entry takes priority over every prefix |
| TiktokenModels.PrefixDecides | vendor/github.com/hupe1980/go-tiktoken/tiktoken.go:79-83 | a name without an entry that starts with a listed prefix gets that prefix's encoding, which is cl100k_base for every prefix, so the iteration order does not matter |
| TiktokenModels.SampleChatModel | vendor/github.com/hupe1980/go-tiktoken/tiktoken.go:30 | example: "gpt-4" resolves to cl100k_base |
| TiktokenModels.SampleCompletionModel | vendor/github.com/hupe1980/go-tiktoken/tiktoken.go:40 | example: "davinci" resolves to r50k_base |
| TiktokenModels.SampleEditModel | vendor/github.com/hupe1980/go-tiktoken/tiktoken.go:53 | example: "code-davinci-edit-001" resolves to p50k_edit |
| TiktokenModels.SampleDatedModel | vendor/github.com/hupe1980/go-tiktoken/tiktoken.go:20-25 | example: "gpt-4-0314" has no entry but its prefix "gpt-4-" gives cl100k_base |
| TiktokenModels.UnknownModel | vendor/github.com/hupe1980/go-tiktoken/tiktoken.go:86 | example: "gpt-4o" has neither an entry nor a listed prefix and gets "no encoding for model gpt-4o" |
| TiktokenCodec.ToUint | vendor/github.com/hupe1980/go-tiktoken/codec.go:174 | uint(rank) keeps a non-negative rank and wraps a negative one to 2^64 plus it, above MaxInt64 |
| TiktokenCodec.ParseLine | vendor/github.com/hupe1980/go-tiktoken/codec.go:162-174 | a line that parses has as token the base64 decoding of the text before its first space |
| TiktokenCodec.ConvertToMergeableBpeRanks | vendor/github.com/hupe1980/go-tiktoken/codec.go:145-178 | an empty file is the "empty bpe file" error; any other content gives what reading its lines in order gives, blank lines skipped |
| TiktokenCodec.ParseLinesStopsAtError | vendor/github.com/hupe1980/go-tiktoken/codec.go:157-175 | the first failing line decides the result: lines after it change nothing |
| TiktokenCodec.ParseRenderLine | vendor/github.com/hupe1980/go-tiktoken/codec.go:162-174 | a line rendered from a token and an int64 rank is non-empty, holds no newline and parses back to that token and rank |
| TiktokenCodec.ParseRenderedLines | vendor/github.com/hupe1980/go-tiktoken/codec.go:157-175 | reading lines rendered from entries gives the map of those entries, a later entry winning on a repeated token |
| TiktokenCodec.ConvertRendered | vendor/github.com/hupe1980/go-tiktoken/codec.go:145-178 | round trip of the tiktoken file format: a file rendered from a non-empty list of entries is non-empty and reads back as their map |
| TiktokenCodec.PrintableMember | vendor/github.com/hupe1980/go-tiktoken/codec.go:36-40 | a byte is in the printable list below k exactly when it is below k, printable and not the space |
| TiktokenCodec.NonPrintableMember | vendor/github.com/hupe1980/go-tiktoken/codec.go:49-55 | a byte is in the other list below k exactly when it is below k and not a printable non-space byte |
| TiktokenCodec.Members | vendor/github.com/hupe1980/go-tiktoken/codec.go:36-55 | membership of both lists at once: the printable non-space bytes, and the rest |
| TiktokenCodec.NonPrintablesPrefix | vendor/github.com/hupe1980/go-tiktoken/codec.go:49-55 | the non-printable bytes below k are a prefix of those below any larger bound, so each keeps its code point as the loop goes on |
| TiktokenCodec.PartitionSize | vendor/github.com/hupe1980/go-tiktoken/codec.go:57-59 | the two lists below k together have exactly k entries |
| TiktokenCodec.ContainsRune | vendor/github.com/hupe1980/go-tiktoken/codec.go:181-189 | true exactly when the rune occurs in the list |
| TiktokenCodec.DataGymOfEntries | vendor/github.com/hupe1980/go-tiktoken/codec.go:42-55 | the alphabet spells each listed printable byte by itself and the i-th other byte by code point 256 + i, and nothing else |
| TiktokenCodec.DataGymOfAt | vendor/github.com/hupe1980/go-tiktoken/codec.go:42-55 | the entry of one spelled character: itself below 256, the listed other byte from 256 on |
| TiktokenCodec.DataGymOfByteValued | vendor/github.com/hupe1980/go-tiktoken/codec.go:42-55 | an alphabet built from byte lists maps every character to a byte |
| TiktokenCodec.DataGym | vendor/github.com/hupe1980/go-tiktoken/codec.go:34-55 | the data-gym alphabet maps every character it spells to a byte |
| TiktokenCodec.PrintablesAscending | vendor/github.com/hupe1980/go-tiktoken/codec.go:36-40 | the printable list is strictly ascending |
| TiktokenCodec.NonPrintablesAscending | vendor/github.com/hupe1980/go-tiktoken/codec.go:49-55 | the other list is strictly ascending |
| TiktokenCodec.GymInjective | vendor/github.com/hupe1980/go-tiktoken/codec.go:42-55 | distinct characters of the alphabet spell distinct bytes |
| TiktokenCodec.GymCharSpells | vendor/github.com/hupe1980/go-tiktoken/codec.go:42-55 | every byte below k is spelled, by the character GymChar gives it |
| TiktokenCodec.GymCharSpellsPrintable | vendor/github.com/hupe1980/go-tiktoken/codec.go:43-45 | a printable non-space byte is spelled by itself |
| TiktokenCodec.GymCharSpellsOther | vendor/github.com/hupe1980/go-tiktoken/codec.go:49-54 | any other byte is spelled by 256 plus its rank among the non-printables |
| TiktokenCodec.NonPrintableRank | vendor/github.com/hupe1980/go-tiktoken/codec.go:49-54 | a non-printable byte stands in the other list at the number of non-printables below it |
| TiktokenCodec.DataGymBijective | vendor/github.com/hupe1980/go-tiktoken/codec.go:34-55 | the data-gym alphabet is a bijection onto the 256 bytes: byte-valued, injective, and every byte spelled |
| TiktokenCodec.RankToIntByte | vendor/github.com/hupe1980/go-tiktoken/codec.go:34-55 | the opening loops build rankToIntByte as the printable non-space bytes then the rest, and dataGymByteToByte as the data-gym alphabet |
| TiktokenCodec.Alphabet | vendor/github.com/hupe1980/go-tiktoken/codec.go:36-55 | the three byte loops, bounded by limit, give the two lists in order and their alphabet |
| TiktokenCodec.NonPrintableRanks | vendor/github.com/hupe1980/go-tiktoken/codec.go:47-55 | the third loop appends exactly the missing bytes in order, each spelled by the next code point from 256 |
| TiktokenCodec.AddIfMissing | vendor/github.com/hupe1980/go-tiktoken/codec.go:50-54 | one pass appends byte b and spells it by 256 + n exactly when it is not yet listed, keeping the lists equal to those below b + 1 |
| TiktokenCodec.AlphabetStep | vendor/github.com/hupe1980/go-tiktoken/codec.go:50-54 | byte b is already listed exactly when printable; otherwise it extends the other list and takes code point 256 + n |
| TiktokenCodec.PrintableRanks | vendor/github.com/hupe1980/go-tiktoken/codec.go:36-45 | the first two loops list the printable non-space bytes and spell each by itself |
| TiktokenCodec.NextNonPrintable | vendor/github.com/hupe1980/go-tiktoken/codec.go:50 | containsRune finds byte b exactly when it is printable and not the space |
| TiktokenCodec.DataGymOfSnoc | vendor/github.com/hupe1980/go-tiktoken/codec.go:51-53 | appending a byte to the other list adds the one entry 256 + n for it |
| TiktokenCodec.PartitionPermutation | vendor/github.com/hupe1980/go-tiktoken/codec.go:34-55 | the two lists below k hold every byte below k exactly once |
| TiktokenCodec.RankToIntBytePermutation | vendor/github.com/hupe1980/go-tiktoken/codec.go:57-59 | rankToIntByte is a permutation of the 256 bytes, so the length assertion never fails |
| TiktokenCodec.DecodeGym | vendor/github.com/hupe1980/go-tiktoken/codec.go:84-91 | decoding keeps the length and yields runes below 256 |
| TiktokenCodec.DecodeGymAt | vendor/github.com/hupe1980/go-tiktoken/codec.go:86-88 | the i-th decoded rune is the byte the i-th character spells |
| TiktokenCodec.DecodeDataGym | vendor/github.com/hupe1980/go-tiktoken/codec.go:84-91 | the decoding closure's loop computes the decoded value |
| TiktokenCodec.EncodeGym | vendor/github.com/hupe1980/go-tiktoken/codec.go:42-55 | spelling runes below 256 in the alphabet keeps the length |
| TiktokenCodec.DecodeEncodeGym | vendor/github.com/hupe1980/go-tiktoken/codec.go:84-91 | decoding a value spelled in the data-gym alphabet gives back its runes |
| TiktokenCodec.RuneUtf8 | vendor/github.com/hupe1980/go-tiktoken/codec.go:79 | string(rune) of a rune below 256 takes one byte below 0x80 and two from 0x80 on |
| TiktokenCodec.ByteKeysAreRunes | vendor/github.com/hupe1980/go-tiktoken/codec.go:79 | keyed by raw bytes, the key of runes below 256 is those runes as bytes |
| TiktokenCodec.KeyOfRune | vendor/github.com/hupe1980/go-tiktoken/codec.go:79 | the key of one rune is its UTF-8 encoding, or the byte itself when keyed by raw bytes |
| TiktokenCodec.ByteKeysDistinct | vendor/github.com/hupe1980/go-tiktoken/codec.go:79 | distinct bytes get distinct keys in either key form |
| TiktokenCodec.SingleByteRanksEntries | vendor/github.com/hupe1980/go-tiktoken/codec.go:78-81 | over distinct bytes every listed byte's key is ranked at its position |
| TiktokenCodec.SingleByteRanksSize | vendor/github.com/hupe1980/go-tiktoken/codec.go:78-81 | over distinct bytes there are as many single-byte ranks as bytes |
| TiktokenCodec.LastKeyFresh | vendor/github.com/hupe1980/go-tiktoken/codec.go:78-81 | over distinct bytes the last byte's key is new to the map built from the ones before |
| TiktokenCodec.SingleByteRanksKeys | vendor/github.com/hupe1980/go-tiktoken/codec.go:78-81 | the single-byte ranks hold only the keys of listed bytes |
| TiktokenCodec.AddMergesFails | vendor/github.com/hupe1980/go-tiktoken/codec.go:95-101 | the merge loop panics exactly when some merge line has fewer than two parts |
| TiktokenCodec.AddMergesFirstPanic | vendor/github.com/hupe1980/go-tiktoken/codec.go:96-97 | the panic is the index error of the first merge with fewer than two parts |
| TiktokenCodec.AddMergesStep | vendor/github.com/hupe1980/go-tiktoken/codec.go:98-100 | one more well-formed merge stores its key at the next rank n + i |
| TiktokenCodec.AddMergesRanks | vendor/github.com/hupe1980/go-tiktoken/codec.go:93-101 | after a successful loop each merge key is ranked between n + j and n plus the number of merges, a later duplicate overriding |
| TiktokenCodec.AddMergesKeeps | vendor/github.com/hupe1980/go-tiktoken/codec.go:93-101 | the merge loop keeps every earlier key, with its rank unless a merge re-ranks it |
| TiktokenCodec.AddMergesErrorSticks | vendor/github.com/hupe1980/go-tiktoken/codec.go:95-101 | once a merge has panicked further merges keep that panic |
| TiktokenCodec.MergeRanks | vendor/github.com/hupe1980/go-tiktoken/codec.go:93-101 | the merge loop computes the merge ranks or the first panic |
| TiktokenCodec.LoadEncoder | vendor/github.com/hupe1980/go-tiktoken/codec.go:115-124 | each encoder entry is stored under its decoded name, in some iteration order |
| TiktokenCodec.LoadedFromValues | vendor/github.com/hupe1980/go-tiktoken/codec.go:117-124 | when no two names decode alike, each name's rank is found under its key |
| TiktokenCodec.LoadedFromUnique | vendor/github.com/hupe1980/go-tiktoken/codec.go:117-124 | when no two names decode alike, the loaded encoder does not depend on map iteration order |
| TiktokenCodec.LoadedAgree | vendor/github.com/hupe1980/go-tiktoken/codec.go:117-124 | two loadings in different orders agree key by key when no two names decode alike |
| TiktokenCodec.CompareRanks | vendor/github.com/hupe1980/go-tiktoken/codec.go:131-139 | the closing assertions: a size mismatch or a rank that differs from the encoder's (a missing key reading 0) is the error |
| TiktokenCodec.CheckRanksComplete | vendor/github.com/hupe1980/go-tiktoken/codec.go:131-139 | equal maps pass the assertions |
| TiktokenCodec.CheckRanksSound | vendor/github.com/hupe1980/go-tiktoken/codec.go:131-139 | passing means equal sizes, matching ranks on shared keys, and rank 0 for a key missing from the encoder; with no key missing the maps are equal |
| TiktokenCodec.CheckRanksMissesRankZero | vendor/github.com/hupe1980/go-tiktoken/codec.go:135-138 | a key of rank 0 missing from the encoder goes unnoticed: two different maps pass |
| TiktokenCodec.RankBytes | vendor/github.com/hupe1980/go-tiktoken/codec.go:34-55 | rankToIntByte holds bytes only |
| TiktokenCodec.SplitMerges | vendor/github.com/hupe1980/go-tiktoken/codec.go:70-73 | one split merge per vocabulary line between the first and the last |
| TiktokenCodec.CovertVocabBpeAndEncoderJsonToMergeableBpeRanks | vendor/github.com/hupe1980/go-tiktoken/codec.go:33-142 | the vocabulary's panic, or the single-byte and merge ranks checked against the encoder loaded from the JSON |
| TiktokenCodec.MergeLines | vendor/github.com/hupe1980/go-tiktoken/codec.go:68-73 | the loop splits every merge line at its spaces |
| TiktokenCodec.SingleRanks | vendor/github.com/hupe1980/go-tiktoken/codec.go:76-81 | the loop gives every byte of rankToIntByte its position as rank |
| TiktokenCodec.CheckEncoder | vendor/github.com/hupe1980/go-tiktoken/codec.go:115-141 | the encoder is loaded, the two special tokens dropped, and the ranks are returned exactly when they pass the assertions against it |
| TiktokenCodec.KeyLength | vendor/github.com/hupe1980/go-tiktoken/codec.go:79 | a key takes at least one byte per rune |
| TiktokenCodec.Utf8KeyNotHighByte | vendor/github.com/hupe1980/go-tiktoken/codec.go:79 | no UTF-8 key is a lone byte from 0x80 up |
| TiktokenCodec.AddMergesKeys | vendor/github.com/hupe1980/go-tiktoken/codec.go:93-101 | successful merges add no key but merge keys |
| TiktokenCodec.SingleByteRanksOfPermutation | vendor/github.com/hupe1980/go-tiktoken/codec.go:76-81 | over a permutation of the bytes every byte has a single-byte key, one per byte |
| TiktokenCodec.SingleByteRanksOfAlphabet | vendor/github.com/hupe1980/go-tiktoken/codec.go:76-81 | the loader gives 256 single-byte ranks, each byte ranked at its position in rankToIntByte |
| TiktokenCodec.VocabMergeRanks | vendor/github.com/hupe1980/go-tiktoken/codec.go:66-101 | a successful vocabulary ranks the merge on line j + 1 from 256 + j, below 256 plus the number of merges |
| TiktokenCodec.Utf8KeysMissHighBytes | vendor/github.com/hupe1980/go-tiktoken/codec.go:79-99 | as written no byte from 0x80 up is a key of its own, so the byte-pair encoder cannot rank it |
| TiktokenCodec.SingleRanksKeepHighByteOut | vendor/github.com/hupe1980/go-tiktoken/codec.go:78-81 | the UTF-8 single-byte ranks hold no lone high byte |
| TiktokenCodec.HighByteKeyIsUtf8 | vendor/github.com/hupe1980/go-tiktoken/codec.go:79 | byte 0xE9 is keyed as C3 A9 as written, as E9 when keyed by raw bytes |
| TiktokenCodec.MergesKeepHighByteOut | vendor/github.com/hupe1980/go-tiktoken/codec.go:95-101 | UTF-8 merges never add a lone high byte as a key |
| TiktokenCodec.ByteKeysRankEveryByte | vendor/github.com/hupe1980/go-tiktoken/codec.go:76-101 | keyed by raw bytes every single byte has a rank, as the encoder needs |
| MarkdownRolling.AppendSlice | pkg/datastore/textsplitter/markdown_rolling/markdown_rolling.go:145 | append keeps the entries and adds one at the end, in place when there is room and otherwise into a larger array |
| MarkdownRolling.ClearBetween | pkg/datastore/textsplitter/markdown_rolling/markdown_rolling.go:153-155 | exactly the entries strictly between the two indices are cleared, the others kept |
| MarkdownRolling.FirstWordHasHash | pkg/datastore/textsplitter/markdown_rolling/markdown_rolling.go:135-143 | a heading line's first word holds at least one '#', so its level is at least 0 |
| MarkdownRolling.PushHeading | pkg/datastore/textsplitter/markdown_rolling/markdown_rolling.go:143-157 | a level beyond the stack's capacity panics; otherwise the stack is cut to the level, the line pushed, and the entries between the previous level and this one cleared |
| MarkdownRolling.PushHeadingWithinLength | pkg/datastore/textsplitter/markdown_rolling/markdown_rolling.go:145-157 | a heading no deeper than one below the current one and within the length is stack[:level] plus the line |
| MarkdownRolling.UpdateHeadingStack | pkg/datastore/textsplitter/markdown_rolling/markdown_rolling.go:143-157 | the append and the two clearing loops compute the heading-stack update |
| MarkdownRolling.HeadedBlocks | pkg/datastore/textsplitter/markdown_rolling/markdown_rolling.go:105-111 | one block per split piece, each being the heading text, a newline and the piece |
| MarkdownRolling.FinishAdds | pkg/datastore/textsplitter/markdown_rolling/markdown_rolling.go:64-115 | finishBlock only appends: nothing for a heading-only block when those are ignored, the whole block when it fits the chunk size, or one headed block per piece with the splitter's size lowered by the heading's tokens; every added text is non-empty |
| MarkdownRolling.Step | pkg/datastore/textsplitter/markdown_rolling/markdown_rolling.go:132-165 | a heading line starts a new block, any other line joins the block being built |
| MarkdownRolling.ScanStopsAtFailure | pkg/datastore/textsplitter/markdown_rolling/markdown_rolling.go:137-140 | the first failing line ends SplitText: later lines change nothing |
| MarkdownRolling.ContentHasNoHeadings | pkg/datastore/textsplitter/markdown_rolling/markdown_rolling.go:135-163 | heading lines never become content of the block being built |
| MarkdownRolling.PackKeepsText | pkg/datastore/textsplitter/markdown_rolling/markdown_rolling.go:174-184 | the emitted chunks plus the chunk still being built hold all block text, in order |
| MarkdownRolling.PackWithinBudget | pkg/datastore/textsplitter/markdown_rolling/markdown_rolling.go:175-183 | the chunk being built stays within the chunk size unless it is one oversized block |
| MarkdownRolling.SingleBlockLost | pkg/datastore/textsplitter/markdown_rolling/markdown_rolling.go:174-186 | as written a single block within the budget yields no chunk: the last chunk is never returned |
| MarkdownRolling.PackOpen | pkg/datastore/textsplitter/markdown_rolling/markdown_rolling.go:174-184 | packing leaves an open chunk exactly when there was a block |
| MarkdownRolling.Texts | pkg/datastore/textsplitter/markdown_rolling/markdown_rolling.go:174-184 | one text per block, in order |
| MarkdownRolling.PackCorrectedKeepsText | pkg/datastore/textsplitter/markdown_rolling/markdown_rolling.go:174-186 | with the last chunk returned, the chunks joined by newlines are the block texts joined by newlines, and there is a chunk whenever there is a block |
| MarkdownRolling.PackCorrectedWithinBudget | pkg/datastore/textsplitter/markdown_rolling/markdown_rolling.go:175-183 | in the corrected packing, too, the open chunk is within the budget unless it is one oversized block |
| MarkdownRolling.SingleBlockKept | pkg/datastore/textsplitter/markdown_rolling/markdown_rolling.go:174-186 | corrected, one block gives one chunk of its own text |
| MarkdownRolling.PackBlocks | pkg/datastore/textsplitter/markdown_rolling/markdown_rolling.go:174-186 | the packing loop as written returns the emitted chunks |
| MarkdownRolling.CollectHeadings | pkg/datastore/textsplitter/markdown_rolling/markdown_rolling.go:66-70 | the headings are the non-empty entries of the heading stack, in order |
| MarkdownRolling.HeadSplits | pkg/datastore/textsplitter/markdown_rolling/markdown_rolling.go:105-111 | the loop computes one headed block per split piece |
| MarkdownRolling.SplitResultCorrected | pkg/datastore/textsplitter/markdown_rolling/markdown_rolling.go:118-186 | the corrected packing fails exactly when the written one does, with the same failure and splitter size |
| MarkdownRolling.HeadingParagraphLines | pkg/datastore/textsplitter/markdown_rolling/markdown_rolling.go:132 | a heading, a blank line and a paragraph split into those three lines |
| MarkdownRolling.HeadingLevelZero | pkg/datastore/textsplitter/markdown_rolling/markdown_rolling.go:143 | example: "# title" is a heading of level 0 |
| MarkdownRolling.HeadingStrSingle | pkg/datastore/textsplitter/markdown_rolling/markdown_rolling.go:76 | example: one heading on the stack is the heading text |
| MarkdownRolling.ContentStrAfterEmpty | pkg/datastore/textsplitter/markdown_rolling/markdown_rolling.go:77 | a blank line then a paragraph trim to the paragraph |
| MarkdownRolling.FirstHeadingStep | pkg/datastore/textsplitter/markdown_rolling/markdown_rolling.go:135-158 | a first heading of level 0 opens the stack with itself and no block |
| MarkdownRolling.HeadingParagraphScan | pkg/datastore/textsplitter/markdown_rolling/markdown_rolling.go:132-165 | after a heading, a blank line and a paragraph the stack holds the heading and the block both lines |
| MarkdownRolling.HeadingParagraphBlock | pkg/datastore/textsplitter/markdown_rolling/markdown_rolling.go:118-171 | a heading over a paragraph makes the one block "heading\nparagraph" |
| MarkdownRolling.HeadingParagraphFinish | pkg/datastore/textsplitter/markdown_rolling/markdown_rolling.go:64-92 | finishing that block gives the heading over the trimmed paragraph |
| MarkdownRolling.TestDocumentBlock | pkg/datastore/textsplitter/markdown_rolling/markdown_rolling_test.go:9-18 | the test document makes the one block the test expects as its chunk |
| MarkdownRolling.TestDocumentLost | pkg/datastore/textsplitter/markdown_rolling/markdown_rolling_test.go:9-18 | as written SplitText returns no chunk for the test document, where the test expects one |
| MarkdownRolling.TestDocumentKept | pkg/datastore/textsplitter/markdown_rolling/markdown_rolling_test.go:9-18 | with the last chunk returned and no chunk open before the first block, the test document gives exactly the expected chunk, without a leading newline |
| MarkdownRolling.MarkdownTextSplitter.constructor | pkg/datastore/textsplitter/markdown_rolling/markdown_rolling.go:12-44 | the token splitter starts with the configured chunk size |
| MarkdownRolling.MarkdownTextSplitter.FinishBlock | pkg/datastore/textsplitter/markdown_rolling/markdown_rolling.go:64-115 | the blocks and the token splitter's new chunk size are those of finishBlock's specification |
| MarkdownRolling.MarkdownTextSplitter.ScanLine | pkg/datastore/textsplitter/markdown_rolling/markdown_rolling.go:132-165 | one line of the loop, the splitter's size kept in step with the scan |
| MarkdownRolling.MarkdownTextSplitter.SplitText | pkg/datastore/textsplitter/markdown_rolling/markdown_rolling.go:118-187 | the chunks or failure, and the splitter's final chunk size, are those of the specification of SplitText as written |
| MarkdownBasic.CloseKind | pkg/datastore/textsplitter/markdown_basic/markdown_basic.go:244-254 | no token type closes itself |
| MarkdownBasic.FirstCloseIsFirst | pkg/datastore/textsplitter/markdown_basic/markdown_basic.go:267-281 | the scan stops at a close at nesting depth 0 or at the end, and passes over no such close |
| MarkdownBasic.CloseIndex | pkg/datastore/textsplitter/markdown_basic/markdown_basic.go:257-284 | indexOfCloseTag never goes back before the token and never past the end |
| MarkdownBasic.CloseIndexFirstClose | pkg/datastore/textsplitter/markdown_basic/markdown_basic.go:257-284 | a singular token is its own close; otherwise the result is the first later token closing it at nesting depth 0, or the end when none does |
| MarkdownBasic.IndexOfCloseTag | pkg/datastore/textsplitter/markdown_basic/markdown_basic.go:257-284 | the counting loop computes indexOfCloseTag |
| MarkdownBasic.RepeatLength | pkg/datastore/textsplitter/markdown_basic/markdown_basic.go:287-293 | repeatString(n, c) is n copies of c, empty for n below 1 |
| MarkdownBasic.Repeat | pkg/datastore/textsplitter/markdown_basic/markdown_basic.go:287-293 | every character of the repetition comes from c |
| MarkdownBasic.RepeatString | pkg/datastore/textsplitter/markdown_basic/markdown_basic.go:287-293 | the appending loop computes the repetition |
| MarkdownBasic.Titled | pkg/datastore/textsplitter/markdown_basic/markdown_basic.go:229-240 | one chunk per non-empty piece of the snippet |
| MarkdownBasic.TitledPieces | pkg/datastore/textsplitter/markdown_basic/markdown_basic.go:229-240 | each such chunk is its piece, with the title in front unless the snippet already holds the title |
| MarkdownBasic.Apply | pkg/datastore/textsplitter/markdown_basic/markdown_basic.go:206-241 | applyToChunks always empties the snippet and leaves the title and stack alone |
| MarkdownBasic.ApplyExtends | pkg/datastore/textsplitter/markdown_basic/markdown_basic.go:206-241 | applyToChunks only appends chunks |
| MarkdownBasic.ApplyEmptySnippet | pkg/datastore/textsplitter/markdown_basic/markdown_basic.go:222-227 | with no snippet, the title is emitted once if it is set and not yet emitted, and nothing else |
| MarkdownBasic.ApplyShortSnippet | pkg/datastore/textsplitter/markdown_basic/markdown_basic.go:212-215 | a snippet within chunkSize + chunkOverlap runes becomes one chunk, titled unless it holds the title |
| MarkdownBasic.ApplyLongSnippet | pkg/datastore/textsplitter/markdown_basic/markdown_basic.go:216-219 | a longer snippet becomes the second splitter's non-empty pieces, each titled the same way |
| MarkdownBasic.JoinSnipEffect | pkg/datastore/textsplitter/markdown_basic/markdown_basic.go:190-203 | joining keeps the new snippet at the end and never drops a chunk; the snippet is flushed exactly when the summed rune counts reach chunkSize, else joined with a newline |
| MarkdownBasic.Pad | pkg/datastore/textsplitter/markdown_basic/markdown_basic.go:172-174 | padding reaches at least the level and never shortens the stack |
| MarkdownBasic.PadEntries | pkg/datastore/textsplitter/markdown_basic/markdown_basic.go:172-174 | padding keeps every entry and adds only empty ones, just enough to reach the level |
| MarkdownBasic.PushTitle | pkg/datastore/textsplitter/markdown_basic/markdown_basic.go:177 | the stack is cut to the heading's level with its title last |
| MarkdownBasic.PushTitleKeeps | pkg/datastore/textsplitter/markdown_basic/markdown_basic.go:172-177 | entries above the level are kept, missing ones empty, nothing deeper survives |
| MarkdownBasic.HierTitleOfPushed | pkg/datastore/textsplitter/markdown_basic/markdown_basic.go:179-184 | a stack whose top title is set has a hierarchical title ending in it |
| MarkdownBasic.OnHeader | pkg/datastore/textsplitter/markdown_basic/markdown_basic.go:148-187 | onMDHeader applies the pending snippet, pushes the heading's title at its level, rebuilds the hierarchical title and marks it not yet emitted |
| MarkdownBasic.OnHeaderTitle | pkg/datastore/textsplitter/markdown_basic/markdown_basic.go:165-184 | after a heading the title is non-empty and ends with the heading's own "### text" title |
| MarkdownBasic.TitlesAfter | pkg/datastore/textsplitter/markdown_basic/markdown_basic.go:148-187 | one hierarchical title per heading |
| MarkdownBasic.TitlesEndWithHeadings | pkg/datastore/textsplitter/markdown_basic/markdown_basic.go:165-184 | every emitted title ends with its own heading's text |
| MarkdownBasic.HeadingsStep | pkg/datastore/textsplitter/markdown_basic/markdown_basic.go:110-120 | the cursor jumps past each token's close, and only a heading followed by an inline token counts as a heading |
| MarkdownBasic.OnHeaderPending | pkg/datastore/textsplitter/markdown_basic/markdown_basic.go:148-187 | a heading emits the earlier pending title and leaves its own pending |
| MarkdownBasic.FoldCons | pkg/datastore/textsplitter/markdown_basic/markdown_basic.go:110-120 | handling headings in order is handling the first one, then the rest |
| MarkdownBasic.HeadingFold | pkg/datastore/textsplitter/markdown_basic/markdown_basic.go:113-119 | at a heading token the rest of the walk continues past its close after onMDHeader |
| MarkdownBasic.FoldEmitsTitles | pkg/datastore/textsplitter/markdown_basic/markdown_basic.go:109-126 | since no snippet is ever joined, the chunks are the pending title and then the hierarchical title after each heading, once each, in order |
| MarkdownBasic.NonEmptyTitles | pkg/datastore/textsplitter/markdown_basic/markdown_basic.go:179-183 | every non-empty stack entry is a '#' title |
| MarkdownBasic.TrimmedTitle | pkg/datastore/textsplitter/markdown_basic/markdown_basic.go:179-184 | trimming the leading newlines of the loop's join gives the titles joined by newlines |
| MarkdownBasic.NewlineTitleAdd | pkg/datastore/textsplitter/markdown_basic/markdown_basic.go:180-182 | a non-empty entry adds a newline and itself to the title |
| MarkdownBasic.NewlineTitleSkip | pkg/datastore/textsplitter/markdown_basic/markdown_basic.go:180 | an empty entry adds nothing |
| MarkdownBasic.PushedTitles | pkg/datastore/textsplitter/markdown_basic/markdown_basic.go:172-177 | a pushed heading keeps all entries '#' titles and leaves the title non-empty |
| MarkdownBasic.MarkdownContext.constructor | pkg/datastore/textsplitter/markdown_basic/markdown_basic.go:62-70 | the context starts at token 0 with no title, an empty stack, no chunks and no snippet |
| MarkdownBasic.MarkdownContext.ApplyToChunks | pkg/datastore/textsplitter/markdown_basic/markdown_basic.go:206-241 | the new state is applyToChunks' specification of the old one, the cursor unchanged |
| MarkdownBasic.MarkdownContext.JoinSnippet | pkg/datastore/textsplitter/markdown_basic/markdown_basic.go:190-203 | the new state is joinSnippet's specification of the old one |
| MarkdownBasic.MarkdownContext.OnMDHeader | pkg/datastore/textsplitter/markdown_basic/markdown_basic.go:148-187 | the cursor moves past the heading's close whether or not an inline token follows, and the state is that after the heading |
| MarkdownBasic.MarkdownContext.PushHeading | pkg/datastore/textsplitter/markdown_basic/markdown_basic.go:169-186 | the title goes on the stack at its level and the hierarchical title is rebuilt, not yet emitted |
| MarkdownBasic.MarkdownContext.SplitText | pkg/datastore/textsplitter/markdown_basic/markdown_basic.go:109-126 | the chunks are those of handling, in order, each heading the cursor stops at, then applying the last snippet |
| MarkdownBasic.MarkdownContext.Visit | pkg/datastore/textsplitter/markdown_basic/markdown_basic.go:110-120 | one loop pass moves the cursor forward without changing what the walk yields |
| MarkdownBasic.MarkdownContext.VisitHeading | pkg/datastore/textsplitter/markdown_basic/markdown_basic.go:113-114 | a heading token moves the cursor past its close without changing what the walk yields |
| MarkdownBasic.SplitTokens | pkg/datastore/textsplitter/markdown_basic/markdown_basic.go:58-75 | SplitText yields the hierarchical title after each heading the cursor stops at, one per heading, in order |
| MarkdownFilters.FilterMarkdownDocsNoContent | pkg/datastore/textsplitter.go:11-23 | the result is each document with content repeated once per line not starting with '#' (the loop has no break) |
| MarkdownFilters.AppendPerBodyLine | pkg/datastore/textsplitter.go:15-19 | the line loop appends the document once per non-heading line |
| MarkdownFilters.Transform | pkg/datastore/transformers/markdown.go:17-30 | the documents kept are those with content and some line not starting with '#', in order, once each; the error is nil |
| MarkdownFilters.BodyLinesPositive | pkg/datastore/transformers/markdown.go:21-26 | a document has a positive count of non-heading lines exactly when it has one such line |
| MarkdownFilters.KeptIff | pkg/datastore/transformers/markdown.go:17-30 | a document is kept exactly when it is in the input, has content and has a line not starting with '#' |
| MarkdownFilters.KeptOnce | pkg/datastore/transformers/markdown.go:19-27 | every kept document keeps its multiplicity in the input, a dropped one none |
| MarkdownFilters.KeptAppend | pkg/datastore/transformers/markdown.go:19-28 | filtering keeps input order: the result for a concatenation is the concatenation of the results |
| MarkdownFilters.NoBreakKeepsSame | pkg/datastore/textsplitter.go:11-23 | the two filters keep the same documents, the one without break once per non-heading line |
| MarkdownFilters.CopiesOf | pkg/datastore/textsplitter.go:15-19 | n copies are n equal documents |
| MarkdownFilters.OneCopyPerBodyLine | pkg/datastore/textsplitter.go:14-21 | a document with content appears once per non-heading line in the result without break |
| MarkdownFilters.SplitTrailingSep | pkg/datastore/transformers/markdown.go:21 | a text ending in the separator splits with an empty last part |
| MarkdownFilters.TrailingNewlineKept | pkg/datastore/transformers/markdown.go:20-25 | a document ending in a newline, "# h\n" included, is kept because its last line is empty |
| MarkdownFilters.HeadingsOnlyDropped | pkg/datastore/transformers/markdown.go:17-30 | a document whose lines all start with '#' is dropped by both filters |
| MetadataTransformers.SetAll | pkg/datastore/transformers/metadata.go:20-22 | setting every extra entry in any order gives the map overridden by the extras |
| MetadataTransformers.ExtraMetadataTransform | pkg/datastore/transformers/metadata.go:17-26 | every document in the slice gets every extra entry, in place, and the same slice is returned; with extras, a document without a map panics, so the caller must supply one |
| MetadataTransformers.ExtraMetadataSets | pkg/datastore/transformers/metadata.go:17-26 | each extra key is set to its value, every other key keeps its value, and nothing but the metadata changes |
| MetadataTransformers.ManipulatorTransform | pkg/datastore/transformers/metadata.go:56-80 | success exactly when no document's manipulations fail, each document then manipulated in place; on the first failure its error is returned, earlier documents stay changed, the failing one keeps what it did before failing, later ones are untouched |
| MetadataTransformers.ApplyManipulations | pkg/datastore/transformers/metadata.go:63-75 | the inner loop computes the manipulations' effect on one map, stopping at the first failure |
| MetadataTransformers.ApplyAllCompose | pkg/datastore/transformers/metadata.go:63-75 | manipulations in sequence: the second list runs on what the first left, unless the first failed |
| MetadataTransformers.OnlyAddFails | pkg/datastore/transformers/metadata.go:64-74 | without "add", manipulations never fail |
| MetadataTransformers.AddExistingFails | pkg/datastore/transformers/metadata.go:65-68 | adding a present key fails with the error naming the key and changes nothing |
| MetadataTransformers.UntouchedKeyKept | pkg/datastore/transformers/metadata.go:63-75 | a key no manipulation names keeps its presence and value, even when a manipulation fails |
| MetadataTransformers.LastWriteWins | pkg/datastore/transformers/metadata.go:70-73 | after a successful run the last upsert of a key decides its value and a last remove leaves it absent |
| MetadataTransformers.NilMetadataBecomesEmpty | pkg/datastore/transformers/metadata.go:58-61 | a document without metadata gets an empty map even with nothing to do |
| MetadataTransformers.FailureOnNilMetadataKeepsDocument | pkg/datastore/transformers/metadata.go:58-77 | a failure on a document without metadata leaves it without metadata |
| DatasetMetadata.Cleaned | pkg/index/metadata.go:34-40 | cleaning keeps exactly the entries whose value is not nil and does not print as "", "-", "null" or "nil", with their values |
| DatasetMetadata.CleanMetadata | pkg/index/metadata.go:34-40 | a nil map stays nil, any other is cleaned |
| DatasetMetadata.Dataset.constructor | pkg/index/metadata.go:8-16 | a dataset starts with nil metadata |
| DatasetMetadata.Dataset.Clean | pkg/index/metadata.go:34-40 | deleting while iterating leaves the cleaned map |
| DatasetMetadata.Dataset.SetMetadataField | pkg/index/metadata.go:10-16 | the map is created when nil, the key set and the result cleaned |
| DatasetMetadata.Dataset.ReplaceMetadata | pkg/index/metadata.go:19-22 | the metadata becomes the given map, nil included, cleaned; nothing of the old one remains |
| DatasetMetadata.Dataset.UpdateMetadata | pkg/index/metadata.go:27-32 | with no entries only a cleaning happens; otherwise the old entries overridden by the given ones, cleaned, and a nil map is created |
| DatasetMetadata.ProgressStep | pkg/index/metadata.go:28-30 | each SetMetadataField of the loop moves the cleaned union on by one entry |
| DatasetMetadata.CleanThenSet | pkg/index/metadata.go:14-15 | cleaning before setting a key changes nothing, the set key being judged afresh |
| DatasetMetadata.CleanIdempotent | pkg/index/metadata.go:31 | cleaning twice is cleaning once |
| DatasetMetadata.CleanedHasNoJunk | pkg/index/metadata.go:34-40 | after cleaning no value is nil or prints as "", "-", "null" or "nil" |
| DatasetMetadata.SetJunkDeletes | pkg/index/metadata.go:10-16 | setting a key to a junk value deletes it, whatever it held |
| DatasetMetadata.SetProperStores | pkg/index/metadata.go:10-16 | setting a key to a proper value stores exactly it and keeps the other proper entries |
| DatasetMetadata.UpdateKeepsOthers | pkg/index/metadata.go:24-32 | updating keeps the proper entries it does not name and sets the proper ones it does |
| DatasetMetadata.JunkSamples | pkg/index/metadata.go:36 | example: nil, "", "-", "null" and "nil" are junk; "none" and false are not |
| LoadOutput.CommonPart | pkg/cmd/load.go:173-183 | the entries of the target that the other map has with an equal value, and only those |
| LoadOutput.ExtractCommon | pkg/cmd/load.go:173-183 | deleting while iterating leaves exactly the common part; a nil other map clears the target |
| LoadOutput.DropCommon | pkg/cmd/load.go:163-171 | deleting while iterating removes exactly the keys common has; a nil target stays nil |
| LoadOutput.DropKeys | pkg/cmd/load.go:163-171 | a nil target stays nil; otherwise exactly its keys common lacks, with their values |
| LoadOutput.StructuredDocs | pkg/cmd/load.go:136-138 | one structured document per document, with its content and its metadata without the common keys |
| LoadOutput.StructuredOutput | pkg/cmd/load.go:115-138 | the structured branch builds the structured input of its specification; it reads docs[0], so one document is required |
| LoadOutput.NarrowCommon | pkg/cmd/load.go:120-127 | the first loop narrows a copy of the first document's metadata by every document and lists each document with its metadata and content |
| LoadOutput.DropAll | pkg/cmd/load.go:136-138 | the last loop gives every document its metadata without the common keys |
| LoadOutput.CommonAllIff | pkg/cmd/load.go:120-122 | a key survives the narrowing exactly when every document holds it with the first document's value |
| LoadOutput.StructuredShape | pkg/cmd/load.go:115-138 | the top-level metadata holds the user's entries, then "source", then exactly what every document shares with one value; no document keeps a top-level key |
| LoadOutput.StructuredKeepsEntries | pkg/cmd/load.go:115-138 | no entry is lost: it stays with its document or is a top-level key, with the document's value unless source or the user override it |
| LoadOutput.MarkdownOutput | pkg/cmd/load.go:92-113 | the markdown branch is the first marshal error, or the pieces joined by the document break |
| LoadOutput.SetUser | pkg/cmd/load.go:99-101 | the user's entries override the document's map |
| LoadOutput.MarkdownOnePiecePerDocument | pkg/cmd/load.go:93-111 | a successful markdown rendering has one piece per document with content |
| LoadOutput.EmptyContentSkipped | pkg/cmd/load.go:95-97 | a document without content never reaches the output |
| LoadOutput.RenderOutput | pkg/cmd/load.go:91-149 | an unknown format is the "unsupported output format" error; a failed encoding is reported as "failed to encode structured input" |
| LoadOutput.MarkdownPieceHoldsContent | pkg/cmd/load.go:99-110 | the k-th piece belongs to the k-th document with content: a "!metadata " line, then a newline and that content |
| Postprocessors.SimilarityTransform | pkg/datastore/postprocessors/similarity.go:15-26 | every list becomes its documents scoring at least the threshold; the queries and the original query stay; no error |
| Postprocessors.AboveThresholdIff | pkg/datastore/postprocessors/similarity.go:18-22 | a document survives exactly when it was in the list and its score reaches the threshold |
| Postprocessors.AboveThresholdOrder | pkg/datastore/postprocessors/similarity.go:18-22 | the threshold filter keeps relative order |
| Postprocessors.AboveThresholdCount | pkg/datastore/postprocessors/similarity.go:18-22 | a kept document is kept as often as it occurs, one below the threshold never |
| Postprocessors.InsertByScore | pkg/datastore/postprocessors/reduce.go:19-27 | inserting adds exactly one document |
| Postprocessors.SortByScore | pkg/datastore/postprocessors/reduce.go:19-27 | sorting keeps the length |
| Postprocessors.InsertByScoreSorted | pkg/datastore/postprocessors/reduce.go:19-27 | inserting into a descending list keeps it descending and adds the document to its multiset |
| Postprocessors.InsertByScoreCounts | pkg/datastore/postprocessors/reduce.go:19-27 | inserting adds exactly the one document to the multiset |
| Postprocessors.SortByScoreSpec | pkg/datastore/postprocessors/reduce.go:19-27 | the sort with reduce's comparator yields a list descending by score that is a permutation of the input |
| Postprocessors.ReduceListDefined | pkg/datastore/postprocessors/reduce.go:29-34 | the slice docs[:topK] is in range exactly for a non-negative TopK and a list that is non-empty or asked for none |
| Postprocessors.ReduceTransform | pkg/datastore/postprocessors/reduce.go:16-37 | every list becomes the reduce of its sorted documents; the queries stay; no error; the caller keeps the slice in range |
| Postprocessors.PrefixDominates | pkg/datastore/postprocessors/reduce.go:19-34 | in a descending list every document of a prefix scores at least every document after it |
| Postprocessors.ReduceKeepsTopK | pkg/datastore/postprocessors/reduce.go:29-34 | with TopK within the length, the result is the first TopK documents of the sorted list |
| Postprocessors.ReduceBestFirst | pkg/datastore/postprocessors/reduce.go:19-34 | whatever the reduce keeps is ordered best first |
| Postprocessors.ReduceDropsWorse | pkg/datastore/postprocessors/reduce.go:19-34 | every kept document scores at least as high as every dropped one |
| Postprocessors.PrefixRemoved | pkg/datastore/postprocessors/reduce.go:34 | what a prefix leaves out is the rest of the list |
| Postprocessors.ReduceSubMultiset | pkg/datastore/postprocessors/reduce.go:19-34 | every kept document comes from the list, no more often than it occurs there |
| Postprocessors.ReduceDropsOneAsWritten | pkg/datastore/postprocessors/reduce.go:30-32 | as written a TopK beyond a non-empty list's length keeps one document fewer than the list holds |
| Postprocessors.ReduceThreeOfFiveAsWritten | pkg/datastore/postprocessors/reduce.go:30-32 | example: three documents with TopK 5 give two |
| Postprocessors.ReduceCorrectedKeepsMin | pkg/datastore/postprocessors/reduce.go:29-34 | corrected, the reduce fails only on a negative TopK, keeps min(TopK, len) documents, agrees with the code within the length and keeps every document when TopK reaches it |
| Postprocessors.RetrievalResponse.constructor | pkg/datastore/postprocessors/similarity.go:15 | a response holds its query and its documents per query |
| Postprocessors.ResponseList.constructor | pkg/datastore/postprocessors/contentSubstring.go:18 | a list-shaped response holds its entries |
| Postprocessors.ContainsEvery | pkg/datastore/postprocessors/contentSubstring.go:22-28 | true exactly when the content holds every required string |
| Postprocessors.ContainsNone | pkg/datastore/postprocessors/contentSubstring.go:30-36 | true exactly when the content holds none of the forbidden strings |
| Postprocessors.FilterBySubstrings | pkg/datastore/postprocessors/contentSubstring.go:20-41 | the document loop keeps the documents passing both tests, in order |
| Postprocessors.ContentSubstringTransform | pkg/datastore/postprocessors/contentSubstring.go:18-45 | every entry's documents become those passing both substring tests; the entries' queries and their number stay; no error |
| Postprocessors.SubstringFilteredIff | pkg/datastore/postprocessors/contentSubstring.go:20-41 | a document survives exactly when it was in the list and passes both tests |
| Postprocessors.SubstringFilteredOrder | pkg/datastore/postprocessors/contentSubstring.go:20-41 | the substring filter keeps relative order |
| Postprocessors.NoSubstringsKeepAll | pkg/datastore/postprocessors/contentSubstring.go:22-40 | with nothing required or forbidden every document is kept |
| Keywords.Emit | pkg/datastore/retrievers/keyword.go:17-23 | one closed quotation yields at most one keyword |
| Keywords.ExtractQuotedSubstrings | pkg/datastore/retrievers/keyword.go:12-27 | the scan yields the trimmed, non-empty texts between successive pairs of double quotes, in order |
| Keywords.ScanMatchesReference | pkg/datastore/retrievers/keyword.go:9-27 | the character scan agrees with the definition by splitting at the quotes and pairing them off |
| Keywords.ScanInQuote | pkg/datastore/retrievers/keyword.go:9 | inside a quotation the scan closes it at the next quote, if any, and continues outside |
| Keywords.SplitCount | pkg/datastore/retrievers/keyword.go:9 | splitting at a character gives one piece more than it occurs |
| Keywords.PairedLength | pkg/datastore/retrievers/keyword.go:9 | there is one quoted piece per two quotes |
| Keywords.KeywordCount | pkg/datastore/retrievers/keyword.go:14-27 | at most half as many keywords as quotes; fewer than two quotes give none |
| Keywords.EmitAllShape | pkg/datastore/retrievers/keyword.go:19-22 | every emitted text is non-empty, trimmed, and holds no quote |
| Keywords.PairedFrom | pkg/datastore/retrievers/keyword.go:9-14 | every quoted piece is a piece of the split |
| Keywords.KeywordShape | pkg/datastore/retrievers/keyword.go:12-27 | every keyword is non-empty, has no surrounding white space and holds no double quote |
| Keywords.SampleQuery | pkg/datastore/retrievers/keyword.go:12-27 | example: the query "a" " " yields only a: a blank quotation gives nothing |
| GoStrings.EscapeChar | pkg/datastore/retrievers/retrievers.go:28 | a printable ASCII character other than a quote or backslash, or one above 127, is kept as it is; every other character becomes an escape starting with a backslash |
| GoStrings.Quote | pkg/datastore/retrievers/retrievers.go:28 | the `%q` form of a name starts and ends with a double quote and is at least two characters longer than the name |
| GoStrings.QuoteRoundTrip | pkg/datastore/retrievers/retrievers.go:28 | unquoting the `%q` form gives back the name, so the quoted name in an error message identifies it |
| GoStrings.EscapeVerbatim | pkg/datastore/retrievers/retrievers.go:28 | a name made only of characters kept verbatim is quoted by surrounding it with double quotes and nothing else |
| GoStrings.QuoteSample | pkg/datastore/retrievers/retrievers.go:28 | example: a double quote inside the name is escaped with a backslash |
| Retrievers.GetRetriever | pkg/datastore/retrievers/retrievers.go:19-30 | a name gives a retriever exactly when it is basic, default, subquery or routing; any other is the "unknown retriever" error naming it |
| Retrievers.GetDefaultRetriever | pkg/datastore/retrievers/retrievers.go:32-34 | the default is the basic retriever with the default top K |
| Retrievers.DefaultIsBasic | pkg/datastore/retrievers/retrievers.go:21-22 | the names basic and default select the default retriever |
| Retrievers.DatasetFor | pkg/datastore/retrievers/retrievers.go:52-57 | no dataset means "default", one dataset means that one |
| Retrievers.EffectiveTopK | pkg/datastore/retrievers/retrievers.go:60-63 | the top K used is positive, and the configured one when that is positive |
| Retrievers.BasicRetriever.constructor | pkg/datastore/retrievers/retrievers.go:38-40 | a basic retriever holds its top K |
| Retrievers.BasicRetriever.Retrieve | pkg/datastore/retrievers/retrievers.go:46-65 | more than one dataset fails and changes nothing; otherwise a non-positive top K is replaced by the default for good, and the store is searched in the chosen dataset with it |
| Retrievers.TopKSettles | pkg/datastore/retrievers/retrievers.go:60-63 | once settled, the top K is not replaced again |
| Chromem.AnyMapToStringMap | pkg/vectorstore/chromem/chromem.go:79-101 | the loop in any map order gives the string metadata: strings copied, integers in decimal, booleans as true or false, floats formatted, others skipped |
| Chromem.ConvertStringMapToAnyMap | pkg/vectorstore/chromem/chromem.go:103-110 | every string entry becomes a string value |
| Chromem.StringMetadataKeys | pkg/vectorstore/chromem/chromem.go:82-98 | a key survives exactly when its value is a string, integer, boolean or float; strings, integers and booleans render as strconv does |
| Chromem.StringAnyRoundTrip | pkg/vectorstore/chromem/chromem.go:79-110 | string metadata read back and stored again is unchanged |
| Chromem.AnyMetadataKeeps | pkg/vectorstore/chromem/chromem.go:103-110 | the conversion to values keeps every key and value |
| Chromem.ToChromemAllAt | pkg/vectorstore/chromem/chromem.go:48-62 | document k of the conversion is input k under ID k |
| Chromem.StoredContent | pkg/vectorstore/chromem/chromem.go:52-61 | every stored document has content: the input's when non-empty, "<no content>" otherwise; its ID is the one generated for it |
| Chromem.Clamp | pkg/vectorstore/chromem/chromem.go:122-125 | the number of results asked for is capped at the collection's size and otherwise kept |
| Chromem.ConvertDocuments | pkg/vectorstore/chromem/chromem.go:46-62 | one ID and one converted document per input, in input order |
| Chromem.Store.constructor | pkg/vectorstore/chromem/chromem.go:29-34 | a store holds its collections |
| Chromem.Store.AddDocuments | pkg/vectorstore/chromem/chromem.go:45-77 | a missing collection or a failure to add leaves the store as it was; otherwise the converted documents are appended and their fresh IDs returned in input order |
| Chromem.Store.SimilaritySearch | pkg/vectorstore/chromem/chromem.go:112-159 | a missing collection and an empty collection are errors; otherwise the collection is queried for at most its size and the hits holding every keyword are returned, a query error passed on |
| Chromem.FilterHits | pkg/vectorstore/chromem/chromem.go:140-154 | the labelled loop skips exactly the hits missing a keyword |
| Chromem.KeywordHitsSpec | pkg/vectorstore/chromem/chromem.go:140-154 | at most as many results as hits, each holding every keyword; no keywords keeps every hit |
| Chromem.KeywordHitsAppend | pkg/vectorstore/chromem/chromem.go:141-154 | the keyword filter keeps hit order |
| Chromem.KeywordHitOne | pkg/vectorstore/chromem/chromem.go:149-153 | a result carries its hit's content, score and metadata, and no ID |
| Flows.IngestionFlow.constructor | pkg/flows/flows.go:40-43 | a new flow has its file types and no loader, splitter or transformers |
| Flows.IngestionFlow.Transform | pkg/flows/flows.go:29-38 | the transformations run in order on each other's output, stopping at the first error |
| Flows.IngestionFlow.FillDefaults | pkg/flows/flows.go:52-62 | only a missing loader, a missing splitter or an empty transformer list is filled, with the defaults for the file type |
| Flows.IngestionFlow.Run | pkg/flows/flows.go:64-103 | no loader means no documents and no error; otherwise load, split and transform, each failure reported with its stage |
| Flows.NewDefaultIngestionFlow | pkg/flows/flows.go:40-46 | the flow supports exactly the one file type and has every component defaulted |
| Flows.TransformCompose | pkg/flows/flows.go:29-38 | running two transformer lists in turn is running the first, then the second on its output unless the first failed |
| Flows.IngestionStopsAtLoad | pkg/flows/flows.go:78-82 | a loader error is reported as "failed to load documents" and nothing else runs |
| Flows.IngestionWithoutTransformers | pkg/flows/flows.go:64-103 | with no transformers, ingestion yields exactly the splitter's chunks |
| Flows.RetrievalFlow.constructor | pkg/flows/flows.go:105-109 | a new flow holds its modifiers, retriever and postprocessors |
| Flows.RetrievalFlow.FillDefaults | pkg/flows/flows.go:111-116 | a flow without a retriever gets the basic retriever with the given top K; nothing else changes |
| Flows.RetrievalFlow.Run | pkg/flows/flows.go:123-162 | the queries start as [query] and each modifier replaces them; every final query is retrieved; the response keeps the original query; the postprocessors then run in order; each failure is reported with its stage |
| Flows.RetrieveAllKeys | pkg/flows/flows.go:139-151 | a successful retrieval pass records exactly the queries it was given, each with its own retrieval |
| Flows.PlainRetrieval | pkg/flows/flows.go:123-162 | without modifiers and postprocessors a run answers the one query under that query |
| Flows.PostprocessKeepsQuery | pkg/flows/flows.go:153-158 | the original query survives postprocessors that keep it |
| Flows.BasicRejectsManyDatasets | pkg/flows/flows.go:143-148 | with several datasets the basic retriever fails the first query and the run reports it |
| FlowsConfig.Validate | pkg/flows/config/config.go:68-84 | a flow with neither ingestion nor retrieval is reported by name (which one depends on map order); otherwise more than one default flow is reported with their number; otherwise valid |
| FlowsConfig.GetDefaultFlowConfigEntry | pkg/flows/config/config.go:86-93 | an error exactly when no flow is default; otherwise some default flow |
| FlowsConfig.DefaultIsUnique | pkg/flows/config/config.go:80-93 | in a valid configuration the default flow returned is the one default flow, whatever the map order |
| FlowsConfig.GetFlow | pkg/flows/config/config.go:95-101 | the flow of that name, or the "not found" error naming it |
| FlowsConfig.ForDataset | pkg/flows/config/config.go:159-165 | a dataset mapped to a flow name gets that flow or its not-found error; any other dataset gets some default flow, or the error when there is none |
| FlowsConfig.NormalizeName | pkg/flows/config/config.go:109 | a looked-up name is no longer than the configured one and neither starts nor ends with a space |
| FlowsConfig.LowerKeepsSpaces | pkg/flows/config/config.go:109 | lower-casing keeps the length and makes no new spaces |
| FlowsConfig.AsIngestionFlow | pkg/flows/config/config.go:104-157 | a new flow with the configured file types and the named loader and splitter, the first lookup error returned instead; transformers are not read |
| FlowsConfig.NoComponentsNamed | pkg/flows/config/config.go:108-152 | naming no loader and no splitter gives a flow with neither, whatever the registry |
| FlowsConfig.LoaderErrorFirst | pkg/flows/config/config.go:108-113 | a loader lookup error fails the conversion before any splitter is looked up |
| FlowsConfig.NormalizeSample | pkg/flows/config/config.go:109 | example: " PDF " selects the component "pdf" |
| FlowsConfig.TwoDefaultsRejected | pkg/flows/config/config.go:80-82 | two default flows make a configuration invalid |
| IndexStore.IsDuplicateFunc | pkg/datastore/deduplication.go:16-23 | exactly the five registered names select a deduplication function, and dummy, none and ignore select the dummy |
| IndexStore.Datastore.constructor | pkg/datastore/document.go:13 | an index starts with no files, documents or vectors |
| IndexStore.Datastore.DeleteDocument | pkg/datastore/document.go:13-48 | a document row missing from the dataset is the not-found error and a vector-store failure is reported, neither changing anything; otherwise the row and its vector are deleted, and the files with its file ID too when no row of any dataset refers to it any more |
| IndexStore.Datastore.DeleteFile | pkg/datastore/files.go:16-43 | a missing file is the not-found error and changes nothing; otherwise each owned document leaves the vector store and the index, then the file goes; the first vector-store failure stops it, leaving the file and the documents not yet deleted |
| IndexStore.Datastore.PruneFiles | pkg/datastore/files.go:45-65 | every file of the dataset under the path prefix whose path is not kept is deleted with its documents and returned once; on the first vector-store failure the files handled before it are deleted with all their rows and vector entries, part of the failing file's documents are deleted, the file itself stays, and the error is the vector store's error for one of its remaining documents |
| IndexStore.Datastore.DeleteFiles | pkg/datastore/files.go:58-62 | the loop deletes every chosen file with its documents and records each once, or stops at the first failing file with the earlier files fully deleted, that file partly deleted, and the vector store's error for one of its documents |
| IndexStore.Datastore.PruneOne | pkg/datastore/files.go:59-61 | one file is deleted with its rows, or the vector store fails on one of its documents: the file stays, some of its documents and their vector entries are gone, and the error is that document's |
| IndexStore.Datastore.FindFile | pkg/datastore/files.go:67-86 | the dataset is required; a file ID is looked up before a path; with neither there is nothing to look up; a file found comes with the rows it owns, a missing one is the not-found error |
| IndexStore.Datastore.DedupeByFileMetadata | pkg/datastore/deduplication.go:26-39 | a duplicate exactly when a file of the dataset has the same path, size and modification time |
| IndexStore.Datastore.DedupeUpsert | pkg/datastore/deduplication.go:41-69 | no file at the path, or one with an empty ID, is not a duplicate; an older file is deleted and the incoming one is not a duplicate; a file at least as new makes it a duplicate and nothing changes |
| IndexStore.AppendRecord | pkg/datastore/files.go:58-64 | appending a file not yet listed keeps the returned records one per file and faithful |
| IndexStore.DistinctCount | pkg/datastore/files.go:64 | a list of records, one per file, has as many records as files |
| IndexStore.PruneStep | pkg/datastore/files.go:58-62 | deleting one more file's documents and vectors extends what the pruning has deleted by that file |
| IndexStore.EmptyFileDeletesCleanly | pkg/datastore/files.go:25-36 | a file with no documents is deleted without calling the vector store |
| IndexStore.FileDocsDisjoint | pkg/datastore/files.go:25-36 | distinct files own disjoint documents, so deleting one file's documents leaves another's |
| IndexStore.DedupeRegistry | pkg/datastore/deduplication.go:16-23 | file_metadata and upsert select their functions, none and ignore the dummy, which never reports a duplicate; the empty name selects nothing |
| Filetypes.Ext | pkg/datastore/filetypes/filetypes.go:28 | the extension is a suffix of the name starting at its last dot, holds no '/' and no further dot, and is empty exactly when no dot follows the last '/' |
| Filetypes.BeforeFirst | pkg/datastore/filetypes/filetypes.go:36 | the part before the first separator is a separator-free prefix of the text, followed in it by the separator or by nothing |
| Filetypes.GetFiletype | pkg/datastore/filetypes/filetypes.go:26-41 | a first-class extension wins as written; otherwise the detected MIME type with its parameters cut off; an error exactly when the extension is not first-class and nothing was detected |
| Filetypes.PlainMimeKept | pkg/datastore/filetypes/filetypes.go:34-37 | a detected MIME type without parameters is returned whole |
| Filetypes.MimeCutIdempotent | pkg/datastore/filetypes/filetypes.go:36 | cutting the parameters off a type that has none changes nothing |
| Filetypes.ExtSamples | pkg/datastore/filetypes/filetypes.go:12-31 | example: the extension of a path is taken from its last element, and first-class extensions are case-sensitive |
| Filetypes.DirectoryDotSample | pkg/datastore/filetypes/filetypes.go:28 | example: a dot in a directory name does not make an extension |
| DatastorePaths.TrimPrefix | pkg/datastore/datastore.go:48 | a present prefix is removed exactly, an absent one leaves the text unchanged |
| DatastorePaths.GetDatastorePaths | pkg/datastore/datastore.go:34-66 | an error exactly when an empty setting's default cannot be looked up; otherwise an archive prefix is stripped (the index keeping a sqlite DSN) and the archive flag is set exactly when either location carried the prefix |
| DatastorePaths.PlainSettingsUnchanged | pkg/datastore/datastore.go:34-66 | given settings without the archive prefix come back unchanged and not as an archive |
| DatastorePaths.ArchiveRoundTrip | pkg/datastore/datastore.go:47-63 | prefixed locations are read back as a sqlite DSN and a plain path, marked as an archive |
| DatastorePaths.DefaultsUsed | pkg/datastore/datastore.go:37-59 | with no settings, the default index file becomes a sqlite DSN and the default vector file is used as is |
| GitClone.IsHex | pkg/datastore/documentloader/remote/github.go:71-78 | true exactly when every character is a hexadecimal digit of either case |
| GitClone.CloneRepo | pkg/datastore/documentloader/remote/github.go:14-69 | more than one '@' is rejected before cloning; a clone error is reported; without a ref nothing is checked out; a forty-digit hex ref is checked out as a commit, any other ref as a tag and, only when that fails, as a branch, with the error of the last checkout |
| GitClone.NoRefIsWholeUrl | pkg/datastore/documentloader/remote/github.go:16 | a repository without '@' is cloned from the whole text |
| GitClone.UrlAtRef | pkg/datastore/documentloader/remote/github.go:16 | "URL@ref" splits into exactly the URL and the ref |
| GitClone.TwoAtsRejected | pkg/datastore/documentloader/remote/github.go:16-20 | any text with two '@' splits into more than two parts, so it is rejected |
| GitClone.OneAtSplitsInTwo | pkg/datastore/documentloader/remote/github.go:16 | a text holding an '@' splits into at least two parts |
| Embeddings.GetProviderConfig | pkg/datastore/embeddings/embeddings.go:59-80 | the provider whose name is the lower-cased type; an error naming the type exactly when no provider has that name |
| Embeddings.LowerOfLower | pkg/datastore/embeddings/embeddings.go:60 | lower-casing a text without upper-case letters leaves it unchanged |
| Embeddings.ProviderNameRoundTrip | pkg/datastore/embeddings/embeddings.go:59-80 | every provider is selected by its name written in any letter case |
| Embeddings.ProviderNamesFound | pkg/datastore/embeddings/embeddings.go:59-80 | every provider is selected by its own name |
| Embeddings.FindProviderConfig | pkg/datastore/embeddings/embeddings.go:82-89 | the first configured provider with that name, or none exactly when no provider has it |
| Embeddings.GetProviderCfg | pkg/datastore/embeddings/embeddings.go:91-102 | never fails; a configured provider of that name, or one whose name and type are both the given name |
| Embeddings.UnconfiguredNameIsType | pkg/datastore/embeddings/embeddings.go:93-99 | an unconfigured name selects the provider whose type name it is |
| Embeddings.ExportField | pkg/datastore/embeddings/embeddings.go:124-153 | an exported field keeps its name and tag |
| Embeddings.ExportFields | pkg/datastore/embeddings/embeddings.go:124-153 | same names and tags, a zero in every field tagged "false", every other non-struct field copied, and a failure whenever an unset required field is met |
| Embeddings.Exported | pkg/datastore/embeddings/embeddings.go:104-161 | a nil pointer is an error, and the result is a pointer exactly when the input was |
| Embeddings.ExportConfig | pkg/datastore/embeddings/embeddings.go:104-161 | the reflection loop yields exactly the exported value |
| Embeddings.ExportStruct | pkg/datastore/embeddings/embeddings.go:124-153 | the field loop, nested structs by recursion, yields exactly the exported fields or the first failure |
| Embeddings.ExportStep | pkg/datastore/embeddings/embeddings.go:124-153 | one more field either extends the exported prefix or ends the export with its failure |
| Embeddings.ExportFieldsIdempotent | pkg/datastore/embeddings/embeddings.go:124-153 | exporting an exported field list gives it back |
| Embeddings.ExportFieldIdempotent | pkg/datastore/embeddings/embeddings.go:124-153 | exporting an exported field gives it back |
| Embeddings.ExportIdempotent | pkg/datastore/embeddings/embeddings.go:104-161 | exporting an exported configuration gives it back |
| Embeddings.ExportSample | pkg/datastore/embeddings/embeddings_test.go:62-84 | example: only the field tagged "false" is cleared |
| Embeddings.RequiredSample | pkg/datastore/embeddings/embeddings_test.go:115-128 | example: an unset required field fails with the error naming it |
| Embeddings.CompareRequiredFields | pkg/datastore/embeddings/embeddings.go:163-210 | a nil first or second input and non-struct inputs give their errors; otherwise success exactly when every required field of the first is in the second with an equal value, and else the error for the first one that is not |
| Redact.ToRedact | pkg/output/redact.go:19-22 | the given names when there are any, the default sensitive names otherwise |
| Redact.Redacted | pkg/output/redact.go:18-54 | a value that is not (a pointer to) a struct is returned unchanged; a struct comes back as a struct with as many fields |
| Redact.RedactFields | pkg/output/redact.go:35-51 | one redacted field per input field |
| Redact.RedactField | pkg/output/redact.go:36-50 | a field keeps its name and tag |
| Redact.RedactSensitive | pkg/output/redact.go:18-54 | the reflection loop builds exactly the redacted value, provided every field it overwrites is a string |
| Redact.FieldwiseRedaction | pkg/output/redact.go:35-51 | field by field: nested structs are redacted with the default names, a listed lower-cased name reads "REDACTED", any other field is copied |
| Redact.RedactIdempotent | pkg/output/redact.go:18-54 | redacting an already redacted value changes nothing |
| Redact.UpperCaseNamesNeverMatch | pkg/output/redact.go:38-46 | custom names holding an upper-case letter never match, since field names are lower-cased before the lookup |
| Redact.NestedUsesDefaults | pkg/output/redact.go:41-43 | a nested struct is redacted with the default names whatever names the caller gave |
| Redact.PointerFollowed | pkg/output/redact.go:24-27 | a pointer to a struct is redacted as the struct itself |
| Redact.DefaultSample | pkg/output/redact_test.go:10-22 | example: with the default names the API key is redacted and the user name kept |
| TextractorTable.FirstMaxBottom | vendor/github.com/hupe1980/go-textractor/table.go:105-107 | the first cell reaching furthest down: no cell reaches further and every earlier cell stops higher |
| TextractorTable.RowCountUnitSpans | vendor/github.com/hupe1980/go-textractor/table.go:104-110 | with every cell one row high, the row count is the largest row index of the cells |
| TextractorTable.FirstCovering | vendor/github.com/hupe1980/go-textractor/table.go:126-133 | the first merged cell whose span covers the position, or none exactly when no merged cell covers it |
| TextractorTable.FirstAt | vendor/github.com/hupe1980/go-textractor/table.go:136-140 | the first plain cell placed exactly at the position, or none exactly when there is none |
| TextractorTable.CellAt | vendor/github.com/hupe1980/go-textractor/table.go:116-143 | unless merged cells are ignored (the default) a merged cell covering the position wins; otherwise a plain cell exactly there; nil exactly when neither exists |
| TextractorTable.CellIDs | vendor/github.com/hupe1980/go-textractor/table.go:165-167 | one ID per cell, in order |
| TextractorTable.MergedInRowMembers | vendor/github.com/hupe1980/go-textractor/table.go:161-169 | a merged cell is listed exactly when it covers the row |
| TextractorTable.PlainInRowMembers | vendor/github.com/hupe1980/go-textractor/table.go:172-176 | a plain cell is listed exactly when it sits in the row and its ID is not excluded |
| TextractorTable.MemberIDsMembers | vendor/github.com/hupe1980/go-textractor/table.go:162-168 | an ID is excluded exactly when it belongs to a member of a merged cell covering the row |
| TextractorTable.RowCellsAt | vendor/github.com/hupe1980/go-textractor/table.go:149-179 | with the flag set (the default) the merged cells covering the row and then the plain cells of the row outside them; with it cleared only the plain cells of the row |
| TextractorTable.MergedCellsAt | vendor/github.com/hupe1980/go-textractor/table.go:161-170 | the first loop yields the merged cells covering the row and their members' IDs |
| TextractorTable.AppendCellIDs | vendor/github.com/hupe1980/go-textractor/table.go:165-167 | the inner loop appends the member cells' IDs in order |
| TextractorTable.PlainCellsAt | vendor/github.com/hupe1980/go-textractor/table.go:172-176 | the second loop yields the plain cells of the row whose ID is not excluded |
| TextractorTable.Rows | vendor/github.com/hupe1980/go-textractor/table.go:213-234 | one row per index from 1 to the row count, row i holding the cells of row index i |
| TextractorTable.CellTexts | vendor/github.com/hupe1980/go-textractor/table.go:79-86 | the default-option text of each cell of a row, in order |
| TextractorTable.RowTexts | vendor/github.com/hupe1980/go-textractor/table.go:49-61 | each row's cell texts joined by the column separator |
| TextractorTable.MarkdownData | vendor/github.com/hupe1980/go-textractor/table.go:76-90 | the data rows handed to the table writer are the cell texts of every row after the first |
| TextractorTable.RowText | vendor/github.com/hupe1980/go-textractor/table.go:50-58 | the row's loop builds its cell texts joined by the column separator |
| TextractorTable.Text | vendor/github.com/hupe1980/go-textractor/table.go:36-102 | the rows as plaintext (cells joined by the column separator, rows by the row separator) or as the table writer's markdown of header and data, between the table prefix and suffix |
| TextractorTable.PlaintextRows | vendor/github.com/hupe1980/go-textractor/table.go:47-61 | the plaintext loop gives each row's joined cell texts |
| TextractorTable.MarkdownRows | vendor/github.com/hupe1980/go-textractor/table.go:71-90 | the markdown loop gives the first row's cell texts as the header and the others as data |
| TextractorTable.CellTextsOf | vendor/github.com/hupe1980/go-textractor/table.go:78-86 | the inner markdown loop gives the default-option text of each cell |
| TextractorTable.PlaintextReadsBack | vendor/github.com/hupe1980/go-textractor/table.go:46-63 | with the default separators, cell texts free of tabs and newlines are read back by splitting at newlines and then at tabs |
| TextractorTable.Words | vendor/github.com/hupe1980/go-textractor/table.go:26-34 | the plain cells' words concatenated in cell order |
| TextractorBlockParser.NewBlockParser | vendor/github.com/hupe1980/go-textractor/block_parser.go:17-40 | the single pass over the blocks builds exactly the three indexes of the blocks |
| TextractorBlockParser.IndexedByID | vendor/github.com/hupe1980/go-textractor/block_parser.go:23-27 | every block's ID is indexed with a block and a type, and a block whose ID no later block repeats is the one found there, with its own type |
| TextractorBlockParser.IndexedGroups | vendor/github.com/hupe1980/go-textractor/block_parser.go:28-32 | a type is listed exactly when some block is of that group, with the IDs of that group's blocks in order |
| TextractorBlockParser.GroupIDsFromGroup | vendor/github.com/hupe1980/go-textractor/block_parser.go:28-32 | every ID listed under a group is the ID of a block of that group |
| TextractorBlockParser.LayoutGrouped | vendor/github.com/hupe1980/go-textractor/block_parser.go:28-29 | a LAYOUT_* block is listed under "LAYOUT", never under its own type |
| TextractorBlockParser.BlockByID | vendor/github.com/hupe1980/go-textractor/block_parser.go:74-77 | an unknown ID gives the zero block |
| TextractorBlockParser.FilterRelationshipIDsByType | vendor/github.com/hupe1980/go-textractor/block_parser.go:79-93 | the loop collects exactly the IDs of the relationships of the given type, in order |
| TextractorBlockParser.RelationshipIDsMembers | vendor/github.com/hupe1980/go-textractor/block_parser.go:79-93 | an ID is collected exactly when some relationship of that type lists it |
| TextractorBlockParser.CreateDocument | vendor/github.com/hupe1980/go-textractor/block_parser.go:42-67 | one page per PAGE ID, in the order the PAGE blocks came, each built from the block found under its ID |
| TextractorBlockParser.IndexedUnderOwnID | vendor/github.com/hupe1980/go-textractor/block_parser.go:23-27 | every block indexed under an ID carries that ID, a missing ID counting as "" |
| TextractorBlockParser.PagesOfBlocks | vendor/github.com/hupe1980/go-textractor/block_parser.go:17-67 | the document has one page per PAGE block, each page carrying the ID it was listed under |
| TextractorTypes.WordTexts | vendor/github.com/hupe1980/go-textractor/key_value.go:131-134 | one text per word, each that word's text, in order |
| TextractorTypes.JoinWordTexts | vendor/github.com/hupe1980/go-textractor/table_cell.go:98-103 | the collecting loop and the join give the words' texts separated by single spaces |
| TextractorTypes.SpacedTextSplitsBack | vendor/github.com/hupe1980/go-textractor/key_value.go:131-136 | words without spaces are read back from their spaced rendering by splitting at spaces |
| TextractorUtil.SumOfAppend | vendor/github.com/hupe1980/go-textractor/internal/util.go:10-17 | the sum of a concatenation is the sum of the two sums |
| TextractorUtil.Sum | vendor/github.com/hupe1980/go-textractor/internal/util.go:10-17 | the loop's total is the sum of all elements |
| TextractorUtil.Mean | vendor/github.com/hupe1980/go-textractor/internal/util.go:20-31 | zero for an empty list; otherwise the value that, multiplied by the count, gives the sum |
| TextractorUtil.Values | vendor/github.com/hupe1980/go-textractor/internal/util.go:34-41 | one value per key: the ghost key order lists every key of the map exactly once and r[i] is the value stored under its i-th key, so values shared by several keys appear once per key |
| TextractorUtil.FlattenLength | vendor/github.com/hupe1980/go-textractor/internal/util.go:46-61 | flattening keeps every element: the length is the total of the lengths |
| TextractorUtil.FlattenAt | vendor/github.com/hupe1980/go-textractor/internal/util.go:46-61 | element k of list i sits at the total length of the lists before it plus k |
| TextractorUtil.TotalLenPrefix | vendor/github.com/hupe1980/go-textractor/internal/util.go:46-61 | the lists before i and list i fit within the total of any longer prefix |
| TextractorUtil.Concatenate | vendor/github.com/hupe1980/go-textractor/internal/util.go:46-61 | all elements of the lists in order, as many as their total length |
| TextractorLevenshtein.DistColumnStep | vendor/github.com/hupe1980/go-textractor/internal/levenshtein.go:3-5 | dropping one byte of the second prefix changes the edit distance by at most one |
| TextractorLevenshtein.DistRowStep | vendor/github.com/hupe1980/go-textractor/internal/levenshtein.go:3-5 | dropping one byte of the first prefix changes the edit distance by at most one |
| TextractorLevenshtein.DistMatch | vendor/github.com/hupe1980/go-textractor/internal/levenshtein.go:38-41 | when the last bytes agree the distance is that of the shorter prefixes |
| TextractorLevenshtein.DistSymmetric | vendor/github.com/hupe1980/go-textractor/internal/levenshtein.go:21-24 | the distance does not depend on which string is transformed into which, so swapping the inputs is harmless |
| TextractorLevenshtein.DistBounds | vendor/github.com/hupe1980/go-textractor/internal/levenshtein.go:7-14 | the distance lies between the difference of the lengths and the larger length |
| TextractorLevenshtein.DistLower | vendor/github.com/hupe1980/go-textractor/internal/levenshtein.go:3-5 | the distance is at least the difference of the lengths |
| TextractorLevenshtein.DistUpper | vendor/github.com/hupe1980/go-textractor/internal/levenshtein.go:3-5 | the distance is at most the larger length |
| TextractorLevenshtein.DistZeroIffEqual | vendor/github.com/hupe1980/go-textractor/internal/levenshtein.go:16-19 | the distance is zero exactly for equal prefixes |
| TextractorLevenshtein.DistZeroEqual | vendor/github.com/hupe1980/go-textractor/internal/levenshtein.go:16-19 | only equal prefixes are at distance zero |
| TextractorLevenshtein.EqualDistZero | vendor/github.com/hupe1980/go-textractor/internal/levenshtein.go:16-19 | equal prefixes are at distance zero |
| TextractorLevenshtein.LevProperties | vendor/github.com/hupe1980/go-textractor/internal/levenshtein.go:3-19 | the distance is symmetric, bounded by the difference and the larger of the lengths, and zero exactly for equal strings |
| TextractorLevenshtein.Inc16NoWrap | vendor/github.com/hupe1980/go-textractor/internal/levenshtein.go:40 | adding one to a uint16 cell below 65535 does not wrap |
| TextractorLevenshtein.CellMismatch | vendor/github.com/hupe1980/go-textractor/internal/levenshtein.go:39-41 | for differing bytes the distance is one more than the least of the three neighbouring distances |
| TextractorLevenshtein.CellStep | vendor/github.com/hupe1980/go-textractor/internal/levenshtein.go:37-45 | the value the inner loop computes for a cell, with uint16 arithmetic, is that cell's distance |
| TextractorLevenshtein.ComputeLevenshteinDistance | vendor/github.com/hupe1980/go-textractor/internal/levenshtein.go:6-52 | the result is the edit distance of the two byte strings |
| TextractorLevenshtein.RowDistance | vendor/github.com/hupe1980/go-textractor/internal/levenshtein.go:26-51 | the row-by-row table, on the shorter string, ends with the edit distance |
| TextractorLevenshtein.NextRow | vendor/github.com/hupe1980/go-textractor/internal/levenshtein.go:34-48 | one pass of the outer loop turns row i-1 of the distance table into row i |
| TextractorKeyValue.KeyText | vendor/github.com/hupe1980/go-textractor/key_value.go:129-137 | the key's text is its words joined by single spaces |
| TextractorKeyValue.CollapseSpaces | vendor/github.com/hupe1980/go-textractor/key_value.go:191-194 | after the replace loop no double space is left |
| TextractorKeyValue.ValueTextOf | vendor/github.com/hupe1980/go-textractor/key_value.go:175-197 | the value's text: the selection element's marker when there is one, otherwise the words joined by spaces with newlines and runs of spaces turned into single spaces |
| TextractorKeyValue.Squeeze | vendor/github.com/hupe1980/go-textractor/key_value.go:186-194 | the text without spaces and newlines holds neither |
| TextractorKeyValue.SqueezeAppend | vendor/github.com/hupe1980/go-textractor/key_value.go:186-194 | removing whitespace distributes over concatenation |
| TextractorKeyValue.ReplaceWhitespaceKeepsSqueeze | vendor/github.com/hupe1980/go-textractor/key_value.go:188-193 | replacing a newline or a double space by a space keeps every other character in order |
| TextractorKeyValue.CollapseSpacesKeeps | vendor/github.com/hupe1980/go-textractor/key_value.go:191-194 | collapsing spaces keeps every other character in order and introduces no newline |
| TextractorKeyValue.WordsValueTextClean | vendor/github.com/hupe1980/go-textractor/key_value.go:181-196 | a word value's text has no newline and no double space, and keeps every other character of the words in order |
| TextractorKeyValue.Text | vendor/github.com/hupe1980/go-textractor/key_value.go:83-107 | the pair's text: empty when both prefixed parts are, otherwise key, separator and value (the value first for a check box) between the pair prefix and suffix |
| TextractorKeyValue.KeyValueTextEmpty | vendor/github.com/hupe1980/go-textractor/key_value.go:97-99 | the pair's text is empty exactly when both prefixed parts are |
| TextractorKeyValue.KeyValueTextDefault | vendor/github.com/hupe1980/go-textractor/key_value.go:83-107 | with the default options a check-box value comes first, its marker then the key; any other value follows the key after one space |
| TextractorKeyValue.String | vendor/github.com/hupe1980/go-textractor/key_value.go:109-116 | "value key" for a check-box value, "key : value" otherwise |
| TextractorKeyValue.Words | vendor/github.com/hupe1980/go-textractor/key_value.go:78-81 | the key's words followed by the value's words |
| TextractorSelection.Text | vendor/github.com/hupe1980/go-textractor/selection_element.go:23-38 | the selected marker of the options for a selected element, the not-selected marker otherwise |
| TextractorSelection.String | vendor/github.com/hupe1980/go-textractor/selection_element.go:40-42 | with the default options "[X]" exactly when selected and "[ ]" exactly when not |
| TextractorSelection.TextDistinguishesStatus | vendor/github.com/hupe1980/go-textractor/selection_element.go:23-38 | under distinct markers two elements render alike exactly when their statuses agree |
| TextractorTableCell.NewCell | vendor/github.com/hupe1980/go-textractor/table_cell.go:138-147 | the block's row and column indexes and spans, each absent one read as 0 |
| TextractorTableCell.MergedIffCoversMore | vendor/github.com/hupe1980/go-textractor/table_cell.go:174-177 | with positive spans, a cell that is not merged covers only its own position and a merged one covers a further position |
| TextractorTableCell.NewCellWithoutSpansNotMerged | vendor/github.com/hupe1980/go-textractor/table_cell.go:138-147 | a cell read from a block without spans is never merged |
| TextractorTableCell.TableCellText | vendor/github.com/hupe1980/go-textractor/table_cell.go:92-104 | the selection element's marker when there is one, otherwise the words joined by single spaces |
| TextractorTableCell.MemberWords | vendor/github.com/hupe1980/go-textractor/table_cell.go:36-38 | one word list per member cell, in order |
| TextractorTableCell.CellsWords | vendor/github.com/hupe1980/go-textractor/table_cell.go:32-41 | the member cells' words concatenated in order |
| TextractorTableCell.MergedCellWords | vendor/github.com/hupe1980/go-textractor/table_cell.go:32-41 | the merged cell's words are its members' words in order, as many as they hold together |
| TextractorTableCell.MergedWordsKeepMembers | vendor/github.com/hupe1980/go-textractor/table_cell.go:32-41 | every word of every member cell is among the merged cell's words |
| TextractorTableCell.MergedCellText | vendor/github.com/hupe1980/go-textractor/table_cell.go:43-53 | the merged cell's text is its words joined by single spaces, whatever the options |
| TextractorTableCell.CellTextOf | vendor/github.com/hupe1980/go-textractor/table_cell.go:12-24 | either kind of cell renders its own text with the default options |
| TextractorTableCell.SingleMemberMergedText | vendor/github.com/hupe1980/go-textractor/table_cell.go:43-53 | a merged cell with a single member without a check box renders as that member |
| PeekingMemReader.MemReader.constructor | vendor/github.com/EndFirstCorp/peekingReader/memReader.go:13-17 | a new reader has the whole buffer unread |
| PeekingMemReader.MemReader.Peek | vendor/github.com/EndFirstCorp/peekingReader/memReader.go:19-24 | the next n unread bytes without consuming them, or EOF exactly when fewer remain |
| PeekingMemReader.MemReader.ReadRune | vendor/github.com/EndFirstCorp/peekingReader/memReader.go:26-38 | EOF exactly at the end with nothing consumed; an ASCII byte is one rune of size one; any other lead byte is decoded with the byte after it; exactly the rune's bytes are consumed |
| PeekingMemReader.MemReader.ReadByte | vendor/github.com/EndFirstCorp/peekingReader/memReader.go:40-47 | EOF exactly at the end with nothing consumed; otherwise the next byte, consumed |
| PeekingMemReader.MemReader.ReadBytes | vendor/github.com/EndFirstCorp/peekingReader/memReader.go:49-56 | EOF exactly when fewer than size bytes remain, with nothing consumed; otherwise exactly the next size bytes, consumed |
| PeekingMemReader.MemReader.Read | vendor/github.com/EndFirstCorp/peekingReader/memReader.go:58-70 | EOF exactly when nothing is unread; otherwise as many unread bytes as fit are copied to the front of the buffer and consumed, the rest of the buffer untouched |
| PeekingRead.ReadUntilAny | vendor/github.com/EndFirstCorp/peekingReader/read.go:22-38 | the bytes returned are consumed and hold no delimiter; the reader then stops at a delimiter, or reports EOF exactly when it ran out |
| PeekingRead.ReadUntil | vendor/github.com/EndFirstCorp/peekingReader/read.go:17-20 | the bytes before the first occurrence of the delimiter are returned and consumed, the delimiter itself left unread, or EOF exactly when it does not occur |
| PeekingRead.SkipSubsequent | vendor/github.com/EndFirstCorp/peekingReader/read.go:47-66 | the longest run of bytes from the skip set is consumed, found tells whether it was non-empty, and EOF is reported exactly when nothing is left after it |
| PeekingRead.SkipSpaces | vendor/github.com/EndFirstCorp/peekingReader/read.go:40-45 | the longest run of space bytes (NUL, tab, form feed, space, newline, carriage return) is consumed, EOF exactly when nothing is left after it |
| PdfPs.PopSeq | vendor/github.com/ledongthuc/pdf/ps.go:26-35 | popping an empty list gives the zero value and no change; otherwise the top value and the rest, which together rebuild the list |
| PdfPs.PushThenPop | vendor/github.com/ledongthuc/pdf/ps.go:22-35 | popping right after pushing gives the pushed value back and restores the stack |
| PdfPs.Stack.constructor | vendor/github.com/ledongthuc/pdf/ps.go:94 | a new stack is empty |
| PdfPs.Stack.Len | vendor/github.com/ledongthuc/pdf/ps.go:18-20 | the number of values on the stack |
| PdfPs.Stack.Push | vendor/github.com/ledongthuc/pdf/ps.go:22-24 | the value is added on top and nothing else changes |
| PdfPs.Stack.Pop | vendor/github.com/ledongthuc/pdf/ps.go:26-35 | the top value is removed and returned; an empty stack gives the zero value and stays empty |
| PdfPs.LastOptionWins | vendor/github.com/ledongthuc/pdf/ps.go:55-75 | options replace the ignore list in turn, so the last option decides; with none the list is empty |
| PdfPs.Interpreter.constructor | vendor/github.com/ledongthuc/pdf/ps.go:55-61 | the configuration is the default one with the options applied in order |
| PdfPs.Interpreter.Interpret | vendor/github.com/ledongthuc/pdf/ps.go:93-178 | the streams run one after the other on a shared operand stack and dictionary stack, exactly as the token-by-token definition says, a panic ending the run |
| PdfPs.ExecStream | vendor/github.com/ledongthuc/pdf/ps.go:114-176 | the loop over one stream's tokens yields the run of that stream, and leaves a running outcome's operand stack in the stack object |
| PdfPs.ExecToken | vendor/github.com/ledongthuc/pdf/ps.go:116-175 | one token's effect on the stack object and the dictionaries is the defined step |
| PdfPs.LookupFrom | vendor/github.com/ledongthuc/pdf/ps.go:125-130 | a name is found in the topmost open dictionary that binds it, and not found exactly when no open dictionary binds it |
| PdfPs.Step | vendor/github.com/ledongthuc/pdf/ps.go:116-175 | a step that does not panic keeps the interpreter state well formed |
| PdfPs.Run | vendor/github.com/ledongthuc/pdf/ps.go:114-176 | a run that does not panic keeps the interpreter state well formed |
| PdfPs.DefBinds | vendor/github.com/ledongthuc/pdf/ps.go:156-167 | "/key value def" pops both operands and binds the name in the top dictionary, after which the keyword pushes that value |
| PdfPs.DefNonNameKey | vendor/github.com/ledongthuc/pdf/ps.go:160-166 | a non-name key panics unless the value's name is in the ignore list, and then binds the value under the empty name |
| PdfPs.DictBeginEnd | vendor/github.com/ledongthuc/pdf/ps.go:133-155 | "dict" replaces its operand with a new empty dictionary, "begin" opens it and "end" closes it, restoring the dictionary stack |
| PdfPs.UnboundKeywordCallsDo | vendor/github.com/ledongthuc/pdf/ps.go:124-132 | a keyword bound in no open dictionary is handed to the callback with the whole stack |
| PdfPs.OperatorsNotLookedUp | vendor/github.com/ledongthuc/pdf/ps.go:121-170 | the built-in operators run even when an open dictionary binds their name |
| PdfPs.SeqReader.constructor | vendor/github.com/ledongthuc/pdf/ps.go:180-183 | a reader starts at offset zero over its data |
| PdfPs.SeqReader.ReadAt | vendor/github.com/ledongthuc/pdf/ps.go:185-192 | a read at any offset but the current one is refused with nothing changed; otherwise as much of the buffer as the data can fill is read, the offset advances by that count, and a short read reports end of file, unexpected when something was read |
| EvalUtils.Live | tests/utils.py:137-139 | the chunks that are not None, never more than the stream holds |
| EvalUtils.Ids | tests/utils.py:141 | one id per chunk, in order |
| EvalUtils.Models | tests/utils.py:142 | one model name per chunk, in order |
| EvalUtils.Fingerprints | tests/utils.py:143 | one system fingerprint per chunk, in order |
| EvalUtils.FirstTruthyIsFirst | tests/utils.py:141-143 | `x = x or v` over a sequence keeps the first truthy value, is truthy exactly when some value is, and is present when every value is |
| EvalUtils.HeaderIsFirstTruthy | tests/utils.py:137-143 | the completion's id, model and fingerprint are the first truthy ones among the chunks that are not None |
| EvalUtils.ProjectionsAppend | tests/utils.py:141-143 | one more chunk adds its id, model and fingerprint at the end |
| EvalUtils.FirstTruthyAppend | tests/utils.py:141-143 | one more value replaces the kept one only while the kept one is not truthy |
| EvalUtils.Least | tests/utils.py:198 | the least element of a non-empty set of indexes |
| EvalUtils.LeastExists | tests/utils.py:198 | a non-empty set of indexes has a least element |
| EvalUtils.LeastOf | tests/utils.py:198 | a least element of a non-empty set, found by induction on its size |
| EvalUtils.EmptyIfNoElement | tests/utils.py:198 | a set with no element is empty |
| EvalUtils.SortedKeys | tests/utils.py:198 | sorted() of a set of indexes: strictly increasing and holding exactly the set's elements |
| EvalUtils.CallsAt | tests/utils.py:197-198 | the tool calls at the given call indexes, in that order |
| EvalUtils.ChoicesAt | tests/utils.py:205 | the assembled choices at the given indexes, in that order |
| EvalUtils.Assemble | tests/utils.py:200-207 | the choices of the assembled completion are in strictly increasing index order |
| EvalUtils.ToChatCompletion | tests/utils.py:126-207 | a whole completion comes back as it is; a stream is folded into exactly the assembled completion; the tracked finish reason stays "" because it is only replaced when it is not "" |
| EvalUtils.ChunkStep | tests/utils.py:137-145 | a None chunk changes neither header nor choices; any other chunk updates the header and adds its choice deltas |
| EvalUtils.AddChoiceDeltas | tests/utils.py:145-188 | the loop over one chunk's choices folds exactly that chunk's choice events into the choices and tool calls |
| EvalUtils.AddToolCallDeltas | tests/utils.py:168-188 | the loop over one choice's tool-call fragments adds exactly those fragments |
| EvalUtils.FoldAppend | tests/utils.py:137-188 | folding a concatenation of events is folding the second part from the state the first part left |
| EvalUtils.AddChoiceMatches | tests/utils.py:152-163 | one event keeps a choice entry in agreement with the events seen for its index |
| EvalUtils.FoldChoicesMatch | tests/utils.py:145-163 | after a fold, the entry of each index has the first delta's role, all deltas' contents concatenated and the last finish reason |
| EvalUtils.StreamedChoice | tests/utils.py:126-207 | a choice of an index is in the completion exactly when a delta of that index was streamed, with the first role, the concatenated contents and the last finish reason |
| EvalUtils.ListedMatches | tests/utils.py:205 | listing the entries in index order keeps each entry's agreement with its events |
| EvalUtils.ListedIffEntry | tests/utils.py:205 | a choice of an index is listed exactly when there is an entry for that index |
| EvalUtils.ListedIsEntry | tests/utils.py:205 | a listed choice carries the role, content and finish reason of its entry |
| EvalUtils.ChoicesListedAreEntries | tests/utils.py:205 | every listed choice is built from an accumulated entry |
| EvalUtils.EntryListedAt | tests/utils.py:205 | every accumulated entry is listed at some position |
| EvalUtils.AddCallMatches | tests/utils.py:168-188 | one fragment keeps every tool call in agreement with the fragments seen for it |
| EvalUtils.OtherCallUntouched | tests/utils.py:178-188 | a fragment of another call leaves a tool call as it was |
| EvalUtils.FirstFragment | tests/utils.py:178-186 | the first fragment of a call records its id, name and arguments |
| EvalUtils.LaterFragment | tests/utils.py:187-188 | a later fragment of a call appends its arguments |
| EvalUtils.AddCallsMatch | tests/utils.py:168-188 | one choice's fragments add exactly their fragments of each call |
| EvalUtils.StepCallsMatch | tests/utils.py:145-188 | one event adds exactly its fragments of each call |
| EvalUtils.CallMatchesTransport | tests/utils.py:168-188 | agreement of a call with its fragments carries over to equal tool-call maps and fragment lists |
| EvalUtils.FoldCallsMatch | tests/utils.py:137-188 | after a fold, each tool call agrees with all its fragments in order |
| EvalUtils.StreamedToolCall | tests/utils.py:126-198 | a tool call exists exactly when a fragment of it was streamed, with the first fragment's id and name and all fragments' arguments concatenated |
| EvalUtils.NoneChunkHeader | tests/utils.py:138-139 | a None chunk anywhere leaves the header as it was |
| EvalUtils.NoneChunkEvents | tests/utils.py:138-139 | a None chunk anywhere adds no choice events |
| EvalUtils.NoneChunkSkipped | tests/utils.py:138-139 | a None chunk anywhere changes nothing in the assembled completion |
| EvalUtils.JudgeFinalAnswer | tests/utils.py:47-123 | an empty expectation gives (None, True) at once; otherwise the ruling's "correct" and "reasoning", or the error for the first of them missing |
| EvalUtils.EmptyExpectationSkipsJudge | tests/utils.py:48-49 | with an empty expectation the judge is never consulted |
| EvalUtils.EmptyExpectationFailsRunTest | tests/utils.py:38-49 | as written, an empty expected answer makes run_test fail, since the match is None |
| EvalUtils.JudgeFinalAnswerCorrected | tests/utils.py:47-123 | with the early result in the intended order an empty expectation passes, and every other expectation is judged as before |
| KnowledgeOutput.FindFrom | output.py:13-14 | the first occurrence of the pattern at or after the start index, or none exactly when there is no occurrence from there |
| KnowledgeOutput.ContainsIffOccurs | output.py:13 | the substring test holds exactly when the pattern occurs at some index |
| KnowledgeOutput.SegmentBounds | output.py:14 | the piece after the first marker ends at the next marker or at the end of the text, with no marker in between |
| KnowledgeOutput.Message | output.py:13-27 | without the marker the fixed "no data" message; with it, the instruction template around exactly the retrieved part |
| KnowledgeOutput.Reply | output.py:7-29 | the reply is the message for OUTPUT alone |
| KnowledgeOutput.FlagsIgnored | output.py:9-10 | the CONTINUATION and CHAT settings do not change the reply |
| KnowledgeOutput.SegmentInPlace | output.py:14 | the retrieved piece sits in the output at the first marker and is followed by another marker or by nothing |
| KnowledgeOutput.SegmentHoldsOneMarker | output.py:14 | the retrieved piece starts with the marker and holds no further marker |
| KnowledgeOutput.OccurrenceInSlice | output.py:14 | an occurrence inside a slice is an occurrence in the whole text, within the slice |
| KnowledgeOutput.RetrievedSegment | output.py:12-14 | the retrieved part starts at the output's first marker, is followed by another marker or by nothing, and holds just that one marker |
| KnowledgeOutput.NoMarkerNoData | output.py:26-27 | an output in which the marker never occurs gets the "no data" reply |

## Left out

- Encoding regex: the pre-tokenizing regular expression of an encoding is not modelled; `TiktokenEncoding.Encode` takes the core encoder as a parameter, and what is proved is the special-token logic around it.
- TiktokenBpe.CutText: requires the bounds to be in order once start is raised to 0 and end lowered to the text's length; otherwise the slice expression of `bpe.go:303-313` panics.
- Tiktoken loading I/O: reading rank files and vocabulary files from disk or the network is not modelled; their contents are inputs.
- MarkdownRolling.MarkdownTextSplitter.SplitText: the token counter and the second splitter used for oversized blocks are parameters, so chunk sizes are proved relative to the counter given.
- MarkdownRolling.UpdateHeadingStack: the forward clearing loop of `markdown_rolling.go:148-150` is left out because it never runs (right after the append the length is exactly level + 1).
- MarkdownRolling.GrowCap: Go's growth rule for append is modelled with the runtime's thresholds but without rounding up to allocator size classes; only the capacity being larger matters to the proofs.
- MarkdownBasic.MarkdownContext.SplitText: the markdown parser is not modelled; the splitter works on the token sequence it would produce.
- Postprocessors.ReduceTransform: `slices.SortFunc` is not stable; the model sorts by insertion, which is one of the orders it may produce, and the lemmas state only what holds for every order (best first, a sub-multiset, nothing better dropped).
- Postprocessors.ReduceTransform: requires a TopK and list lengths for which the slice expression does not panic (TopK at least 0, and a non-empty list unless TopK is 0).
- GoStrings.Quote: models `strconv.Quote` (the `%q` verb in error messages) for ASCII exactly; characters above 127 are copied as they are, whereas Go escapes non-printable runes as `\u`/`\U` and invalid UTF-8 bytes as `\x`.
- GoStrings.ToLower: lower-cases ASCII letters only; Go's `strings.ToLower` applies Unicode case mapping (U+212A KELVIN SIGN becomes 'k'), so Redact.RedactSensitive, FlowsConfig.NormalizeName and Embeddings.GetProviderConfig can differ from the source on names with non-ASCII letters.
- Scores: float32 similarity scores are modelled as reals; only comparisons are made on them.
- Chromem: the embedding and the ranking inside a chromem query are parameters; CreateCollection, RemoveCollection, RemoveDocument, import and export of collections are not modelled.
- Chromem.AnyMapToStringMap: float values are stored with the text they format to, which is part of the input; `strconv.FormatFloat` itself is not modelled.
- Retrievers.BasicRetriever.Retrieve: the `whereDocument` content filters handed on to `SimilaritySearch` (`retrievers.go:46`, `:64`) are not part of the model's search parameter; only the metadata `where` filter is.
- Chromem.Store.SimilaritySearch: errors are values naming the collection; the message text, which quotes the name with `%q`, is not modelled.
- Chromem.Store.AddDocuments: the new IDs (one UUID per document) and the outcome of chromem's own add are parameters; a failed add is modelled as adding nothing, although chromem may have stored some documents before failing; nil and empty metadata maps are not told apart.
- IndexStore.Datastore.PruneFiles: the SQL `LIKE` pattern built from the path prefix is modelled as a plain prefix test, so `%` and `_` inside the prefix match only themselves; an empty keep list, which the query builder turns into `NOT IN (NULL)` so that no file matches, is modelled as keeping no file.
- IndexStore.Datastore.FindFile: the database's row order and `First` are modelled as choosing some matching row.
- IndexStore.Datastore.DedupeUpsert: the lookup `var k :|` picks any file row of the dataset with the same absolute path, where gorm's `First` takes the one first in primary-key order; the error return of `pkg/datastore/deduplication.go:47-49` for database errors other than "not found" is not modelled.
- IndexStore.Datastore.DeleteDocument: database errors other than "not found" are not modelled; the file clean-up counts documents of every dataset with the file ID and deletes files by ID alone, as the source's queries do.
- LoadOutput.RenderOutput: JSON encoding and the marshalling of metadata are parameters; Go maps shared between documents (aliasing) and values that are not comparable (a panic in `==`) are not modelled.
- LoadOutput.MarkdownOutput: requires every document with content to have metadata when user metadata is given, because `pkg/cmd/load.go:98-99` writes the user metadata into the document's map and writing to a nil map panics.
- LoadOutput.RenderOutput: carries the same requirement for the markdown format, and at least one document for the structured format.
- LoadOutput.StructuredOutput: requires at least one document, because the common metadata starts from the first document's.
- MetadataTransformers.ExtraMetadataTransform: requires documents with metadata when there is extra metadata to add (writing to a nil map panics).
- MetadataTransformers.ManipulatorTransform: metadata maps are values, so two documents sharing one Go map are not modelled; there an "add" written through the first document makes the same "add" fail on the second (`metadata.go:66-67`), whereas in the model it succeeds on both.
- MetadataTransformers.ExtraMetadataTransform: for the same reason, extra metadata written into a map shared by several documents is modelled as written into each document's own copy.
- Flows.IngestionFlow.Run: requires a splitter whenever there is a loader (calling a nil splitter panics; FillDefaults always sets one).
- Flows.RetrievalFlow.Run: requires a retriever (FillDefaults sets one); the retriever is a value here, so the TopK the basic retriever writes back on itself is not carried into later runs (it is in `Retrievers.BasicRetriever.Retrieve`).
- FlowsConfig: reading the configuration from a file or URL and decoding YAML/JSON are not modelled; the registries of loaders, splitters and transformers are parameters, and transformer options are not converted.
- Embeddings.ExportConfig: requires that a struct passed by value holds no nested struct to export (the source takes the address of a non-addressable value there and panics).
- Embeddings: GetSelectedEmbeddingsModelProvider, ProviderFromConfig and AsEmbeddingModelProviderConfig (which decode configuration with mapstructure) are not modelled; the name of the Vertex provider is taken as "vertex", the value the tests expect.
- Redact.RedactSensitive: requires that every field it writes "REDACTED" into is a string field (`SetString` panics otherwise); unexported fields, which reflection cannot set, are not modelled.
- DatastorePaths: the XDG data directory and the archive prefix are parameters; NewDatastore, ExportDatasetsToFile and zipping datasets are file and database I/O and are not modelled.
- GitClone: cloning, fetching and checking out are operations of the git library and are parameters.
- Filetypes: MIME sniffing of the file content is a parameter.
- EvalUtils: the OpenAI chat call, `json.loads` of the judge's reply and pydantic's validation are not modelled (the parsed reply is a parameter); the clock is a parameter; `run_test`'s execution of a test prompt is not modelled.
- KnowledgeOutput.Reply: the environment is a map of variable names to values; the trailing newline `print` adds is not part of the modelled message.
- PdfPs.Interpreter.Interpret: the lexer (`readToken`/`readObject`) is not modelled; the interpreter reads a stream of tokens already lexed, and a procedure body is a token sequence rather than a Value.
- PeekingMemReader.MemReader.ReadRune: requires a second byte after a non-ASCII lead byte (the source slices two bytes and panics at the end of the buffer).
- PeekingMemReader.MemReader.Peek: requires n to be at least 0 (a negative n makes the slice expression panic).
- PeekingMemReader.MemReader.ReadBytes: requires size to be at least 0 (a negative size makes the slice expression of `memReader.go:49-56` panic).
- Base64.DecodeString: a malformed input is the error "illegal base64 data"; Go's `CorruptInputError` adds " at input byte N" with the offset of the offending byte, which is not modelled, so the error TiktokenCodec.ParseLine passes on lacks the offset.
- Embeddings.CompareRequiredFields: fields are looked up among a struct's direct fields only; Go's `FieldByName` also finds fields promoted from embedded structs, and `Interface()` on an unexported field panics. The provider configurations have neither, so the results agree on them.
- PeekingRead: the Reader interface is modelled by the concrete memory reader.
- Utf8: only one- and two-byte runes are decoded and encoded, the sizes the memory reader's ReadRune and the codec's byte keys need.
- TextractorLevenshtein.ComputeLevenshteinDistance: requires inputs shorter than 65535 bytes, since the source's uint16 cells would wrap around.
- TextractorUtil.Sum: the generic number type is modelled by unbounded integers, so the wrap-around of Go's fixed-width integers and the rounding of floating-point additions are not modelled.
- TextractorUtil.Mean: the sum is a real and the division exact, so float64 rounding is not modelled.
- TextractorTable.Text: requires a known linearization format and at least one cell (both panic otherwise); the markdown table renderer is a parameter.
- TextractorTable.Rows: requires at least one cell, because RowCount takes the maximum of an empty list and panics.
- Textractor geometry and confidence: bounding boxes, polygons, OCR confidence, `Table.ToCSV` and page parsing (`newPageParser`, `addPageElements`) are not modelled.

## Findings

| source | as written | input that shows it | evidently intended | confidence | as-written member | corrected member |
|---|---|---|---|---|---|---|
| vendor/github.com/hupe1980/go-tiktoken/codec.go:79-99 | each GPT-2 vocabulary rune is turned back into a key with `string(rune(b))`, which is the UTF-8 encoding of the code point, so bytes from 0x80 up become two-byte keys | byte 0x80 is keyed as [0xC2, 0x80], and no rank has the key [0x80] | every byte is a key of its own (the raw byte), so that any text can be byte-pair encoded | not executed | TiktokenCodec.Utf8KeysMissHighBytes | TiktokenCodec.ByteKeysRankEveryByte |
| pkg/datastore/textsplitter/markdown_rolling/markdown_rolling.go:174-186 | the packing loop emits a chunk only when the next block does not fit, and the chunk being built when the loop ends is never returned | the test document "# Heading\n\nThis is a paragraph." of markdown_rolling_test.go:9-18 yields no chunk (that test assigns the two results of NewMarkdownTextSplitter() to one variable, so it does not compile, and its expectation is read as intent) | two changes together: the chunk still being built when the loop ends is returned as well, and no chunk is open until the first block arrives, so that the first block does not get the leading "\n" of `currentChunk.text += "\n" + b.text` and an oversized first block does not first emit an empty chunk; the test document then gives the one chunk "# Heading\nThis is a paragraph." the test means to expect (returning the last chunk alone would give "\n# Heading\nThis is a paragraph.") | not executed | MarkdownRolling.TestDocumentLost | MarkdownRolling.TestDocumentKept |
| pkg/datastore/postprocessors/reduce.go:30-32 | when TopK exceeds the number of documents, the list is cut to `len(docs)-1` | TopK 5 over three documents keeps two | every document is kept when TopK exceeds their number, so that min(TopK, len) documents remain | not executed | Postprocessors.ReduceDropsOneAsWritten | Postprocessors.ReduceCorrectedKeepsMin |
| tests/utils.py:48-49 | judge_final_answer returns `(None, True)` for an empty expected answer, while run_test unpacks the result as `(match, reason)` and asserts that the match is True | an empty expected answer: the match is None and the assertion fails | `(True, None)`: a match with no reason, in the order run_test reads, so that an empty expectation passes | not executed | EvalUtils.EmptyExpectationFailsRunTest | EvalUtils.JudgeFinalAnswerCorrected |
