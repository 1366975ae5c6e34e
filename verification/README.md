# Verified model of the property-context lookup and the audio HAL protocols

This project models five parts of the repository and proves what they are for.

1. **Property contexts** (`CStrings`, `PropertyTrie`, `PropertyTrieMeaning`, `PrefixRules`, `ContextsSplit`,
   `ContextLookup`). A property name is owned by the longest rule that matches it. One implementation walks a read-only
   trie with binary search, the other keeps a linked list in priority order by splicing nodes in place. Both are proved
   equal to "the longest matching rule" over a flat rule list, and hence to each other.
2. **A2DP negotiation** (`Bits`, `A2dpBits`, `A2dpCodec`, `A2dpSbc`, `A2dpOffloadCodecSbc`, `A2dpOffloadCodecAac`,
   `A2dpOffloadCodecFactory`). Capability bytes of sections 4.3 and 4.5 of the A2DP specification are read and written
   through a bit view; configurations are built from local and remote capabilities and a hint, and parsed back. The
   source's chains of alternatives are calls of one method over a preference order. Whatever is built parses, so the
   factory's assertion never fires. Bitpools are found by a bitwise search over the bitrate formula of section 12.9.
3. **Bluetooth audio session, port and stream** (`AudioSession`, `AudioPort`, `PortProtocol`, `PcmPath`, `AudioStream`).
   Sessions start and end, ports register and are disabled, streams start and suspend while the stack reports at any
   moment, and PCM bytes pass through a polled queue. The stack and the other side of the queue are arbitrary.
4. **Audio HAL lifecycle** (`HalLifecycle`). Open and close counting across a device and its stream wrappers, for both
   families of interface versions.
5. **Two small algorithms** (`SupportedCodecs`, `AudioParams`). The early-stopping single-bit test, and the key/value
   parameter parser against the printer.

Objects whose methods update fields are classes, in-place buffers are arrays, loops are loops. Each such method is proved
against a specification function, and the lemmas and run invariants are about those functions. Bytes are integers below
256 and bits are read from integers in two's complement, so shifts and masks of negative values mean what they mean in
the source.

Some plain properties fail, and the model then has the input and the exact condition: an index-less prefix entry can
hide a shorter rule (`UnindexedPrefixHides`, `LongestAlwaysHeard`); a built SBC minimum bitpool can exceed the maximum
(`PoolsCanCross`, `PoolsOrdered`); a ready session's end misses a port that has found the session ready but has not
registered, or has registered but not stored its cookie (`MissedBeforeRegistering`, `MissedAfterRegistering`), and reaches
exactly the live ones (`EndDisablesExactlyLive`); a stream can be opened on a closed HAL device (`StreamOnClosedDevice`,
`NoStreamOnClosedDevice`).

`dafny verify dfyconfig.toml` checks everything.

## Model

| member | source | states |
|---|---|---|
| PropertyTrie.Find | resetprop/Magisk/native/jni/systemproperties/property_info_parser.cpp:32-46 | binary search over any ascending comparison: a returned index compares equal, and -1 means that no index does |
| PropertyTrie.CompareChildIsStrCmp | resetprop/Magisk/native/jni/systemproperties/property_info_parser.cpp:70-82 | the truncated comparison with its extra 1 has the sign of strcmp against the piece when negative, and is zero exactly on equality |
| PropertyTrie.PieceAbove | resetprop/Magisk/native/jni/systemproperties/property_info_parser.cpp:70-82 | strcmp order is transitive enough for the search: everything after a child not below the piece is above it |
| PropertyTrie.FindChildForString | resetprop/Magisk/native/jni/systemproperties/property_info_parser.cpp:70-89 | finds the one child with the given name in a well-formed node, or reports that there is none |
| PropertyTrie.OnlyChildNamed | resetprop/Magisk/native/jni/systemproperties/property_info_parser.cpp:68-89 | sorted children have distinct names, so the name determines the child |
| PropertyTrie.CheckPrefixMatch | resetprop/Magisk/native/jni/systemproperties/property_info_parser.cpp:91-108 | the first prefix entry the name starts with decides each index it carries and leaves the others |
| PropertyTrie.EnterNode | resetprop/Magisk/native/jni/systemproperties/property_info_parser.cpp:119-129 | a visited node contributes its own indexes, overridden by those of its first matching prefix entry |
| PropertyTrie.MatchLeaf | resetprop/Magisk/native/jni/systemproperties/property_info_parser.cpp:145-172 | the last node's exact entry decides; the repeated prefix check changes nothing |
| PropertyTrie.GetPropertyInfoIndexes | resetprop/Magisk/native/jni/systemproperties/property_info_parser.cpp:110-172 | the loop ends and computes, for context and type, the recursive walk over the dotted name, of which WalkAnswers says what it means |
| PropertyTrieMeaning.WalkAnswers | resetprop/Magisk/native/jni/systemproperties/property_info_parser.cpp:110-172 | for every well-formed trie and every name, the walk gives the index of the matching exact rule of the flattened trie, else that of the longest matching rule that no longer prefix of its own node mutes, else none |
| PropertyTrieMeaning.LeafAnswers | resetprop/Magisk/native/jni/systemproperties/property_info_parser.cpp:145-172 | at a node with no next child only its own rules can match, and the walk answers by them |
| PropertyTrieMeaning.AnswersLift | resetprop/Magisk/native/jni/systemproperties/property_info_parser.cpp:110-143 | going down to the next child neither loses nor gains an answer for the whole subtree |
| PropertyTrieMeaning.ChildRulesDecide | resetprop/Magisk/native/jni/systemproperties/property_info_parser.cpp:135-143 | every rule below the next child is longer than every matching rule of the node itself, and no other child's rules match |
| PropertyTrieMeaning.OwnBestWins | resetprop/Magisk/native/jni/systemproperties/property_info_parser.cpp:119-129 | what a node contributes is a candidate and the longest among the node's own rules |
| PropertyTrieMeaning.FirstPrefixIsLongest | resetprop/Magisk/native/jni/systemproperties/property_info_parser.cpp:91-108 | with the longest prefixes first, the first match is the strictly longest one |
| PropertyTrieMeaning.RuleCases | resetprop/Magisk/native/jni/systemproperties/property_info_parser.cpp:110-143 | a matching rule of a subtree is the node's own or hangs below the next child of the walk |
| PropertyTrieMeaning.TextDeterminesRule | resetprop/Magisk/native/jni/systemproperties/property_info_parser.cpp:110-172 | two rules of one trie with the same text, both exact or neither, are one rule |
| PropertyTrieMeaning.AnswerUnique | resetprop/Magisk/native/jni/systemproperties/property_info_parser.cpp:110-172 | the flat reading admits exactly one answer, so it defines the walk's result |
| PropertyTrieMeaning.LookupIsLongestRule | resetprop/Magisk/native/jni/systemproperties/property_info_parser.cpp:110-172 | the walk is "matching exact rule, else longest matching rule, else none" for every name, provided no prefix entry without an index shadows another |
| PropertyTrieMeaning.LongestAlwaysHeard | resetprop/Magisk/native/jni/systemproperties/property_info_parser.cpp:91-108 | the longest matching rule is heard for every name if and only if no prefix entry without an index extends an indexed one of its node |
| PropertyTrieMeaning.AllIndexedIsUnshadowed | resetprop/Magisk/native/jni/systemproperties/property_info_parser.cpp:98-105 | tries whose prefix entries all carry an index meet that condition |
| PropertyTrieMeaning.UnindexedPrefixHides | resetprop/Magisk/native/jni/systemproperties/property_info_parser.cpp:91-108 | a concrete trie in which an entry without an index hides a shorter rule that matches |
| CStrings.StrNCmpPrefix | resetprop/Magisk/native/jni/systemproperties/property_info_parser.cpp:95-98 | strncmp over the whole length of a prefix tests for that prefix |
| PrefixRules.InsertKeepsArranged | resetprop/Magisk/native/jni/systemproperties/contexts_split.cpp:73-86 | insertion keeps ordinary prefixes in non-increasing length with all starred rules behind them |
| PrefixRules.StarStaysBehind | resetprop/Magisk/native/jni/systemproperties/contexts_split.cpp:73-86 | a starred rule of any length keeps the order if and only if no ordinary prefix is shorter than it |
| PrefixRules.InsertionsArrange | resetprop/Magisk/native/jni/systemproperties/contexts_split.cpp:224-253 | the order holds after any sequence of insertions |
| PrefixRules.InsertedLookup | resetprop/Magisk/native/jni/systemproperties/contexts_split.cpp:73-86 | one insertion changes a lookup exactly when the new rule matches and beats the old winner |
| PrefixRules.LookupIsBest | resetprop/Magisk/native/jni/systemproperties/contexts_split.cpp:329-332 | after any insertions first-match lookup gives the earliest longest ordinary match of the history, else its latest "*", else nothing |
| PrefixRules.BestExtends | resetprop/Magisk/native/jni/systemproperties/contexts_split.cpp:73-86 | how the best rule of a history changes when one more rule is inserted |
| ContextsSplit.ContextsSplit.FindSlot | resetprop/Magisk/native/jni/systemproperties/contexts_split.cpp:76-85 | the pointer walk stops at the link where splicing equals ordered insertion |
| ContextsSplit.ContextsSplit.ListAddAfterLen | resetprop/Magisk/native/jni/systemproperties/contexts_split.cpp:73-86 | splices one node in place: the list afterwards reads as the ordered insertion, the chain stays acyclic and complete, the context list is untouched |
| ContextsSplit.InsertsAt | resetprop/Magisk/native/jni/systemproperties/contexts_split.cpp:76-85 | splicing in front of the first shorter or starred rule is ordered insertion |
| ContextsSplit.Relinked | resetprop/Magisk/native/jni/systemproperties/contexts_split.cpp:68-71 | after one link is redirected to the new node every link of the new order is in place |
| ContextsSplit.Link | resetprop/Magisk/native/jni/systemproperties/contexts_split.cpp:68-71 | redirecting one link keeps the nodes one chain in the new order |
| ContextsSplit.ContextsSplit.FindContext | resetprop/Magisk/native/jni/systemproperties/contexts_split.cpp:96-105 | finds the one list node of a context, or null exactly when it is not listed |
| ContextsSplit.ContextsSplit.AddContext | resetprop/Magisk/native/jni/systemproperties/contexts_split.cpp:248-249 | a new context goes to the front of a list that stays free of duplicates |
| ContextsSplit.ContextsSplit.AddRule | resetprop/Magisk/native/jni/systemproperties/contexts_split.cpp:243-250 | one rule is inserted in order and its context shared if it is known |
| ContextsSplit.RuleLines | resetprop/Magisk/native/jni/systemproperties/contexts_split.cpp:224-241 | the rules of a file are exactly its lines of at least two fields that do not start with ctl., by their first two fields and in file order |
| ContextsSplit.RuleComesFromLine | resetprop/Magisk/native/jni/systemproperties/contexts_split.cpp:224-241 | a rule is in the list if and only if such a line spells it |
| ContextsSplit.ContextsComeFromLines | resetprop/Magisk/native/jni/systemproperties/contexts_split.cpp:243-250 | the contexts listed are exactly the second fields of those lines |
| ContextsSplit.ContextsSplit.AddLine | resetprop/Magisk/native/jni/systemproperties/contexts_split.cpp:224-252 | one line is added to rules and contexts, or skipped; RuleLines and RuleComesFromLine say by its fields which |
| ContextsSplit.IsControl | resetprop/Magisk/native/jni/systemproperties/contexts_split.cpp:237-241 | the strncmp test recognises exactly the prefixes that start with ctl. |
| ContextsSplit.ContextsSplit.InitializePropertiesFromFile | resetprop/Magisk/native/jni/systemproperties/contexts_split.cpp:213-259 | fails, changing nothing, exactly when the file cannot be opened; otherwise the prefix list is the old list with the file's rules inserted in file order, and every prefix node points into a duplicate-free context list |
| ContextsSplit.ContextsSplit.InitializeProperties | resetprop/Magisk/native/jni/systemproperties/contexts_split.cpp:261-296 | which files are read in which order, when that fails, and that the lists then hold the rules of all lines read |
| ContextsSplit.FilesChosen | resetprop/Magisk/native/jni/systemproperties/contexts_split.cpp:261-296 | by their paths: the combined file alone if it opens, else the platform file of the system or of the root and the vendor or nonplat file, and nothing without the platform file |
| ContextsSplit.TwoFiles | resetprop/Magisk/native/jni/systemproperties/contexts_split.cpp:276-281 | two files read one after the other leave the same lists as one file with the lines of both |
| ContextsSplit.ContextsSplit.GetPropAreaForName | resetprop/Magisk/native/jni/systemproperties/contexts_split.cpp:329-345 | returns the context node of the first matching rule, and null exactly when no rule matches |
| ContextsSplit.OwnerIsBest | resetprop/Magisk/native/jni/systemproperties/contexts_split.cpp:213-345 | from lines to lookup: the first match is the earliest longest matching prefix of all lines read, else their latest "*", else none |
| ContextsSplit.BestRuleOwns | resetprop/Magisk/native/jni/systemproperties/contexts_split.cpp:213-345 | the best rule of the inserted list is the rule of the line that owns the name |
| ContextsSplit.OwnerOf | resetprop/Magisk/native/jni/systemproperties/contexts_split.cpp:261-345 | reading the files and looking a name up: none exactly when nothing can be read or no line of two fields without ctl. claims the name; else the second field of the first longest such line, or of the last starred one if all are starred |
| ContextLookup.ListAndTrieAgree | resetprop/Magisk/native/jni/systemproperties/contexts_split.cpp:329-345 | list and trie give every name the same context when the unshadowed trie flattens to the rules of the files, with "*" as its root rule and no exact rules |
| ContextLookup.RulesAgree | resetprop/Magisk/native/jni/systemproperties/property_info_parser.cpp:110-172 | two rule sets with the same texts and contexts give the same answer under both readings |
| ContextLookup.SameWinner | resetprop/Magisk/native/jni/systemproperties/contexts_split.cpp:329-332 | the best list rule and the longest trie rule name the same context |
| A2dpBits.View.Get | bluetooth/audio/hal/A2dpBits.h:39-41 | reads the bit at a position of the big-endian bit string of the bytes |
| A2dpBits.View.GetRange | bluetooth/audio/hal/A2dpBits.h:43-48 | the shifted ors spell the number of the range, below 2^len |
| A2dpBits.View.Set | bluetooth/audio/hal/A2dpBits.h:50-56 | changes exactly one bit of the whole vector |
| A2dpBits.View.SetRange | bluetooth/audio/hal/A2dpBits.h:58-61 | a range written and read back gives the value modulo 2^len, negative values included; every bit outside keeps its value |
| A2dpBits.View.FindActiveBit | bluetooth/audio/hal/A2dpBits.h:63-71 | the position of the only set bit of a range of at most 31 bits, else -1 |
| A2dpBits.LowestSetBit | bluetooth/audio/hal/A2dpBits.h:63-71 | the xor with the lowest set bit is zero exactly when that bit stands alone |
| A2dpBits.RangeValueUnique | bluetooth/audio/hal/A2dpBits.h:43-48 | a number whose low bits are the range's bits is the range's value modulo 2^len |
| A2dpBits.ByteIsRange | bluetooth/audio/hal/A2dpBits.h:39-48 | the eight bits from a byte's border on spell that byte |
| A2dpBits.BitsDetermineBytes | bluetooth/audio/hal/A2dpBits.h:39-41 | the bit string determines the bytes: nothing of the vector is lost in it |
| Bits.BitIsShifted | bluetooth/audio/hal/A2dpBits.h:40 | the recursive bit of a number is the one the shift and mask extract, for negative numbers as well |
| A2dpCodec.SelectFirst | bluetooth/audio/hal/A2dpOffloadCodecSbc.cpp:411-424 | a chain of alternatives sets the first mutually supported entry of its preference order, and fails exactly when the two sides do not meet in the field; other fields stay |
| A2dpCodec.OrderDecides | bluetooth/audio/hal/A2dpOffloadCodecSbc.cpp:411-424 | over an order that names every locally supported bit of a field, some entry is shared exactly when the two sides meet in the field |
| A2dpCodec.SelectionUnique | bluetooth/audio/hal/A2dpOffloadCodecSbc.cpp:411-475 | the preference order leaves no choice of the selected bit |
| A2dpSbc.GetFrameSize | bluetooth/audio/hal/A2dpOffloadCodecSbc.cpp:223-234 | the rounded bit count is the frame length of A2DP section 12.9 in every channel mode |
| A2dpSbc.FrameLengthFromBits | bluetooth/audio/hal/A2dpOffloadCodecSbc.cpp:228-233 | rounding the whole bit count up to bytes agrees with the formula that rounds only its last term, mode by mode |
| A2dpSbc.GetBitrate | bluetooth/audio/hal/A2dpOffloadCodecSbc.cpp:236-243 | the bitrate of A2DP section 12.9 for the shape that the configuration bytes hold: times blocks and subbands it is the largest multiple not above 8 times frame length times sampling rate |
| A2dpSbc.BitrateIsQuotient | bluetooth/audio/hal/A2dpOffloadCodecSbc.cpp:236-243 | the bitrate is the bits of a frame times the frames in a second, rounded down |
| A2dpSbc.BitrateMonotone | bluetooth/audio/hal/A2dpOffloadCodecSbc.cpp:236-243 | the bitrate never falls when the bitpool grows |
| A2dpSbc.BitrateFits | bluetooth/audio/hal/A2dpOffloadCodecSbc.cpp:236-243 | for bitpools up to 255 every intermediate fits a 32-bit int |
| A2dpSbc.GetBitpool | bluetooth/audio/hal/A2dpOffloadCodecSbc.cpp:245-254 | the bitwise search finds the largest bitpool of 0..255 whose bitrate is strictly below the request, clamped to 2..250 |
| A2dpSbc.LargestBelowIsLargest | bluetooth/audio/hal/A2dpOffloadCodecSbc.cpp:245-254 | that bitpool's bitrate is below the request unless it is 0, and every larger one reaches the request |
| A2dpSbc.BitpoolIsLargest | bluetooth/audio/hal/A2dpOffloadCodecSbc.cpp:245-254 | above 2 the bitpool's bitrate is strictly below the request, and below 250 every larger bitpool reaches the request |
| A2dpSbc.BitpoolMonotone | bluetooth/audio/hal/A2dpOffloadCodecSbc.cpp:245-254 | a larger request never gives a smaller bitpool |
| A2dpOffloadCodecSbc.A2dpOffloadCodecSbc.constructor | bluetooth/audio/hal/A2dpOffloadCodecSbc.cpp:260-296 | the local capability bytes 3F FF 02 FA: 44.1 and 48 kHz, every mode, block length, subband count and allocation, bitpools 2..250 |
| A2dpOffloadCodecSbc.A2dpOffloadCodecSbc.ParseConfiguration | bluetooth/audio/hal/A2dpOffloadCodecSbc.cpp:318-394 | reports the first fault in the order of the checks, or the parameters that the bytes encode |
| A2dpOffloadCodecSbc.A2dpOffloadCodecSbc.BuildConfiguration | bluetooth/audio/hal/A2dpOffloadCodecSbc.cpp:396-503 | succeeds if and only if the lengths match and both sides meet in all five fields, and then picks in each field the first mutually supported entry of the preference order and the negotiated bitpools |
| A2dpOffloadCodecSbc.A2dpOffloadCodecSbc.Configure | bluetooth/audio/hal/A2dpOffloadCodecFactory.cpp:80-88 | a build and the parse that follows it: the asserted status is OK for every remote and every hint |
| A2dpOffloadCodecSbc.LocalBytes | bluetooth/audio/hal/A2dpOffloadCodecSbc.cpp:266-296 | the capability predicate holds of exactly the bytes 3F FF 02 FA |
| A2dpOffloadCodecSbc.ParsedRateAndMode | bluetooth/audio/hal/A2dpOffloadCodecSbc.cpp:131-171 | which bit means which sampling rate and channel mode |
| A2dpOffloadCodecSbc.ParsedFrame | bluetooth/audio/hal/A2dpOffloadCodecSbc.cpp:173-208 | which bit means which block length, subband count and allocation method, and which bytes are the bitpools |
| A2dpOffloadCodecSbc.ParsedBitrates | bluetooth/audio/hal/A2dpOffloadCodecSbc.cpp:381-382 | the parsed bitrates are those of the parsed shape and bitpools, rounded down |
| A2dpOffloadCodecSbc.FaultsNamed | bluetooth/audio/hal/A2dpOffloadCodecSbc.cpp:323-358 | each status up to the allocation method occurs exactly when its field is the first at fault, by the bits of the fields |
| A2dpOffloadCodecSbc.BitpoolFaultsNamed | bluetooth/audio/hal/A2dpOffloadCodecSbc.cpp:360-372 | with all fields in order, each bitpool status occurs exactly for its bounds |
| A2dpOffloadCodecSbc.NegotiableRemotes | bluetooth/audio/hal/A2dpOffloadCodecSbc.cpp:402-475 | which remotes a configuration can be built for, by the remote's bits |
| A2dpOffloadCodecSbc.BuiltFrame | bluetooth/audio/hal/A2dpOffloadCodecSbc.cpp:445-475 | a build takes the longest shared block length, eight subbands if shared, and loudness if shared |
| A2dpOffloadCodecSbc.BuiltRate | bluetooth/audio/hal/A2dpOffloadCodecSbc.cpp:411-424 | a build takes the hinted rate if shared, else 44.1 kHz if shared, else 48 kHz |
| A2dpOffloadCodecSbc.BuiltMode | bluetooth/audio/hal/A2dpOffloadCodecSbc.cpp:426-443 | a build takes the hinted mode if shared, else joint stereo, stereo, dual channel, mono |
| A2dpOffloadCodecSbc.BuiltBitpools | bluetooth/audio/hal/A2dpOffloadCodecSbc.cpp:477-500 | the built minimum is the larger of the sane remote minimum and the hinted one; the built maximum is 250 or that of a usable maximum hint, whatever the remote's is |
| A2dpOffloadCodecSbc.LegalParses | bluetooth/audio/hal/A2dpOffloadCodecSbc.cpp:318-372 | parsing succeeds if and only if every field holds exactly one bit, locally supported, and both bitpools lie in 2..250 |
| A2dpOffloadCodecSbc.BuiltParses | bluetooth/audio/hal/A2dpOffloadCodecFactory.cpp:86-88 | whatever is built parses with status OK |
| A2dpOffloadCodecSbc.BuiltUnique | bluetooth/audio/hal/A2dpOffloadCodecSbc.cpp:396-503 | the built bytes are a function of the capabilities and the hint |
| A2dpOffloadCodecSbc.HintSurvives | bluetooth/audio/hal/A2dpOffloadCodecSbc.cpp:411-443 | a mutually supported hinted sampling rate or channel mode is the one parsed back |
| A2dpOffloadCodecSbc.PoolsOrdered | bluetooth/audio/hal/A2dpOffloadCodecSbc.cpp:477-497 | built bounds lie in 2..250, and minimum <= maximum if and only if there is no usable maximum hint or its bitpool reaches the sanitised remote minimum |
| A2dpOffloadCodecSbc.PoolsCanCross | bluetooth/audio/hal/A2dpOffloadCodecSbc.cpp:477-497 | a concrete remote and hint whose built minimum exceeds the built maximum |
| A2dpOffloadCodecSbc.SelectSamplingFrequency | bluetooth/audio/hal/A2dpOffloadCodecSbc.cpp:411-424 | selects the first mutually supported rate in hinted, 44.1, 48 kHz order, and fails only when the two sides share none; other fields stay |
| A2dpOffloadCodecSbc.SelectChannelMode | bluetooth/audio/hal/A2dpOffloadCodecSbc.cpp:426-443 | the same for the channel mode |
| A2dpOffloadCodecSbc.SelectBlockLength | bluetooth/audio/hal/A2dpOffloadCodecSbc.cpp:445-456 | the same for the block length, longest first |
| A2dpOffloadCodecSbc.SelectSubbands | bluetooth/audio/hal/A2dpOffloadCodecSbc.cpp:458-465 | the same for the subbands, eight first |
| A2dpOffloadCodecSbc.SelectAllocationMethod | bluetooth/audio/hal/A2dpOffloadCodecSbc.cpp:467-475 | the same for the allocation method, loudness first |
| A2dpOffloadCodecSbc.SelectFields | bluetooth/audio/hal/A2dpOffloadCodecSbc.cpp:411-475 | later selections keep the earlier ones: all five fields hold at the end |
| A2dpOffloadCodecSbc.SelectBitpools | bluetooth/audio/hal/A2dpOffloadCodecSbc.cpp:477-500 | writing both bitpools keeps every selection and stores exactly the negotiated bounds |
| A2dpOffloadCodecSbc.FieldsKept | bluetooth/audio/hal/A2dpOffloadCodecSbc.cpp:467-500 | writing one of the last three fields leaves every other selection and the coding shape as they were |
| A2dpOffloadCodecAac.A2dpOffloadCodecAac.constructor | bluetooth/audio/hal/A2dpOffloadCodecAac.cpp:197-221 | the local capability bytes C0 01 8C 80 00 00: both low-complexity object types, 44.1 and 48 kHz, mono and stereo, VBR, no bitrate limit |
| A2dpOffloadCodecAac.A2dpOffloadCodecAac.ParseConfiguration | bluetooth/audio/hal/A2dpOffloadCodecAac.cpp:244-297 | reports the first fault in the order of the checks, or the parameters that the bytes encode |
| A2dpOffloadCodecAac.A2dpOffloadCodecAac.BuildConfiguration | bluetooth/audio/hal/A2dpOffloadCodecAac.cpp:299-371 | succeeds if and only if the lengths match and both sides meet in object type, rate and channels, and then holds the preferred selections, the VBR flag and the bitrate modulo 2^23 |
| A2dpOffloadCodecAac.A2dpOffloadCodecAac.Configure | bluetooth/audio/hal/A2dpOffloadCodecFactory.cpp:80-88 | a build and the parse that follows it: the asserted status is OK for every remote and every hint |
| A2dpOffloadCodecAac.LocalBytes | bluetooth/audio/hal/A2dpOffloadCodecAac.cpp:203-221 | the capability predicate holds of exactly the bytes C0 01 8C 80 00 00 |
| A2dpOffloadCodecAac.ParsedRate | bluetooth/audio/hal/A2dpOffloadCodecAac.cpp:140-169 | which bit means which of the twelve sampling rates |
| A2dpOffloadCodecAac.ParsedRest | bluetooth/audio/hal/A2dpOffloadCodecAac.cpp:283-294 | which bit means which channels and object type, and how the bitrates follow from the VBR flag and the bitrate field |
| A2dpOffloadCodecAac.FaultsNamed | bluetooth/audio/hal/A2dpOffloadCodecAac.cpp:244-297 | each status occurs exactly when its check is the first to fail, by the bits of the fields |
| A2dpOffloadCodecAac.NegotiableRemotes | bluetooth/audio/hal/A2dpOffloadCodecAac.cpp:305-355 | which remotes a configuration can be built for, by the remote's bits |
| A2dpOffloadCodecAac.BuiltObjectType | bluetooth/audio/hal/A2dpOffloadCodecAac.cpp:314-321 | a build takes MPEG-2 if shared, else MPEG-4 |
| A2dpOffloadCodecAac.BuiltRate | bluetooth/audio/hal/A2dpOffloadCodecAac.cpp:323-342 | a build takes the hinted rate if shared, else the highest shared of 96, 88.2, 48 and 44.1 kHz |
| A2dpOffloadCodecAac.BuiltChannels | bluetooth/audio/hal/A2dpOffloadCodecAac.cpp:344-355 | a build takes the hinted channels if shared, else stereo if shared, else mono |
| A2dpOffloadCodecAac.BuiltRates | bluetooth/audio/hal/A2dpOffloadCodecAac.cpp:357-368 | the VBR flag is set exactly if the remote supports it and no minimum is hinted; the bitrate is the hinted maximum modulo 2^23, or 0 |
| A2dpOffloadCodecAac.LegalParses | bluetooth/audio/hal/A2dpOffloadCodecAac.cpp:244-281 | parsing succeeds if and only if each of the three fields holds exactly one bit, locally supported, whatever the VBR flag and the bitrate |
| A2dpOffloadCodecAac.BuiltParses | bluetooth/audio/hal/A2dpOffloadCodecFactory.cpp:86-88 | whatever is built parses with status OK |
| A2dpOffloadCodecAac.BuiltUnique | bluetooth/audio/hal/A2dpOffloadCodecAac.cpp:299-371 | the built bytes are a function of the capabilities and the hint |
| A2dpOffloadCodecAac.HintSurvives | bluetooth/audio/hal/A2dpOffloadCodecAac.cpp:323-355 | a mutually supported hinted sampling rate or channel mode is the one parsed back |
| A2dpOffloadCodecAac.BitrateHintSurvives | bluetooth/audio/hal/A2dpOffloadCodecAac.cpp:357-368 | a hinted maximum bitrate is parsed back if and only if it fits 23 bits |
| A2dpOffloadCodecAac.SelectObjectType | bluetooth/audio/hal/A2dpOffloadCodecAac.cpp:314-321 | selects the first mutually supported object type, and fails only when the two sides share none; other fields stay |
| A2dpOffloadCodecAac.SelectSamplingFrequency | bluetooth/audio/hal/A2dpOffloadCodecAac.cpp:323-342 | the same for the sampling rate: hinted first, then the highest |
| A2dpOffloadCodecAac.SelectChannels | bluetooth/audio/hal/A2dpOffloadCodecAac.cpp:344-355 | the same for the channels: hinted first, then stereo |
| A2dpOffloadCodecAac.SelectFields | bluetooth/audio/hal/A2dpOffloadCodecAac.cpp:314-355 | the three selections succeed together exactly when both sides meet in each field |
| A2dpOffloadCodecAac.SelectVbr | bluetooth/audio/hal/A2dpOffloadCodecAac.cpp:359-361 | the VBR flag is set exactly when no minimum is hinted and both sides support it |
| A2dpOffloadCodecAac.SelectBitrate | bluetooth/audio/hal/A2dpOffloadCodecAac.cpp:363-368 | the bitrate field holds the lower of local limit and hint, a zero limit counting as none |
| A2dpOffloadCodecFactory.PreferenceReorders | bluetooth/audio/hal/A2dpOffloadCodecFactory.cpp:61-73 | the hinted codec moves to the front, every codec is still tried exactly once, an unknown hint changes nothing |
| A2dpOffloadCodecFactory.FirstRemote | bluetooth/audio/hal/A2dpOffloadCodecFactory.cpp:76-78 | the first remote entry of the codec, or the end when there is none |
| A2dpOffloadCodecFactory.Factory.TryCodec | bluetooth/audio/hal/A2dpOffloadCodecFactory.cpp:75-92 | one turn succeeds exactly when the codec's first remote entry meets the local capabilities |
| A2dpOffloadCodecFactory.Factory.FirstConfigured | bluetooth/audio/hal/A2dpOffloadCodecFactory.cpp:75-95 | the loop stops at the first workable codec and fails only when none of the list is workable |
| A2dpOffloadCodecFactory.Factory.GetConfiguration | bluetooth/audio/hal/A2dpOffloadCodecFactory.cpp:58-96 | none exactly when neither AAC nor SBC is workable; AAC exactly when it is workable and SBC is not both hinted and workable; with built bytes, parsed parameters and the remote's seid |
| SupportedCodecs.IsSingleBit | bluetooth/audio/utils/session/BluetoothAudioSupportedCodecsDB.cpp:117-129 | ends, and is true if and only if the conjunction of the two masks has exactly one set bit, although the loop stops once the probe exceeds either operand |
| SupportedCodecs.ProbeTooLarge | bluetooth/audio/utils/session/BluetoothAudioSupportedCodecsDB.cpp:120 | no common bit lies at or above a probe that exceeds an operand |
| AudioSession.BluetoothAudioSession.IsSessionReady | bluetooth/audio/utils/aidl_session/BluetoothAudioSession.cpp:147-162 | ready means a stack interface, a valid queue unless offloaded, and a configuration |
| AudioSession.BluetoothAudioSession.UpdateDataPath | bluetooth/audio/utils/aidl_session/BluetoothAudioSession.cpp:260-274 | an invalid queue is refused and forgotten, an absent one resets |
| AudioSession.BluetoothAudioSession.UpdateAudioConfig | bluetooth/audio/utils/aidl_session/BluetoothAudioSession.cpp:276-326 | a configuration is stored exactly when its tag fits the session type |
| AudioSession.BluetoothAudioSession.OnSessionStarted | bluetooth/audio/utils/aidl_session/BluetoothAudioSession.cpp:48-71 | the state after a start request, and that observers hear of it exactly when it fully succeeds |
| AudioSession.BluetoothAudioSession.OnSessionEnded | bluetooth/audio/utils/aidl_session/BluetoothAudioSession.cpp:73-83 | everything is cleared, and observers hear of it exactly when the session was ready |
| AudioSession.BluetoothAudioSession.ReportAudioConfigChanged | bluetooth/audio/utils/aidl_session/BluetoothAudioSession.cpp:112-145 | only unicast LE offload sessions take a changed configuration, and only one of their tag |
| AudioSession.BluetoothAudioSession.GetAudioConfig | bluetooth/audio/utils/aidl_session/BluetoothAudioSession.cpp:91-110 | the stored configuration of a ready session, else the default one of the session type |
| AudioSession.BluetoothAudioSession.RegisterStatusCback | bluetooth/audio/utils/aidl_session/BluetoothAudioSession.cpp:170-193 | takes the lowest free cookie of the session's range; fails, changing nothing, exactly when all sixteen are taken |
| AudioSession.BluetoothAudioSession.UnregisterStatusCback | bluetooth/audio/utils/aidl_session/BluetoothAudioSession.cpp:195-202 | removes that cookie's observer and no other |
| AudioSession.CookieNamesType | bluetooth/audio/utils/aidl_session/BluetoothAudioSession.h:55-67 | a cookie lies in the range of at most one session type |
| AudioSession.NextCookieUnique | bluetooth/audio/utils/aidl_session/BluetoothAudioSession.cpp:170-193 | the lowest free cookie is determined by the observers |
| AudioSession.SessionInvariant | bluetooth/audio/utils/aidl_session/BluetoothAudioSession.cpp:48-145 | in every run the stack interface is set exactly when an earlier start fully succeeded with no end since, and a stored configuration fits the type |
| AudioSession.UnendedStep | bluetooth/audio/utils/aidl_session/BluetoothAudioSession.cpp:48-83 | how one more event changes "started and not ended" |
| AudioSession.SessionIsHistory | bluetooth/audio/utils/aidl_session/BluetoothAudioSession.cpp:48-145 | in every run stack interface, queue and configuration are exactly a reading of the history: what was last started with or changed to, and not ended or spoilt since |
| AudioSession.ReadyExactly | bluetooth/audio/utils/aidl_session/BluetoothAudioSession.cpp:147-162 | when a session is ready, if and only if, by its history; and that it then hands out the configuration last started with or changed to |
| AudioSession.StartMakesReady | bluetooth/audio/utils/aidl_session/BluetoothAudioSession.cpp:48-71 | a successful start makes the session ready, unless it is a software session started without a queue |
| AudioSession.DefaultConfig | bluetooth/audio/utils/aidl_session/BluetoothAudioSession.cpp:91-110 | without a ready session a default configuration of the session's own kind is handed out, the codec configuration for A2DP offload |
| AudioSession.KindsOfSessions | bluetooth/audio/utils/aidl_session/BluetoothAudioSession.cpp:276-326 | every session type takes exactly one kind of configuration, software sessions the PCM one |
| AudioSession.SessionTheorem | bluetooth/audio/utils/aidl_session/BluetoothAudioSession.cpp:91-162 | in every run readiness implies an unended successful start, a ready software session has a valid queue, and the configuration handed out fits the session type |
| AudioPort.BluetoothAudioPort.SetUp | bluetooth/audio/hw/device_port_proxy.cc:135-235 | succeeds exactly when the device is known, its session ready and a cookie free; then the port is STANDBY under the lowest free cookie, which its session maps to it; the state after each failure |
| AudioPort.DevicesOfSessions | bluetooth/audio/hw/device_port_proxy.cc:180-226 | which devices share a session, and which have one of their own |
| AudioPort.A2dpDevices | bluetooth/audio/hw/device_port_proxy.cc:180-192 | a port answers to A2DP suspension exactly if its device is one of the three A2DP output devices |
| AudioPort.BluetoothAudioPort.TearDown | bluetooth/audio/hw/device_port_proxy.cc:237-251 | gives up exactly the port's own cookie |
| AudioPort.BluetoothAudioPort.ControlResultHandler | bluetooth/audio/hw/device_port_proxy.cc:253-314 | the reaction to a report in each stream state: STARTED goes to STANDBY unless it is a failure, STARTING to STARTED or STANDBY, SUSPENDING to STANDBY or DISABLED |
| AudioPort.BluetoothAudioPort.SessionChangedHandler | bluetooth/audio/hw/device_port_proxy.cc:316-329 | a session change disables a port in use and nothing else |
| AudioPort.BluetoothAudioPort.Callback | bluetooth/audio/hw/device_port_proxy.cc:140-161 | callbacks under a foreign cookie or to an unused port are ignored |
| AudioPort.BluetoothAudioPort.Start | bluetooth/audio/hw/device_port_proxy.cc:459-495 | true exactly when an idle port's request was accepted and it is STARTED at the end of the wait, which takes a success as the first report delivered; only STANDBY leads to STARTING |
| AudioPort.BluetoothAudioPort.Suspend | bluetooth/audio/hw/device_port_proxy.cc:497-529 | true exactly when a started port's request was accepted and it is STANDBY at the end of the wait, which takes a success as the first report delivered |
| AudioPort.BluetoothAudioPort.Stop | bluetooth/audio/hw/device_port_proxy.cc:531-544 | disables a port in use |
| AudioPort.StartedAfterWait | bluetooth/audio/hw/device_port_proxy.cc:427-439 | a wait for STARTED ends so if and only if the first report is a success and only failures follow; after any report the port has left STARTING |
| AudioPort.StandbyAfterWait | bluetooth/audio/hw/device_port_proxy.cc:440-448 | a wait for STANDBY ends so if and only if the first report is a success and no session change follows |
| AudioPort.StartingIsPending | bluetooth/audio/hw/device_port_proxy.cc:471-472 | in every run STARTING was entered from STANDBY and nothing has moved the port since |
| AudioPort.StartedHistory | bluetooth/audio/hw/device_port_proxy.cc:267-285 | in every run STARTED was entered from a pending start by a success, and only failures and harmless calls came after it |
| AudioPort.SuspendingHistory | bluetooth/audio/hw/device_port_proxy.cc:507-508 | in every run SUSPENDING was entered from STARTED and nothing has moved the port since |
| PortProtocol.StepKeepsInv | bluetooth/audio/hw/device_port_proxy.cc:135-251 | every step of every session and port keeps observers and ports in agreement, with registration and the storing of its result, and unregistration and the clearing of the cookie, as separate steps |
| PortProtocol.RunKeepsInv | bluetooth/audio/utils/aidl_session/BluetoothAudioSession.cpp:170-202 | the agreement holds in every state of every interleaving |
| PortProtocol.RegisterKeepsInv | bluetooth/audio/utils/aidl_session/BluetoothAudioSession.cpp:170-193 | a registration adds one observer and disturbs no other port |
| PortProtocol.UnregisterKeepsInv | bluetooth/audio/utils/aidl_session/BluetoothAudioSession.cpp:195-202 | an unregistration removes the port's own observer and disturbs no other |
| PortProtocol.LiveCookies | bluetooth/audio/utils/aidl_session/BluetoothAudioSession.h:55-67 | over all interleavings a live port's cookie is a key of its own session's observers and stands for it; no two live ports of any session types share one |
| PortProtocol.AtMostSixteen | bluetooth/audio/utils/aidl_session/BluetoothAudioSession.cpp:170-193 | no session ever has more than sixteen observers |
| PortProtocol.AtMostSixteenLive | bluetooth/audio/utils/aidl_session/BluetoothAudioSession.cpp:170-193 | hence no session ever has more than sixteen live ports |
| PortProtocol.HeldIfLive | bluetooth/audio/hw/device_port_proxy.cc:140-161 | a session holds a port under the port's own cookie exactly when the port is live on it |
| PortProtocol.DeliveredTo | bluetooth/audio/utils/aidl_session/BluetoothAudioSession.cpp:328-343 | a report reaches the live ports of the session that makes it, and no other port |
| PortProtocol.EndReachesLivePorts | bluetooth/audio/utils/aidl_session/BluetoothAudioSession.cpp:73-83 | a ready session's end leaves every live port of that session DISABLED and changes no other port |
| PortProtocol.EndDisablesExactlyLive | bluetooth/audio/utils/aidl_session/BluetoothAudioSession.cpp:73-83 | of the ports that have found a session ready, its end disables a port if and only if the port is live; one that has not registered, or not stored its cookie, is missed |
| PortProtocol.MissedAfterRegistering | bluetooth/audio/hw/device_port_proxy.cc:170-178 | a run of six steps in which a session ends between a port's registration and the storing of its cookie, and the port comes up in STANDBY on the ended session |
| PortProtocol.MissedBeforeRegistering | bluetooth/audio/hw/device_port_proxy.cc:227-234 | a run of six steps in which a session ends between the readiness test and the registration, with the same outcome |
| PortProtocol.ReportMoves | bluetooth/audio/hw/device_port_proxy.cc:253-314 | in every interleaving: where a report of its own session takes a live port, from each state |
| PortProtocol.CallMoves | bluetooth/audio/hw/device_port_proxy.cc:459-544 | in every interleaving: where its own start, suspend, stop and stream parameters take a live port, from each state |
| PortProtocol.ChangeMoves | bluetooth/audio/hw/device_port_proxy.cc:316-329 | in every interleaving: a session change that its own session reports disables a live port, whatever its state |
| PortProtocol.NothingElseMoves | bluetooth/audio/hw/device_port_proxy.cc:135-161 | in every interleaving: nothing else moves a port that stays live |
| PortProtocol.EntersDisabled | bluetooth/audio/hw/device_port_proxy.cc:286-325 | in every interleaving: a live port enters DISABLED if and only if its session reports a change, it is stopped or disabled by the stream's parameters, or a report other than success arrives while SUSPENDING |
| PortProtocol.LiveStarting | bluetooth/audio/hw/device_port_proxy.cc:471-472 | in every interleaving of all ports and sessions a live port in STARTING got there by its own start, from STANDBY |
| PortProtocol.LiveStarted | bluetooth/audio/hw/device_port_proxy.cc:277-285 | in every interleaving a live port in STARTED was STARTING when its own session reported a success, and has been STARTED since |
| PortProtocol.LiveSuspending | bluetooth/audio/hw/device_port_proxy.cc:507-508 | in every interleaving a live port in SUSPENDING got there by its own suspend, from STARTED |
| PcmPath.PcmSession.WriteOnce | bluetooth/audio/utils/aidl_session/BluetoothAudioSession.cpp:359-386 | one pass of the writer's loop is one turn: not ready, moved, failed, polled or timed out |
| PcmPath.PcmSession.ReadOnce | bluetooth/audio/utils/aidl_session/BluetoothAudioSession.cpp:397-423 | one pass of the reader's loop is one turn |
| PcmPath.PcmSession.OutWritePcmData | bluetooth/audio/utils/aidl_session/BluetoothAudioSession.cpp:351-388 | ends after turns of which only the last is final and at most 1000 are polls; moves exactly the returned-length prefix of the buffer, over however many queues; stops short only for a session not ready, a failed write, or a queue found full after 1000 polls |
| PcmPath.PcmSession.InReadPcmData | bluetooth/audio/utils/aidl_session/BluetoothAudioSession.cpp:390-425 | the dual: moves exactly the bytes it hands out, never more than asked; stops short only for a session not ready, a failed read, or a queue found empty after 1000 polls |
| PcmPath.WritesPrefix | bluetooth/audio/utils/aidl_session/BluetoothAudioSession.cpp:351-388 | while the session keeps its queue the turns of a call append exactly the returned-length prefix of the buffer |
| PcmPath.ReadsNext | bluetooth/audio/utils/aidl_session/BluetoothAudioSession.cpp:390-425 | while the session keeps its queue the turns of a call hand out exactly the next bytes of the queue |
| PcmPath.WriteTurnMoves | bluetooth/audio/utils/aidl_session/BluetoothAudioSession.cpp:363-377 | a turn puts into the queue exactly what it adds to the accepted bytes |
| PcmPath.WriteTurnCases | bluetooth/audio/utils/aidl_session/BluetoothAudioSession.cpp:359-386 | a turn, case by case; one that moves fills the queue or completes the call |
| PcmPath.ReadTurnCases | bluetooth/audio/utils/aidl_session/BluetoothAudioSession.cpp:397-423 | a turn, case by case; one that moves empties the queue or completes the call |
| PcmPath.WritePollsCounted | bluetooth/audio/utils/aidl_session/BluetoothAudioSession.cpp:378-386 | each turn that moves nothing and goes on uses up one of 1000 polls, and nothing else does |
| PcmPath.ReadPollsCounted | bluetooth/audio/utils/aidl_session/BluetoothAudioSession.cpp:411-422 | the same for reading |
| PcmPath.StepKeepsInv | bluetooth/audio/utils/aidl_session/BluetoothAudioSession.cpp:351-425 | every begin and every turn of a write or read call, and every restart of the session on a new queue, keeps the queue's history equal to what the calls accepted and returned |
| PcmPath.ReadIsPrefixOfWritten | bluetooth/audio/utils/aidl_session/BluetoothAudioSession.cpp:351-425 | in every interleaving of the turns of successive write calls and successive read calls, with restarts and other sessions' steps in between, the concatenated data returned by the reads is a prefix of the concatenated accepted prefixes of the writes, at most one capacity behind |
| AudioStream.BluetoothStreamOut.Write | bluetooth/audio/hw/stream_apis.cc:529-588 | with arbitrary other calls wherever it has let go of the mutex: resumes if needed, drops or hands on the buffer, and moves both counters by the frames of the whole buffer when anything was accepted; on an undisturbed STARTED stream it reports what was accepted and both counters grow by those frames |
| AudioStream.BluetoothStreamOut.Resume | bluetooth/audio/hw/stream_apis.cc:660-689 | outcome and state for each port state |
| AudioStream.BluetoothStreamOut.Standby | bluetooth/audio/hw/stream_apis.cc:268-295 | outcome and state for each port state; the rendered counter restarts with a started stream |
| AudioStream.BluetoothStreamOut.Pause | bluetooth/audio/hw/stream_apis.cc:634-658 | the same as standby |
| AudioStream.BluetoothStreamOut.SetParameters | bluetooth/audio/hw/stream_apis.cc:345-417 | the effect of the A2DP suspension, closing and exiting parameters in their order |
| AudioStream.BluetoothStreamOut.CalculateFeedingDelay | bluetooth/audio/hw/stream_apis.cc:52-131 | the latency used, and a position between max(0, P-2L) and max(0, P-L) whatever the stack reports; exactly the stack counter or the HAL's own less the latency, also when the query failed |
| AudioStream.BluetoothStreamOut.GetRenderPosition | bluetooth/audio/hw/stream_apis.cc:590-607 | with the stream's own latency: congruent modulo 2^32 to the render position, and at most max(0, P-L), the largest position a presentation query can give |
| AudioStream.RenderPositionInRuns | bluetooth/audio/hw/stream_apis.cc:590-607 | in every run, also in the middle of a write, and for every latency, the render position is at most the largest presentation position |
| AudioStream.RenderPositionAdvances | bluetooth/audio/hw/stream_apis.cc:558-561 | the render position advances only when a write is counted, and by at most the frames of its buffer |
| AudioStream.BluetoothStreamIn.CalculateStarvingDelay | bluetooth/audio/hw/stream_apis.cc:133-178 | the same bounds for the input side, whatever delay and counter are reported |
| AudioStream.LatencyExact | bluetooth/audio/hw/stream_apis.cc:72-99 | the reported delay if the query succeeded with more than 50 and less than 1000 ms, else 200 ms and the playing time of a buffer; in frames rounded down |
| AudioStream.PositionExact | bluetooth/audio/hw/stream_apis.cc:109-127 | a stack counter not ahead and not further behind than the latency gives the position, otherwise the HAL's own counter does |
| AudioStream.PositionBounds | bluetooth/audio/hw/stream_apis.cc:108-127 | the position lies between max(0, P-2L) and max(0, P-L) for every stack counter |
| AudioStream.PositionsReached | bluetooth/audio/hw/stream_apis.cc:108-127 | every position between those bounds is reported for some stack counter, so they are tight |
| AudioStream.ResumeSucceeds | bluetooth/audio/hw/stream_apis.cc:660-689 | exactly which acceptance and reports make a resume succeed, and that the port is then STARTED |
| AudioStream.SuspendSucceeds | bluetooth/audio/hw/stream_apis.cc:268-295 | exactly which acceptance and reports make a standby or a pause succeed |
| AudioStream.ResumeOutcomes | bluetooth/audio/hw/stream_apis.cc:660-689 | which outcome for which port state; only an idle port is touched |
| AudioStream.SuspendOutcomes | bluetooth/audio/hw/stream_apis.cc:268-295 | which outcome for which port state; only a started port is touched, and its rendered counter restarts |
| AudioStream.ParametersMeaning | bluetooth/audio/hw/stream_apis.cc:345-417 | case by case what suspending, lifting, closing and exiting do to the port and to each counter |
| AudioStream.CountersAreFrames | bluetooth/audio/hw/stream_apis.cc:556-561 | in every run the presented counter is the frames of all buffers counted since the last closing or exiting, and the rendered counter those since the last suspension or closing |
| AudioStream.WriteUnderWay | bluetooth/audio/hw/stream_apis.cc:529-588 | the buffer counted is the one of the write begun last, which has not ended |
| AudioStream.HandedOver | bluetooth/audio/hw/stream_apis.cc:552-558 | what the data path took is what it took when the buffer was handed over |
| AudioStream.ClearedByStarted | bluetooth/audio/hw/stream_apis.cc:535-553 | a buffer is handed over only after the port was STARTED at the beginning of the write or by its resume |
| AudioStream.RenderPositionIsFrames | bluetooth/audio/hw/stream_apis.cc:590-607 | in every run the render position is the frames since the last suspension or closing less the latency |
| AudioStream.RenderedWithinPresented | bluetooth/audio/hw/stream_apis.cc:345-417 | in every run, also in the middle of a write, rendered frames never exceed presented frames |
| AudioStream.CountersMove | bluetooth/audio/hw/stream_apis.cc:393-417 | the presented counter falls only when the stream closes, with both counters cleared and the port DISABLED; otherwise both move together or the rendered one restarts |
| AudioStream.DisabledStep | bluetooth/audio/hw/stream_apis.cc:345-366 | a step leaves DISABLED if and only if it is a call that lifts the suspension of an A2DP stream and does not close it again |
| AudioStream.DisabledForGood | bluetooth/audio/hw/stream_apis.cc:660-689 | for a stream that is not A2DP DISABLED is final in every run |
| AudioStream.DisabledWriteWaits | bluetooth/audio/hw/stream_apis.cc:535-541 | a write begun on such a stream never reaches the data path and leaves counters and port unchanged, whatever calls come in between |
| AudioStream.DisabledWriteDrops | bluetooth/audio/hw/stream_apis.cc:542-548 | and when it ends it reports all its bytes as consumed |
| HalLifecycle.Device.OpenOutputStream | audio/hal/Device.cpp:179-190 | a stream the HAL accepts is wrapped and counted; a refused one changes nothing |
| HalLifecycle.Device.OpenInputStream | audio/hal/Device.cpp:216-227 | the same for input streams |
| HalLifecycle.Device.CloseOutputStream | audio/hal/Device.cpp:67-71 | closes the HAL stream once and counts down, or hits the fatal check at zero |
| HalLifecycle.Device.CloseInputStream | audio/hal/Device.cpp:61-65 | the same for input streams |
| HalLifecycle.Device.DoClose | audio/hal/Device.cpp:551-555 | refused when closed already or while streams are open, else the HAL device is closed |
| HalLifecycle.StreamOut.Close | audio/hal/StreamOut.cpp:318-330 | the first close stops the stream and from version 6 on closes the HAL stream; later ones are refused |
| HalLifecycle.StreamOut.Destroy | audio/hal/StreamOut.cpp:159-179 | closes if need be, and up to version 5 closes the HAL stream |
| HalLifecycle.StreamIn.Close | audio/hal/StreamIn.cpp:326-338 | the first close stops the stream and from version 6 on closes the HAL stream; later ones are refused |
| HalLifecycle.StreamIn.Destroy | audio/hal/StreamIn.cpp:156-172 | closes if need be, and up to version 5 closes the HAL stream |
| HalLifecycle.StepKeepsInv | audio/hal/Device.cpp:61-71 | every open, close, destruction and device close keeps the count exact; the HAL device is closed only at count zero |
| HalLifecycle.LifecycleSafe | audio/hal/Device.cpp:551-555 | in every run, for either version: the count is the number of HAL streams open, the fatal check never fires, a destroyed wrapper's HAL stream was closed exactly once, the HAL device is closed at most once, only at count zero, and by the end |
| HalLifecycle.StreamOnClosedDevice | audio/hal/Device.cpp:179-190 | a run in which a stream is opened on a device that is closed already |
| HalLifecycle.NoStreamOnClosedDevice | audio/hal/Device.cpp:179-190 | in a run no HAL stream is ever open on a closed device if and only if none is opened while it is closed |
| AudioParams.ParseAudioParams | bluetooth/audio/hw/utils.cc:33-49 | the map holds every non-empty key with the value of its last occurrence, and nothing else |
| AudioParams.SegmentMeaning | bluetooth/audio/hw/utils.cc:41-46 | the key of a segment is the text before its first '=', the value the text up to the next '=' or the end |
| AudioParams.MeaningUnique | bluetooth/audio/hw/utils.cc:33-49 | the text determines the map |
| AudioParams.PrintParams | bluetooth/audio/hw/stream_apis.cc:502-505 | prints the pairs in order |
| AudioParams.PrintedSegments | bluetooth/audio/hw/stream_apis.cc:502-505 | splitting printed pairs gives their texts back, with one empty segment behind them |
| AudioParams.ParsedIsClean | bluetooth/audio/hw/utils.cc:33-49 | parsed keys are non-empty, and no parsed key or value holds a separator |
| AudioParams.RoundTrip | bluetooth/audio/hw/utils.cc:33-49 | printing in any order and parsing gives the map back if and only if every key is non-empty and no key or value holds ';' or '=' |

## Left out

- The trie's builder is not part of the repository: what it guarantees (sorted children, longest prefixes first, pieces without dots, non-empty prefix pieces, distinct exact pieces, stored name lengths that are the names' lengths) is the predicate `WellFormed`.
- PropertyTrie.Find: the midpoint is an unbounded integer; the source's int sum does not overflow for arrays shorter than 2^30, which any mapped file is.
- Null output pointers of the trie lookup and the context and type name tables behind the indexes.
- Reading rule files: a line arrives split into its fields; which files can be opened and which access() finds are inputs. Contexts are opaque: opening, permissions and memory mapping happen behind `GetPropAreaForName`.
- Freeing of the two lists, and `ForEach` and `ResetAccess` over the contexts.
- PrefixRules.LookupIsBest: requires starred rules to be exactly "*", as the rule files have them; StarStaysBehind says exactly what other starred rules do to the order.
- The lists of sampling rates, channel modes and bit depths that the A2DP codecs publish; they are read off the capability bits.
- A2dpOffloadCodecFactory.Factory.GetConfiguration: an absent or unknown hinted codec means plain ranked order; the source compares with a dereferenced end iterator there. What a failed call leaves in the caller's configuration is not stated.
- A2dpOffloadCodecSbc.PoolsOrdered: says nothing about the remote maximum, because the source raises the maximum to the local one where a limit would have been expected, and the model follows it.
- Hinted bitrates are unbounded integers, a superset of the source's 32-bit ones.
- AudioSession.SessionType.Code: the AIDL interface that numbers the session types is not part of this model; what matters is that the numbers are distinct, fit a byte and are 0 for UNKNOWN.
- Latency modes, metadata, audio-configuration callbacks and the payload of configurations; a payload is an opaque number.
- Reporting to all observers of a session is one step, as the session's mutex is held meanwhile. A port is set up and torn down once. A port's check of its state and the change that follows are one step, as its header demands a lock from callers.
- AudioPort.BluetoothAudioPort.Start: a refused or timed-out start leaves STARTING, as the source does; nothing is claimed about how it gets out.
- Real time: a wait becomes the reports that arrive during it. Sleeping and the time of the last write are left out.
- PcmPath.ReadIsPrefixOfWritten: one writer and one reader at a time on a session, as the two ends of the queue are; bytes that a queue still held when its session was restarted are lost with it, and the claim is about the present queue.
- Stereo-to-mono mixing in front of the queue, the audio format tables, reloading the sample rate, and the LeAudioSuspended parameter, which only logs.
- AudioStream.BluetoothStreamOut.Write: frames of the whole buffer are counted even if only a part was accepted; the model follows the source. One write is under way at a time; all other calls may come in between its steps.
- AudioStream.BluetoothStreamOut.CalculateFeedingDelay: the presentation query's result flag, delay and byte count are independent arbitrary inputs; counters are unbounded, so wrap-around after 2^64 frames is not modelled, nor is the cut of the latency to 32 bits.
- The legacy HIDL session and port, which nearly repeat the modelled ones, and the input stream's read path, which repeats the output stream's.
- HalLifecycle.LifecycleSafe: worker threads, event flags and callbacks of the streams are not modelled; calls into a device and its streams follow one another, as the plain counter of the source presumes. The interface version, a compile-time constant, is a parameter.
- AudioParams.RoundTrip: printing walks an unordered map; here the pairs come as a sequence with distinct keys, in any order.
- LE Audio configuration loaders, provider factories, the property service socket, persistent properties, bind mounts and init scripts.
