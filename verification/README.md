# Freenetic: a verified model

Freenetic is a router configuration system: a command line program in C and a web interface in JavaScript.
This project models the parts of it that have something to get right beyond one function, and proves what
each of them is for. All theorems are about all inputs, all runs or all reachable states.

- **QR symbols** (`Gf256`, `ReedSolomon`, `ReedSolomonDistance`, `Bits`, `Bch`, `Codewords`, `Interleave`, `Walk`,
  `DataPlacement`, `FunctionPatterns`, `SymbolCapacity`, `QrCode`, `SymbolPictures`). The encoder works in place on
  arrays, as in the source. It is proved against a scanner that is written independently of it: scanning the finished
  symbol gives back the text, size and version word say the same, the function patterns look as they have to, and the
  blocks of the symbol are Reed-Solomon codewords, whose minimum distance is proved. The symbol is the one of
  ISO/IEC 18004:2015; the code reserves the dark module.
- **Apply, confirm, rollback** (`Rpcd`, `NetworkChange`, `SafeApply`). The commands are methods that call rpcd;
  between any two calls the clock may advance, rpcd's timer fire, sessions expire, the process crash, and each call
  may get through, fail, or have its answer lost or garbled. What the environment does at each call is a script that
  is given before the run; the exact conditions under which a law fails are conditions on the script.
- **Merging proxies into a YAML configuration** (`Text`, `YamlText`, `YamlDocument`, `ProxyNames`, `YamlEmit`,
  `YamlFragment`, `YamlRoutes`, `LineEdits`, `MergedNames`, `MergePlan`, `MergeText`, `MergePlacing`, `MergeRouting`,
  `YamlMerge`, `SectionContent`, `SectionReading`, `MergedSections`, `MergeReading`, `FieldReading`, `ListReading`,
  `MergeFields`, `GroupMembers`, `MergeJoin`, `YamlScalars`). The edits are spliced bottom-up into the array of lines; that is proved
  to be their simultaneous edit. Reading the merged text again is proved to give the old proxies followed by the new
  ones with all their fields, the old providers followed by the new ones with their URLs, the members of a new or a
  joined group, and a MATCH rule that leads where the route said.
- **Address arithmetic** (`Prefix`, `Ipv4`, `Ipv6`, `Ipv6Reading`). The bit tricks of the JavaScript code, on 32-bit words, are
  proved to be divisions and remainders; texts are printed and read back.
- **WireGuard files** (`Endpoint`, `WireGuard`, `WireGuardRoundTrip`, `WireGuardFields`), **the line editor**
  (`LineEditor`, `Keystrokes`), **the RPC batcher** (`RpcBatch`), **releases** (`Lexicographic`, `ReleaseOrder`,
  `ReleaseCandidates`) and **port assignment** (`Ports`, `PortRanges`, `PortServices`,
  `PortAssignment`, `PortReading`, `PortSubnets`).

Where a law does not hold of the code, the project proves exactly when it does, for all inputs: `MergedNames.NameLineName`
(a proxy name is read back unless it has a number sign behind white space, or a raw line break), `Endpoint.EndpointRoundTrip`,
`Prefix.ShiftIsRightUnlessZero`, `ReleaseOrder.Antisymmetric`, `PortSubnets.SubnetsApart`, `SafeApply.Fnc.Apply` (a change is
left in force without its record), `SafeApply.Fnc.Finish` (a rollback that returns 0 leaves the change in force),
`PortAssignment.Uci.Save` (a port with a segment has its services and its policy unless another one is named like one of them)
and `MergeJoin.MembersReread` (a group keeps its members unless they are indented otherwise than the merge indents new ones).
Concrete inputs on which it fails are in `MergedNames.CommentedName`, `ReleaseOrder.LeadingZeros`, `Ports.StaleSegmentOverlaps`,
`PortServices.PortLikeService`, `GroupMembers.CompactGroup`, `SafeApply.StrandedChange` and
`SafeApply.RollbackAfterLostConfirmation`.

Assumptions of the model. JavaScript numbers are exact integers here, and 32-bit operators are written out. A
string is a sequence of characters; the source's regular expressions are predicates and functions on it. rpcd is
modelled by its answers: an apply takes a snapshot and arms a timer; confirm and rollback succeed only for the
pending session, and otherwise say that there is no data. Commands run one after another. UCI is a map of
sections; where the source takes the first section that fits, an arbitrary choice is a parameter.

## Model

| member | source | states |
|---|---|---|
| Gf256.InitTables | web/application/htdocs/luci-static/resources/freenetic-qrcode.js:12-23 | the tables are those of all powers of alpha and their logarithms, so that logarithms of all non-zero bytes exist |
| Gf256.GmulIsMul | web/application/htdocs/luci-static/resources/freenetic-qrcode.js:25-29 | the product by tables is multiplication of polynomials modulo 0x11d, for all bytes, zero included |
| Gf256.MulAssoc | web/application/htdocs/luci-static/resources/freenetic-qrcode.js:25-29 | the product is associative; with the lemmas beside it the bytes are a commutative ring |
| Gf256.NoZeroDivisors | web/application/htdocs/luci-static/resources/freenetic-qrcode.js:25-29 | two non-zero bytes have a non-zero product |
| Gf256.ExpInjective | web/application/htdocs/luci-static/resources/freenetic-qrcode.js:12-23 | fewer than 255 steps apart, powers of alpha are different: alpha generates all non-zero bytes |
| ReedSolomon.GeneratorPolynomial | web/application/htdocs/luci-static/resources/freenetic-qrcode.js:31-42 | monic, of degree ecCount, with the first ecCount powers of alpha as roots |
| ReedSolomon.Subtract | web/application/htdocs/luci-static/resources/freenetic-qrcode.js:44-57 | one in-place division step takes an aligned multiple of the generator from the message |
| ReedSolomon.RsEncode | web/application/htdocs/luci-static/resources/freenetic-qrcode.js:44-57 | ecCount check symbols, with which the block vanishes at all roots of the generator |
| ReedSolomonDistance.MinimumDistance | web/application/htdocs/luci-static/resources/freenetic-qrcode.js:44-57 | two different codewords of one length up to 255 differ in more than ecCount places |
| ReedSolomonDistance.CodewordDistance | web/application/htdocs/luci-static/resources/freenetic-qrcode.js:44-57 | so do the codewords of different data blocks |
| ReedSolomonDistance.ParityUnique | web/application/htdocs/luci-static/resources/freenetic-qrcode.js:44-57 | the condition that RsEncode meets leaves one choice of check symbols |
| ReedSolomonDistance.CorrectionUnique | web/application/htdocs/luci-static/resources/freenetic-qrcode.js:44-57 | at most one codeword is within ecCount / 2 places of a received word: that many errors can be corrected |
| Bch.BchDigitCount | web/application/htdocs/luci-static/resources/freenetic-qrcode.js:99-106 | the number of binary digits |
| Bch.BchEncode | web/application/htdocs/luci-static/resources/freenetic-qrcode.js:108-113 | ends for every non-zero generator, with a remainder that is shorter and completes the shifted data, as a 32-bit word, to a multiple |
| Bch.RemainderUnique | web/application/htdocs/luci-static/resources/freenetic-qrcode.js:108-113 | there is only one such remainder |
| Bch.FormatBits | web/application/htdocs/luci-static/resources/freenetic-qrcode.js:115-118 | fifteen digits; without the fixed mask, the codeword of level and mask pattern |
| Bch.VersionBits | web/application/htdocs/luci-static/resources/freenetic-qrcode.js:120-122 | eighteen digits, the codeword of the version |
| Bch.CodewordUnique | web/application/htdocs/luci-static/resources/freenetic-qrcode.js:115-122 | data and generator leave one codeword |
| Codewords.BitBuffer.PutBit | web/application/htdocs/luci-static/resources/freenetic-qrcode.js:135-142 | the bits of the buffer are those from before and the new one |
| Codewords.BitBuffer.Put | web/application/htdocs/luci-static/resources/freenetic-qrcode.js:130-134 | the bits of the buffer are those from before and the low digits of the number, highest first |
| Codewords.PickVersion | web/application/htdocs/luci-static/resources/freenetic-qrcode.js:156-167 | the smallest version at level M, else the smallest at level L; none exactly beyond 271 bytes |
| Codewords.BuildDataCodewords | web/application/htdocs/luci-static/resources/freenetic-qrcode.js:169-194 | as many bytes as the capacity, whose bits are mode, count, payload, terminator, alignment and alternating padding |
| Codewords.DecodeBuilt | web/application/htdocs/luci-static/resources/freenetic-qrcode.js:169-194 | a reader of mode, count and payload gets the text back from such codewords |
| Codewords.PadBytes | web/application/htdocs/luci-static/resources/freenetic-qrcode.js:169-194 | behind the payload the codewords of any symbol are 236 and 17 in turn |
| Interleave.InterleaveBlocks | web/application/htdocs/luci-static/resources/freenetic-qrcode.js:196-211 | no symbol is lost: taking the message apart by the lengths of the blocks gives all data and check blocks, also of different lengths |
| Interleave.ReadBack | web/application/htdocs/luci-static/resources/freenetic-qrcode.js:196-211 | once all columns are written there are as many symbols as in all blocks, and taking them apart by the lengths gives the blocks |
| Walk.PathVisitsOnce | web/application/htdocs/luci-static/resources/freenetic-qrcode.js:312-338 | for every odd size from 9, the zigzag passes each cell outside column 6 once and no other cell |
| Walk.PathOrder | web/application/htdocs/luci-static/resources/freenetic-qrcode.js:312-338 | and each in its turn: two columns at a time from the right, upwards and downwards by turns, the right one of two cells first |
| DataPlacement.PlaceData | web/application/htdocs/luci-static/resources/freenetic-qrcode.js:312-338 | for every reserved map, the cells along the zigzag that are not reserved hold the masked bits in order, light where none are left, and no other cell changes |
| FunctionPatterns.PlaceFinder | web/application/htdocs/luci-static/resources/freenetic-qrcode.js:218-231 | the modules of a finder and its separator, as far as they are in the symbol; no other cell changes |
| FunctionPatterns.PlaceAlignments | web/application/htdocs/luci-static/resources/freenetic-qrcode.js:237-254 | an alignment pattern at all pairs of centres but those in a finder |
| FunctionPatterns.PlaceTiming | web/application/htdocs/luci-static/resources/freenetic-qrcode.js:256-267 | the timing patterns between what was drawn before |
| FunctionPatterns.PlaceFormat | web/application/htdocs/luci-static/resources/freenetic-qrcode.js:272-299 | both copies of the format word, and which cells are reserved by now |
| FunctionPatterns.PlaceVersion | web/application/htdocs/luci-static/resources/freenetic-qrcode.js:300-310 | the two version words from version 7 on, and nothing else |
| SymbolCapacity.FreeCount | web/application/htdocs/luci-static/resources/freenetic-qrcode.js:213-310 | the free cells along the zigzag are all cells that are not reserved |
| SymbolCapacity.MessageFits | web/application/htdocs/luci-static/resources/freenetic-qrcode.js:213-338 | for each version and level the free cells have room for all bits of the message |
| QrCode.SplitBlocks | web/application/htdocs/luci-static/resources/freenetic-qrcode.js:352-366 | blocks of the lengths of the table that make up the codewords, each with its check symbols |
| QrCode.BuildMatrix | web/application/htdocs/luci-static/resources/freenetic-qrcode.js:213-341 | function patterns in all reserved cells, the masked message in all others |
| QrCode.EveryModuleSet | web/application/htdocs/luci-static/resources/freenetic-qrcode.js:213-341 | no module stays undecided |
| SymbolPictures.PatternsShown | web/application/htdocs/luci-static/resources/freenetic-qrcode.js:213-270 | every symbol shows three finders and the alignment patterns as concentric squares about their centres, separators, timing patterns and the dark module |
| QrCode.VersionWordReadBack | web/application/htdocs/luci-static/resources/freenetic-qrcode.js:300-310 | from version 7 on both version words are read back, each from its own cells, as the codeword of the version that the size says |
| QrCode.ScanBuilt | web/application/htdocs/luci-static/resources/freenetic-qrcode.js:213-368 | a scanner that knows neither version, level, mask pattern nor message finds all of them in the symbol |
| QrCode.BuildMessage | web/application/htdocs/luci-static/resources/freenetic-qrcode.js:352-368 | the message of a text, from which blocks and text can be had back |
| QrCode.Encode | web/application/htdocs/luci-static/resources/freenetic-qrcode.js:346-368 | nothing exactly beyond 271 bytes, else a symbol of the smallest version, which size and version words say alike; scanning it gives the text, and its blocks are Reed-Solomon codewords |
| Rpcd.ServeKeepsInv | cli/src/safe_apply.c:31-47 | no answer of rpcd breaks the invariant: the configuration in force is the confirmed one or a pending change under its timer |
| Rpcd.TimerRestores | cli/src/safe_apply.c:410-420 | when the timer of a pending change fires, the confirmed configuration is back in force |
| NetworkChange.RouteIndex | cli/src/safe_apply.c:246-279 | the first route with this target and this gateway |
| NetworkChange.PlanMeaning | cli/src/safe_apply.c:345-380 | the requests of a change do what the change is named for, and there are some whenever that is possible |
| SafeApply.Fnc.ReserveState | cli/src/safe_apply.c:154-181 | the record is created only if there was none, or a stale one that has been undone; an empty record, or one that is not stale, refuses and changes nothing; no change is stranded |
| SafeApply.Fnc.Reclaim | cli/src/safe_apply.c:154-181 | a stale record is removed only after its change is no longer pending |
| SafeApply.Fnc.CreateSession | cli/src/safe_apply.c:82-96 | a session that did not exist before, or none |
| SafeApply.Fnc.WriteState | cli/src/safe_apply.c:144-152 | the record is whole, or remains empty |
| SafeApply.Fnc.StageChange | cli/src/safe_apply.c:345-380 | what is staged for the session is the plan of the change, and other sessions keep what they have staged |
| SafeApply.Fnc.Abort | cli/src/safe_apply.c:421-436 | after the clean-up the record is gone unless the process died; what was staged and the session are gone if those calls got through; the pending change stays in force exactly when the rollback failed and the timer waited until the record was removed |
| SafeApply.Fnc.Apply | cli/src/safe_apply.c:382-436 | success: the change is in force under a timer that outlasts the recorded deadline, which is not before the start of the apply plus the timeout; failure: no record, and neither session nor staged requests if the calls that end them got through; a change is left pending without its record exactly when the apply request was carried out but not answered, the rollback failed, and neither a crash nor the timer came before the record was removed; a record that is not stale: nothing changes; progress when the calls it makes succeed |
| SafeApply.Fnc.Finish | cli/src/safe_apply.c:438-470 | a confirmation returns 0 only if rpcd committed that session with the time not past the deadline, and that not past the expiry; past the deadline it only undoes; a rollback never commits, and one that returns 0 leaves the configuration from before the change exactly unless that change was committed and differs from it; a committed change keeps its record exactly when its answer was lost or the command died before removing it; no change is stranded; when all calls get through, a confirmation returns 0 exactly if it is in time, and record and session are gone |
| SafeApply.Fnc.ShowPending | cli/src/safe_apply.c:482-502 | changes nothing unless the deadline is over; then it only undoes, and it succeeds when all calls get through |
| SafeApply.Fnc.HasPending | cli/src/safe_apply.c:504-516 | 0 exactly if there is no record afterwards; it is the answer while a change is pending exactly when there was no record of that change before; what is overdue is undone |
| SafeApply.Fnc.Run | cli/src/safe_apply.c:382-516 | any commands, each possibly cut off: the configuration in force is the confirmed one or one that its timer takes back to it; the record names that change unless some call was carried out without an answer and the next one failed; a record is of a change that is not committed unless a command was cut off or an answer lost; without a confirm nothing is committed; an empty record stays |
| SafeApply.ConfigurationSafe | cli/src/safe_apply.c:382-516 | all of that of every state that commands can reach from the start |
| SafeApply.ApplyThenConfirm | cli/src/safe_apply.c:382-516 | an apply, any looks at the pending change and then a confirmation, when all calls get through and less than the timeout has passed since the start when the confirmation reaches rpcd: both return 0, and the change is confirmed and in force |
| SafeApply.LostConfirmation | cli/src/safe_apply.c:438-470 | a confirmation whose answer is lost commits the change but leaves its record |
| SafeApply.RollbackAfterLostConfirmation | cli/src/safe_apply.c:452-467 | after that a rollback returns 0 with the change still in force |
| SafeApply.StrandedChange | cli/src/safe_apply.c:410-436 | a run from the start in which the apply fails, its change is in force without a record, and the answer to whether a change is pending is no |
| YamlText.QuoteRoundTrip | web/application/htdocs/luci-static/resources/view/network/freenetic-mihomo.js:43-49 | a quoted text is read back by a JSON reader, for all texts |
| YamlText.QuotedReadBack | web/application/htdocs/luci-static/resources/view/network/freenetic-mihomo.js:427-438 | the reader of values gets a quoted text back exactly when no number sign follows white space in it, and else refuses |
| YamlScalars.SingleQuotesRead | web/application/htdocs/luci-static/resources/view/network/freenetic-mihomo.js:427-438 | a text between single quotes, its own quotes doubled, is read back |
| YamlScalars.PlainRead | web/application/htdocs/luci-static/resources/view/network/freenetic-mihomo.js:427-438 | a plain value is read as it stands, and a comment behind it does not matter |
| YamlEmit.EmitMapping | web/application/htdocs/luci-static/resources/view/network/freenetic-mihomo.js:51-68 | the lines of a mapping with nested mappings and lists, behind those there are |
| YamlEmit.EmitProxy | web/application/htdocs/luci-static/resources/view/network/freenetic-mihomo.js:70-75 | the lines of a proxy, its name first |
| YamlEmit.ShiftedMapping | web/application/htdocs/luci-static/resources/view/network/freenetic-mihomo.js:51-68 | indenting the lines of a mapping is emitting it with a larger indentation |
| FieldReading.FieldsRead | web/application/htdocs/luci-static/resources/view/network/freenetic-mihomo.js:51-68 | a reader by indentation gets all written fields back, in order, nested mappings and lists included; it refuses exactly if some text has a number sign behind white space |
| ListReading.ProxiesRead | web/application/htdocs/luci-static/resources/view/network/freenetic-mihomo.js:70-75 | and the proxies of a list one by one, their names first |
| ListReading.ProviderRead | web/application/htdocs/luci-static/resources/view/network/freenetic-mihomo.js:378-394 | a written provider is read back with its URL and where it is kept |
| ListReading.GroupIsItem | web/application/htdocs/luci-static/resources/view/network/freenetic-mihomo.js:604-616 | the lines of a new group are those of an item of type select with the old target and the new names, or with the providers, as members |
| YamlFragment.FirstFree | web/application/htdocs/luci-static/resources/view/network/freenetic-mihomo.js:402-406 | the search for a name ends, because the names in use are finitely many, with the first candidate that is free |
| YamlFragment.NameProxies | web/application/htdocs/luci-static/resources/view/network/freenetic-mihomo.js:397-411 | the supported entries in order, each under its own name or the first numbered one that is free; the names are different from each other and from the reserved ones |
| YamlFragment.NameProviders | web/application/htdocs/luci-static/resources/view/network/freenetic-mihomo.js:378-394 | numbered names, different from each other and from the reserved ones, one for each URL |
| YamlFragment.ParserYaml | web/application/htdocs/luci-static/resources/view/network/freenetic-mihomo.js:369-425 | the text, names and number of skipped entries of a source, in both modes |
| YamlDocument.YamlSections | web/application/htdocs/luci-static/resources/view/network/freenetic-mihomo.js:440-454 | the sections partition the file behind its first header; failure exactly at a line at the top level that is no header |
| YamlDocument.YamlList | web/application/htdocs/luci-static/resources/view/network/freenetic-mihomo.js:468-487 | the items partition the section behind its first item, and all lines with their indentation that begin an item are items; failure exactly where there is no block list |
| YamlRoutes.YamlGroups | web/application/htdocs/luci-static/resources/view/network/freenetic-mihomo.js:500-514 | name and type of every group, or an item that cannot be read |
| YamlRoutes.YamlMatchRule | web/application/htdocs/luci-static/resources/view/network/freenetic-mihomo.js:530-543 | the last MATCH rule, or an item that cannot be read |
| ProxyNames.YamlProxyNames | web/application/htdocs/luci-static/resources/view/network/freenetic-mihomo.js:489-498 | the names found section by section and item by item are those of an independent reading, line by line; it fails where that does |
| LineEdits.SortDescending | web/application/htdocs/luci-static/resources/view/network/freenetic-mihomo.js:657-660 | a stable sort: edits of one position keep their order |
| LineEdits.ApplyEdits | web/application/htdocs/luci-static/resources/view/network/freenetic-mihomo.js:657-661 | sorting and splicing is the simultaneous edit: in front of each line what is inserted there, then the line or its replacement |
| LineEdits.LinesSurvive | web/application/htdocs/luci-static/resources/view/network/freenetic-mihomo.js:657-661 | each line, or its replacement, is in the result, and in the old order |
| MergedNames.NameLineName | web/application/htdocs/luci-static/resources/view/network/freenetic-mihomo.js:70-75 | an emitted name is read back exactly when it is readable: no number sign behind white space and no raw line break |
| MergedNames.CommentedName | web/application/htdocs/luci-static/resources/view/network/freenetic-mihomo.js:427-438 | a name that is written but cannot be read back |
| MergedNames.RunList | web/application/htdocs/luci-static/resources/view/network/freenetic-mihomo.js:397-415 | reading emitted proxies adds their names in order, at every indentation; one that is not readable makes the file unreadable |
| MergePlacing.InsertionPoint | web/application/htdocs/luci-static/resources/view/network/freenetic-mihomo.js:561-565 | behind the last line of the section that is not empty |
| MergePlacing.PlaceFragment | web/application/htdocs/luci-static/resources/view/network/freenetic-mihomo.js:566-583 | the fragment goes to the end of its section, indented like the entries there, or becomes a section before groups or rules; refused only for the section's layout |
| MergeRouting.NewGroupName | web/application/htdocs/luci-static/resources/view/network/freenetic-mihomo.js:599-601 | the first free one of the group names |
| MergeRouting.RouteDirect | web/application/htdocs/luci-static/resources/view/network/freenetic-mihomo.js:585-592 | the MATCH rule, and nothing else, is replaced by one to the only new proxy; refused only for the reasons given |
| MergeRouting.CreateGroup | web/application/htdocs/luci-static/resources/view/network/freenetic-mihomo.js:593-625 | a group with the old target first is placed and MATCH leads to it; refused only for the reasons given |
| MergeRouting.JoinGroup | web/application/htdocs/luci-static/resources/view/network/freenetic-mihomo.js:626-656 | the new names become the last entries of the group's field, or of a new one; refused only for a list in one line |
| YamlMerge.EditsOf | web/application/htdocs/luci-static/resources/view/network/freenetic-mihomo.js:657-660 | the insertions, in any order, and the replacements as one list of edits |
| YamlMerge.Route | web/application/htdocs/luci-static/resources/view/network/freenetic-mihomo.js:584-656 | one of the three ways of routing, as requested |
| YamlMerge.ReadFile | web/application/htdocs/luci-static/resources/view/network/freenetic-mihomo.js:546-550 | all proxy, group and provider names of a file; it fails only at a bad header or where names cannot be read |
| YamlMerge.MergeParserYaml | web/application/htdocs/luci-static/resources/view/network/freenetic-mihomo.js:545-667 | the merged text is the simultaneous edit of the file by the fragment and the route; reading it again gives the old proxy names and then the new ones, if all are readable, and those are different from each other and from all proxy, group and provider names; every failure has one of the listed reasons |
| YamlMerge.UntouchedLines | web/application/htdocs/luci-static/resources/view/network/freenetic-mihomo.js:657-661 | every line but empty section headers, empty lists and the MATCH rule is in the merged file, in the old order |
| SectionReading.ProvidersAreRead | web/application/htdocs/luci-static/resources/view/network/freenetic-mihomo.js:516-528 | the providers found by way of the sections are those of an independent reading, line by line; it fails where that does |
| SectionReading.MatchIsRead | web/application/htdocs/luci-static/resources/view/network/freenetic-mihomo.js:530-543 | the MATCH rule found item by item has the target of an independent reading, line by line |
| SectionReading.GroupsAreRead | web/application/htdocs/luci-static/resources/view/network/freenetic-mihomo.js:500-514 | so have the groups their names |
| SectionContent.OneInsertion | web/application/htdocs/luci-static/resources/view/network/freenetic-mihomo.js:656-661 | lines inserted somewhere join the content of the section they fall into, in their place, and of no other |
| SectionContent.OneReplacement | web/application/htdocs/luci-static/resources/view/network/freenetic-mihomo.js:656-661 | a replaced content line is replaced in the content of its section, and the rest stays |
| MergedSections.SectionKept | web/application/htdocs/luci-static/resources/view/network/freenetic-mihomo.js:657-661 | a merge does not change the content of a section that it does not edit, headers of other sections included |
| MergeReading.ProvidersReread | web/application/htdocs/luci-static/resources/view/network/freenetic-mihomo.js:545-583 | reading the merged text again gives the old providers, and in subscription mode then the new ones |
| MergeReading.MatchReread | web/application/htdocs/luci-static/resources/view/network/freenetic-mihomo.js:585-625 | its last MATCH rule leads to the new group or to the only new proxy, white space at the ends aside |
| MergeReading.MatchKept | web/application/htdocs/luci-static/resources/view/network/freenetic-mihomo.js:626-656 | when an existing group gets the names, the MATCH rule is the one there was |
| MergeReading.GroupsReread | web/application/htdocs/luci-static/resources/view/network/freenetic-mihomo.js:593-625 | a created group comes behind the groups there were; their names stay |
| MergeFields.ProxiesReread | web/application/htdocs/luci-static/resources/view/network/freenetic-mihomo.js:397-583 | reading the merged text again gives what was read of each old proxy, and then the new proxies with the fields that were parsed, under the names they were given |
| MergeFields.ProviderFieldsReread | web/application/htdocs/luci-static/resources/view/network/freenetic-mihomo.js:378-583 | and each new provider with its URL, behind what was read of each old one |
| MergeFields.GroupReread | web/application/htdocs/luci-static/resources/view/network/freenetic-mihomo.js:593-625 | a created group has the old target of the MATCH rule and the new proxies, or the new providers, as members; the others read as before |
| MergeFields.CreatedIsSelect | web/application/htdocs/luci-static/resources/view/network/freenetic-mihomo.js:500-625 | of a group that a merge has created the next merge reads the name, and the type that lets it join |
| MergeJoin.MembersReread | web/application/htdocs/luci-static/resources/view/network/freenetic-mihomo.js:626-656 | when names join a group, the others keep their lines; it has its old members and then the new ones exactly if it had none or they are indented by two more than their field |
| GroupMembers.CompactGroup | web/application/htdocs/luci-static/resources/view/network/freenetic-mihomo.js:626-656 | entries as deep as their field are a list, which the names that are put in front of it make unreadable |
| Prefix.MaskDecides | web/application/htdocs/luci-static/resources/view/network/freenetic-wifi-acl.js:94-103 | the test by mask decides whether two addresses have the same quotient by the size of the network, for all prefixes from 0 to 32 |
| Prefix.ShiftDecides | web/application/htdocs/luci-static/resources/freenetic-dashboard-data.js:398-407 | the test by shifts decides the same, a mask of 0 counting as 24 |
| Prefix.ShiftIsRightUnlessZero | web/application/htdocs/luci-static/resources/freenetic-dashboard-data.js:398-407 | so it is right exactly for masks other than 0 |
| Prefix.RangeDecides | web/application/htdocs/luci-static/resources/view/network/freenetic-portforward.js:56-69 | being in the range of a network is having the same quotient |
| Prefix.OverlapDecides | web/application/htdocs/luci-static/resources/view/network/freenetic-ports.js:132-145 | two ranges overlap exactly when the addresses agree on the shorter prefix |
| Prefix.HostOrderDecides | cli/src/cmd_route.c:39-50 | masking words as the machine holds them, in either byte order, decides the same |
| Prefix.ClearTwice | web/application/htdocs/luci-static/resources/freenetic-network.js:278-292 | clearing low bits twice is clearing the larger number of them |
| Ipv4.PrefixFromNetmask | web/application/htdocs/luci-static/resources/view/network/freenetic-ports.js:114-130 | the prefix whose mask this is, and none for a word that is no mask |
| Ipv4.NetmaskPrefix | web/application/htdocs/luci-static/resources/view/network/freenetic-wifi-acl.js:61-70 | the same, by counting and comparing |
| Ipv4.NetmaskAccepted | web/application/htdocs/luci-static/resources/freenetic-network.js:161-167 | a text is accepted exactly when it is the mask of a prefix from 1 to 32 |
| Ipv4.NetworkIsCleared | web/application/htdocs/luci-static/resources/freenetic-network.js:142-153 | packing, masking and unpacking the octets clears exactly the bits behind the prefix, also for prefix 0 |
| Ipv4.NetworkTwice | web/application/htdocs/luci-static/resources/freenetic-network.js:142-153 | networks of networks are networks of the shorter prefix |
| Ipv4.DottedRoundTrip | web/application/htdocs/luci-static/resources/freenetic-network.js:155-159 | a printed address is valid and is read back |
| Ipv4.CidrRead | web/application/htdocs/luci-static/resources/freenetic-network.js:142-153 | a network is printed for all valid addresses and prefixes up to 32, and what is printed, for addresses in any notation, is read as the cleared address and the prefix |
| Ipv4.CidrTwice | web/application/htdocs/luci-static/resources/freenetic-network.js:142-153 | the network of a printed network is that of the shorter prefix, of the texts |
| Ipv6.BestRun | web/application/htdocs/luci-static/resources/freenetic-network.js:255-270 | the first of the longest runs of two or more zero words |
| Ipv6.FormatIpv6Words | web/application/htdocs/luci-static/resources/freenetic-network.js:254-276 | the text in which exactly that run is compressed, as section 4.2 of RFC 5952 asks |
| Ipv6.ParsedWords | web/application/htdocs/luci-static/resources/freenetic-network.js:169-202 | whatever is accepted is eight words of sixteen bits |
| Ipv6.FormatRoundTrip | web/application/htdocs/luci-static/resources/freenetic-network.js:169-276 | the text of each address is read back, in the notation of section 2.2 of RFC 4291 |
| Ipv6Reading.ZoneIgnored | web/application/htdocs/luci-static/resources/freenetic-network.js:169-170 | a zone behind an address does not change what is read |
| Ipv6Reading.CaseIgnored | web/application/htdocs/luci-static/resources/freenetic-network.js:169-170 | neither do capital letters |
| Ipv6Reading.OctetsAreWords | web/application/htdocs/luci-static/resources/freenetic-network.js:169-180 | four octets at the end are read as the two words that they make up |
| Ipv6.MaskWords | web/application/htdocs/luci-static/resources/freenetic-network.js:278-289 | words of the prefix stay, the one it ends in is cut, the others are cleared |
| Ipv6.MaskedNumber | web/application/htdocs/luci-static/resources/freenetic-network.js:278-289 | as a number of 128 bits, exactly the bits behind the prefix are cleared |
| Ipv6.Ipv6NetworkCidr | web/application/htdocs/luci-static/resources/freenetic-network.js:278-292 | a network text exactly for addresses that can be read and prefixes from 0 to 128: the cleared address, printed, and the prefix |
| Ipv6.NetworkTextUnique | web/application/htdocs/luci-static/resources/freenetic-network.js:204-292 | networks with the same cleared number are printed with the same address |
| Ipv6.Ipv6NetworkTwice | web/application/htdocs/luci-static/resources/freenetic-network.js:278-292 | the network, with a prefix q, of the address of a printed network with a prefix p has the address of the network with the shorter prefix, and is the very same text where that is q |
| Ipv6.PrintedNetworkSplits | web/application/htdocs/luci-static/resources/freenetic-network.js:204-227 | what is printed as a network is split into the address and the prefix |
| WireGuard.ListRoundTrip | web/application/htdocs/luci-static/resources/freenetic-connections-core.js:94-96 | words joined by commas are read back |
| Endpoint.EndpointRoundTrip | web/application/htdocs/luci-static/resources/freenetic-connections-core.js:421-533 | a host and a port, also an IPv6 host, are read back exactly when the host survives: a condition on its brackets, its last colon and white space around it |
| WireGuard.ParseConfig | web/application/htdocs/luci-static/resources/freenetic-connections-core.js:434-526 | the walk over the lines is the fold of one step per line, and the end result is accepted exactly when private key and peers are valid |
| WireGuard.SerializeConfig | web/application/htdocs/luci-static/resources/freenetic-connections-core.js:535-568 | the lines of the interface, the AWG options that have values and the peers, in order |
| WireGuardRoundTrip.ExportImport | web/application/htdocs/luci-static/resources/freenetic-connections-core.js:434-568 | reading a written file gives back protocol, interface, AWG options and all serialized fields of all peers, in order, for all well-formed connections |
| WireGuardRoundTrip.CommentedImport | web/application/htdocs/luci-static/resources/freenetic-connections-core.js:434-449 | a file is imported alike with and without comments behind its lines |
| WireGuardFields.KeysAccepted | web/application/htdocs/luci-static/resources/freenetic-connections-core.js:148-151 | the text of some bytes in base 64 is accepted as a key exactly if there are 32 of them, or if it is the word for a new key |
| WireGuardFields.PortsAccepted | web/application/htdocs/luci-static/resources/freenetic-connections-core.js:169-172 | a number is accepted as a port exactly from 1 to 65535 |
| LineEditor.EditBuffer | cli/src/repl.c:70-157 | a key on the buffer, by moving bytes, is the key on a sequence with a cursor; the buffer stays terminated and within its size |
| LineEditor.BrowseInBuffer | cli/src/repl.c:112-134 | entries of the history and the saved line are copied into the buffer and never changed |
| LineEditor.ReadLine | cli/src/repl.c:52-159 | for every input: the line that the sequence editor makes of it, or the end of the input |
| Keystrokes.KeysAreEdits | cli/src/repl.c:62-157 | the bytes that a terminal sends for keys are these keys, one edit each, whatever follows |
| Keystrokes.TypedLine | cli/src/repl.c:62-157 | printable bytes and Enter are the line |
| Keystrokes.ArrowUp | cli/src/repl.c:111-120 | an arrow up shows the last entry of the history |
| Keystrokes.ArrowDown | cli/src/repl.c:111-132 | and an arrow down behind it what was typed |
| Keystrokes.ArrowLeft | cli/src/repl.c:139-148 | behind an arrow to the left a byte goes in front of the last one |
| Keystrokes.ArrowRight | cli/src/repl.c:133-148 | behind another one to the right it goes to the end |
| Keystrokes.BackspaceTakes | cli/src/repl.c:70-78 | Backspace takes the last byte away |
| Keystrokes.DeleteTakes | cli/src/repl.c:90-107 | so do an arrow to the left and Delete |
| LineEditor.DraftRestored | cli/src/repl.c:112-134 | back at the bottom of the history, the line left there stands again, whatever was browsed and edited in between |
| LineEditor.Remember | cli/src/repl.c:199-215 | a line is appended unless it repeats the last one; a full history loses its first entry |
| LineEditor.HistoryIsLast | cli/src/repl.c:199-215 | after any lines the history is the last 200 of them without immediate repetitions |
| LineEditor.NoStutter | cli/src/repl.c:199-215 | of the lines without immediate repetitions: no two neighbours are equal, none is missing, and the last is the last |
| LineEditor.Session | cli/src/repl.c:173-258 | over a whole session the history is the last 200 of the lines that were read and not empty |
| RpcBatch.IndexReplies | web/theme/htdocs/luci-static/resources/freenetic-rpc.js:94-104 | replies by their ids, the last one for each id, and whether any has an id |
| RpcBatch.DispatchReplies | web/theme/htdocs/luci-static/resources/freenetic-rpc.js:77-115 | the reply that belongs to a call is the last one with its id, or the one at its position when no reply has an id; the call is resolved with data exactly if that reply has code 0 and these data, and rejected in all other cases |
| RpcBatch.Batcher.SelectEndpoint | web/theme/htdocs/luci-static/resources/freenetic-rpc.js:61-75 | the remembered endpoint, else the direct one where there is one |
| RpcBatch.Batcher.Issue | web/theme/htdocs/luci-static/resources/freenetic-rpc.js:142-161 | a new id for each call, and a flush is scheduled whenever a call is pending |
| RpcBatch.Batcher.FlushCalls | web/theme/htdocs/luci-static/resources/freenetic-rpc.js:117-139 | all pending calls leave as one batch, in order |
| RpcBatch.Batcher.Arrived | web/theme/htdocs/luci-static/resources/freenetic-rpc.js:117-139 | a failed direct batch is sent again once; every other end settles all calls of the batch and leaves all others alone |
| RpcBatch.Batcher.Run | web/theme/htdocs/luci-static/resources/freenetic-rpc.js:61-161 | over any run of calls, flushes, failures and replies in any order: the invariant, what is settled stays, and the endpoint only moves to the dispatcher; a call is resolved only by a reply that has arrived and belongs to it, with code 0 and these data |
| RpcBatch.SettledAtMostOnce | web/theme/htdocs/luci-static/resources/freenetic-rpc.js:94-161 | under the invariant no call is settled twice, and none is settled while it is pending or in flight |
| RpcBatch.AllSettled | web/theme/htdocs/luci-static/resources/freenetic-rpc.js:94-161 | when nothing is pending or in flight, every call has been settled exactly once |
| ReleaseOrder.CompareReleaseTags | web/application/htdocs/luci-static/resources/freenetic-dashboard-data.js:120-155 | the loop compares the texts as the recursive comparison of their parts does; texts that are no tags compare as given there |
| ReleaseOrder.ComparedAsPrecedence | web/application/htdocs/luci-static/resources/freenetic-dashboard-data.js:120-155 | for all tags: the comparison is the precedence of section 11 of Semantic Versioning 2.0.0 exactly when the tags do not clash in leading zeros |
| ReleaseOrder.Antisymmetric | web/application/htdocs/luci-static/resources/freenetic-dashboard-data.js:120-155 | for all tags: swapping them negates the comparison exactly when they do not clash |
| ReleaseOrder.CanonicalTags | web/application/htdocs/luci-static/resources/freenetic-dashboard-data.js:120-155 | tags without leading zeros never clash, and compare as equal only when they are |
| ReleaseOrder.TotalOrder | web/application/htdocs/luci-static/resources/freenetic-dashboard-data.js:120-155 | on tags without leading zeros the comparison is a total order |
| ReleaseOrder.TagReadBack | web/application/htdocs/luci-static/resources/freenetic-dashboard-data.js:103-114 | a written tag is read back |
| ReleaseOrder.LeadingZeros | web/application/htdocs/luci-static/resources/freenetic-dashboard-data.js:120-155 | two texts of tags that each compare as the smaller |
| ReleaseCandidates.OfferedExactly | web/application/htdocs/luci-static/resources/freenetic-dashboard-data.js:47-174 | exactly the releases of the channel and the line are on offer that have an application asset for the router whose version is complete |
| ReleaseCandidates.SortCandidates | web/application/htdocs/luci-static/resources/freenetic-dashboard-data.js:160-174 | nothing is lost, and on tags without leading zeros the newest come first, by tag and then by date |
| ReleaseCandidates.ReleaseCandidates | web/application/htdocs/luci-static/resources/freenetic-dashboard-data.js:160-174 | exactly the releases on offer, each with every asset that it needs, newest first |
| Ports.Validate | web/application/htdocs/luci-static/resources/view/network/freenetic-ports.js:1046-1096 | accepted exactly with one uplink, at most one backup, and for each dedicated port no collision with foreign sections, an acceptable subnet apart from those in use and from the earlier ones, and a possible policy |
| Ports.DedicatedDisjoint | web/application/htdocs/luci-static/resources/view/network/freenetic-ports.js:1067-1091 | in an accepted plan dedicated subnets do not overlap |
| PortRanges.NetmaskRange | web/application/htdocs/luci-static/resources/view/network/freenetic-ports.js:107-142 | an address and the netmask of a prefix stand for the subnet of that prefix |
| PortRanges.SlashRange | web/application/htdocs/luci-static/resources/view/network/freenetic-ports.js:133-142 | a prefix behind the address counts, and not the netmask |
| PortRanges.PortRangeOfOctets | web/application/htdocs/luci-static/resources/view/network/freenetic-ports.js:1070-1088 | of the printed addresses those that end in 1 are taken for a dedicated port, with 256 addresses |
| Ports.DedicatedApart | web/application/htdocs/luci-static/resources/view/network/freenetic-ports.js:1054-1066 | nor do they overlap those of interfaces not named like port segments |
| PortSubnets.SubnetsApart | web/application/htdocs/luci-static/resources/view/network/freenetic-ports.js:1054-1157 | after a change the subnet of a dedicated port is apart from those of all other interfaces exactly when it is apart from those of the interfaces before it that are named like port segments, but neither become nor are removed as one |
| PortSubnets.SaveApart | web/application/htdocs/luci-static/resources/view/network/freenetic-ports.js:1098-1159 | so it is after every plan that is staged |
| Ports.StaleSegmentOverlaps | web/application/htdocs/luci-static/resources/view/network/freenetic-ports.js:1054-1066 | a left-over segment with the very subnet of a dedicated port does not keep any plan from being accepted |
| PortAssignment.Uci.SharedBridge | web/application/htdocs/luci-static/resources/view/network/freenetic-ports.js:707-731 | the bridge its network is on, created where it has no device; none exactly where it is on some other device |
| PortAssignment.Uci.RemoveSegment | web/application/htdocs/luci-static/resources/view/network/freenetic-ports.js:741-757 | all of the editor's own sections of the segment are removed, in all configurations, and no other one changes |
| PortAssignment.Uci.UpdateWanDevices | web/application/htdocs/luci-static/resources/view/network/freenetic-ports.js:733-739 | the uplink moves to the port, and its IPv6 side with it where they shared a device |
| PortAssignment.Uci.UpdateBackupWan | web/application/htdocs/luci-static/resources/view/network/freenetic-ports.js:860-912 | a backup of the editor is removed, or set up on the port; one that is someone else's stays, or refuses the change |
| PortAssignment.Uci.CreateSegment | web/application/htdocs/luci-static/resources/view/network/freenetic-ports.js:927-1004 | the interface of the segment with the trimmed address, and in the other configurations what its port wants, if nothing it wants is at one name; nothing else changes, and all of it is marked as the editor's |
| PortAssignment.Uci.Reassign | web/application/htdocs/luci-static/resources/view/network/freenetic-ports.js:1129-1157 | the network after the change, section by section; it is given up exactly when the backup is refused |
| PortAssignment.Uci.Save | web/application/htdocs/luci-static/resources/view/network/freenetic-ports.js:741-1159 | nothing changes for a plan that is not valid; a valid one is staged when bridges and backup can be had; then each port with a segment has its address pool, zone, services, way to the Internet and policy, and no other policy, exactly if no two ports want different things at one name; all of the editor's sections of the other ports are gone, and everything else is as it was |
| PortServices.NamesDecide | web/application/htdocs/luci-static/resources/view/network/freenetic-ports.js:927-1004 | where policies are named apart, no two ports want different things exactly if no port is called like a service of another one |
| PortServices.PortLikeService | web/application/htdocs/luci-static/resources/view/network/freenetic-ports.js:927-1004 | the ports eth0 and eth0_wan do |
| PortServices.NothingLeft | web/application/htdocs/luci-static/resources/view/network/freenetic-ports.js:741-757 | nothing of the editor's is left of a port without a segment, where no port with a segment needs the name |
| Ports.SafeNames | web/application/htdocs/luci-static/resources/view/network/freenetic-ports.js:50-56 | section names are made of letters, digits and underscores; ports that are called so keep their name |
| PortAssignment.EveryPortPlaced | web/application/htdocs/luci-static/resources/view/network/freenetic-ports.js:1129-1157 | each port that is not locked is in exactly the place its role names: uplink, managed backup, LAN bridge, guest bridge, own segment, or none of them |
| PortAssignment.MembersStay | web/application/htdocs/luci-static/resources/view/network/freenetic-ports.js:1135-1156 | the members of the shared bridges that are no built-in ports stay, as often as before and in order |
| PortReading.PortUses | web/application/htdocs/luci-static/resources/view/network/freenetic-ports.js:159-161 | after a change, only a segment of its own is on a port that is no uplink |
| PortReading.BridgesAfter | web/application/htdocs/luci-static/resources/view/network/freenetic-ports.js:170-178 | after a change, a port is in the bridge of its role and in no other |
| PortReading.AssignmentReadBack | web/application/htdocs/luci-static/resources/view/network/freenetic-ports.js:163-194 | reading the assignment after a change gives every port that is not locked the role it was given, whatever the order of the sections, if nothing else claimed the ports before |

## Left out

- Pages, dialogs, notifications and all other drawing of the web interface; help and dispatch of the command line; packaging.
- Turning text into UTF-8 bytes and drawing the symbol on a canvas; the mask pattern is 0, as in the source. `ReedSolomon.GeneratorPolynomial` and `ReedSolomon.RsEncode` are for at most 512 check symbols, the length of the table of powers.
- JavaScript strings are sequences of 16-bit units; here a character is any character, so surrogates and their escapes are not modelled.
- Error messages, notes and other texts that are only shown.
- rpcd itself, ubus and the UCI library: rpcd answers as the source relies on. Ending a session, or its expiry, does not remove what it staged; a rollback needs no live session; rpcd is not restarted.
- Commands running at the same time, and permissions, ownership and failing removal of the record file. An empty record left by a crash is never reclaimed, in the code as in the model.
- Decoding of proxy links, and the test for a URL: the merge takes any such functions as parameters. Keys and literals of a parsed proxy are words, as the decoders make them; reading the fields again is for keys of letters, digits and dashes, and literals that do not look quoted.
- MergeJoin.MembersReread: the members of a group are those in its field two deeper than its item, where the source looks for it, and the law is for members that can be read. The rule is read again for a file with a block of rules, the names of groups for a new group.
- Array.prototype.sort is modelled by insertion sort, which is stable like it; the order of a Map is arbitrary.
- What Number makes of texts that are not decimal digits is a parameter. connectedRouteTarget, which only picks the family, is left out.
- Netmasks given as texts are read as dotted addresses; other forms of numbers are not.
- WireGuardRoundTrip.ExportImport: for fields that are written to a file and values without comment characters or line breaks; keys that are inherited by every JavaScript object, like constructor, are ignored as the source does.
- The terminal: raw mode and redrawing of the line. The commands a session executes are a parameter.
- fetch, timeouts, the session id and the promise of a call: a batch ends with replies or with a failure.
- Numbers in release tags are exact; the source's are below 2^53. Dates are ranks, and the reason why a release is refused is not modelled.
- ReleaseCandidates.SortCandidates: the order is stated for tags without leading zeros, since the comparison of others is no order.
- Options of network, DHCP and firewall sections that do not decide where a port is; in configurations other than the network only ownership and what a section is for. The names of policies are a parameter. Firewall zones, mwan3 and the number of uplinks can refuse a backup; that is a parameter.
- The configuration is taken not to change between the checks of a port assignment and its staging. PortAssignment covers staging only; applying it is a change like any other.
- PortAssignment.EveryPortPlaced: for LAN and guest networks on different bridges, and ports whose names stay different in section names.
- PortReading.AssignmentReadBack: no other interface or bridge may claim the ports, and the shared networks must be alone on their bridges; the source takes the first that fits.
- Wi-Fi access lists, but for the containment of addresses; DDNS, multi-WAN, zapret and diagnostics.
