# Models of the Vulkan layers, their code generator and VIA

A Dafny 4.11 model of the algorithms and state machines behind the LunarG layers, with proofs of what they promise.
`dafny verify dfyconfig.toml` checks all of it.

| file | what it models |
|---|---|
| `Json`, `JsonText`, `Numerals`, `Options` | the part of JSON (RFC 8259) the programs print, as a lexer, a parser and a printer proved inverse; layout of members and elements; decimal numerals |
| `ApiDumpValues`, `ApiDumpWriter`, `ApiDumpRun`, `ApiDumpJson`, `ApiDumpExact`, `ApiDumpLaws`, `ApiDumpLayout` | the api_dump layer with JSON output: the writers of parameters and structures, the whole life of the layer with its four comma and bracket flags, what the text of a run is, for all strings and for those that need no escaping, and every key, text and line break written out |
| `Template`, `TemplateBuild`, `TemplateExpand`, `TemplateGuards` | the api_dump generator: the merge of three tag lists whose spans may overlap, the depth stack that builds the control tree, expansion, and the guards around every literal |
| `FrameRanges` | the output-range language of the api_dump layer |
| `OutputLock`, `SequentialLog`, `ThreadedText` | the re-entrant lock held from the head of a call to its body, over all interleavings of threads; when an interleaving writes what calls one after another would write; and the JSON text of many threads |
| `CommandBuffers` | the two maps of the command-buffer index |
| `PNextChain`, `DeviceTables` | the device simulation layer's linked chains in the heap: building them and filling in an application's chain; which structures that is for every extension and version |
| `Enumeration` | two-call enumeration with its retry loop, and the tool list stacked over other layers |
| `ScreenshotRange`, `Screenshot`, `Ppm` | the screenshot layer: ranges and lists of frames, the per-present state machine, the pixel loops |
| `VkConfig`, `LibraryPath` | VIA: the counter-driven JSON printer and the resolver of relative library paths |

Objects whose methods change fields are classes here (`JsonStream`, `ApiDump`, `ConditionalFrameOutput`, `Node`,
`PhysicalDeviceData`, `CommandBufferIndex`, `Counter`, `Enumerator`, `FrameRange`, `Layer`, `Printer`), and every loop
of the sources that updates variables is a loop in a method. Each such method is proved against a function or a state
machine on values, and the properties are lemmas about that function or invariants over all runs of that machine.

## Where the code does less than its comments or than one would expect

Each of these is a theorem: a condition that decides it, or an input.

- **Output ranges.** The comment at the parser calls "3-6, 10-2" valid. A space behind a comma is an error
  (`FrameRanges.SpaceRejected`). A window hides the frames and ranges behind it in the list
  (`FrameRanges.OverlapHides`); a list means the union of its elements on all frames exactly if it hides nothing on the
  frames up to one product of its intervals behind the end of its limited windows (`FrameRanges.ListIsUnionIff`). A
  parsed interval of 0 is a division by zero on the frames its window decides
  (`FrameRanges.ConditionalFrameOutput.IsFrameInRange`).
- **JSON of a run.** The text decodes to the frames that were asked for exactly when the run ends in an in-range frame
  that dumped a call or is frame 0, or in an out-of-range frame after a present; no dumped call meets a pNext structure of
  unknown type, an `int` printed by dump_json_int, a void function with hidden parameters, or a parameter or member of
  two pointer levels beside others; and no dumped string needs escaping (`ApiDumpExact.RunDecodesIff`). Of strings that
  need none, every other run is no JSON at all (`ApiDumpJson.RunIsJson`). A call is here a head and a body. If all frames
  are dumped or none is, the same holds of any interleaving of threads (`ThreadedText.ThreadedDecodesIff`). The generated writers have no branch for two
  pointer levels, such as `ppOffsetInfos` of `vkCmdBuildAccelerationStructureKHR`, and so print nothing behind the
  comma; alone in its list such a member leaves an empty array, which is JSON (`ApiDumpValues.ItemListRight`).
- **Template tags.** An `@end` swallows the empty line behind it, and the next `@foreach` or `@if` takes that line once
  more, so that their spans overlap. The literals and spans of a template are the format string exactly if no tag begins
  before the one in front of it ends; otherwise they are longer by the overlaps (`Template.TilesIff`,
  `Template.EmptyLineOverlaps`). The control tree and the output do not depend on it (`TemplateBuild.BuildBalanced`,
  `TemplateExpand.EndFile`).
- **Template loop.** The loop tests `nextFor` twice, so `@if` tags behind the last `@end` are never looked at, and open
  tags at the end pass unnoticed; `TemplateBuild.ScanAccepts` is the exact set of accepted tag lists.
- **Output lock.** The lock is released only by its owner, the text of every call is contiguous, and a dumped call keeps
  all other threads waiting, each exactly if no frame is dumped after an undumped one (`OutputLock.NoFaultIff`,
  `OutputLock.ContiguousIff`, `OutputLock.ExclusiveIff`). Acquires and releases balance, and every log is that of calls
  one after another, exactly if all frames are dumped or none is (`OutputLock.BalancesIff`,
  `SequentialLog.SequentialIff`).
- **EnumerateAll.** While the vector is empty its data pointer is null, so the fill is a second query. If the list grows
  between a first query that finds nothing and that call, the result is Success with an empty vector; in every other
  case the vector is the list of the last call (`Enumeration.EnumerateAll`).
- **Tool list.** With a capacity of at most the number of layers, the pass down turns into a query, and the caller is told
  of the whole list with Success; the reported count is the number written exactly if the capacity is beyond the layers or
  that of the whole list. With a capacity of 0 the first layer still writes its entry
  (`Enumeration.GetToolProperties`).
- **Screenshot ranges.** An unlimited range does not test its lower bound (`ScreenshotRange.AgreesWithDumpIff`), and a
  count of "-0" is accepted although the comment calls signed numbers errors (`ScreenshotRange.MinusZeroParses`). With a
  list and a range together, the maps are released exactly if no listed frame is negative or behind the end of the range
  (`Screenshot.CompletesIff`). A listed number beyond an int becomes a negative frame, which no present reaches, so that
  the maps are never released; "5,3000000000" is such a list (`Screenshot.WrappedNeverCompletes`). A range whose last
  frame does not fit an int selects nothing and never releases the maps (`ScreenshotRange.OverflowSelectsNothing`,
  `Screenshot.OverflowNeverCompletes`).
- **Library paths.** The resolver takes the last component off the JSON file's directory for each leading "../", whatever
  it is, except the first one. For any two strings, the resolved path leads to where the relative one leads from that
  directory exactly if all that is taken off, once for each "../", are names, or the path is absolute and the rest of the
  relative path climbs to the root in any case (`LibraryPath.ResolvesIff`). In a path of names that means: it is absolute
  or has more directories than there are leading "../" (`LibraryPath.NamedResolvesIff`).

## Model

| member | source | states |
|---|---|---|
| ApiDumpExact.RunDecodesIff | layersvt/api_dump.h:433-509 | for every run with any strings, and members of any pointer level: the text decodes to the array of the in-range frames, each with its own calls in order, exactly if the run ends well, every dumped call is printed as JSON and no dumped string needs escaping |
| ApiDumpExact.ItemExact | layersvt/api_dump.h:1202-1446 | the text of any parameter or member that a writer has a branch for lexes to its value exactly if it is printed as JSON and needs no escaping; otherwise it differs from that value in every context |
| ApiDumpExact.MembersExact | scripts/api_dump_generator.py:1611-1668 | the same for a list of members or parameters of any pointer level: exactly if none is unprinted beside others, all are printed as JSON and no string needs escaping |
| ApiDumpExact.CallExact | scripts/api_dump_generator.py:1760-1840 | the same for the text of one call |
| ApiDumpExact.FrameExact | layersvt/api_dump.h:471-489 | the same for the text of one frame |
| ApiDumpExact.ChainExact | scripts/api_dump_generator.py:1427-1458 | the same for a pNext chain |
| ApiDumpExact.UnfinishedExact | layersvt/api_dump.h:688-692 | a run whose last frame stays open never decodes to its frames, whatever the strings |
| ApiDumpJson.RunIsJson | layersvt/api_dump.h:433-509 | for every run with strings that need no escaping: the text decodes to the array of the in-range frames, each with its own calls in order, exactly if the run ends well and every dumped call is printed as JSON; otherwise it does not decode |
| ApiDumpJson.GoodRun | layersvt/api_dump.h:688-723 | a run that ends well with good calls decodes to one array with one object for each frame in range |
| ApiDumpJson.BadCallRun | scripts/api_dump_generator.py:1450-1455 | one dumped call with an unknown pNext structure, an `int` member, a comma without a member behind it or nothing behind its return type makes the whole text no JSON |
| ApiDumpJson.UnopenedRun | layersvt/api_dump.h:688-692 | a run that never left an out-of-range frame 0 closes a frame it did not open, and its text is no JSON |
| ApiDumpJson.UnfinishedRun | layersvt/api_dump.h:688-692 | a run that ends in an in-range frame without a call, after a present, leaves that frame open, and its text is no JSON |
| ApiDumpJson.FrameRight | layersvt/api_dump.h:471-489 | a frame's text lexes to the frame object exactly if its calls are good, and otherwise holds tokens no JSON text has |
| ApiDumpJson.CallRight | scripts/api_dump_generator.py:1760-1840 | the same for the text of one call, head and body together |
| ApiDumpValues.ItemRight | layersvt/api_dump.h:1202-1446 | the same for one parameter or member of any nesting that a writer has a branch for: values, arrays, null pointers, special and unused members, pNext chains |
| ApiDumpValues.ItemListRight | scripts/api_dump_generator.py:1611-1668 | a list of members or parameters of any pointer level lexes to the array of the printed ones exactly if it is good: an unprinted one alone gives an empty array, and beside others a comma with nothing behind it |
| ApiDumpValues.ValueRight | layersvt/api_dump.h:1312-1367 | the same for dump_json_value, including the cases that print no address or no value |
| ApiDumpValues.ChainRight | scripts/api_dump_generator.py:1427-1458 | the same for the pNext trampoline: known structures, skipped loader structures, their end, unknown structures |
| Json.DecodeIff | layersvt/api_dump.h:1392-1398 | a text decodes to a value exactly if its tokens are those of the value (RFC 8259 sections 2 to 5 and 7, without escapes) |
| Json.QuoteIffPlain | layersvt/api_dump.h:1392-1398 | writing a string raw between quotes gives the token of that string exactly if no character needs escaping |
| ApiDumpRun.Run | scripts/api_dump_generator.py:382-442 | the layer, run over any sequence of calls and presents and destroyed, leaves exactly the text specified for the calls of each frame |
| ApiDumpRun.InvSteps | layersvt/api_dump.h:700-723 | after any run the flags and the text follow from the calls of each frame; in particular the cached dump flag is the range test of the current frame once it is initialised |
| ApiDumpRun.DestroyText | layersvt/api_dump.h:442-451 | what the destructors add completes the text specified for the run |
| ApiDumpRun.ApiDump.SetupFrame | layersvt/api_dump.h:453-494 | closes the frame before and opens the new one, with a comma from the second printed frame on |
| ApiDumpRun.ApiDump.Settings | layersvt/api_dump.h:727-733 | first use writes the opening bracket and opens frame 0 if it is in range; later uses change nothing |
| ApiDumpRun.ApiDump.ShouldDump | layersvt/api_dump.h:709-715 | the cached flag, computed on first use |
| ApiDumpRun.ApiDump.NextFrame | layersvt/api_dump.h:700-707 | the state of the next frame |
| ApiDumpRun.ApiDump.DumpHead | scripts/api_dump_generator.py:1760-1796 | nothing in an undumped frame; otherwise the comma the flags ask for and the head's lines |
| ApiDumpRun.ApiDump.DumpBody | scripts/api_dump_generator.py:1798-1840 | nothing in an undumped frame; otherwise result, arguments and closing brace, and a comma is needed from now on |
| ApiDumpRun.ApiDump.EntryPoint | scripts/api_dump_generator.py:382-395 | one call, and for a present the step to the next frame |
| ApiDumpRun.ApiDump.Destroy | layersvt/api_dump.h:688-692 | closes the frame unless the last event was a present, then the array |
| ApiDumpWriter.JsonStream.DumpValue | layersvt/api_dump.h:1312-1367 | appends exactly the text specified for the value and nothing else |
| ApiDumpWriter.JsonStream.DumpPayload | layersvt/api_dump.h:1392-1411 | appends the text of a scalar, a pointer, an `int` member, a structure or a union |
| ApiDumpWriter.JsonStream.DumpItem | scripts/api_dump_generator.py:1617-1664 | appends the text of a parameter or member of any kind |
| ApiDumpWriter.JsonStream.DumpElements | layersvt/api_dump.h:1202-1238 | the element loop, with its comma after every element but the last, appends the specified list |
| ApiDumpWriter.JsonStream.DumpMembers | scripts/api_dump_generator.py:1611-1668 | a structure's members with the need-comma flag append the specified list |
| ApiDumpWriter.JsonStream.DumpSpecial | layersvt/api_dump.h:1370-1381 | type, name, address and text of a special member |
| ApiDumpWriter.JsonStream.DumpUnused | scripts/api_dump_generator.py:1653-1663 | the object printed for a member whose condition fails |
| ApiDumpWriter.JsonStream.Trampoline | scripts/api_dump_generator.py:1427-1458 | appends the text specified for the chain |
| ApiDumpLaws.ValueIs | layersvt/api_dump.h:1312-1367 | the object dump_json_value prints, for every type name: the words "type", "name", "address", "value" and "members", the star of a chain, " (Union)", and which members are there |
| ApiDumpLaws.TypeNameOf | scripts/api_dump_generator.py:1746-1756 | every type name is perhaps "const ", a name, and what follows from the first star or bracket on |
| ApiDumpLaws.PayloadIs | layersvt/api_dump.h:1392-1411 | what stands behind "value" or "members" |
| ApiDumpLaws.ItemIs | layersvt/api_dump.h:1259-1310 | the objects of null pointers, special and unused members, with their words |
| ApiDumpLaws.ArrayIs | layersvt/api_dump.h:1202-1238 | an array's object; its elements are named "[0]", "[1]" and so on |
| ApiDumpLaws.ChainIs | scripts/api_dump_generator.py:1427-1458 | the objects of the trampoline: the structure behind the loader's own, or "NULL" |
| ApiDumpLaws.CallIs | scripts/api_dump_generator.py:1762-1832 | a call's object with its words, "Thread n" and "t us", and which of them the settings show |
| ApiDumpLaws.FrameIs | layersvt/api_dump.h:471-489 | a frame's object: "frameNumber" if the settings show it, and "apiCalls" in order |
| ApiDumpLaws.IndentationIs | layersvt/api_dump.h:1202-1238 | spaces of the configured width, or one tab, for each level |
| ApiDumpLaws.HiddenAddresses | layersvt/api_dump.h:841-851 | with hidden addresses, items that differ in the texts of addresses only have the same text |
| ApiDumpLaws.ShownAddresses | layersvt/api_dump.h:841-851 | with shown addresses, of items that differ in addresses only the printed values differ exactly if a printed address does |
| ApiDumpLayout.ValueLayout | layersvt/api_dump.h:1312-1367 | the text of dump_json_value, line by line, at any depth |
| ApiDumpLayout.PayloadLayout | layersvt/api_dump.h:1392-1411 | the texts behind "value" and "members", with the line break of dump_json_void and the extra member of dump_json_int |
| ApiDumpLayout.ItemLayout | layersvt/api_dump.h:1370-1381 | the texts of null pointers, special, unused and unprinted members, line by line |
| ApiDumpLayout.ArrayLayout | layersvt/api_dump.h:1202-1238 | the text of an array, its elements two levels deeper |
| ApiDumpLayout.ChainLayout | scripts/api_dump_generator.py:1427-1458 | the texts of the trampoline, with the stray quote in front of an unknown type's number |
| ApiDumpLayout.CallLayout | scripts/api_dump_generator.py:1762-1832 | the text of a call, line by line, and the stray comma of one without a body line |
| ApiDumpLayout.FrameLayout | layersvt/api_dump.h:471-489 | the text of a frame |
| ApiDumpLayout.RunLayout | layersvt/api_dump.h:433-509 | the text of a run that ends well |
| ApiDumpLayout.FramesLayout | layersvt/api_dump.h:453-494 | its frames are those in range, in order, each with its own number and calls |
| Template.BalancedIsTemplate | scripts/api_dump_generator.py:2083-2159 | recursive descent reads all of a balanced tag list, overlapping or not; the tags of the result are the given ones in order and its literals are the slices between them |
| Template.DescendComplete | scripts/api_dump_generator.py:2100-2151 | recursive descent succeeds on whatever the stack of open tags accepts, wherever the tags stand |
| Template.TilesIff | scripts/api_dump_generator.py:2084-2099 | literals and tag spans put together are the format string exactly if no tag begins before the one in front of it ends; their length is that of the string and of all overlaps |
| Template.EmptyLineOverlaps | scripts/api_dump_generator.py:2084-2086 | an input: the spans of an `@end`, an empty line and an `@if` overlap by one character, and literals and spans together are longer than the string |
| TemplateBuild.MergeOfKinds | scripts/api_dump_generator.py:2084-2126 | the three-way merge of the tags separated by kind gives the tags back in the order of the text, whenever their starts increase |
| TemplateBuild.ScanTemplate | scripts/api_dump_generator.py:2132-2146 | on the tags of any template, at any depth and with any finished controls before it, the loop adds that template's controls and nothing else |
| TemplateBuild.BuildBalanced | scripts/api_dump_generator.py:2100-2151 | on a whole template the loop gives exactly the forest of the recursive-descent parse, children in source order |
| TemplateBuild.BuildTree | scripts/api_dump_generator.py:2100-2151 | the loop over three iterators, with `depth`, `loops` and `unassignedControls`, computes the scan of the merged tags |
| TemplateBuild.AppendControl | scripts/api_dump_generator.py:2140-2146 | the inner loop gives a finished control exactly the deeper controls as children, in order |
| TemplateBuild.ScanAccepts | scripts/api_dump_generator.py:2104-2138 | which tag lists the loop accepts: every `@end` matches the last open tag and no `@foreach` is behind the last `@end` |
| TemplateBuild.UnclosedIfAccepted | scripts/api_dump_generator.py:2104-2104 | an input: an `@if` without an `@end` is accepted and ignored |
| TemplateExpand.EndFile | scripts/api_dump_generator.py:2100-2159 | for every balanced tag list, overlapping or not, the output is the meaning of the recursive-descent template up to the last character of its last literal |
| TemplateExpand.Expand | scripts/api_dump_generator.py:2219-2298 | expanding a control is the meaning of its block: `@foreach` concatenates over the items that pass, `@if` is its body once or nothing |
| TemplateExpand.ExpandItem | scripts/api_dump_generator.py:2262-2296 | one subject: condition, guards, and the body with the item as innermost parent |
| TemplateExpand.ExpandBody | scripts/api_dump_generator.py:2286-2292 | the loop over children and the literals between them gives the meaning of the body |
| TemplateExpand.MergeValues | scripts/api_dump_generator.py:2262-2265 | the merged values are the bindings of the enclosing items |
| TemplateExpand.BindingsOutermost | scripts/api_dump_generator.py:2262-2265 | a key is bound if some enclosing item binds it, and has the value of the outermost one that does |
| TemplateExpand.FindByType | scripts/api_dump_generator.py:2300-2308 | the outermost enclosing item of one of the types, or the failed assertion |
| TemplateExpand.GuardsNest | scripts/api_dump_generator.py:2283-2296 | the `#if` and `#endif` lines in the output of any template, of any depth, are properly nested |
| TemplateGuards.LiteralsUnderGuards | scripts/api_dump_generator.py:2274-2296 | in the output of any template every literal stands under exactly the guards of the items around it, the outermost first; a guard comes from the functions of extensions by name, else from their types by name, else from the system types |
| TemplateGuards.OutputUnderGuards | scripts/api_dump_generator.py:2155-2160 | the same for the whole output, where no guard is open at first |
| TemplateGuards.PartsAre | scripts/api_dump_generator.py:2226-2246 | "choice", "option", "member" and "parameter" range over the parts of the outermost union, enum or bitmask, structure and function |
| TemplateGuards.ListsAre | scripts/api_dump_generator.py:2223-2256 | the twelve words that range over a list of the registry; any other word fails |
| TemplateGuards.IfIs | scripts/api_dump_generator.py:2267-2271 | an `@if` is its body, unguarded, if the condition holds of the enclosing items' values, and nothing if not |
| TemplateExpand.DropLastStands | scripts/api_dump_generator.py:2159-2159 | the final slice takes the last character off the last literal, if that has one, and every control stands as before |
| FrameRanges.AcceptsIff | layersvt/api_dump.h:125-197 | a non-empty string is accepted exactly if it is a comma-separated list of S, S-C and S-C-I, with at most one comma at the end |
| FrameRanges.ListAccepted | layersvt/api_dump.h:125-197 | an accepted list gives the numbers of its elements, in order |
| FrameRanges.AcceptedIsList | layersvt/api_dump.h:125-197 | whatever is accepted is such a list |
| FrameRanges.PrintParse | layersvt/api_dump.h:125-197 | any list of frames and ranges with numbers below 2^63, printed and parsed, gives the same frames and the same ranges in order |
| FrameRanges.SpaceRejected | layersvt/api_dump.h:118-124 | a space behind a comma makes the list invalid |
| FrameRanges.ParsedBounded | layersvt/api_dump.h:97-108 | numbers that were parsed never overflow the window test |
| FrameRanges.ListIsUnionIff | layersvt/api_dump.h:201-225 | for a whole list and all frames: the first-match loop is the union of frames and ranges exactly if nothing is hidden on the frames below one period, the product of the intervals, behind the end of the single frames, starts and limited windows |
| FrameRanges.AgreeIffNotHidden | layersvt/api_dump.h:201-225 | on one frame the loop agrees with the union exactly if no window that comes first over it rejects it while a single frame or a later range selects it |
| FrameRanges.DisjointIsUnion | layersvt/api_dump.h:201-225 | with disjoint windows and no single frame inside one, membership is that of the union |
| FrameRanges.OverlapHides | layersvt/api_dump.h:201-225 | an input: frame 2 of "0-9-3,0-9-2" is not dumped |
| FrameRanges.ZeroZeroIsEverything | layersvt/api_dump.h:321-328 | the skipped string "0-0" would parse to a range that selects every frame, like no range at all |
| FrameRanges.ConditionalFrameOutput.ParseNumber | layersvt/api_dump.h:97-108 | value and length of the longest run of digits |
| FrameRanges.ConditionalFrameOutput.Parse | layersvt/api_dump.h:125-197 | the loop ends on every string, accepts what the parser function accepts and adds its frames and ranges |
| FrameRanges.ConditionalFrameOutput.Pass | layersvt/api_dump.h:130-194 | one pass reads one element and one comma, and consumes a character |
| FrameRanges.ConditionalFrameOutput.IsFrameInRange | layersvt/api_dump.h:201-225 | the loop computes the first-match test, and everything is in range without conditional output; None, the division by zero, exactly if the window which decides has interval 0 |
| OutputLock.ContiguousIff | scripts/api_dump_generator.py:81-142 | the text of every dumped call is contiguous in every interleaving exactly if no frame is dumped after an undumped one |
| OutputLock.ExclusiveIff | scripts/api_dump_generator.py:81-142 | in every interleaving no other thread writes, changes the frame or touches the lock while a call dumps, exactly if no frame is dumped after an undumped one |
| OutputLock.NoFaultIff | scripts/api_dump_generator.py:109-142 | the owner discipline holds in every interleaving exactly if no frame is dumped after an undumped one |
| OutputLock.BalancesIff | scripts/api_dump_generator.py:81-142 | acquires and releases balance in every interleaving exactly if all frames are dumped or none is, which includes the case without an output range |
| SequentialLog.SequentialIff | scripts/api_dump_generator.py:382-442 | the log of every interleaving is the log of a run that begins each call when none is under way, exactly if all frames are dumped or none is |
| ThreadedText.ThreadedIsRun | scripts/api_dump_generator.py:81-142 | if all frames are dumped or none is: for any cut of the calls' texts into pieces and any interleaving of whole calls, the output is the text of a run that makes the same calls one after another, each in the frame of its first piece |
| ThreadedText.ThreadedDecodesIff | layersvt/api_dump.h:433-509 | so it decodes to the frames of those calls exactly if every call is printed as JSON, no string needs escaping and the run ends well |
| ThreadedText.EveryCallOnce | scripts/api_dump_generator.py:382-442 | if all frames are dumped, that run has every call exactly as often as the threads made it |
| ThreadedText.ReplayInv | layersvt/api_dump.h:700-723 | after any orderly log the flags and the text are those of the calls so far, up to the rest of the open call |
| OutputLock.StrayFaults | scripts/api_dump_generator.py:109-112 | a run: a head in an undumped frame and its body in a dumped one release a lock that is not held |
| OutputLock.LateLockStays | scripts/api_dump_generator.py:82-100 | a run: a flag tested in a dumped frame and a body in an undumped one leave the lock held for ever |
| PNextChain.ChainDistinct | layersvt/device_simulation.cpp:3200-3405 | a null-terminated chain visits no node twice |
| PNextChain.KnownPlanned | layersvt/device_simulation.cpp:3200-3405 | the order of linking has every known structure type once |
| PNextChain.LinkedExactly | layersvt/device_simulation.cpp:3200-3405 | a structure is in one of the two chains, once, exactly if its extension or version is enabled |
| PNextChain.PhysicalDeviceData.constructor | layersvt/device_simulation.cpp:671-780 | one stored structure of the right type for every known type, each ending its own chain |
| PNextChain.PhysicalDeviceData.BuildChains | layersvt/device_simulation.cpp:3200-3405 | for every set of extensions the prepends leave two null-terminated chains whose nodes are exactly the enabled structures, last linked first; no stored payload changes, except that an emulated portability subset gets 1 and fifteen times true |
| PNextChain.PhysicalDeviceData.LinkPortability | layersvt/device_simulation.cpp:3205-3230 | the first two structures are linked if the device has the extension, and filled with 1 and fifteen times true if it lacks it and is to emulate it; no other payload changes |
| PNextChain.PhysicalDeviceData.FillPNextChain | layersvt/device_simulation.cpp:2476-2697 | on any acyclic chain the walk ends; every node keeps its identity, type and link, has the stored payload if its type is filled and its own otherwise, and the stored structures do not change |
| PNextChain.PhysicalDeviceData.Overwrite | layersvt/device_simulation.cpp:2476-2505 | copying a stored structure over a node does not leak the stored link |
| DeviceTables.LinkedIs | layersvt/device_simulation.cpp:3200-3405 | for every device the two chains are these lists of 12 property and 22 feature structures without those the driver lacks |
| DeviceTables.EnabledExactly | layersvt/device_simulation.cpp:3206-3405 | a structure is linked exactly if one of the device's extensions lists it, or the driver's version is at least the one it belongs to |
| DeviceTables.FillsExactly | layersvt/device_simulation.cpp:2484-2690 | a structure is filled exactly if one of the device's extensions lists it, the configured version is at least the one it belongs to, or the portability subset is emulated |
| DeviceTables.OneExtension | layersvt/device_simulation.cpp:3232-3372 | with one extension and a driver of Vulkan 1.0 the chains are that extension's property and feature structures |
| DeviceTables.OneVersion | layersvt/device_simulation.cpp:3374-3405 | without extensions the chains are what the driver's version brings |
| DeviceTables.SetUpAndQuery | layersvt/device_simulation.cpp:2484-2502 | on an emulating device an application's two portability structures get 1 and fifteen times true |
| CommandBuffers.CommandBufferIndex.AddCmdBuffers | layersvt/api_dump.h:777-787 | adds the buffers to the simple map; both maps agree with it, and the assert holds |
| CommandBuffers.CommandBufferIndex.EraseCmdBuffers | layersvt/api_dump.h:760-775 | removes the buffers that are not null; both maps agree, and the asserts hold |
| CommandBuffers.CommandBufferIndex.EraseCmdBufferPool | layersvt/api_dump.h:789-802 | removes all buffers of the pool and no others |
| CommandBuffers.CommandBufferIndex.GetCmdBufferLevel | layersvt/api_dump.h:752-758 | the level of the simple map, and the assert holds |
| CommandBuffers.RunTrace | scripts/api_dump_generator.py:1845-1860 | on every trace that obeys Vulkan's handle rules all asserts hold and the index agrees with the simple map |
| CommandBuffers.PoolsDisjoint | layersvt/api_dump.h:752-802 | pools are pairwise disjoint and their union is the key set of the level map |
| CommandBuffers.FreeUndoesAllocate | layersvt/api_dump.h:760-802 | freeing, or destroying a pool that was empty before, undoes an allocation |
| Enumeration.EnumerateProperties | layersvt/device_simulation.cpp:2743-2755 | the count, or as many elements as fit, their number, and Success exactly if that was all |
| Enumeration.EnumerateAll | layersvt/device_simulation.cpp:465-476 | against a list that grows finitely often the retry loop ends with the list of the last call, except if the list grows from nothing between the first two calls |
| Enumeration.GetToolProperties | layersvt/device_simulation.cpp:2945-2961 | through any stack of layers: a query gives the length of the whole list; a fill of any capacity, 0 too, writes what fits, the layers' entries top down and then the driver's; exactly when the count, and Success, are right |
| ScreenshotRange.CheckString | layersvt/screenshot_parsing.cpp:29-48 | digits and at most two dashes |
| ScreenshotRange.FrameRange.Init | layersvt/screenshot_parsing.cpp:61-118 | status and fields for every string |
| ScreenshotRange.FrameRange.ParseItems | layersvt/screenshot_parsing.cpp:79-112 | status and fields from the numbers read, with the order of the three error codes |
| ScreenshotRange.ZeroIffValid | layersvt/screenshot_parsing.cpp:61-118 | on a non-empty string status 0 means valid and the reverse; then start is not negative, the interval is positive, the count is unlimited or positive, and all fit an int, though the last frame need not |
| ScreenshotRange.PairParses | layersvt/screenshot_parsing.cpp:79-112 | every printed S-C parses to its numbers with interval 1 |
| ScreenshotRange.TripleParses | layersvt/screenshot_parsing.cpp:79-112 | every printed S-C-I with a positive interval parses to its numbers, and gives status 4 with interval 0 |
| ScreenshotRange.MinusZeroParses | layersvt/screenshot_parsing.cpp:50-60 | S--0 is accepted as an unlimited range |
| ScreenshotRange.NegativeStart | layersvt/screenshot_parsing.cpp:90-99 | a range with a negative start gives status 2 |
| ScreenshotRange.NegativeCount | layersvt/screenshot_parsing.cpp:90-99 | a range with a negative count gives status 3 |
| ScreenshotRange.NarrowIs | layersvt/screenshot_parsing.cpp:79-84 | a number beyond a long becomes -1 or 0, and any other the int that differs from it by a multiple of 2^32 |
| ScreenshotRange.SelectsSteps | layersvt/screenshot_parsing.cpp:100-109 | for any numbers that fit an int: the normalised range selects exactly start + k * interval for k * interval below the frame count, or nothing if its last frame does not fit an int |
| ScreenshotRange.AgreesWithDumpIff | layersvt/screenshot.cpp:193-229 | for the same three numbers, as far as they fit an int, the screenshot and the api_dump layer agree on a frame, unless the range is unlimited and the frame lies a multiple of the interval before its start, or its last frame does not fit an int and the api_dump layer selects the frame |
| ScreenshotRange.IsEndIs | layersvt/screenshot.cpp:304-320 | a valid range ends at exactly one frame, its last one, if it is limited and that frame fits an int, and that frame is a screenshot |
| ScreenshotRange.OverflowSelectsNothing | layersvt/screenshot.cpp:193-229 | a range whose last frame does not fit an int selects no frame and has no end |
| Screenshot.ListRoundTrip | layersvt/screenshot.cpp:323-342 | a printed list of frames is read back as the set of its frames |
| Screenshot.ListIsNoRange | layersvt/screenshot_parsing.cpp:120-127 | a printed list is never taken for a range |
| Screenshot.SelectedIs | layersvt/screenshot.cpp:1317-1390 | the selection has the requested frames below N, no others, each once and in order |
| Screenshot.CompletesIsLast | layersvt/screenshot.cpp:1364-1382 | nothing is requested behind the frame that releases the maps |
| Screenshot.LastCompletesIff | layersvt/screenshot.cpp:1364-1382 | the last requested frame releases the maps exactly if no listed frame is negative and none is behind the end of a limited range; an unlimited range has no last frame |
| Screenshot.CompletesIff | layersvt/screenshot.cpp:1364-1382 | some frame releases the maps exactly if something is requested, no listed frame is negative, and a range is limited, fits an int and does not end before a listed frame |
| Screenshot.WrappedNeverCompletes | layersvt/screenshot.cpp:323-342 | an input: for the list "5,3000000000" no frame releases the maps |
| Screenshot.RangeCompletes | layersvt/screenshot.cpp:1364-1382 | a limited range alone releases the maps at its last frame, if that fits an int |
| Screenshot.OverflowNeverCompletes | layersvt/screenshot.cpp:1364-1382 | otherwise no frame releases them |
| Screenshot.Layer.PopulateFrameList | layersvt/screenshot.cpp:323-356 | the frames and the range that the request string asks for; the next four rows say which |
| Screenshot.PairAsks | layersvt/screenshot_parsing.cpp:61-127 | "S-C" asks for the frames from S to S+C-1, as long as the last fits an int, and for every frame if C is 0 |
| Screenshot.TripleAsks | layersvt/screenshot_parsing.cpp:61-127 | "S-C-I" asks for S + k*I with k*I below C, as long as all fit an int; for all multiples of I away from S if C is 0; and for none if I is 0 |
| Screenshot.AllAsks | layersvt/screenshot_parsing.cpp:70-74 | "all" asks for every frame |
| Screenshot.ListAsks | layersvt/screenshot.cpp:323-342 | a printed list asks for its frames and no others |
| Screenshot.Layer.Words | layersvt/screenshot.cpp:328-342 | the loop over words ends and adds exactly the words that start with a digit |
| Screenshot.Layer.CreateSwapchain | layersvt/screenshot.cpp:1230-1271 | records the swapchain unless all requested frames are taken |
| Screenshot.Layer.GetSwapchainImages | layersvt/screenshot.cpp:1273-1312 | records the images unless all requested frames are taken |
| Screenshot.Layer.QueuePresent | layersvt/screenshot.cpp:1317-1390 | every present keeps: the frames selected so far are exactly the requested ones below the frame number; the maps are complete until the request is, empty afterwards, and never read then; a selected frame's file gets the presented image |
| Ppm.WritePixels | layersvt/screenshot.cpp:1043-1058 | 3 * width * height bytes, rows without gaps, no read outside the rows, nothing for other channel counts |
| Ppm.ByteAt | layersvt/screenshot.cpp:1043-1058 | byte 3*(y*width+x)+c is source byte offset+y*rowPitch+n*x+c |
| VkConfig.Printer.StartOutput | via/via_system.cpp:1478-1482 | resets two counters and opens the object |
| VkConfig.Printer.PrintStandardText | via/via_system.cpp:1490-1497 | one member more, numbered by the texts so far |
| VkConfig.Printer.PrintBeginTable | via/via_system.cpp:1499-1506 | opens a member under the table's name and restarts the rows |
| VkConfig.Printer.PrintBeginTableRow | via/via_system.cpp:1507-1514 | opens a numbered row and restarts the columns |
| VkConfig.Printer.PrintTableElement | via/via_system.cpp:1516-1522 | one numbered cell |
| VkConfig.Printer.PrintEndTableRow | via/via_system.cpp:1524-1524 | closes the row and changes no counter |
| VkConfig.Printer.PrintEndTable | via/via_system.cpp:1526-1526 | closes the table and changes no counter |
| VkConfig.Printer.EndOutput | via/via_system.cpp:1484-1484 | closes the object |
| VkConfig.StepWrites | via/via_system.cpp:1490-1526 | what each call writes, character by character: the comma its counter asks for, tabs, quotes and braces |
| VkConfig.WellNestedIff | via/via_system.cpp:1478-1526 | the calls that stand in their places, texts and tables in the object, rows in a table, cells in a row, with everything closed at the end, are exactly the calls of the documents |
| VkConfig.Printer.PrintDocument | via/via_system.cpp:1478-1526 | every well-nested sequence of calls writes exactly the pretty-printed document that it belongs to |
| VkConfig.RunItems | via/via_system.cpp:1490-1526 | the calls of a document, from fresh counters, write its members with the right commas and count them |
| VkConfig.PrettyDecodesIff | via/via_system.cpp:1490-1522 | a pretty-printed object decodes to itself exactly if no key and no string needs escaping |
| VkConfig.DocumentDecodesIff | via/via_system.cpp:1478-1526 | the output decodes to the document exactly if no text, name or cell needs escaping, and a reader gets paragraphs, tables, rows and cells back |
| VkConfig.KeysDistinctIff | via/via_system.cpp:1490-1506 | the keys of the object differ exactly if table names differ from each other and from the numbers of the texts |
| VkConfig.InnerKeysDistinct | via/via_system.cpp:1507-1522 | keys of rows and cells never clash |
| LibraryPath.DetermineJsonLibraryPath | via/via_system.cpp:261-301 | the loops compute the resolved path, with no read behind the end of the string; an absolute library path is returned as it is |
| LibraryPath.FilePathMeans | via/via_system.cpp:271-278 | a file's path means its directory and its name |
| LibraryPath.ResolvesIff | via/via_system.cpp:261-301 | for any JSON file path and any relative library path: the returned path leads where the relative path leads from the JSON file's directory, exactly if each leading "../" takes off a component that is a name and not the first, or the path is absolute and the rest climbs to the root in any case; for a lone file name, exactly if it is "." without a "../" or ".." with one |
| LibraryPath.NamedResolvesIff | via/via_system.cpp:261-301 | in a path of names: exactly if it is absolute or there are fewer leading "../" than directories |
| LibraryPath.LeavesOnce | via/via_system.cpp:271-296 | for any directory, "../lib" beside "dir/name/file" gives "dir/lib" |
| LibraryPath.StaysHere | via/via_system.cpp:297-303 | "./lib" beside "dir/file" gives "dir/lib" |
| LibraryPath.ComponentsDo | via/via_system.cpp:271-303 | empty components and "." stay, ".." goes up, any other name goes down |

## Left out

- HTML and text output of the api_dump layer: the end-of-frame flag is consumed by the JSON head only, so they follow another invariant.
- Files, environment variables, command lines, processes, windows, git and CMake scripts, calls into the driver: the driver is a two-call enumerator, and what it returns is a parameter.
- The Vulkan registry classes and regular expressions of the generator: tags come as lists of matches in text order, str.format and the evaluated conditions as functions that may fail, and the sets of registry objects as sequences in the order they are iterated.
- The newline that the generator's write function, which is not in the repository, puts behind each piece.
- TemplateExpand.EndFile: requires balanced tags; what the loop does with any other list is `TemplateBuild.BuildTree` with `TemplateBuild.ScanAccepts`.
- Control objects of the generator are values here, not objects whose child list is filled in later.
- vkCreateInstance and vkCreateDevice return early, without a body, when the next layer lacks the function: a call is a head and a body here, and such a head, which leaves a brace and the lock behind, is not modelled.
- ApiDumpJson.RunIsJson: for strings that need no escaping, since an unescaped string can by chance make some other JSON text; `ApiDumpExact.RunDecodesIff` is for all strings.
- ApiDumpRun.Run: takes calls one after another; `ThreadedText.ThreadedIsRun` is about threads.
- ThreadedText.ThreadedIsRun: for a constant dump flag; `SequentialLog.SequentialIff` says that otherwise some interleaving writes what no sequence of calls writes.
- OutputLock, SequentialLog and ThreadedText: runs start with the settings created and the dump flag initialised, so two threads that create the settings at once, outside the lock, are not modelled.
- Indentation beyond the constant strings of spaces and tabs in api_dump.h, and the flushing of streams.
- A number that atol cannot represent is taken as the largest one, and a number that sscanf or atoi cannot represent as the low 32 bits of the nearest long, as glibc does.
- PNextChain: the lines that the source repeats for each structure type are one method called in a loop over a table of types, and the fields of a structure are one payload.
- PNextChain.PhysicalDeviceData.FillPNextChain: for chains of the application, which hold none of the layer's own structures; the version it tests is the configured one, a field apart from the driver's.
- Null string arguments, which the screenshot layer's parser turns away.
- Enumeration.GetToolProperties: requires memory for the slots that the layers write to, which with a capacity of 0 is one.
- 32-bit overflow of the screenshot layer's frame counter, and requests made after the first present; the last frame of a range is the sum of C ints, which is taken to wrap.
- The rest of writePPM (image copies and format choices), and its error paths.
- Ppm.WritePixels: bytes of memory and file are sequences, not streams and pointers.
- LibraryPath.ResolvesIff: POSIX separator only, since Windows has its own test for absolute paths; a path means names after "." and ".." are worked off, without symbolic links.
- The portability entry that EnumerateDeviceExtensionProperties writes over the last copied slot, per-field GetValue and TransferValue lists, format tables, layer tables, the monitor layer and version selection in VIA: repetitive or easy.
