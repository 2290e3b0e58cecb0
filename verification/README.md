# Conversation-sheet flow builder, modelled in Dafny

This project models the flow builder in `plh/parse_plh_excel.ts`. The script reads an
Excel workbook. Its `Content_List` sheet names the other sheets. For every entry whose
content type is `Conversation`, the script walks that sheet's rows and builds a
chatbot flow in the RapidPro export shape:

- a row with a truthy `Condition` and `Condition_Var` goes through
  `processContactVariableRow`. That function looks for a router node reachable from the
  row's source rows (`getRouterFromRow`, `getFromNodes`, `getFromRowNumbers`). If none is
  found, it appends a new single-case router node;
- a `Send_message` row yields a node with one `send_msg` action and its quick replies.
  The node is recorded on the row and in `nodesById`.

The model is split by layer:

- `js_values.dfy` (module `JsValues`): the JavaScript behaviour the script leans on.
  This covers truthiness, NaN and `!=`, `String.prototype.split` and `Number.parseInt`.
- `flow_export.dfy` (module `FlowExport`): the export datatypes (node, exit, router,
  category, case, action, flow) and the initial flow of a sheet.
- `source_rows.dfy` (module `SourceRows`): source-row resolution and the router lookup,
  as pure functions over the row sequence. A thrown `TypeError` is an explicit
  `Result` case.
- `node_builders.dfy` (module `NodeBuilders`): the two node literals, and the quick-reply
  loop as a method. It also holds `SheetNodes`, the reference list of nodes a whole
  sheet yields, with its counting, freshness and consistency lemmas.
- `sheet_assembler.dfy` (module `SheetAssembly`): the mutable state of one sheet pass,
  as a class. It holds the rows (into which `NodeUUID` and `rapidProNode` are written),
  `nodesById`, the flow and the uuid supply. `processContactVariableRow`, the
  send-message step and the row loop are methods on this class. The row loop is proved
  to produce exactly `SheetNodes` of the sheet.
- `content_list.dfy` (module `ContentList`): the loop over the content list. It breaks
  at the first entry whose sheet is missing and skips entries that are not
  conversations.

The model follows the code as written, including where it does not do what its
authors evidently meant:

- the filter `num != NaN` keeps every number, NaN included (`NaNFilterKeepsAll`);
- every truthy choice cell adds `Choice_1`, not its own value, to the quick replies
  (`QuickReplies`);
- no exit is ever wired to a destination, so the router lookup never finds a router
  and every condition row with a variable gets a router node of its own
  (`RouterLookupWhileUnwired`, `ProcessRows`);
- `existingRouterNode.router.cases.push()` appends nothing;
- a row without a truthy `From` continues from its own row number (`ImplicitFromIsOwnRow`).

The uuid generator is modelled as a counter that hands out consecutive natural numbers.
The workbook is given as a map from sheet name to its rows.

## Model

| member | source | states |
|---|---|---|
| JsValues.Split | plh/parse_plh_excel.ts:56 | `split(",")` yields one piece more than there are separators, and no piece contains the separator |
| JsValues.SplitJoin | plh/parse_plh_excel.ts:56 | splitting the join of separator-free pieces gives back the same pieces |
| JsValues.JoinSplit | plh/parse_plh_excel.ts:56 | joining the pieces of a split with the separator gives back the text, so no character is lost or added |
| JsValues.DigitRun | plh/parse_plh_excel.ts:57 | the digit prefix `parseInt` reads is all digits and ends at the first non-digit |
| JsValues.ParseInt | plh/parse_plh_excel.ts:57 | `Number.parseInt` of a text with no decimal digit is NaN |
| JsValues.ParseIntDigitPrefix | plh/parse_plh_excel.ts:57 | `parseInt` of an optionally negated run of digits followed by a non-digit reads the value of that run, with its sign, and ignores the rest |
| JsValues.ParseIntSkipsSpace | plh/parse_plh_excel.ts:57 | leading white space does not change what `parseInt` reads |
| JsValues.ParseNumeral | plh/parse_plh_excel.ts:57 | `Number.parseInt` reads back the decimal numeral of every natural number |
| FlowExport.NewFlow | plh/parse_plh_excel.ts:130-144 | the flow a conversation sheet starts with is named after the sheet and holds no nodes |
| FlowExport.NewFlowIdsDistinct | plh/parse_plh_excel.ts:131-132 | sheets with different names start flows with different uuids (`<name>_id`) |
| SourceRows.NaNFilterKeepsAll | plh/parse_plh_excel.ts:58 | the `num != NaN` filter returns its input unchanged, so a NaN from an unparsable token stays in the list |
| SourceRows.FromRowNumbers | plh/parse_plh_excel.ts:50-62 | a truthy number cell gives itself; a non-empty text gives one `parseInt` result per comma-separated token, in order; an absent, zero, empty or other-typed cell gives the row's own sheet row number (index + 2); the result is never empty |
| SourceRows.ExplicitFromRoundTrip | plh/parse_plh_excel.ts:50-59 | a `From` text that lists row numbers separated by commas resolves to exactly those numbers, in order, wherever the row stands |
| SourceRows.LookupNodes | plh/parse_plh_excel.ts:64-68 | the node lookup throws exactly when some row number is NaN or names no row of the sheet; otherwise it yields at most one node per row number |
| SourceRows.LookupFromReferenced | plh/parse_plh_excel.ts:64-68 | every node the lookup yields is the `rapidProNode` of a row that one of the row numbers names |
| SourceRows.LookupSingle | plh/parse_plh_excel.ts:66-67 | one row number yields the node of its row if that row has one, and nothing otherwise |
| SourceRows.LookupConcat | plh/parse_plh_excel.ts:66-67 | the lookup of `a + b` is the lookup of `a` followed by the lookup of `b`; with `LookupSingle` this pins the result down to the nodes of the named rows, in row-number order, skipping rows without a node |
| SourceRows.LookupAllPresent | plh/parse_plh_excel.ts:64-68 | when every referenced row has a node, `getFromNodes` yields exactly those nodes in reference order |
| SourceRows.LookupAllMissing | plh/parse_plh_excel.ts:64-68 | when no referenced row has a node, `getFromNodes` yields an empty list |
| SourceRows.FromNodes | plh/parse_plh_excel.ts:64-68 | `getFromNodes` of a row succeeds exactly when the row's `From` numbers all name rows of the sheet, and then yields only nodes of those rows |
| SourceRows.ImplicitFromIsOwnRow | plh/parse_plh_excel.ts:61-67 | without a truthy `From`, `getFromNodes` yields the row's own node if it has one, and nothing otherwise |
| SourceRows.FirstRouter | plh/parse_plh_excel.ts:71-76 | the lookup throws exactly when some wired source node leads to an id missing from `nodesById`; with no wired node it finds nothing; when it finds nothing, no wired destination has a router; when it finds a node, that node has a router and is the destination of the first wired source node whose destination has one |
| SourceRows.RouterFromRow | plh/parse_plh_excel.ts:70-77 | `getRouterFromRow` throws exactly when `getFromNodes` throws or a wired source node leads to an id missing from `nodesById`; when it finds nothing, no wired destination has a router; when it finds a node, that node has a router and is the destination of the first wired source node whose destination has one |
| SourceRows.RouterLookupWhileUnwired | plh/parse_plh_excel.ts:70-77 | while no row node has a wired first exit, `getRouterFromRow` finds nothing when the row's source numbers all resolve, and throws otherwise |
| NodeBuilders.TruthySlots | plh/parse_plh_excel.ts:158-159 | it counts the truthy cells among `Choice_1`..`Choice_n`, the test the quick-reply loop makes; the count never exceeds n |
| NodeBuilders.QuickReplies | plh/parse_plh_excel.ts:157-162 | the quick-reply loop yields one entry per truthy `Choice_1`..`Choice_10` cell, and every entry is the `Choice_1` cell; it equals the reference list `QuickReplyList` |
| NodeBuilders.RouterNode | plh/parse_plh_excel.ts:86-116 | the new router node has no actions and one exit with a null destination; its router is a `switch` on `@fields.` + the condition variable with no default category; it has one category named after the condition and pointing at that exit, and one `has_any_word` case on the condition pointing at that category; its four uuids are distinct, come from the next four of the supply, and make the router consistent |
| NodeBuilders.SendMessageNode | plh/parse_plh_excel.ts:163-181 | the send-message node has no router and one exit with an undefined destination; it has one `send_msg` action carrying the row's text, no attachments and the given quick replies; its three uuids are distinct and come from the next three of the supply |
| NodeBuilders.RowNodes | plh/parse_plh_excel.ts:147-186 | one row adds a node for each of its kinds (condition with variable, `Send_message`), the router node first, and uses four uuids for the router and three for the send node |
| NodeBuilders.RowSendNode | plh/parse_plh_excel.ts:163-185 | the node a `Send_message` row records is the last node the row adds to the flow |
| NodeBuilders.SheetNodes | plh/parse_plh_excel.ts:146-186 | the row loop never moves the uuid supply backwards and adds at most two nodes per row |
| NodeBuilders.SheetNodesStep | plh/parse_plh_excel.ts:146-186 | the nodes of the first i+1 rows are those of the first i rows followed by those of row i, and row i adds its send-message node, if any, to `nodesById` |
| NodeBuilders.SheetNodeCount | plh/parse_plh_excel.ts:146-186 | a sheet yields one node per `Send_message` row plus one per condition row with a condition variable, and uses three uuids per send row and four per router |
| NodeBuilders.RowNodesFresh | plh/parse_plh_excel.ts:147-186 | the nodes one row yields have increasing uuids drawn from the supply, and consistent routers |
| NodeBuilders.SheetNodesFresh | plh/parse_plh_excel.ts:146-186 | the node uuids of a sheet's flow are drawn from the supply in strictly increasing order, so no two nodes share a uuid |
| NodeBuilders.SheetNodesConsistent | plh/parse_plh_excel.ts:146-186 | in every node of a sheet's flow that has a router, each case names one of its categories and each category names one of the node's exits |
| NodeBuilders.SheetNodesByIdRange | plh/parse_plh_excel.ts:184 | every key of the final `nodesById` is a uuid the sheet's rows drew from the supply |
| NodeBuilders.SheetNodesByIdLookup | plh/parse_plh_excel.ts:182-184 | the final `nodesById` maps the uuid of every `Send_message` row's node to that very node; no later row overwrites it |
| SheetAssembly.SheetAssembler.constructor | plh/parse_plh_excel.ts:128-145 | the pass starts with the sheet's rows carrying no nodes, an empty `nodesById`, and the flow named after the sheet with uuid `<name>_id`, no nodes, revision 0 and a 60-minute expiry |
| SheetAssembly.SheetAssembler.FreshUuid | plh/parse_plh_excel.ts:87 | each call of `uuidv4()` returns the supply's next value and advances it, so no value is handed out twice |
| SheetAssembly.SheetAssembler.AddRouterNode | plh/parse_plh_excel.ts:86-116 | the branch without a router appends exactly `RouterNode` of the row to the flow, uses four uuids, and keeps rows and `nodesById` linked |
| SheetAssembly.SheetAssembler.ProcessContactVariableRow | plh/parse_plh_excel.ts:79-120 | it throws exactly when `getRouterFromRow` throws; when no router is found it appends the router node and uses four uuids; when one is found it changes nothing, since `cases.push()` adds no case |
| SheetAssembly.SheetAssembler.ProcessSendMessageRow | plh/parse_plh_excel.ts:156-185 | the row gets `NodeUUID` and `rapidProNode` set to the new send-message node, `nodesById` maps its uuid to it, and it is appended to the flow; it uses three uuids and keeps rows and `nodesById` linked |
| SheetAssembly.SheetAssembler.ProcessConditionCells | plh/parse_plh_excel.ts:149-155 | a row with a truthy condition and condition variable throws exactly when its `From` numbers do not all resolve, and otherwise appends a router node; any other row changes nothing |
| SheetAssembly.SheetAssembler.ProcessRow | plh/parse_plh_excel.ts:147-186 | one pass of the loop body throws exactly when the row's router lookup throws, and then has touched neither the rows nor `nodesById`; otherwise it appends exactly the row's `RowNodes`, writes the row's send-message node and its uuid into that row only (nothing for other row types), and adds that node to `nodesById` under its uuid and nothing else |
| SheetAssembly.SheetAssembler.PassRow | plh/parse_plh_excel.ts:146-186 | the loop body keeps the invariant that the rows, the flow, the supply and `nodesById` are those of the reference functions for the rows passed so far, or throws only when the sheet does not resolve |
| SheetAssembly.SheetAssembler.ProcessRows | plh/parse_plh_excel.ts:146-187 | the row loop goes through exactly when every condition row with a variable resolves its `From` numbers; the flow's nodes are then exactly `SheetNodes` of the sheet, the rows are `SheetRowsAfter` (each `Send_message` row carries its own node and uuid, every other row nothing), and `nodesById` is `SheetNodesById` |
| ContentList.BuildConversationFlow | plh/parse_plh_excel.ts:127-187 | a conversation sheet's pass succeeds exactly when the sheet resolves; the flow is then the sheet's initial flow holding exactly `SheetNodes` of the sheet, one node per send row and per condition row with a variable |
| ContentList.ConversationsStep | plh/parse_plh_excel.ts:122-127 | one more content-list entry adds itself to the conversation entries exactly when its type is `Conversation` |
| ContentList.HandledSkip | plh/parse_plh_excel.ts:127 | an entry that is not a conversation is passed over and adds no flow |
| ContentList.HandledAppend | plh/parse_plh_excel.ts:127-187 | a conversation entry whose sheet resolves adds its built flow after the earlier ones |
| ContentList.ChainedSkip | plh/parse_plh_excel.ts:127 | an entry that is not a conversation leaves the uuid supply where it stood |
| ContentList.ChainedAppend | plh/parse_plh_excel.ts:127-187 | a conversation entry's pass starts where the supply stood after the earlier passes and leaves it just past that sheet's nodes |
| ContentList.ChainedBasesGrow | plh/parse_plh_excel.ts:87-177 | along the run, every later pass starts at or beyond the point where an earlier pass left the supply |
| ContentList.FlowUuidsDisjoint | plh/parse_plh_excel.ts:87-177 | flows built one after another never share a node uuid: every node of an earlier flow has a smaller uuid than every node of a later flow |
| ContentList.ProcessContentList | plh/parse_plh_excel.ts:122-189 | every entry before the stopping point names an existing sheet; every conversation sheet before it went through; the k-th flow is the initial flow of the k-th conversation entry's sheet holding exactly `SheetNodes` of that sheet from uuid `bases[k]`; the first pass starts at `firstUuid` and each later pass starts where the previous one left the supply; the loop stops early only at an entry whose sheet is missing (the `break`) or at a conversation sheet whose row lookup throws |

## Left out

- Reading the workbook (`xlsx.readFile`, `sheet_to_json`) is left out. A sheet is given as its row sequence, and the workbook as a map from sheet name to rows.
- The missing `Content_List` sheet (`console.error` and `exit()`) is left out, because it is process control and I/O. So are all console output and the missing-sheet warning.
- `uuidv4()` is randomness. It is modelled as a counter handing out consecutive numbers, which keeps the freshness the script relies on.
- JSON export: the script builds the flows and never writes them out. `ContentList.ProcessContentList` returns them so that they can be stated about.
- Fields that are always null (`_ui`, `localization`) and the `metadata` wrapper are flattened or dropped.
- JsValues.ParseInt does not model the `0x` hexadecimal prefix, white space other than space, tab, newline and carriage return, or the loss of precision past 2^53.
- SourceRows.FromRowNumbers: a numeric `From` cell is an integer here. A fractional number read from a sheet would index no row and throw, which the model does not represent.
- SheetAssembly.SheetAssembler.ProcessRows: when a row throws, the contract states only the cells and the linking invariant, not the partly built rows and flow. The script ends at that throw, so nothing reads that state.
- SheetAssembly.SheetAssembler.ProcessRows requires rows that carry no `NodeUUID` yet. A sheet with a `NodeUUID` column of its own is not modelled.
- SheetAssembly.SheetAssembler.ProcessRow: `rows.indexOf(row)` is modelled as the row's index. This assumes the sheet reader yields distinct row objects, which it does.
- Node objects are shared between the rows, `nodesById` and the flow. The model holds them as values, so aliasing is not captured. The only mutation of a shared node in the source is the empty `cases.push()`, so no observable behaviour depends on it.
- `nodesById` lookups of inherited object keys (`"constructor"`, `"__proto__"`) cannot arise, because keys come only from the uuid supply.
- The branch for a condition without a condition variable ("switch on last message choice") is empty in the source. It is modelled as doing nothing.
- The `Media`, `Character` and `Entry_Condition` cells are carried but never read by the script, so no member states anything about them.
