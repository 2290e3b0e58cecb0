/** The nodes a sheet row yields: the router node of `processContactVariableRow`
    and the send-message node of the row loop, with its quick replies; and
    the node list a whole sheet yields, as a reference for the row loop. */
module NodeBuilders {
  import opened JsValues
  import opened FlowExport
  import opened SourceRows

  /** The choice columns are `Choice_1` … `Choice_10`. */
  const ChoiceSlots: nat := 10

  /** `row["Choice_" + i]`: a missing column reads as `undefined`. */
  function Slot(choices: seq<Option<string>>, i: int): Option<string>
  {
    if 1 <= i <= |choices| then choices[i - 1] else None
  }

  /** The number of truthy cells among `Choice_1` … `Choice_n`. */
  function TruthySlots(choices: seq<Option<string>>, n: nat): (count: nat)
    ensures count <= n
  {
    if n == 0 then 0 else TruthySlots(choices, n - 1) + (if Truthy(Slot(choices, n)) then 1 else 0)
  }

  /** The quick replies of a send-message row: `Choice_1`, once for each
      truthy choice cell. */
  function QuickReplyList(choices: seq<Option<string>>): seq<Option<string>>
  {
    seq(TruthySlots(choices, ChoiceSlots), _ => Slot(choices, 1))
  }

  /** The `for (i = 1; i <= 10; i++)` loop that collects the quick replies. */
  method QuickReplies(choices: seq<Option<string>>) returns (replies: seq<Option<string>>)
    ensures |replies| == TruthySlots(choices, ChoiceSlots)
    ensures forall k :: 0 <= k < |replies| ==> replies[k] == Slot(choices, 1)
    ensures replies == QuickReplyList(choices)
  {
    replies := [];
    var i := 1;
    while i <= ChoiceSlots
      invariant 1 <= i <= ChoiceSlots + 1
      invariant |replies| == TruthySlots(choices, i - 1)
      invariant forall k :: 0 <= k < |replies| ==> replies[k] == Slot(choices, 1)
    {
      if Truthy(Slot(choices, i)) {
        replies := replies + [Slot(choices, 1)];
      }
      i := i + 1;
    }
  }

  /** A row that `processContactVariableRow` handles. */
  predicate IsVarCondition(row: SheetRow)
  {
    Truthy(row.condition) && Truthy(row.conditionVar)
  }

  predicate IsSendMessage(row: SheetRow)
  {
    row.rowType == "Send_message"
  }

  /** The identifiers are pairwise distinct. */
  predicate Distinct(ids: seq<Uuid>)
  {
    forall j, k :: 0 <= j < k < |ids| ==> ids[j] != ids[k]
  }

  /** The router node built for a condition row when no router is found;
      its four uuids come from the supply in the order node, exit, category,
      case. */
  function RouterNode(row: SheetRow, base: Uuid): (n: Node)
    ensures n.uuid == base && n.actions == [] && n.router.Some?
    ensures |n.exits| == 1 && n.exits[0].destination == Null && !FirstExitWired(n)
    ensures var rt := n.router.value;
      && rt.routerType == "switch"
      && rt.defaultCategoryUuid == None
      && rt.operand == "@fields." + ToJsString(row.conditionVar)
      && |rt.categories| == 1 && |rt.cases| == 1
      && rt.categories[0].exitUuid == n.exits[0].uuid
      && rt.categories[0].name == row.condition
      && rt.cases[0].categoryUuid == rt.categories[0].uuid
      && rt.cases[0].arguments == [row.condition]
      && rt.cases[0].caseType == "has_any_word"
      && Distinct([n.uuid, n.exits[0].uuid, rt.categories[0].uuid, rt.cases[0].uuid])
      && base <= n.exits[0].uuid < base + 4
      && base <= rt.categories[0].uuid < base + 4
      && base <= rt.cases[0].uuid < base + 4
    ensures RouterConsistent(n)
  {
    var exits := [Exit(base + 1, Null)];
    var categories := [Category(exits[0].uuid, row.condition, base + 2)];
    var cases := [Case([row.condition], categories[0].uuid, "has_any_word", base + 3)];
    var n := Node(base, [], Some(Router("switch", None, cases, categories, "@fields." + ToJsString(row.conditionVar))), exits);
    assert categories[0] in n.router.value.categories;
    assert exits[0] in n.exits;
    n
  }

  /** The node built for a send-message row; its three uuids come from the
      supply in the order node, exit, action. */
  function SendMessageNode(row: SheetRow, replies: seq<Option<string>>, base: Uuid): (n: Node)
    ensures n.uuid == base && n.router.None?
    ensures |n.actions| == 1
    ensures n.actions[0].actionType == "send_msg"
    ensures n.actions[0].text == row.messageText
    ensures n.actions[0].attachments == []
    ensures n.actions[0].quickReplies == replies
    ensures |n.exits| == 1 && n.exits[0].destination == Undefined && !FirstExitWired(n)
    ensures Distinct([n.uuid, n.exits[0].uuid, n.actions[0].uuid])
    ensures base <= n.exits[0].uuid < base + 3 && base <= n.actions[0].uuid < base + 3
    ensures RouterConsistent(n)
  {
    Node(base, [Action([], row.messageText, "send_msg", replies, base + 2)], None, [Exit(base + 1, Undefined)])
  }

  /** Nodes built so far and the next uuid of the supply. */
  datatype Built = Built(nodes: seq<Node>, next: Uuid)

  /** What one row adds to the flow while no router can be found: a router
      node for a condition row with a condition variable, then a
      send-message node for a `Send_message` row. */
  function RowNodes(row: SheetRow, base: Uuid): (r: Built)
    ensures |r.nodes| == (if IsVarCondition(row) then 1 else 0) + (if IsSendMessage(row) then 1 else 0)
    ensures r.next == base + (if IsVarCondition(row) then 4 else 0) + (if IsSendMessage(row) then 3 else 0)
    ensures IsVarCondition(row) ==> r.nodes[0] == RouterNode(row, base)
  {
    var afterCondition := if IsVarCondition(row) then Built([RouterNode(row, base)], base + 4) else Built([], base);
    if IsSendMessage(row) then
      Built(afterCondition.nodes + [SendMessageNode(row, QuickReplyList(row.choices), afterCondition.next)],
            afterCondition.next + 3)
    else afterCondition
  }

  /** The nodes the rows of a sheet add to its flow, in row order. */
  function SheetNodes(sheet: seq<SheetRow>, base: Uuid): (r: Built)
    ensures base <= r.next
    ensures |r.nodes| <= 2 * |sheet|
    decreases |sheet|
  {
    if sheet == [] then Built([], base)
    else
      var before := SheetNodes(sheet[..|sheet| - 1], base);
      var last := RowNodes(sheet[|sheet| - 1], before.next);
      Built(before.nodes + last.nodes, last.next)
  }

  /** The send-message node of a `Send_message` row whose nodes start at
      uuid `base`: it follows the row's router node, if there is one. */
  function RowSendNode(row: SheetRow, base: Uuid): (n: Node)
    requires IsSendMessage(row)
    ensures var added := RowNodes(row, base).nodes;
      added != [] && added[|added| - 1] == n
  {
    SendMessageNode(row, QuickReplyList(row.choices), if IsVarCondition(row) then base + 4 else base)
  }

  /** A row after its pass, its nodes starting at uuid `base`: a
      `Send_message` row carries its send-message node and that node's uuid;
      any other row carries nothing. */
  function ProcessedRow(row: SheetRow, base: Uuid): ConversationRow
  {
    if IsSendMessage(row) then
      var n := RowSendNode(row, base);
      ConversationRow(row, Some(n.uuid), Some(n))
    else ConversationRow(row, None, None)
  }

  /** The rows of a sheet after the row loop. */
  function SheetRowsAfter(sheet: seq<SheetRow>, base: Uuid): (rows: seq<ConversationRow>)
  {
    seq(|sheet|, j requires 0 <= j < |sheet| => ProcessedRow(sheet[j], SheetNodes(sheet[..j], base).next))
  }

  /** `nodesById` after the row loop: the send-message node of every
      `Send_message` row, under its uuid. */
  function SheetNodesById(sheet: seq<SheetRow>, base: Uuid): map<Uuid, Node>
    decreases |sheet|
  {
    if sheet == [] then map[]
    else
      var before := SheetNodesById(sheet[..|sheet| - 1], base);
      var last := sheet[|sheet| - 1];
      if IsSendMessage(last) then
        var n := RowSendNode(last, SheetNodes(sheet[..|sheet| - 1], base).next);
        before[n.uuid := n]
      else before
  }

  /** The nodes of the first `i + 1` rows are those of the first `i` rows
      followed by those of row `i`, and row `i` adds its send-message node,
      if any, to `nodesById`. */
  lemma SheetNodesStep(sheet: seq<SheetRow>, i: nat, base: Uuid)
    requires i < |sheet|
    ensures var before := SheetNodes(sheet[..i], base);
      var last := RowNodes(sheet[i], before.next);
      SheetNodes(sheet[..i + 1], base) == Built(before.nodes + last.nodes, last.next)
    ensures SheetNodesById(sheet[..i + 1], base) ==
      if IsSendMessage(sheet[i]) then
        var n := RowSendNode(sheet[i], SheetNodes(sheet[..i], base).next);
        SheetNodesById(sheet[..i], base)[n.uuid := n]
      else SheetNodesById(sheet[..i], base)
  {
    assert sheet[..i + 1][..i] == sheet[..i];
  }

  function SendMessageRows(sheet: seq<SheetRow>): nat
  {
    if sheet == [] then 0
    else SendMessageRows(sheet[..|sheet| - 1]) + (if IsSendMessage(sheet[|sheet| - 1]) then 1 else 0)
  }

  function VarConditionRows(sheet: seq<SheetRow>): nat
  {
    if sheet == [] then 0
    else VarConditionRows(sheet[..|sheet| - 1]) + (if IsVarCondition(sheet[|sheet| - 1]) then 1 else 0)
  }

  /** A sheet's flow holds one node per `Send_message` row plus one per
      condition row with a condition variable; each row kind uses up three
      and four uuids of the supply. */
  lemma {:induction false} SheetNodeCount(sheet: seq<SheetRow>, base: Uuid)
    ensures |SheetNodes(sheet, base).nodes| == SendMessageRows(sheet) + VarConditionRows(sheet)
    ensures SheetNodes(sheet, base).next == base + 3 * SendMessageRows(sheet) + 4 * VarConditionRows(sheet)
  {
    if sheet != [] {
      SheetNodeCount(sheet[..|sheet| - 1], base);
    }
  }

  /** The nodes one row adds take their uuids from the supply in increasing
      order, and every one of them has a consistent router. */
  lemma RowNodesFresh(row: SheetRow, base: Uuid)
    ensures var b := RowNodes(row, base);
      && base <= b.next
      && (forall k :: 0 <= k < |b.nodes| ==> base <= b.nodes[k].uuid < b.next)
      && (forall j, k :: 0 <= j < k < |b.nodes| ==> b.nodes[j].uuid < b.nodes[k].uuid)
      && (forall k :: 0 <= k < |b.nodes| ==> RouterConsistent(b.nodes[k]))
  {
  }

  /** The node uuids of a sheet's flow come from the supply in increasing
      order, so they are distinct. */
  lemma {:induction false} SheetNodesFresh(sheet: seq<SheetRow>, base: Uuid)
    ensures var b := SheetNodes(sheet, base);
      && base <= b.next
      && (forall k :: 0 <= k < |b.nodes| ==> base <= b.nodes[k].uuid < b.next)
      && (forall j, k :: 0 <= j < k < |b.nodes| ==> b.nodes[j].uuid < b.nodes[k].uuid)
  {
    if sheet != [] {
      var before := SheetNodes(sheet[..|sheet| - 1], base);
      SheetNodesFresh(sheet[..|sheet| - 1], base);
      var last := RowNodes(sheet[|sheet| - 1], before.next);
      RowNodesFresh(sheet[|sheet| - 1], before.next);
      var all := before.nodes + last.nodes;
      assert SheetNodes(sheet, base) == Built(all, last.next);
      forall k | 0 <= k < |all| ensures base <= all[k].uuid < last.next {
        if k < |before.nodes| {
          assert all[k] == before.nodes[k];
        } else {
          assert all[k] == last.nodes[k - |before.nodes|];
        }
      }
      forall j, k | 0 <= j < k < |all| ensures all[j].uuid < all[k].uuid {
        if k < |before.nodes| {
          assert all[j] == before.nodes[j] && all[k] == before.nodes[k];
        } else if j < |before.nodes| {
          assert all[j] == before.nodes[j];
          assert all[k] == last.nodes[k - |before.nodes|];
        } else {
          assert all[j] == last.nodes[j - |before.nodes|];
          assert all[k] == last.nodes[k - |before.nodes|];
        }
      }
    }
  }

  /** Every node of a sheet's flow has a consistent router: its cases name
      its categories and its categories name its exits. */
  lemma {:induction false} SheetNodesConsistent(sheet: seq<SheetRow>, base: Uuid)
    ensures forall k :: 0 <= k < |SheetNodes(sheet, base).nodes| ==> RouterConsistent(SheetNodes(sheet, base).nodes[k])
  {
    if sheet != [] {
      var before := SheetNodes(sheet[..|sheet| - 1], base);
      SheetNodesConsistent(sheet[..|sheet| - 1], base);
      var last := RowNodes(sheet[|sheet| - 1], before.next);
      RowNodesFresh(sheet[|sheet| - 1], before.next);
      var all := before.nodes + last.nodes;
      assert SheetNodes(sheet, base).nodes == all;
      forall k | 0 <= k < |all| ensures RouterConsistent(all[k]) {
        if k < |before.nodes| {
          assert all[k] == before.nodes[k];
        } else {
          assert all[k] == last.nodes[k - |before.nodes|];
        }
      }
    }
  }

  /** Every key of the final `nodesById` is a uuid the sheet's rows drew
      from the supply. */
  lemma {:induction false} SheetNodesByIdRange(sheet: seq<SheetRow>, base: Uuid)
    ensures forall id :: id in SheetNodesById(sheet, base) ==> base <= id < SheetNodes(sheet, base).next
  {
    if sheet != [] {
      var prefix := sheet[..|sheet| - 1];
      var last := sheet[|sheet| - 1];
      SheetNodesByIdRange(prefix, base);
      SheetNodesFresh(prefix, base);
      var b := SheetNodes(prefix, base).next;
      RowNodesFresh(last, b);
      if IsSendMessage(last) {
        var added := RowNodes(last, b).nodes;
        assert RowSendNode(last, b) == added[|added| - 1];
      }
    }
  }

  /** The final `nodesById` maps the uuid of every `Send_message` row's node
      to that node: no later row reuses its key. */
  lemma {:induction false} SheetNodesByIdLookup(sheet: seq<SheetRow>, base: Uuid, j: nat)
    requires j < |sheet| && IsSendMessage(sheet[j])
    ensures var n := RowSendNode(sheet[j], SheetNodes(sheet[..j], base).next);
      n.uuid in SheetNodesById(sheet, base) && SheetNodesById(sheet, base)[n.uuid] == n
  {
    var prefix := sheet[..|sheet| - 1];
    var last := sheet[|sheet| - 1];
    if j < |sheet| - 1 {
      assert prefix[..j] == sheet[..j] && prefix[j] == sheet[j];
      SheetNodesByIdLookup(prefix, base, j);
      SheetNodesByIdRange(prefix, base);
      if IsSendMessage(last) {
        var b := SheetNodes(prefix, base).next;
        RowNodesFresh(last, b);
        var added := RowNodes(last, b).nodes;
        assert RowSendNode(last, b) == added[|added| - 1];
      }
    } else {
      assert prefix == sheet[..j];
    }
  }
}
