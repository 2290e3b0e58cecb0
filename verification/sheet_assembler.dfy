/** The pass over one conversation sheet: the state the script keeps while it
    walks the rows (the rows themselves, `nodesById`, the flow and the uuid
    supply), `processContactVariableRow`, the send-message step, and the row
    loop. */
module SheetAssembly {
  import opened JsValues
  import opened FlowExport
  import opened SourceRows
  import opened NodeBuilders

  /** Every condition row with a condition variable resolves its `From`
      row numbers to rows of the sheet, so the row loop throws nowhere. */
  predicate SheetResolves(sheet: seq<SheetRow>)
  {
    forall j :: 0 <= j < |sheet| && IsVarCondition(sheet[j]) ==> FromResolves(sheet[j], j, |sheet|)
  }

  /** The rows of `sheet` once the loop has passed its first `n` rows: those
      carry what their pass wrote, the others nothing yet. */
  predicate RowsPassed(rows: seq<ConversationRow>, sheet: seq<SheetRow>, base: Uuid, n: nat)
  {
    && |rows| == |sheet|
    && forall j :: 0 <= j < |rows| ==>
         rows[j] == if j < n then ProcessedRow(sheet[j], SheetNodes(sheet[..j], base).next)
                    else ConversationRow(sheet[j], None, None)
  }

  /** Passing row `n` writes its processed form into it. */
  lemma RowsPassedStep(rows: seq<ConversationRow>, sheet: seq<SheetRow>, base: Uuid, n: nat)
    requires RowsPassed(rows, sheet, base, n) && n < |sheet|
    ensures RowsPassed(rows[n := ProcessedRow(sheet[n], SheetNodes(sheet[..n], base).next)], sheet, base, n + 1)
  {
  }

  /** Once every row is passed, the rows are those of `SheetRowsAfter`. */
  lemma RowsPassedAll(rows: seq<ConversationRow>, sheet: seq<SheetRow>, base: Uuid)
    requires RowsPassed(rows, sheet, base, |sheet|)
    ensures rows == SheetRowsAfter(sheet, base)
  {
  }

  class SheetAssembler {
    /** The sheet's rows; the pass writes `NodeUUID` and `rapidProNode` into them. */
    var rows: seq<ConversationRow>
    var nodesById: map<Uuid, Node>
    var flow: Flow
    /** The uuid the next call of the supply returns. */
    var nextUuid: Uuid

    /** The state before the first row: the rows as read, no nodes, and the
        initial flow of the sheet. */
    constructor (sheetName: string, sheet: seq<SheetRow>, firstUuid: Uuid)
      ensures CellsOf(rows) == sheet
      ensures forall j :: 0 <= j < |rows| ==> rows[j].rapidProNode.None? && rows[j].nodeUuid.None?
      ensures nodesById == map[]
      ensures flow == NewFlow(sheetName)
      ensures flow.name == sheetName && flow.uuid == sheetName + "_id" && flow.nodes == []
      ensures nextUuid == firstUuid
    {
      rows := seq(|sheet|, j requires 0 <= j < |sheet| => ConversationRow(sheet[j], None, None));
      nodesById := map[];
      flow := NewFlow(sheetName);
      nextUuid := firstUuid;
    }

    /** `uuidv4()`: a uuid not handed out before. */
    method FreshUuid() returns (id: Uuid)
      modifies this`nextUuid
      ensures id == old(nextUuid) && nextUuid == id + 1
    {
      id := nextUuid;
      nextUuid := nextUuid + 1;
    }

    /** The branch of `processContactVariableRow` that finds no router: a
        router node testing the row's condition variable against its
        condition, appended to the flow. */
    method AddRouterNode(row: SheetRow)
      modifies this`flow, this`nextUuid
      ensures old(Linked()) ==> Linked()
      ensures flow == old(flow).(nodes := old(flow.nodes) + [RouterNode(row, old(nextUuid))])
      ensures nextUuid == old(nextUuid) + 4
    {
      var nodeId := FreshUuid();
      var exitId := FreshUuid();
      var exits := [Exit(exitId, Null)];
      var categoryId := FreshUuid();
      var categories := [Category(exits[0].uuid, row.condition, categoryId)];
      var caseId := FreshUuid();
      var cases := [Case([row.condition], categories[0].uuid, "has_any_word", caseId)];
      var routerNode := Node(nodeId, [], Some(Router("switch", None, cases, categories, "@fields." + ToJsString(row.conditionVar))), exits);
      flow := flow.(nodes := flow.nodes + [routerNode]);
    }

    /** `processContactVariableRow(rows[i], rows, nodesById, flow)`. `ok` is
        false when the router lookup throws. */
    method ProcessContactVariableRow(i: nat) returns (ok: bool)
      requires i < |rows|
      modifies this`flow, this`nextUuid
      ensures old(Linked()) ==> Linked()
      ensures var found := RouterFromRow(old(rows), i, old(nodesById));
        && ok == !found.TypeError?
        && (found == Ok(None) ==>
              flow == old(flow).(nodes := old(flow.nodes) + [RouterNode(rows[i].cells, old(nextUuid))]) &&
              nextUuid == old(nextUuid) + 4)
        && (found != Ok(None) ==> flow == old(flow) && nextUuid == old(nextUuid))
    {
      var existingRouterNode := RouterFromRow(rows, i, nodesById);
      match existingRouterNode
      case TypeError =>
        ok := false;
      case Ok(None) =>
        AddRouterNode(rows[i].cells);
        ok := true;
      case Ok(Some(_)) =>
        // `existingRouterNode.router.cases.push()` appends nothing.
        ok := true;
    }

    /** The send-message step of the row loop for the row at index `i`. */
    method ProcessSendMessageRow(i: nat)
      requires i < |rows|
      modifies this
      ensures old(Linked()) && old(rows)[i].rapidProNode.None? ==> Linked()
      ensures var node := SendMessageNode(old(rows)[i].cells, QuickReplyList(old(rows)[i].cells.choices), old(nextUuid));
        && rows == old(rows)[i := old(rows)[i].(nodeUuid := Some(node.uuid), rapidProNode := Some(node))]
        && nodesById == old(nodesById)[node.uuid := node]
        && flow == old(flow).(nodes := old(flow.nodes) + [node])
        && nextUuid == old(nextUuid) + 3
    {
      var row := rows[i].cells;
      var quickReplies := QuickReplies(row.choices);
      var nodeId := FreshUuid();
      var exitId := FreshUuid();
      var exits := [Exit(exitId, Undefined)];
      var actionId := FreshUuid();
      var sendMessageNode := Node(nodeId, [Action([], row.messageText, "send_msg", quickReplies, actionId)], None, exits);
      rows := rows[i := rows[i].(nodeUuid := Some(nodeId), rapidProNode := Some(sendMessageNode))];
      nodesById := nodesById[nodeId := sendMessageNode];
      flow := flow.(nodes := flow.nodes + [sendMessageNode]);
    }

    /** The row's node is recorded on the row and in `nodesById`, its first
        exit is not wired, and its uuid was handed out already. */
    ghost predicate RowLinked(j: nat)
      reads this
      requires j < |rows| && rows[j].rapidProNode.Some?
    {
      var n := rows[j].rapidProNode.value;
      && rows[j].nodeUuid == Some(n.uuid)
      && n.uuid in nodesById && nodesById[n.uuid] == n
      && !FirstExitWired(n)
      && n.uuid < nextUuid
    }

    /** What the pass keeps true of the nodes recorded so far: each row node
        is linked, and the supply has not handed out any key of `nodesById`
        again. */
    ghost predicate Linked()
      reads this
    {
      && (forall id :: id in nodesById ==> id < nextUuid)
      && (forall j :: 0 <= j < |rows| && rows[j].rapidProNode.Some? ==> RowLinked(j))
    }

    /** The condition step of the row loop for the row at index `i`: a row
        with a truthy `Condition` and `Condition_Var` goes through
        `processContactVariableRow`. `ok` is false when that throws. */
    method ProcessConditionCells(i: nat) returns (ok: bool)
      requires i < |rows| && Linked()
      modifies this`flow, this`nextUuid
      ensures ok <==> (IsVarCondition(rows[i].cells) ==> FromResolves(rows[i].cells, i, |rows|))
      ensures Linked()
      ensures ok ==> var added := if IsVarCondition(rows[i].cells) then [RouterNode(rows[i].cells, old(nextUuid))] else [];
        flow == old(flow).(nodes := old(flow.nodes) + added) && nextUuid == old(nextUuid) + 4 * |added|
    {
      var row := rows[i].cells;
      ok := true;
      if Truthy(row.condition) {
        if Truthy(row.conditionVar) {
          RouterLookupWhileUnwired(rows, i, nodesById);
          ok := ProcessContactVariableRow(i);
        } else {
          // A condition without a condition variable (switch on the last
          // message's choice) is not handled.
        }
      }
      if !IsVarCondition(row) {
        assert old(flow.nodes) + [] == old(flow.nodes);
      }
    }

    /** One pass of the row loop's body, for the row at index `i`. `ok` is
        false when the row throws, which happens before the row or
        `nodesById` is touched. */
    method ProcessRow(i: nat) returns (ok: bool)
      requires i < |rows| && rows[i].rapidProNode.None? && rows[i].nodeUuid.None?
      requires Linked()
      modifies this
      ensures ok <==> (IsVarCondition(old(rows)[i].cells) ==> FromResolves(old(rows)[i].cells, i, |old(rows)|))
      ensures Linked()
      ensures ok ==> rows == old(rows)[i := ProcessedRow(old(rows)[i].cells, old(nextUuid))]
      ensures ok && IsSendMessage(old(rows)[i].cells) ==>
        var n := RowSendNode(old(rows)[i].cells, old(nextUuid)); nodesById == old(nodesById)[n.uuid := n]
      ensures ok && !IsSendMessage(old(rows)[i].cells) ==> nodesById == old(nodesById)
      ensures !ok ==> rows == old(rows) && nodesById == old(nodesById)
      ensures ok ==> var added := RowNodes(old(rows)[i].cells, old(nextUuid));
        flow == old(flow).(nodes := old(flow.nodes) + added.nodes) && nextUuid == added.next
    {
      ok := ProcessConditionCells(i);
      if !ok {
        return;
      }
      var row := rows[i].cells;
      ghost var afterCondition := if IsVarCondition(row) then Built([RouterNode(row, old(nextUuid))], old(nextUuid) + 4) else Built([], old(nextUuid));
      assert flow == old(flow).(nodes := old(flow.nodes) + afterCondition.nodes);
      assert nextUuid == afterCondition.next;
      if row.rowType == "Send_message" {
        ProcessSendMessageRow(i);
        assert old(flow.nodes) + afterCondition.nodes + [flow.nodes[|flow.nodes| - 1]] ==
               old(flow.nodes) + (afterCondition.nodes + [flow.nodes[|flow.nodes| - 1]]);
      } else {
        assert old(rows)[i] == ProcessedRow(row, old(nextUuid));
        assert rows == old(rows)[i := ProcessedRow(row, old(nextUuid))];
      }
    }

    /** The state once the row loop has passed the first `n` rows of
        `sheet`, starting from the flow `flow0` and uuid `base`: the rows,
        the flow, the supply and `nodesById` are those the reference
        functions give for those rows, and none of those rows threw. */
    ghost predicate PassedRows(sheet: seq<SheetRow>, base: Uuid, flow0: Flow, n: nat)
      reads this
    {
      && n <= |sheet|
      && CellsOf(rows) == sheet
      && RowsPassed(rows, sheet, base, n)
      && Linked()
      && (forall j :: 0 <= j < n && IsVarCondition(sheet[j]) ==> FromResolves(sheet[j], j, |sheet|))
      && flow == flow0.(nodes := SheetNodes(sheet[..n], base).nodes)
      && nextUuid == SheetNodes(sheet[..n], base).next
      && nodesById == SheetNodesById(sheet[..n], base)
    }

    /** The loop body for row number `n + 2`, stated against the reference
        functions. */
    method PassRow(n: nat, ghost sheet: seq<SheetRow>, ghost base: Uuid, ghost flow0: Flow) returns (ok: bool)
      requires n < |sheet| && PassedRows(sheet, base, flow0, n)
      modifies this
      ensures ok ==> PassedRows(sheet, base, flow0, n + 1)
      ensures !ok ==> CellsOf(rows) == sheet && Linked() && !SheetResolves(sheet)
    {
      SheetNodesStep(sheet, n, base);
      RowsPassedStep(rows, sheet, base, n);
      assert rows[n] == ConversationRow(sheet[n], None, None);
      ok := ProcessRow(n);
      if !ok {
        assert IsVarCondition(sheet[n]) && !FromResolves(sheet[n], n, |sheet|);
      }
    }

    /** The loop `for (rowNumber = 2; rowNumber < rows.length + 2; rowNumber++)`.
        `ok` is false when a row throws, which ends the pass. */
    method ProcessRows() returns (ok: bool)
      requires forall j :: 0 <= j < |rows| ==> rows[j].rapidProNode.None? && rows[j].nodeUuid.None?
      requires nodesById == map[] && flow.nodes == []
      modifies this
      ensures CellsOf(rows) == CellsOf(old(rows))
      ensures ok <==> SheetResolves(CellsOf(old(rows)))
      ensures ok ==> flow == old(flow).(nodes := SheetNodes(CellsOf(old(rows)), old(nextUuid)).nodes)
      ensures ok ==> nextUuid == SheetNodes(CellsOf(old(rows)), old(nextUuid)).next
      ensures ok ==> rows == SheetRowsAfter(CellsOf(old(rows)), old(nextUuid))
      ensures ok ==> nodesById == SheetNodesById(CellsOf(old(rows)), old(nextUuid))
      ensures Linked()
    {
      ghost var sheet := CellsOf(rows);
      ghost var base := nextUuid;
      ghost var flow0 := flow;
      assert RowsPassed(rows, sheet, base, 0);
      assert sheet[..0] == [];
      ok := true;
      var rowNumber := 2;
      while rowNumber < |rows| + 2
        invariant 2 <= rowNumber <= |rows| + 2
        invariant PassedRows(sheet, base, flow0, rowNumber - 2)
      {
        ok := PassRow(rowNumber - 2, sheet, base, flow0);
        if !ok {
          return;
        }
        rowNumber := rowNumber + 1;
      }
      assert sheet[..|rows|] == sheet;
      RowsPassedAll(rows, sheet, base);
    }
  }
}
