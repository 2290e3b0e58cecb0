/** The loop over the entries of the `Content_List` sheet: a flow for every
    `Conversation` entry, until the first entry whose sheet is missing. The
    workbook is given as a map from sheet name to the rows of that sheet. */
module ContentList {
  import opened JsValues
  import opened FlowExport
  import opened SourceRows
  import opened NodeBuilders
  import opened SheetAssembly

  datatype ContentListItem = ContentListItem(
    sheetName: string,
    contentType: string,
    character: Option<string>,
    entryCondition: Option<string>)

  predicate IsConversation(item: ContentListItem)
  {
    item.contentType == "Conversation"
  }

  /** The `Conversation` entries, in order. */
  function Conversations(items: seq<ContentListItem>): seq<ContentListItem>
  {
    if items == [] then []
    else Conversations(items[..|items| - 1]) + (if IsConversation(items[|items| - 1]) then [items[|items| - 1]] else [])
  }

  /** The flow built for a conversation sheet whose pass starts at uuid
      `base`: the initial flow of the sheet, holding the nodes its rows
      yield. */
  predicate BuiltFor(f: Flow, sheetName: string, sheet: seq<SheetRow>, base: Uuid)
  {
    f == NewFlow(sheetName).(nodes := SheetNodes(sheet, base).nodes)
  }

  /** Lines 128-187 for one conversation sheet: a fresh flow and an empty
      `nodesById`, then the row loop; `ok` is false when a row threw. */
  method BuildConversationFlow(sheetName: string, sheet: seq<SheetRow>, firstUuid: Uuid)
    returns (flow: Flow, ok: bool, nextUuid: Uuid)
    ensures ok <==> SheetResolves(sheet)
    ensures ok ==> BuiltFor(flow, sheetName, sheet, firstUuid) && nextUuid == SheetNodes(sheet, firstUuid).next
    ensures ok ==> |flow.nodes| == SendMessageRows(sheet) + VarConditionRows(sheet)
  {
    var assembler := new SheetAssembler(sheetName, sheet, firstUuid);
    ok := assembler.ProcessRows();
    SheetNodeCount(sheet, firstUuid);
    flow, nextUuid := assembler.flow, assembler.nextUuid;
  }

  /** `flows[k]` is the flow built for the `k`-th of the given entries, its
      pass starting at uuid `bases[k]`. */
  predicate FlowsFor(flows: seq<Flow>, bases: seq<Uuid>, items: seq<ContentListItem>, sheets: map<string, seq<SheetRow>>)
  {
    && |flows| == |items| == |bases|
    && forall k :: 0 <= k < |flows| ==>
      items[k].sheetName in sheets && BuiltFor(flows[k], items[k].sheetName, sheets[items[k].sheetName], bases[k])
  }

  /** The entries before `reached` have been handled: each names a sheet of
      the workbook, each `Conversation` sheet went through without a throw,
      and `flows` holds their flows in order. */
  predicate Handled(contentList: seq<ContentListItem>, sheets: map<string, seq<SheetRow>>, reached: nat, flows: seq<Flow>, bases: seq<Uuid>)
  {
    && reached <= |contentList|
    && (forall k :: 0 <= k < reached ==> contentList[k].sheetName in sheets)
    && (forall k :: 0 <= k < reached && IsConversation(contentList[k]) ==>
          SheetResolves(sheets[contentList[k].sheetName]))
    && FlowsFor(flows, bases, Conversations(contentList[..reached]), sheets)
  }

  /** Taking one more entry extends the `Conversation` entries by that entry
      when it is one. */
  lemma ConversationsStep(items: seq<ContentListItem>, k: nat)
    requires k < |items|
    ensures Conversations(items[..k + 1]) ==
      Conversations(items[..k]) + (if IsConversation(items[k]) then [items[k]] else [])
  {
    assert items[..k + 1][..k] == items[..k];
    assert Conversations(items[..k]) + [] == Conversations(items[..k]);
  }

  /** An entry that is not a `Conversation` is passed over. */
  lemma HandledSkip(contentList: seq<ContentListItem>, sheets: map<string, seq<SheetRow>>, reached: nat, flows: seq<Flow>, bases: seq<Uuid>)
    requires Handled(contentList, sheets, reached, flows, bases)
    requires reached < |contentList| && contentList[reached].sheetName in sheets
    requires !IsConversation(contentList[reached])
    ensures Handled(contentList, sheets, reached + 1, flows, bases)
  {
    ConversationsStep(contentList, reached);
  }

  /** A `Conversation` entry adds the flow built for its sheet. */
  lemma HandledAppend(contentList: seq<ContentListItem>, sheets: map<string, seq<SheetRow>>, reached: nat,
                      flows: seq<Flow>, bases: seq<Uuid>, flow: Flow, base: Uuid)
    requires Handled(contentList, sheets, reached, flows, bases)
    requires reached < |contentList| && contentList[reached].sheetName in sheets
    requires IsConversation(contentList[reached])
    requires SheetResolves(sheets[contentList[reached].sheetName])
    requires BuiltFor(flow, contentList[reached].sheetName, sheets[contentList[reached].sheetName], base)
    ensures Handled(contentList, sheets, reached + 1, flows + [flow], bases + [base])
  {
    ConversationsStep(contentList, reached);
    var items := Conversations(contentList[..reached]);
    assert Conversations(contentList[..reached + 1]) == items + [contentList[reached]];
    forall k | 0 <= k < |flows| + 1
      ensures (items + [contentList[reached]])[k].sheetName in sheets
      ensures BuiltFor((flows + [flow])[k], (items + [contentList[reached]])[k].sheetName,
                       sheets[(items + [contentList[reached]])[k].sheetName], (bases + [base])[k])
    {
      if k < |flows| {
        assert (items + [contentList[reached]])[k] == items[k];
        assert (flows + [flow])[k] == flows[k];
        assert (bases + [base])[k] == bases[k];
      }
    }
  }

  /** The uuid supply is threaded from flow to flow: the first pass starts at
      `firstUuid` and each later pass starts where the previous one left the
      supply. */
  predicate Chained(bases: seq<Uuid>, items: seq<ContentListItem>, sheets: map<string, seq<SheetRow>>, firstUuid: Uuid)
  {
    && |bases| == |items|
    && (forall k :: 0 <= k < |items| ==> items[k].sheetName in sheets)
    && (|bases| > 0 ==> bases[0] == firstUuid)
    && forall k :: 0 <= k < |bases| - 1 ==>
      bases[k + 1] == SheetNodes(sheets[items[k].sheetName], bases[k]).next
  }

  /** Where the supply stands once every pass in `bases` is over. */
  function SupplyAfter(bases: seq<Uuid>, items: seq<ContentListItem>, sheets: map<string, seq<SheetRow>>, firstUuid: Uuid): (u: Uuid)
    requires |bases| == |items|
    requires forall k :: 0 <= k < |items| ==> items[k].sheetName in sheets
    ensures |bases| > 0 ==> bases[|bases| - 1] <= u
  {
    if |bases| == 0 then firstUuid
    else SheetNodes(sheets[items[|bases| - 1].sheetName], bases[|bases| - 1]).next
  }

  /** An entry that is not a `Conversation` leaves the supply alone. */
  lemma ChainedSkip(contentList: seq<ContentListItem>, sheets: map<string, seq<SheetRow>>, reached: nat,
                    bases: seq<Uuid>, firstUuid: Uuid)
    requires reached < |contentList| && !IsConversation(contentList[reached])
    requires Chained(bases, Conversations(contentList[..reached]), sheets, firstUuid)
    ensures Chained(bases, Conversations(contentList[..reached + 1]), sheets, firstUuid)
    ensures SupplyAfter(bases, Conversations(contentList[..reached + 1]), sheets, firstUuid)
         == SupplyAfter(bases, Conversations(contentList[..reached]), sheets, firstUuid)
  {
    ConversationsStep(contentList, reached);
  }

  /** A `Conversation` entry's pass starts where the supply stood and leaves
      it past that sheet's nodes. */
  lemma ChainedAppend(contentList: seq<ContentListItem>, sheets: map<string, seq<SheetRow>>, reached: nat,
                      bases: seq<Uuid>, firstUuid: Uuid, base: Uuid)
    requires reached < |contentList| && IsConversation(contentList[reached])
    requires contentList[reached].sheetName in sheets
    requires Chained(bases, Conversations(contentList[..reached]), sheets, firstUuid)
    requires base == SupplyAfter(bases, Conversations(contentList[..reached]), sheets, firstUuid)
    ensures Chained(bases + [base], Conversations(contentList[..reached + 1]), sheets, firstUuid)
    ensures SupplyAfter(bases + [base], Conversations(contentList[..reached + 1]), sheets, firstUuid)
         == SheetNodes(sheets[contentList[reached].sheetName], base).next
  {
    ConversationsStep(contentList, reached);
    var items := Conversations(contentList[..reached]);
    var items' := items + [contentList[reached]];
    assert Conversations(contentList[..reached + 1]) == items';
    forall k | 0 <= k < |items'|
      ensures items'[k].sheetName in sheets
    {
      if k < |items| {
        assert items'[k] == items[k];
      }
    }
    forall k | 0 <= k < |bases + [base]| - 1
      ensures (bases + [base])[k + 1] == SheetNodes(sheets[items'[k].sheetName], (bases + [base])[k]).next
    {
      assert items'[k] == items[k];
      assert (bases + [base])[k] == bases[k];
      if k + 1 < |bases| {
        assert (bases + [base])[k + 1] == bases[k + 1];
      }
    }
  }

  /** Along a chain the passes start at ever larger uuids. */
  lemma {:induction false} ChainedBasesGrow(bases: seq<Uuid>, items: seq<ContentListItem>,
                                            sheets: map<string, seq<SheetRow>>, firstUuid: Uuid, j: nat, k: nat)
    requires Chained(bases, items, sheets, firstUuid)
    requires j < k < |bases|
    ensures SheetNodes(sheets[items[j].sheetName], bases[j]).next <= bases[k]
    decreases k
  {
    if j + 1 < k {
      ChainedBasesGrow(bases, items, sheets, firstUuid, j, k - 1);
      assert bases[k] == SheetNodes(sheets[items[k - 1].sheetName], bases[k - 1]).next;
    }
  }

  /** Flows built one after another along the supply never share a uuid:
      every node of an earlier flow has a smaller uuid than every node of a
      later one. */
  lemma FlowUuidsDisjoint(flows: seq<Flow>, bases: seq<Uuid>, items: seq<ContentListItem>,
                          sheets: map<string, seq<SheetRow>>, firstUuid: Uuid)
    requires FlowsFor(flows, bases, items, sheets)
    requires Chained(bases, items, sheets, firstUuid)
    ensures forall j, k, a, b :: 0 <= j < k < |flows| && 0 <= a < |flows[j].nodes| && 0 <= b < |flows[k].nodes| ==>
      flows[j].nodes[a].uuid < flows[k].nodes[b].uuid
  {
    forall j, k, a, b | 0 <= j < k < |flows| && 0 <= a < |flows[j].nodes| && 0 <= b < |flows[k].nodes|
      ensures flows[j].nodes[a].uuid < flows[k].nodes[b].uuid
    {
      var sj := sheets[items[j].sheetName];
      var sk := sheets[items[k].sheetName];
      SheetNodesFresh(sj, bases[j]);
      SheetNodesFresh(sk, bases[k]);
      ChainedBasesGrow(bases, items, sheets, firstUuid, j, k);
      assert flows[j].nodes == SheetNodes(sj, bases[j]).nodes;
      assert flows[k].nodes == SheetNodes(sk, bases[k]).nodes;
    }
  }

  /** The loop `for (let contentListItem of contentList)`. `reached` is the
      index of the entry the loop stopped at (`|contentList|` when it ran to
      the end); `ok` is false when a row of that entry's sheet threw.
      `bases` are the uuids the supply stood at when each flow's pass began:
      the first is `firstUuid` and each later one is where the previous pass
      left the supply. */
  method ProcessContentList(contentList: seq<ContentListItem>, sheets: map<string, seq<SheetRow>>, firstUuid: Uuid)
    returns (flows: seq<Flow>, reached: nat, ok: bool, ghost bases: seq<Uuid>)
    ensures Handled(contentList, sheets, reached, flows, bases)
    ensures |bases| > 0 ==> bases[0] == firstUuid
    ensures forall k :: 0 <= k < |bases| - 1 ==>
      bases[k + 1] == SheetNodes(sheets[Conversations(contentList[..reached])[k].sheetName], bases[k]).next
    ensures ok && reached < |contentList| ==> contentList[reached].sheetName !in sheets
    ensures !ok ==>
      && reached < |contentList|
      && IsConversation(contentList[reached])
      && contentList[reached].sheetName in sheets
      && !SheetResolves(sheets[contentList[reached].sheetName])
  {
    flows := [];
    reached := 0;
    ok := true;
    bases := [];
    var uuids := firstUuid;
    while reached < |contentList|
      invariant ok && Handled(contentList, sheets, reached, flows, bases)
      invariant Chained(bases, Conversations(contentList[..reached]), sheets, firstUuid)
      invariant uuids == SupplyAfter(bases, Conversations(contentList[..reached]), sheets, firstUuid)
    {
      var item := contentList[reached];
      if item.sheetName !in sheets {
        break;
      }
      if IsConversation(item) {
        var flow;
        var base := uuids;
        flow, ok, uuids := BuildConversationFlow(item.sheetName, sheets[item.sheetName], uuids);
        if !ok {
          return;
        }
        HandledAppend(contentList, sheets, reached, flows, bases, flow, base);
        ChainedAppend(contentList, sheets, reached, bases, firstUuid, base);
        flows := flows + [flow];
        bases := bases + [base];
      } else {
        HandledSkip(contentList, sheets, reached, flows, bases);
        ChainedSkip(contentList, sheets, reached, bases, firstUuid);
      }
      reached := reached + 1;
    }
  }
}
