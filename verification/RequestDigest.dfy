/** Hashing a model's whole input piece by piece, and listing the first of its parts. */
module RequestDigest {
  import opened Statuses
  import opened Utf8
  import opened LittleEndian
  import opened Basics
  import opened RequestTrace

  /** A digest without collisions: it is what was hashed. */
  datatype Digest = Digest(of: seq<byte>)

  /** One retained detail: which tool, or which block of which message. */
  datatype Item = ToolItem(index: nat, tool: Tool) | BlockItem(message: nat, index: nat, role: nat, block: Block)

  // ---------------------------------------------------------------- all details, in order

  function ToolItems(ts: seq<Tool>, i: nat): seq<Item>
    requires i <= |ts|
    decreases |ts| - i
  {
    if i == |ts| then [] else [ToolItem(i, ts[i])] + ToolItems(ts, i + 1)
  }

  function BlockItems(m: Message, i: nat, j: nat): seq<Item>
    requires j <= |m.blocks|
    decreases |m.blocks| - j
  {
    if j == |m.blocks| then [] else [BlockItem(i, j, m.role, m.blocks[j])] + BlockItems(m, i, j + 1)
  }

  function MessageItems(ms: seq<Message>, i: nat): seq<Item>
    requires i <= |ms|
    decreases |ms| - i
  {
    if i == |ms| then [] else BlockItems(ms[i], i, 0) + MessageItems(ms, i + 1)
  }

  function Schemas(input: Input): seq<Tool> {
    if input.tools.Some? then input.tools.value.schemas else []
  }

  function AllItems(input: Input): seq<Item> {
    ToolItems(Schemas(input), 0) + MessageItems(input.messages, 0)
  }

  /** The blocks of the messages before i. */
  function Before(ms: seq<Message>, i: nat): nat
    requires i <= |ms|
  {
    if i == 0 then 0 else Before(ms, i - 1) + |ms[i - 1].blocks|
  }

  lemma {:induction false} ToolItemsAre(ts: seq<Tool>, i: nat, k: nat)
    requires i <= |ts|
    ensures |ToolItems(ts, i)| == |ts| - i
    ensures i <= k < |ts| ==> ToolItems(ts, i)[k - i] == ToolItem(k, ts[k])
    decreases |ts| - i
  {
    if i < |ts| { ToolItemsAre(ts, i + 1, k); }
  }

  lemma {:induction false} BlockItemsAre(m: Message, i: nat, j: nat, k: nat)
    requires j <= |m.blocks|
    ensures |BlockItems(m, i, j)| == |m.blocks| - j
    ensures j <= k < |m.blocks| ==> BlockItems(m, i, j)[k - j] == BlockItem(i, k, m.role, m.blocks[k])
    decreases |m.blocks| - j
  {
    if j < |m.blocks| { BlockItemsAre(m, i, j + 1, k); }
  }

  lemma {:induction false} BeforeGrows(ms: seq<Message>, i: nat, j: nat)
    requires i <= j <= |ms|
    ensures Before(ms, i) <= Before(ms, j) && (i < j ==> Before(ms, i) + |ms[i].blocks| <= Before(ms, j))
    decreases j
  {
    if i < j { BeforeGrows(ms, i, j - 1); }
  }

  lemma {:induction false} MessageItemsAre(ms: seq<Message>, from: nat, i: nat, j: nat)
    requires from <= i < |ms| && j < |ms[i].blocks|
    ensures var at := Before(ms, i) - Before(ms, from) + j;
            0 <= at < |MessageItems(ms, from)|
            && MessageItems(ms, from)[at] == BlockItem(i, j, ms[i].role, ms[i].blocks[j])
    decreases |ms| - from
  {
    BlockItemsAre(ms[from], from, 0, j);
    BeforeGrows(ms, from, i);
    if from < i {
      MessageItemsAre(ms, from + 1, i, j);
      BeforeGrows(ms, from + 1, i);
    }
  }

  lemma {:induction false} MessageItemsCount(ms: seq<Message>, from: nat)
    requires from <= |ms|
    ensures |MessageItems(ms, from)| == Before(ms, |ms|) - Before(ms, from)
    decreases |ms| - from
  {
    if from < |ms| {
      BlockItemsAre(ms[from], from, 0, 0);
      MessageItemsCount(ms, from + 1);
    }
  }

  /** The details: each tool at its own place, then each block of each message at its own place; no others. */
  lemma ItemsAre(input: Input, i: nat, j: nat)
    ensures var all, ts, ms := AllItems(input), Schemas(input), input.messages;
            && |all| == |ts| + Before(ms, |ms|)
            && (i < |ts| ==> all[i] == ToolItem(i, ts[i]))
            && (i < |ms| && j < |ms[i].blocks| ==>
                  && |ts| + Before(ms, i) + j < |all|
                  && all[|ts| + Before(ms, i) + j] == BlockItem(i, j, ms[i].role, ms[i].blocks[j]))
  {
    var ts, ms := Schemas(input), input.messages;
    ToolItemsAre(ts, 0, i);
    MessageItemsCount(ms, 0);
    if i < |ms| && j < |ms[i].blocks| { MessageItemsAre(ms, 0, i, j); }
  }

  function Capped(items: seq<Item>): (kept: seq<Item>)
    ensures kept <= items && |kept| <= TRACE_ITEMS
  {
    if |items| <= TRACE_ITEMS then items else items[..TRACE_ITEMS]
  }

  lemma CappedNext(items: seq<Item>, item: Item)
    ensures Capped(items + [item]) == if |items| < TRACE_ITEMS then Capped(items) + [item] else Capped(items)
  {
    if |items| >= TRACE_ITEMS {
      assert (items + [item])[..TRACE_ITEMS] == items[..TRACE_ITEMS];
    }
  }

  // ---------------------------------------------------------------- the incremental hash

  class Trace {
    /** The state of the hash, as what it has absorbed. */
    var absorbed: seq<byte>
    var items: seq<Item>
    var total: nat
    ghost var seen: seq<Item>

    ghost predicate Valid()
      reads this
    {
      items == Capped(seen) && total == |seen|
    }

    constructor ()
      ensures Valid() && absorbed == [] && seen == []
    {
      absorbed, items, total, seen := [], [], 0, [];
    }

    method Word(value: nat)
      modifies this`absorbed
      ensures absorbed == old(absorbed) + Number(value)
    {
      var bytes := new byte[8];
      for i := 0 to 8
        invariant absorbed == old(absorbed)
        invariant forall k :: 0 <= k < i ==> bytes[k] == Number(value)[k]
      {
        LittleAt(value, 8, i);
        bytes[i] := Shifted(value, i) % 256;
      }
      assert bytes[..] == Number(value);
      absorbed := absorbed + bytes[..];
    }

    method Add(t: Text)
      modifies this`absorbed
      ensures absorbed == old(absorbed) + Field(t)
    {
      ghost var before := absorbed;
      var length := if t.Some? then |t.value| else 0;
      Word(if t.Some? then 1 else 0);
      Word(length);
      Together(before, Number(if t.Some? then 1 else 0), Number(length));
      if length > 0 {
        absorbed := absorbed + t.value;
        Together(before, Number(1) + Number(length), t.value);
      }
    }

    method Keep(item: Item)
      requires Valid()
      modifies this`items, this`total, this`seen
      ensures Valid() && seen == old(seen) + [item]
    {
      CappedNext(seen, item);
      if total < TRACE_ITEMS { items := items + [item]; }
      total := total + 1;
      seen := seen + [item];
    }

    method AddTools(ts: seq<Tool>)
      requires Valid()
      modifies this
      ensures Valid() && absorbed == old(absorbed) + EncodeSchemas(ts) && seen == old(seen) + ToolItems(ts, 0)
    {
      ghost var bytes, parts := absorbed + EncodeSchemas(ts), seen + ToolItems(ts, 0);
      assert ts[0..] == ts;
      for i := 0 to |ts|
        invariant Valid() && absorbed + EncodeSchemas(ts[i..]) == bytes && seen + ToolItems(ts, i) == parts
      {
        AddToolAt(ts, i);
      }
    }

    method AddToolAt(ts: seq<Tool>, i: nat)
      requires Valid() && i < |ts|
      modifies this
      ensures Valid() && absorbed + EncodeSchemas(ts[i + 1..]) == old(absorbed) + EncodeSchemas(ts[i..])
      ensures seen + ToolItems(ts, i + 1) == old(seen) + ToolItems(ts, i)
    {
      NextTool(absorbed, seen, ts, i);
      AddTool(ts[i]);
      Keep(ToolItem(i, ts[i]));
    }

    method AddTool(t: Tool)
      modifies this`absorbed
      ensures absorbed == old(absorbed) + EncodeTool(t)
    {
      ghost var before := absorbed;
      Add(t.name);
      Add(t.description);
      Add(t.parameters);
      Regroup3(before, Field(t.name), Field(t.description), Field(t.parameters));
      Together(before + Field(t.name), Field(t.description), Field(t.parameters));
      Together(before, Field(t.name), Field(t.description) + Field(t.parameters));
    }

    method AddBlock(b: Block)
      modifies this`absorbed
      ensures absorbed == old(absorbed) + EncodeBlock(b)
    {
      ghost var before := absorbed;
      Word(b.kind);
      ghost var kind := absorbed;
      Add(b.id);
      ghost var id := absorbed;
      Add(b.name);
      Add(b.text);
      Together(id, Field(b.name), Field(b.text));
      Together(kind, Field(b.id), Field(b.name) + Field(b.text));
      Together(before, Number(b.kind), Field(b.id) + (Field(b.name) + Field(b.text)));
    }

    method AddBlockAt(m: Message, i: nat, j: nat)
      requires Valid() && j < |m.blocks|
      modifies this
      ensures Valid() && absorbed + EncodeBlocks(m.blocks[j + 1..]) == old(absorbed) + EncodeBlocks(m.blocks[j..])
      ensures seen + BlockItems(m, i, j + 1) == old(seen) + BlockItems(m, i, j)
    {
      NextBlock(absorbed, seen, m, i, j);
      AddBlock(m.blocks[j]);
      Keep(BlockItem(i, j, m.role, m.blocks[j]));
    }

    method AddBlocks(m: Message, i: nat)
      requires Valid()
      modifies this
      ensures Valid() && absorbed == old(absorbed) + EncodeBlocks(m.blocks) && seen == old(seen) + BlockItems(m, i, 0)
    {
      ghost var bytes, parts := absorbed + EncodeBlocks(m.blocks), seen + BlockItems(m, i, 0);
      assert m.blocks[0..] == m.blocks;
      for j := 0 to |m.blocks|
        invariant Valid() && absorbed + EncodeBlocks(m.blocks[j..]) == bytes && seen + BlockItems(m, i, j) == parts
      {
        AddBlockAt(m, i, j);
      }
    }

    method AddMessage(m: Message, i: nat)
      requires Valid()
      modifies this
      ensures Valid() && absorbed == old(absorbed) + EncodeMessage(m) && seen == old(seen) + BlockItems(m, i, 0)
    {
      ghost var before := absorbed;
      Word(m.role);
      ghost var role := absorbed;
      Word(|m.blocks|);
      AddBlocks(m, i);
      Together(role, Number(|m.blocks|), EncodeBlocks(m.blocks));
      Together(before, Number(m.role), Number(|m.blocks|) + EncodeBlocks(m.blocks));
    }

    method AddMessages(ms: seq<Message>)
      requires Valid()
      modifies this
      ensures Valid() && absorbed == old(absorbed) + EncodeMessages(ms) && seen == old(seen) + MessageItems(ms, 0)
    {
      ghost var bytes, parts := absorbed + EncodeMessages(ms), seen + MessageItems(ms, 0);
      assert ms[0..] == ms;
      for i := 0 to |ms|
        invariant Valid() && absorbed + EncodeMessages(ms[i..]) == bytes && seen + MessageItems(ms, i) == parts
      {
        NextMessage(absorbed, seen, ms, i);
        AddMessage(ms[i], i);
      }
    }

    method AddToolHeader(tools: Option<Tools>)
      requires Valid()
      modifies this
      ensures Valid() && absorbed == old(absorbed) + EncodeTools(tools)
      ensures seen == old(seen) + ToolItems(if tools.Some? then tools.value.schemas else [], 0)
    {
      ghost var before := absorbed;
      Word(if tools.Some? then 1 else 0);
      ghost var one := absorbed;
      Word(if tools.Some? then tools.value.choice else 0);
      ghost var two := absorbed;
      Word(if tools.Some? then |tools.value.schemas| else 0);
      if tools.Some? {
        var t := tools.value;
        AddTools(t.schemas);
        Together(two, Number(|t.schemas|), EncodeSchemas(t.schemas));
        Together(one, Number(t.choice), Number(|t.schemas|) + EncodeSchemas(t.schemas));
        Together(before, Number(1), Number(t.choice) + (Number(|t.schemas|) + EncodeSchemas(t.schemas)));
      } else {
        Together(before, Number(0), Number(0));
        Together(before, Number(0) + Number(0), Number(0));
        assert seen == old(seen) + [];
      }
    }

    method AddTexts(tag: Text, grammar: Text, schema: Text)
      requires Valid()
      modifies this`absorbed
      ensures Valid() && absorbed == old(absorbed) + (Field(tag) + (Field(grammar) + Field(schema)))
    {
      ghost var before := absorbed;
      Add(tag);
      ghost var one := absorbed;
      Add(grammar);
      Add(schema);
      Together(one, Field(grammar), Field(schema));
      Together(before, Field(tag), Field(grammar) + Field(schema));
    }

    method AddMessageList(ms: seq<Message>)
      requires Valid()
      modifies this
      ensures Valid() && absorbed == old(absorbed) + (Number(|ms|) + EncodeMessages(ms))
      ensures seen == old(seen) + MessageItems(ms, 0)
    {
      ghost var before := absorbed;
      Word(|ms|);
      AddMessages(ms);
      Together(before, Number(|ms|), EncodeMessages(ms));
    }

    method AddAll(tag: Text, input: Input)
      requires Valid() && absorbed == [] && seen == []
      modifies this
      ensures Valid() && absorbed == EncodeWith(tag, input) && seen == AllItems(input)
    {
      AddTexts(tag, input.grammar, input.schema);
      AddToolHeader(input.tools);
      AddMessageList(input.messages);
      Assemble(Field(tag), Field(input.grammar), Field(input.schema), EncodeTools(input.tools),
               Number(|input.messages|) + EncodeMessages(input.messages));
      assert [] + ToolItems(Schemas(input), 0) == ToolItems(Schemas(input), 0);
    }

    /** Everything the model is given goes into the digest, however little of it is listed. */
    method Run(input: Input) returns (digest: Digest, omitted: nat)
      requires Valid() && absorbed == [] && seen == []
      modifies this
      ensures Valid() && digest == Digest(Encode(input)) && items == Capped(AllItems(input))
      ensures items <= AllItems(input) && |items| == if |AllItems(input)| < 128 then |AllItems(input)| else 128
      ensures total == |AllItems(input)| && omitted == |AllItems(input)| - |items|
    {
      AddAll(Tag(), input);
      omitted := if total > TRACE_ITEMS then total - TRACE_ITEMS else 0;
      digest := Digest(absorbed);
    }
  }

  lemma NextTool(absorbed: seq<byte>, seen: seq<Item>, ts: seq<Tool>, i: nat)
    requires i < |ts|
    ensures absorbed + EncodeTool(ts[i]) + EncodeSchemas(ts[i + 1..]) == absorbed + EncodeSchemas(ts[i..])
    ensures seen + [ToolItem(i, ts[i])] + ToolItems(ts, i + 1) == seen + ToolItems(ts, i)
  {
    assert ts[i..][1..] == ts[i + 1..];
    Together(absorbed, EncodeTool(ts[i]), EncodeSchemas(ts[i + 1..]));
    Together(seen, [ToolItem(i, ts[i])], ToolItems(ts, i + 1));
  }

  lemma NextBlock(absorbed: seq<byte>, seen: seq<Item>, m: Message, i: nat, j: nat)
    requires j < |m.blocks|
    ensures absorbed + EncodeBlock(m.blocks[j]) + EncodeBlocks(m.blocks[j + 1..])
            == absorbed + EncodeBlocks(m.blocks[j..])
    ensures seen + [BlockItem(i, j, m.role, m.blocks[j])] + BlockItems(m, i, j + 1) == seen + BlockItems(m, i, j)
  {
    assert m.blocks[j..][1..] == m.blocks[j + 1..];
    Together(absorbed, EncodeBlock(m.blocks[j]), EncodeBlocks(m.blocks[j + 1..]));
    Together(seen, [BlockItem(i, j, m.role, m.blocks[j])], BlockItems(m, i, j + 1));
  }

  lemma NextMessage(absorbed: seq<byte>, seen: seq<Item>, ms: seq<Message>, i: nat)
    requires i < |ms|
    ensures absorbed + EncodeMessage(ms[i]) + EncodeMessages(ms[i + 1..]) == absorbed + EncodeMessages(ms[i..])
    ensures seen + BlockItems(ms[i], i, 0) + MessageItems(ms, i + 1) == seen + MessageItems(ms, i)
  {
    assert ms[i..][1..] == ms[i + 1..];
    Together(absorbed, EncodeMessage(ms[i]), EncodeMessages(ms[i + 1..]));
    Together(seen, BlockItems(ms[i], i, 0), MessageItems(ms, i + 1));
  }

  lemma Assemble(a: seq<byte>, b: seq<byte>, c: seq<byte>, d: seq<byte>, e: seq<byte>)
    ensures ([] + (a + (b + c))) + d + e == a + (b + (c + (d + e)))
  {
    var abc := a + (b + c);
    assert [] + abc == abc;
    Together(abc, d, e);
    Together(a, b + c, d + e);
    Together(b, c, d + e);
  }
}
