/** The framed byte stream that is hashed for a model's whole input, and the bounded list of
  * details kept beside the hash. */
module RequestTrace {
  import opened Statuses
  import opened Utf8
  import opened LittleEndian
  import opened Basics
  import opened Words

  /** Details kept beside the digest. */
  const TRACE_ITEMS: nat := 128

  /** A C string that may be absent. */
  type Text = Option<seq<byte>>

  datatype Block = Block(kind: nat, id: Text, name: Text, text: Text)

  datatype Message = Message(role: nat, blocks: seq<Block>)

  datatype Tool = Tool(name: Text, description: Text, parameters: Text)

  datatype Tools = Tools(choice: nat, schemas: seq<Tool>)

  datatype Input = Input(grammar: Text, schema: Text, tools: Option<Tools>, messages: seq<Message>)

  // ---------------------------------------------------------------- what fits in 64 bits

  predicate TextFits(t: Text) { t.Some? ==> |t.value| < WORD }

  predicate BlockFits(b: Block) { b.kind < WORD && TextFits(b.id) && TextFits(b.name) && TextFits(b.text) }

  predicate MessageFits(m: Message) { m.role < WORD && BlocksFit(m.blocks) }

  predicate BlocksFit(bs: seq<Block>) {
    |bs| < WORD && forall k {:trigger BlockFits(bs[k])} :: 0 <= k < |bs| ==> BlockFits(bs[k])
  }

  predicate ToolFits(t: Tool) { TextFits(t.name) && TextFits(t.description) && TextFits(t.parameters) }

  predicate SchemasFit(ts: seq<Tool>) {
    |ts| < WORD && forall k {:trigger ToolFits(ts[k])} :: 0 <= k < |ts| ==> ToolFits(ts[k])
  }

  predicate MessagesFit(ms: seq<Message>) {
    |ms| < WORD && forall k {:trigger MessageFits(ms[k])} :: 0 <= k < |ms| ==> MessageFits(ms[k])
  }

  predicate Fits(input: Input) {
    && TextFits(input.grammar) && TextFits(input.schema) && MessagesFit(input.messages)
    && (input.tools.Some? ==> input.tools.value.choice < WORD && SchemasFit(input.tools.value.schemas))
  }

  // ---------------------------------------------------------------- the encoding

  function Number(n: nat): (s: seq<byte>)
    ensures |s| == 8
  {
    Little(n, 8)
  }

  function Field(t: Text): seq<byte> {
    match t
    case None => Number(0) + Number(0)
    case Some(text) => Number(1) + Number(|text|) + text
  }

  function EncodeBlock(b: Block): seq<byte> {
    Number(b.kind) + (Field(b.id) + (Field(b.name) + Field(b.text)))
  }

  function EncodeBlocks(bs: seq<Block>): seq<byte> {
    if bs == [] then [] else EncodeBlock(bs[0]) + EncodeBlocks(bs[1..])
  }

  function EncodeMessage(m: Message): seq<byte> {
    Number(m.role) + (Number(|m.blocks|) + EncodeBlocks(m.blocks))
  }

  function EncodeMessages(ms: seq<Message>): seq<byte> {
    if ms == [] then [] else EncodeMessage(ms[0]) + EncodeMessages(ms[1..])
  }

  function EncodeTool(t: Tool): seq<byte> {
    Field(t.name) + (Field(t.description) + Field(t.parameters))
  }

  function EncodeSchemas(ts: seq<Tool>): seq<byte> {
    if ts == [] then [] else EncodeTool(ts[0]) + EncodeSchemas(ts[1..])
  }

  function EncodeTools(tools: Option<Tools>): seq<byte> {
    match tools
    case None => Number(0) + Number(0) + Number(0)
    case Some(t) => Number(1) + (Number(t.choice) + (Number(|t.schemas|) + EncodeSchemas(t.schemas)))
  }

  function Tag(): (t: Text)
    ensures TextFits(t)
  {
    Some(Ascii("asterism-input-contract-v1"))
  }

  function EncodeWith(tag: Text, input: Input): seq<byte> {
    Field(tag) + (Field(input.grammar) + (Field(input.schema) + (EncodeTools(input.tools)
    + (Number(|input.messages|) + EncodeMessages(input.messages)))))
  }

  function Encode(input: Input): seq<byte> {
    EncodeWith(Tag(), input)
  }

  // ---------------------------------------------------------------- the inverse

  datatype Parsed<T> = Parsed(value: T, rest: seq<byte>)

  function DecodeNumber(s: seq<byte>): Option<Parsed<nat>> {
    if |s| < 8 then None else Some(Parsed(Value(s[..8]), s[8..]))
  }

  function DecodeField(s: seq<byte>): Option<Parsed<Text>> {
    match DecodeNumber(s)
    case None => None
    case Some(flag) =>
      match DecodeNumber(flag.rest)
      case None => None
      case Some(n) =>
        if flag.value == 0 then Some(Parsed(None, n.rest))
        else if n.value > |n.rest| then None
        else Some(Parsed(Some(n.rest[..n.value]), n.rest[n.value..]))
  }

  function DecodeBlock(s: seq<byte>): Option<Parsed<Block>> {
    match DecodeNumber(s)
    case None => None
    case Some(kind) =>
      match DecodeField(kind.rest)
      case None => None
      case Some(id) =>
        match DecodeField(id.rest)
        case None => None
        case Some(name) =>
          match DecodeField(name.rest)
          case None => None
          case Some(text) => Some(Parsed(Block(kind.value, id.value, name.value, text.value), text.rest))
  }

  function DecodeBlocks(n: nat, s: seq<byte>): Option<Parsed<seq<Block>>> {
    if n == 0 then Some(Parsed([], s))
    else
      match DecodeBlock(s)
      case None => None
      case Some(b) =>
        match DecodeBlocks(n - 1, b.rest)
        case None => None
        case Some(bs) => Some(Parsed([b.value] + bs.value, bs.rest))
  }

  function DecodeMessage(s: seq<byte>): Option<Parsed<Message>> {
    match DecodeNumber(s)
    case None => None
    case Some(role) =>
      match DecodeNumber(role.rest)
      case None => None
      case Some(n) =>
        match DecodeBlocks(n.value, n.rest)
        case None => None
        case Some(bs) => Some(Parsed(Message(role.value, bs.value), bs.rest))
  }

  function DecodeMessages(n: nat, s: seq<byte>): Option<Parsed<seq<Message>>> {
    if n == 0 then Some(Parsed([], s))
    else
      match DecodeMessage(s)
      case None => None
      case Some(m) =>
        match DecodeMessages(n - 1, m.rest)
        case None => None
        case Some(ms) => Some(Parsed([m.value] + ms.value, ms.rest))
  }

  function DecodeTool(s: seq<byte>): Option<Parsed<Tool>> {
    match DecodeField(s)
    case None => None
    case Some(name) =>
      match DecodeField(name.rest)
      case None => None
      case Some(description) =>
        match DecodeField(description.rest)
        case None => None
        case Some(parameters) =>
          Some(Parsed(Tool(name.value, description.value, parameters.value), parameters.rest))
  }

  function DecodeSchemas(n: nat, s: seq<byte>): Option<Parsed<seq<Tool>>> {
    if n == 0 then Some(Parsed([], s))
    else
      match DecodeTool(s)
      case None => None
      case Some(t) =>
        match DecodeSchemas(n - 1, t.rest)
        case None => None
        case Some(ts) => Some(Parsed([t.value] + ts.value, ts.rest))
  }

  function DecodeTools(s: seq<byte>): Option<Parsed<Option<Tools>>> {
    match DecodeNumber(s)
    case None => None
    case Some(flag) =>
      match DecodeNumber(flag.rest)
      case None => None
      case Some(choice) =>
        match DecodeNumber(choice.rest)
        case None => None
        case Some(n) =>
          if flag.value == 0 then Some(Parsed(None, n.rest))
          else
            match DecodeSchemas(n.value, n.rest)
            case None => None
            case Some(ts) => Some(Parsed(Some(Tools(choice.value, ts.value)), ts.rest))
  }

  function Decode(s: seq<byte>): Option<Parsed<Input>> {
    match DecodeField(s)
    case None => None
    case Some(tag) =>
      match DecodeField(tag.rest)
      case None => None
      case Some(grammar) =>
        match DecodeField(grammar.rest)
        case None => None
        case Some(schema) => DecodeRest(grammar.value, schema.value, schema.rest)
  }

  function DecodeRest(grammar: Text, schema: Text, s: seq<byte>): Option<Parsed<Input>> {
    match DecodeTools(s)
    case None => None
    case Some(tools) =>
      match DecodeNumber(tools.rest)
      case None => None
      case Some(n) =>
        match DecodeMessages(n.value, n.rest)
        case None => None
        case Some(ms) => Some(Parsed(Input(grammar, schema, tools.value, ms.value), ms.rest))
  }

  // ---------------------------------------------------------------- round trips

  lemma Regroup3(a: seq<byte>, b: seq<byte>, c: seq<byte>, rest: seq<byte>)
    ensures (a + (b + c)) + rest == a + (b + (c + rest))
  {
    Together(a, b + c, rest);
    Together(b, c, rest);
  }

  lemma Regroup4(a: seq<byte>, b: seq<byte>, c: seq<byte>, d: seq<byte>, rest: seq<byte>)
    ensures (a + (b + (c + d))) + rest == a + (b + (c + (d + rest)))
  {
    Together(a, b + (c + d), rest);
    Regroup3(b, c, d, rest);
  }

  lemma NumberRoundTrip(n: nat, rest: seq<byte>)
    requires n < WORD
    ensures DecodeNumber(Number(n) + rest) == Some(Parsed(n, rest))
  {
    EightBytes(n);
    assert (Number(n) + rest)[..8] == Number(n);
    assert (Number(n) + rest)[8..] == rest;
  }

  /** An absent text and an empty one are told apart. */
  lemma FieldRoundTrip(t: Text, rest: seq<byte>)
    requires TextFits(t)
    ensures DecodeField(Field(t) + rest) == Some(Parsed(t, rest))
  {
    match t
    case None =>
      NoTextRoundTrip(0, Number(0), rest);
    case Some(text) =>
      TextRoundTrip(1, Number(1), Number(|text|), text, rest);
  }

  lemma NoTextRoundTrip(flag: nat, zero: seq<byte>, rest: seq<byte>)
    requires flag == 0 && zero == Number(flag)
    ensures DecodeField(zero + zero + rest) == Some(Parsed(None, rest))
  {
    NumberRoundTrip(flag, zero + rest);
    NumberRoundTrip(flag, rest);
    assert zero + zero + rest == zero + (zero + rest);
  }

  lemma TextRoundTrip(flag: nat, one: seq<byte>, count: seq<byte>, text: seq<byte>, rest: seq<byte>)
    requires |text| < WORD && 0 < flag < WORD && one == Number(flag) && count == Number(|text|)
    ensures DecodeField(one + count + text + rest) == Some(Parsed(Some(text), rest))
  {
    var tail := text + rest;
    NumberRoundTrip(flag, count + tail);
    NumberRoundTrip(|text|, tail);
    FieldDecodes(flag, one + (count + tail), count + tail, |text|, tail);
    assert one + count + text + rest == one + (count + tail);
    assert tail[..|text|] == text && tail[|text|..] == rest;
  }

  lemma FieldDecodes(flag: nat, s: seq<byte>, afterFlag: seq<byte>, n: nat, tail: seq<byte>)
    requires flag > 0 && DecodeNumber(s) == Some(Parsed(flag, afterFlag))
    requires DecodeNumber(afterFlag) == Some(Parsed(n, tail))
    requires n <= |tail|
    ensures DecodeField(s) == Some(Parsed(Some(tail[..n]), tail[n..]))
  {
  }

  lemma BlockRoundTrip(b: Block, rest: seq<byte>)
    requires BlockFits(b)
    ensures DecodeBlock(EncodeBlock(b) + rest) == Some(Parsed(b, rest))
  {
    var three := Field(b.text) + rest;
    var two := Field(b.name) + three;
    var one := Field(b.id) + two;
    NumberRoundTrip(b.kind, one);
    FieldRoundTrip(b.id, two);
    FieldRoundTrip(b.name, three);
    FieldRoundTrip(b.text, rest);
    Regroup4(Number(b.kind), Field(b.id), Field(b.name), Field(b.text), rest);
  }

  lemma BlocksStep(x: Block, bs: seq<Block>, s: seq<byte>, tail: seq<byte>, rest: seq<byte>)
    requires DecodeBlock(s) == Some(Parsed(x, tail)) && DecodeBlocks(|bs|, tail) == Some(Parsed(bs, rest))
    ensures DecodeBlocks(|bs| + 1, s) == Some(Parsed([x] + bs, rest))
  {
  }

  lemma {:induction false} BlocksRoundTrip(bs: seq<Block>, rest: seq<byte>)
    requires BlocksFit(bs)
    ensures DecodeBlocks(|bs|, EncodeBlocks(bs) + rest) == Some(Parsed(bs, rest))
  {
    if bs == [] {
      assert EncodeBlocks(bs) + rest == rest;
    } else {
      assert BlockFits(bs[0]);
      var tail := EncodeBlocks(bs[1..]) + rest;
      BlockRoundTrip(bs[0], tail);
      BlocksRoundTrip(bs[1..], rest);
      Together(EncodeBlock(bs[0]), EncodeBlocks(bs[1..]), rest);
      BlocksStep(bs[0], bs[1..], EncodeBlocks(bs) + rest, tail, rest);
      assert [bs[0]] + bs[1..] == bs;
    }
  }

  lemma MessageRoundTrip(m: Message, rest: seq<byte>)
    requires MessageFits(m)
    ensures DecodeMessage(EncodeMessage(m) + rest) == Some(Parsed(m, rest))
  {
    var two := EncodeBlocks(m.blocks) + rest;
    var one := Number(|m.blocks|) + two;
    NumberRoundTrip(m.role, one);
    NumberRoundTrip(|m.blocks|, two);
    BlocksRoundTrip(m.blocks, rest);
    Regroup3(Number(m.role), Number(|m.blocks|), EncodeBlocks(m.blocks), rest);
  }

  lemma MessagesStep(x: Message, ms: seq<Message>, s: seq<byte>, tail: seq<byte>, rest: seq<byte>)
    requires DecodeMessage(s) == Some(Parsed(x, tail)) && DecodeMessages(|ms|, tail) == Some(Parsed(ms, rest))
    ensures DecodeMessages(|ms| + 1, s) == Some(Parsed([x] + ms, rest))
  {
  }

  lemma {:induction false} MessagesRoundTrip(ms: seq<Message>, rest: seq<byte>)
    requires MessagesFit(ms)
    ensures DecodeMessages(|ms|, EncodeMessages(ms) + rest) == Some(Parsed(ms, rest))
  {
    if ms == [] {
      assert EncodeMessages(ms) + rest == rest;
    } else {
      assert MessageFits(ms[0]);
      var tail := EncodeMessages(ms[1..]) + rest;
      MessageRoundTrip(ms[0], tail);
      MessagesRoundTrip(ms[1..], rest);
      Together(EncodeMessage(ms[0]), EncodeMessages(ms[1..]), rest);
      MessagesStep(ms[0], ms[1..], EncodeMessages(ms) + rest, tail, rest);
      assert [ms[0]] + ms[1..] == ms;
    }
  }

  lemma ToolRoundTrip(t: Tool, rest: seq<byte>)
    requires ToolFits(t)
    ensures DecodeTool(EncodeTool(t) + rest) == Some(Parsed(t, rest))
  {
    var two := Field(t.parameters) + rest;
    var one := Field(t.description) + two;
    FieldRoundTrip(t.name, one);
    FieldRoundTrip(t.description, two);
    FieldRoundTrip(t.parameters, rest);
    Regroup3(Field(t.name), Field(t.description), Field(t.parameters), rest);
  }

  lemma SchemasStep(x: Tool, ts: seq<Tool>, s: seq<byte>, tail: seq<byte>, rest: seq<byte>)
    requires DecodeTool(s) == Some(Parsed(x, tail)) && DecodeSchemas(|ts|, tail) == Some(Parsed(ts, rest))
    ensures DecodeSchemas(|ts| + 1, s) == Some(Parsed([x] + ts, rest))
  {
  }

  lemma {:induction false} SchemasRoundTrip(ts: seq<Tool>, rest: seq<byte>)
    requires SchemasFit(ts)
    ensures DecodeSchemas(|ts|, EncodeSchemas(ts) + rest) == Some(Parsed(ts, rest))
  {
    if ts == [] {
      assert EncodeSchemas(ts) + rest == rest;
    } else {
      assert ToolFits(ts[0]);
      var tail := EncodeSchemas(ts[1..]) + rest;
      ToolRoundTrip(ts[0], tail);
      SchemasRoundTrip(ts[1..], rest);
      Together(EncodeTool(ts[0]), EncodeSchemas(ts[1..]), rest);
      SchemasStep(ts[0], ts[1..], EncodeSchemas(ts) + rest, tail, rest);
      assert [ts[0]] + ts[1..] == ts;
    }
  }

  /** No tools and an empty list of tools are told apart. */
  lemma ToolsRoundTrip(tools: Option<Tools>, rest: seq<byte>)
    requires tools.Some? ==> tools.value.choice < WORD && SchemasFit(tools.value.schemas)
    ensures DecodeTools(EncodeTools(tools) + rest) == Some(Parsed(tools, rest))
  {
    match tools
    case None => NoToolsRoundTrip(0, Number(0), rest);
    case Some(t) =>
      var schemas := EncodeSchemas(t.schemas);
      SchemasRoundTrip(t.schemas, rest);
      SomeToolsRoundTrip(t, schemas, rest, Number(t.choice), Number(|t.schemas|));
  }

  lemma NoToolsRoundTrip(flag: nat, zero: seq<byte>, rest: seq<byte>)
    requires flag == 0 && zero == Number(flag)
    ensures DecodeTools(zero + zero + zero + rest) == Some(Parsed(None, rest))
  {
    var two := zero + rest;
    var one := zero + two;
    NumberRoundTrip(flag, one);
    NumberRoundTrip(flag, two);
    NumberRoundTrip(flag, rest);
    assert zero + zero + zero + rest == zero + one;
  }

  lemma SomeToolsRoundTrip(t: Tools, schemas: seq<byte>, rest: seq<byte>, choice: seq<byte>, count: seq<byte>)
    requires t.choice < WORD && |t.schemas| < WORD && choice == Number(t.choice) && count == Number(|t.schemas|)
    requires DecodeSchemas(|t.schemas|, schemas + rest) == Some(Parsed(t.schemas, rest))
    ensures DecodeTools(Number(1) + (choice + (count + schemas)) + rest) == Some(Parsed(Some(t), rest))
  {
    NumberRoundTrip(1, choice + (count + (schemas + rest)));
    NumberRoundTrip(t.choice, count + (schemas + rest));
    NumberRoundTrip(|t.schemas|, schemas + rest);
    Regroup4(Number(1), choice, count, schemas, rest);
  }

  lemma RestRoundTrip(input: Input, rest: seq<byte>)
    requires Fits(input)
    ensures DecodeRest(input.grammar, input.schema, EncodeTools(input.tools)
              + (Number(|input.messages|) + (EncodeMessages(input.messages) + rest))) == Some(Parsed(input, rest))
  {
    var two := EncodeMessages(input.messages) + rest;
    var one := Number(|input.messages|) + two;
    ToolsRoundTrip(input.tools, one);
    NumberRoundTrip(|input.messages|, two);
    MessagesRoundTrip(input.messages, rest);
  }

  lemma RoundTripWith(tag: Text, input: Input, rest: seq<byte>)
    requires Fits(input) && TextFits(tag)
    ensures Decode(EncodeWith(tag, input) + rest) == Some(Parsed(input, rest))
  {
    var four := EncodeTools(input.tools) + (Number(|input.messages|) + (EncodeMessages(input.messages) + rest));
    var three := Field(input.schema) + four;
    var two := Field(input.grammar) + three;
    FieldRoundTrip(tag, two);
    FieldRoundTrip(input.grammar, three);
    FieldRoundTrip(input.schema, four);
    RestRoundTrip(input, rest);
    var count, messages := Number(|input.messages|), EncodeMessages(input.messages);
    Regroup4(Field(tag), Field(input.grammar), Field(input.schema), EncodeTools(input.tools) + (count + messages),
             rest);
    Regroup3(EncodeTools(input.tools), count, messages, rest);
  }

  /** The stream determines the input, whatever follows it. */
  lemma RoundTrip(input: Input, rest: seq<byte>)
    requires Fits(input)
    ensures Decode(Encode(input) + rest) == Some(Parsed(input, rest))
  {
    RoundTripWith(Tag(), input, rest);
  }

  /** Two different inputs never give the same stream, nor one that continues the other's. */
  lemma EncodingIsInjective(a: Input, b: Input)
    requires Fits(a) && Fits(b) && Encode(a) <= Encode(b)
    ensures a == b
  {
    var rest := Encode(b)[|Encode(a)|..];
    assert Encode(b) == Encode(a) + rest;
    assert Encode(b) == Encode(b) + [];
    RoundTrip(a, rest);
    RoundTrip(b, []);
  }
}
