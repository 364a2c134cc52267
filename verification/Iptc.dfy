/** IPTC-IIM datasets and the Photoshop resource blocks around them (`iptc.rs`). */
module Iptc {
  import opened Wrappers
  import opened Machine
  import opened Bytes

  datatype Dataset = Dataset(record: Byte, dataset: Byte, value: seq<Byte>)

  datatype Encoding = Latin1 | Utf8 | Other

  datatype IptcData = IptcData(datasets: seq<Dataset>, encoding: Encoding)

  // ---- Datasets ----

  const MARKER: Byte := 0x1C

  /** A complete dataset starts at `pos`. */
  predicate StartsAt(data: seq<Byte>, pos: nat) {
    pos + 5 <= |data| && data[pos] == MARKER && pos + 5 + U16At(data, pos + 3) <= |data|
  }

  function DatasetAt(data: seq<Byte>, pos: nat): Dataset
    requires StartsAt(data, pos)
  {
    Dataset(data[pos + 1], data[pos + 2], data[pos + 5..pos + 5 + U16At(data, pos + 3)])
  }

  /** The datasets from `pos` on, up to the first place where none starts. */
  function Datasets(data: seq<Byte>, pos: nat): seq<Dataset>
    decreases |data| - pos
  {
    if !StartsAt(data, pos) then []
    else [DatasetAt(data, pos)] + Datasets(data, pos + 5 + U16At(data, pos + 3))
  }

  predicate IsCharacterSet(ds: Dataset) {
    ds.record == 1 && ds.dataset == 90
  }

  function EncodingOf(ds: Dataset): Encoding {
    if |ds.value| >= 3 && ds.value[..3] == [0x1B, 0x25, 0x47] then Utf8 else Other
  }

  /** The first coded character set decides; without one the text is Latin-1. */
  ghost predicate Decides(datasets: seq<Dataset>, encoding: Encoding) {
    if NoneBefore(datasets, |datasets|) then encoding == Latin1
    else exists i: nat :: NoneBefore(datasets, i) && i < |datasets| && IsCharacterSet(datasets[i]) && encoding == EncodingOf(datasets[i])
  }

  ghost predicate NoneBefore(datasets: seq<Dataset>, n: nat) {
    n <= |datasets| && forall j :: 0 <= j < n ==> !IsCharacterSet(datasets[j])
  }

  method DetectEncoding(datasets: seq<Dataset>) returns (encoding: Encoding)
    ensures Decides(datasets, encoding)
  {
    for i := 0 to |datasets|
      invariant NoneBefore(datasets, i)
    {
      var ds := datasets[i];
      if ds.record == 1 && ds.dataset == 90 {
        assert IsCharacterSet(datasets[i]) && NoneBefore(datasets, i);
        if |ds.value| >= 3 && ds.value[0] == 0x1B && ds.value[1] == 0x25 && ds.value[2] == 0x47 {
          return Utf8;
        }
        return Other;
      }
    }
    return Latin1;
  }

  method ParseIptc(data: seq<Byte>) returns (r: IptcData)
    ensures r.datasets == Datasets(data, 0)
    ensures Decides(r.datasets, r.encoding)
  {
    var datasets := ScanDatasets(data);
    var encoding := DetectEncoding(datasets);
    return IptcData(datasets, encoding);
  }

  method ScanDatasets(data: seq<Byte>) returns (datasets: seq<Dataset>)
    ensures datasets == Datasets(data, 0)
  {
    datasets := [];
    var pos := 0;
    while pos + 5 <= |data|
      invariant 0 <= pos <= |data|
      invariant Scan(data, pos, datasets) == Scan(data, 0, [])
      decreases |data| - pos
    {
      if data[pos] != 0x1C {
        break;
      }
      var record, dataset := data[pos + 1], data[pos + 2];
      var size := U16At(data, pos + 3);
      if pos + 5 + size > |data| {
        break;
      }
      pos := pos + 5;
      datasets := datasets + [Dataset(record, dataset, data[pos..pos + size])];
      pos := pos + size;
    }
    ScanIsDatasets(data, 0, []);
  }

  /** The scan with what it has collected. */
  function Scan(data: seq<Byte>, pos: nat, collected: seq<Dataset>): seq<Dataset>
    decreases |data| - pos
  {
    if !StartsAt(data, pos) then collected
    else Scan(data, pos + 5 + U16At(data, pos + 3), collected + [DatasetAt(data, pos)])
  }

  lemma {:induction false} ScanIsDatasets(data: seq<Byte>, pos: nat, collected: seq<Dataset>)
    ensures Scan(data, pos, collected) == collected + Datasets(data, pos)
    decreases |data| - pos
  {
    if StartsAt(data, pos) {
      ScanIsDatasets(data, pos + 5 + U16At(data, pos + 3), collected + [DatasetAt(data, pos)]);
    }
  }

  function PrintDataset(ds: Dataset): seq<Byte> {
    [MARKER, ds.record, ds.dataset] + Put16(|ds.value|) + ds.value
  }

  function PrintDatasets(datasets: seq<Dataset>): seq<Byte> {
    if datasets == [] then [] else PrintDataset(datasets[0]) + PrintDatasets(datasets[1..])
  }

  predicate Printable(ds: Dataset) {
    |ds.value| < 0x1_0000
  }

  lemma PrintedStarts(data: seq<Byte>, pos: nat, ds: Dataset, after: seq<Byte>)
    requires Printable(ds) && pos <= |data| && data[pos..] == PrintDataset(ds) + after
    ensures StartsAt(data, pos) && DatasetAt(data, pos) == ds && data[pos + 5 + |ds.value|..] == after
  {
    var printed := PrintDataset(ds);
    assert |data| == pos + 5 + |ds.value| + |after|;
    assert data[pos..pos + 5 + |ds.value|] == data[pos..][..5 + |ds.value|] == printed;
    assert data[pos + 3..pos + 5] == printed[3..5] == Put16(|ds.value|);
    Read16(data, pos + 3, |ds.value|);
    assert data[pos] == printed[0] && data[pos + 1] == printed[1] && data[pos + 2] == printed[2];
    assert data[pos + 5..pos + 5 + |ds.value|] == printed[5..] == ds.value;
    assert data[pos + 5 + |ds.value|..] == data[pos..][5 + |ds.value|..] == after;
  }

  lemma FirstStarts(data: seq<Byte>, pos: nat, datasets: seq<Dataset>, after: seq<Byte>)
    requires datasets != [] && Printable(datasets[0])
    requires pos <= |data| && data[pos..] == PrintDatasets(datasets) + after
    ensures StartsAt(data, pos) && DatasetAt(data, pos) == datasets[0]
    ensures data[pos + 5 + U16At(data, pos + 3)..] == PrintDatasets(datasets[1..]) + after
  {
    var rest := PrintDatasets(datasets[1..]);
    Associative(PrintDataset(datasets[0]), rest, after);
    PrintedStarts(data, pos, datasets[0], rest + after);
    assert |DatasetAt(data, pos).value| == U16At(data, pos + 3);
  }

  /** The datasets lie one after the other from `pos` on, and none starts behind them. */
  predicate LieAt(data: seq<Byte>, pos: nat, datasets: seq<Dataset>)
    decreases |datasets|
  {
    if datasets == [] then !StartsAt(data, pos)
    else
      && StartsAt(data, pos) && DatasetAt(data, pos) == datasets[0]
      && LieAt(data, pos + 5 + U16At(data, pos + 3), datasets[1..])
  }

  lemma {:induction false} PrintedLie(data: seq<Byte>, pos: nat, datasets: seq<Dataset>, after: seq<Byte>)
    requires forall ds :: ds in datasets ==> Printable(ds)
    requires pos <= |data| && data[pos..] == PrintDatasets(datasets) + after
    requires !StartsAt(after, 0)
    ensures LieAt(data, pos, datasets)
    decreases |datasets|
  {
    if datasets == [] {
      assert data[pos..] == after;
      StartsInTail(data, pos);
    } else {
      FirstStarts(data, pos, datasets, after);
      PrintedLie(data, pos + 5 + U16At(data, pos + 3), datasets[1..], after);
    }
  }

  lemma {:induction false} ParseFindsAll(data: seq<Byte>, pos: nat, datasets: seq<Dataset>)
    requires LieAt(data, pos, datasets)
    ensures Datasets(data, pos) == datasets
    decreases |datasets|
  {
    if datasets != [] {
      ParseFindsAll(data, pos + 5 + U16At(data, pos + 3), datasets[1..]);
    }
  }

  /** Parsing recovers a printed list, and stops where nothing complete follows. */
  lemma ParseRecovers(data: seq<Byte>, pos: nat, datasets: seq<Dataset>, after: seq<Byte>)
    requires forall ds :: ds in datasets ==> Printable(ds)
    requires pos <= |data| && data[pos..] == PrintDatasets(datasets) + after
    requires !StartsAt(after, 0)
    ensures Datasets(data, pos) == datasets
  {
    PrintedLie(data, pos, datasets, after);
    ParseFindsAll(data, pos, datasets);
  }

  lemma StartsInTail(data: seq<Byte>, pos: nat)
    requires pos <= |data|
    ensures StartsAt(data, pos) <==> StartsAt(data[pos..], 0)
  {
  }

  lemma ParseInvertsPrint(datasets: seq<Dataset>)
    requires forall ds :: ds in datasets ==> Printable(ds)
    ensures Datasets(PrintDatasets(datasets), 0) == datasets
  {
    var data := PrintDatasets(datasets);
    assert data[0..] == data + [];
    ParseRecovers(data, 0, datasets, []);
  }

  lemma AtIsPrinted(data: seq<Byte>, pos: nat)
    requires StartsAt(data, pos)
    ensures var ds := DatasetAt(data, pos);
      && Printable(ds)
      && data[pos..] == PrintDataset(ds) + data[pos + 5 + U16At(data, pos + 3)..]
  {
    var ds := DatasetAt(data, pos);
    Read16(data, pos + 3, |ds.value|);
    assert data[pos..pos + 5] == [MARKER, ds.record, ds.dataset] + Put16(|ds.value|);
    assert data[pos..] == data[pos..pos + 5] + ds.value + data[pos + 5 + |ds.value|..];
  }

  /** On any bytes, what was parsed is the printed form of a prefix, and nothing complete follows it. */
  lemma {:induction false} PrintIsPrefix(data: seq<Byte>, pos: nat) returns (rest: seq<Byte>)
    requires pos <= |data|
    ensures data[pos..] == PrintDatasets(Datasets(data, pos)) + rest && !StartsAt(rest, 0)
    ensures forall ds :: ds in Datasets(data, pos) ==> Printable(ds)
    decreases |data| - pos
  {
    if StartsAt(data, pos) {
      var next := pos + 5 + U16At(data, pos + 3);
      AtIsPrinted(data, pos);
      rest := PrintIsPrefix(data, next);
      assert Datasets(data, pos)[1..] == Datasets(data, next);
    } else {
      rest := data[pos..];
      StartsInTail(data, pos);
    }
  }

  /** So any bytes split into printed datasets and an incomplete rest, in one way only. */
  lemma SplitIsUnique(data: seq<Byte>, datasets: seq<Dataset>)
    requires forall ds :: ds in datasets ==> Printable(ds)
    ensures Datasets(data, 0) == datasets <==> exists rest :: data == PrintDatasets(datasets) + rest && !StartsAt(rest, 0)
  {
    var rest := PrintIsPrefix(data, 0);
    assert data[0..] == data;
    forall other | data == PrintDatasets(datasets) + other && !StartsAt(other, 0)
      ensures Datasets(data, 0) == datasets
    {
      ParseRecovers(data, 0, datasets, other);
    }
  }

  // ---- Photoshop resource blocks ----

  /** "Photoshop 3.0" and a zero byte. */
  const HEADER: seq<Byte> := [80, 104, 111, 116, 111, 115, 104, 111, 112, 32, 51, 46, 48, 0]

  /** "8BIM". */
  const SIGNATURE: seq<Byte> := [56, 66, 73, 77]

  const IPTC_ID := 0x0404

  datatype Block = Block(id: nat, name: seq<Byte>, data: seq<Byte>)

  predicate WellFormed(block: Block) {
    block.id < 0x1_0000 && |block.name| < 256 && |block.data| < 0x1_0000_0000
  }

  /** The bytes that the name takes after its length byte: the two together are even. */
  function PaddedName(length: nat): nat {
    if (length + 1) % 2 == 0 then length else length + 1
  }

  /** One turn of the scan: give up, answer, or go on behind a block. */
  datatype Turn = Stop | Found(payload: seq<Byte>) | GoOn(next: nat)

  function TurnAt(data: seq<Byte>, pos: nat): (turn: Turn)
    ensures turn.GoOn? ==> pos < turn.next <= |data| + 1
  {
    if pos + 12 > |data| || data[pos..pos + 4] != SIGNATURE then Stop
    else
      var sizeAt := pos + 7 + PaddedName(data[pos + 6]);
      if sizeAt + 4 > |data| then Stop
      else
        var size := U32At(data, sizeAt);
        if sizeAt + 4 + size > |data| then Stop
        else if U16At(data, pos + 4) == IPTC_ID then Found(data[sizeAt + 4..sizeAt + 4 + size])
        else GoOn(sizeAt + 4 + size + size % 2)
  }

  /** The first IPTC payload among the resource blocks from `pos` on. */
  function Extract(data: seq<Byte>, pos: nat): Option<seq<Byte>>
    decreases |data| + 1 - pos
  {
    match TurnAt(data, pos)
    case Stop => None
    case Found(payload) => Some(payload)
    case GoOn(next) => Extract(data, next)
  }

  function FromApp13(data: seq<Byte>): Option<seq<Byte>> {
    if HEADER <= data then Extract(data, |HEADER|) else None
  }

  method ExtractFromApp13(data: seq<Byte>) returns (r: Option<seq<Byte>>)
    ensures r == FromApp13(data)
  {
    if |data| < |HEADER| || data[..|HEADER|] != HEADER {
      return None;
    }
    var pos := |HEADER|;
    while pos + 12 <= |data|
      invariant 0 <= pos
      invariant Extract(data, pos) == Extract(data, |HEADER|)
      decreases |data| + 1 - pos
    {
      var turn := ReadBlock(data, pos);
      match turn {
        case Stop => return None;
        case Found(payload) => return Some(payload);
        case GoOn(next) => pos := next;
      }
    }
    return None;
  }

  /** The body of the scan loop. */
  method ReadBlock(data: seq<Byte>, start: nat) returns (turn: Turn)
    requires start + 12 <= |data|
    ensures turn == TurnAt(data, start)
  {
    var pos := start;
    if data[pos..pos + 4] != SIGNATURE {
      return Stop;
    }
    pos := pos + 4;
    var id := U16At(data, pos);
    pos := pos + 2;
    var nameLength: nat := data[pos];
    pos := pos + 1;
    pos := pos + (if (nameLength + 1) % 2 == 0 then nameLength else nameLength + 1);
    if pos + 4 > |data| {
      return Stop;
    }
    var size := U32At(data, pos);
    pos := pos + 4;
    if pos + size > |data| {
      return Stop;
    }
    if id == 0x0404 {
      return Found(data[pos..pos + size]);
    }
    pos := pos + size;
    if size % 2 == 1 {
      pos := pos + 1;
    }
    return GoOn(pos);
  }

  // A list of blocks as it lies in the bytes. The contents of the padding do not matter.

  function SizeAt(pos: nat, block: Block): nat {
    pos + 7 + PaddedName(|block.name|)
  }

  function BlockEnd(pos: nat, block: Block): nat {
    SizeAt(pos, block) + 4 + |block.data| + |block.data| % 2
  }

  predicate BlockAt(data: seq<Byte>, pos: nat, block: Block) {
    var sizeAt := SizeAt(pos, block);
    && sizeAt + 4 + |block.data| <= |data|
    && data[pos..pos + 4] == SIGNATURE && U16At(data, pos + 4) == block.id
    && data[pos + 6] == |block.name| && data[pos + 7..pos + 7 + |block.name|] == block.name
    && U32At(data, sizeAt) == |block.data|
    && data[sizeAt + 4..sizeAt + 4 + |block.data|] == block.data
  }

  predicate BlocksAt(data: seq<Byte>, pos: nat, blocks: seq<Block>)
    decreases |blocks|
  {
    blocks == [] || (BlockAt(data, pos, blocks[0]) && BlocksAt(data, BlockEnd(pos, blocks[0]), blocks[1..]))
  }

  function BlocksEnd(pos: nat, blocks: seq<Block>): nat
    decreases |blocks|
  {
    if blocks == [] then pos else BlocksEnd(BlockEnd(pos, blocks[0]), blocks[1..])
  }

  lemma TurnOverBlock(data: seq<Byte>, pos: nat, block: Block)
    requires BlockAt(data, pos, block)
    ensures TurnAt(data, pos) == if block.id == IPTC_ID then Found(block.data) else GoOn(BlockEnd(pos, block))
  {
  }

  /** The scan passes over any well-formed blocks, with odd or even names and sizes. */
  lemma {:induction false} ScanOverBlocks(data: seq<Byte>, pos: nat, blocks: seq<Block>)
    requires BlocksAt(data, pos, blocks) && forall b :: b in blocks ==> b.id != IPTC_ID
    ensures Extract(data, pos) == Extract(data, BlocksEnd(pos, blocks))
    decreases |blocks|
  {
    if blocks != [] {
      TurnOverBlock(data, pos, blocks[0]);
      ScanOverBlocks(data, BlockEnd(pos, blocks[0]), blocks[1..]);
    }
  }

  /** `target` is the first IPTC block of the list that lies at `pos`. */
  ghost predicate FirstIptc(data: seq<Byte>, pos: nat, blocks: seq<Block>, target: Block) {
    && BlocksAt(data, pos, blocks) && (forall b :: b in blocks ==> b.id != IPTC_ID)
    && BlockAt(data, BlocksEnd(pos, blocks), target) && target.id == IPTC_ID
  }

  /** The block that the scan sees at `pos`. */
  function SeenAt(data: seq<Byte>, pos: nat): Block
    requires !TurnAt(data, pos).Stop?
  {
    var sizeAt := pos + 7 + PaddedName(data[pos + 6]);
    Block(U16At(data, pos + 4), data[pos + 7..pos + 7 + data[pos + 6]],
          data[sizeAt + 4..sizeAt + 4 + U32At(data, sizeAt)])
  }

  lemma SeenBlockIsThere(data: seq<Byte>, pos: nat)
    requires !TurnAt(data, pos).Stop?
    ensures var block := SeenAt(data, pos);
      && BlockAt(data, pos, block)
      && TurnAt(data, pos) == if block.id == IPTC_ID then Found(block.data) else GoOn(BlockEnd(pos, block))
  {
  }

  lemma {:induction false} AnswerIsFirst(data: seq<Byte>, pos: nat) returns (blocks: seq<Block>, target: Block)
    requires Extract(data, pos).Some?
    ensures FirstIptc(data, pos, blocks, target) && target.data == Extract(data, pos).value
    decreases |data| + 1 - pos
  {
    target := SeenAt(data, pos);
    SeenBlockIsThere(data, pos);
    blocks := [];
    if TurnAt(data, pos).GoOn? {
      var seen := target;
      blocks, target := AnswerIsFirst(data, TurnAt(data, pos).next);
      assert ([seen] + blocks)[1..] == blocks;
      blocks := [seen] + blocks;
    }
  }

  /**
   On any bytes: a payload is returned exactly when it belongs to the first IPTC
   block behind well-formed other blocks, so `None` means there is no such block.
   */
  lemma ExtractIsTheFirstPayload(data: seq<Byte>, pos: nat, payload: seq<Byte>)
    ensures Extract(data, pos) == Some(payload) <==>
      exists blocks, target :: FirstIptc(data, pos, blocks, target) && target.data == payload
  {
    if Extract(data, pos) == Some(payload) {
      var blocks, target := AnswerIsFirst(data, pos);
    }
    forall blocks, target | FirstIptc(data, pos, blocks, target)
      ensures Extract(data, pos) == Some(target.data)
    {
      ScanOverBlocks(data, pos, blocks);
      TurnOverBlock(data, BlocksEnd(pos, blocks), target);
    }
  }

  function Padding(n: nat): seq<Byte> {
    if n % 2 == 1 then [0] else []
  }

  /** Everything before the size of the data. */
  function PrintHead(block: Block): (head: seq<Byte>)
    requires WellFormed(block)
    ensures |head| == 7 + PaddedName(|block.name|)
  {
    SIGNATURE + Put16(block.id) + [|block.name|] + block.name + Padding(|block.name| + 1)
  }

  lemma HeadFields(before: seq<Byte>, block: Block, after: seq<Byte>)
    requires WellFormed(block)
    ensures var data, pos := before + PrintHead(block) + after, |before|;
      && data[pos..pos + 4] == SIGNATURE && U16At(data, pos + 4) == block.id
      && data[pos + 6] == |block.name| && data[pos + 7..pos + 7 + |block.name|] == block.name
  {
    var data, pos := before + PrintHead(block) + after, |before|;
    assert data[pos + 4..pos + 6] == Put16(block.id);
    Read16(data, pos + 4, block.id);
  }

  lemma TailFields(before: seq<Byte>, payload: seq<Byte>, after: seq<Byte>)
    requires |payload| < TWO_32
    ensures var data, pos := before + (Put32(|payload|) + payload + after), |before|;
      U32At(data, pos) == |payload| && data[pos + 4..pos + 4 + |payload|] == payload
  {
    var data, pos := before + (Put32(|payload|) + payload + after), |before|;
    assert data[pos..pos + 4] == Put32(|payload|);
    Read32(data, pos, |payload|);
  }

  /** Every block can be written down, anywhere. */
  lemma PrintedBlockIsThere(before: seq<Byte>, block: Block, after: seq<Byte>)
    requires WellFormed(block)
    ensures var tail := Put32(|block.data|) + block.data + (Padding(|block.data|) + after);
      BlockAt(before + PrintHead(block) + tail, |before|, block)
  {
    var tail := Put32(|block.data|) + block.data + (Padding(|block.data|) + after);
    HeadFields(before, block, tail);
    TailFields(before + PrintHead(block), block.data, Padding(|block.data|) + after);
  }

  function PrintBlock(block: Block): seq<Byte>
    requires WellFormed(block)
  {
    PrintHead(block) + (Put32(|block.data|) + block.data + Padding(|block.data|))
  }

  predicate AllWellFormed(blocks: seq<Block>) {
    blocks == [] || (WellFormed(blocks[0]) && AllWellFormed(blocks[1..]))
  }

  function PrintBlocks(blocks: seq<Block>): seq<Byte>
    requires AllWellFormed(blocks)
  {
    if blocks == [] then [] else PrintBlock(blocks[0]) + PrintBlocks(blocks[1..])
  }

  lemma PrintedBlock(before: seq<Byte>, block: Block, after: seq<Byte>)
    requires WellFormed(block)
    ensures BlockAt(before + PrintBlock(block) + after, |before|, block)
    ensures BlockEnd(|before|, block) == |before + PrintBlock(block)|
  {
    var head, size, pad := PrintHead(block), Put32(|block.data|), Padding(|block.data|);
    hide BlockAt;
    hide PrintHead;
    PrintedBlockIsThere(before, block, after);
    Associative(size + block.data, pad, after);
    Associative(head, size + block.data + pad, after);
    Associative(before, PrintBlock(block), after);
    Associative(before, head, size + block.data + (pad + after));
  }

  /** A printed list lies where it was printed. */
  lemma {:induction false} PrintedBlocks(before: seq<Byte>, blocks: seq<Block>, after: seq<Byte>)
    requires AllWellFormed(blocks)
    ensures BlocksAt(before + PrintBlocks(blocks) + after, |before|, blocks)
    ensures BlocksEnd(|before|, blocks) == |before + PrintBlocks(blocks)|
    decreases |blocks|
  {
    hide BlockAt;
    hide BlockEnd;
    hide PrintBlock;
    if blocks != [] {
      var first, rest := PrintBlock(blocks[0]), PrintBlocks(blocks[1..]);
      PrintedBlock(before, blocks[0], rest + after);
      PrintedBlocks(before + first, blocks[1..], after);
      assert before + (first + rest) + after == before + first + rest + after == before + first + (rest + after);
    }
  }

  /** From end to end: header, any other blocks, then an IPTC block, whatever follows it. */
  lemma PrintedPayloadIsExtracted(blocks: seq<Block>, iptc: Block, after: seq<Byte>)
    requires AllWellFormed(blocks) && (forall b :: b in blocks ==> b.id != IPTC_ID)
    requires WellFormed(iptc) && iptc.id == IPTC_ID
    ensures FromApp13(HEADER + PrintBlocks(blocks) + PrintBlock(iptc) + after) == Some(iptc.data)
  {
    var data := HEADER + PrintBlocks(blocks) + PrintBlock(iptc) + after;
    PrintedBlocks(HEADER, blocks, PrintBlock(iptc) + after);
    Associative(HEADER + PrintBlocks(blocks), PrintBlock(iptc), after);
    PrintedBlock(HEADER + PrintBlocks(blocks), iptc, after);
    ScanOverBlocks(data, |HEADER|, blocks);
    TurnOverBlock(data, BlocksEnd(|HEADER|, blocks), iptc);
    hide BlockAt;
    hide TurnAt;
    hide PrintBlock;
    assert HEADER <= data;
  }

  // ---- In bytes ----

  /** The first dataset 1:90 decides: UTF-8 for the escape sequence ESC % G, unknown for anything else. */
  lemma FirstCharacterSetDecides(before: seq<Dataset>, value: seq<Byte>, after: seq<Dataset>, encoding: Encoding)
    requires forall ds :: ds in before ==> ds.record != 1 || ds.dataset != 90
    requires Decides(before + [Dataset(1, 90, value)] + after, encoding)
    ensures encoding == if [27, 37, 71] <= value then Utf8 else Other
  {
    var all, i := before + [Dataset(1, 90, value)] + after, |before|;
    assert all[i] == Dataset(1, 90, value);
    assert NoneBefore(all, i) by {
      assert forall j :: 0 <= j < i ==> all[j] == before[j] && before[j] in before;
    }
    assert !NoneBefore(all, |all|) by {
      assert IsCharacterSet(all[i]);
    }
    var k: nat :| NoneBefore(all, k) && k < |all| && IsCharacterSet(all[k]) && encoding == EncodingOf(all[k]);
    assert k == i;
    assert [27, 37, 71] <= value <==> |value| >= 3 && value[..3] == [27, 37, 71];
  }

  /** Without one the text is Latin-1. */
  lemma NoCharacterSetMeansLatin1(datasets: seq<Dataset>, encoding: Encoding)
    requires (forall ds :: ds in datasets ==> ds.record != 1 || ds.dataset != 90) && Decides(datasets, encoding)
    ensures encoding == Latin1
  {
    assert NoneBefore(datasets, |datasets|);
  }

  /** Headline "Hi" behind an escape to UTF-8, then a stray byte. */
  const SOME_DATASETS: seq<Byte> := [0x1C, 1, 90, 0, 3, 0x1B, 0x25, 0x47, 0x1C, 2, 105, 0, 2, 72, 105, 0]

  lemma SomeDatasets()
    ensures Datasets(SOME_DATASETS, 0) == [Dataset(1, 90, [0x1B, 0x25, 0x47]), Dataset(2, 105, [72, 105])]
  {
    assert DatasetAt(SOME_DATASETS, 0) == Dataset(1, 90, [0x1B, 0x25, 0x47]);
    assert DatasetAt(SOME_DATASETS, 8) == Dataset(2, 105, [72, 105]);
    assert !StartsAt(SOME_DATASETS, 15);
    hide DatasetAt;
    assert Datasets(SOME_DATASETS, 15) == [];
    assert Datasets(SOME_DATASETS, 8) == [DatasetAt(SOME_DATASETS, 8)];
  }

  /** "8BIM", id 0x0401, the name "a", three bytes and a padding byte; then id 0x0404, no name, two bytes. */
  const SOME_BLOCKS: seq<Byte> := [
    56, 66, 73, 77, 4, 1, 1, 97, 0, 0, 0, 3, 7, 8, 9, 0,
    56, 66, 73, 77, 4, 4, 0, 0, 0, 0, 0, 2, 28, 2
  ]

  /** The same with the two-letter name "ab" and four bytes: now the name is padded and the data are not. */
  const OTHER_BLOCKS: seq<Byte> := [
    56, 66, 73, 77, 4, 1, 2, 97, 98, 0, 0, 0, 0, 4, 6, 7, 8, 9,
    56, 66, 73, 77, 4, 4, 0, 0, 0, 0, 0, 2, 28, 2
  ]

  lemma SomeBlocks()
    ensures Extract(SOME_BLOCKS, 0) == Some([28, 2])
  {
    FirstOfSome();
    SecondOfSome();
    hide TurnAt;
    hide SOME_BLOCKS;
    assert Extract(SOME_BLOCKS, 16) == Some([28, 2]);
  }

  lemma FirstOfSome()
    ensures TurnAt(SOME_BLOCKS, 0) == GoOn(16)
  {
    assert U16At(SOME_BLOCKS, 4) == 0x0401 && U32At(SOME_BLOCKS, 8) == 3;
    hide U16At;
    hide U32At;
    assert SOME_BLOCKS[0..4] == SIGNATURE;
  }

  lemma SecondOfSome()
    ensures TurnAt(SOME_BLOCKS, 16) == Found([28, 2])
  {
    assert U16At(SOME_BLOCKS, 20) == 0x0404 && U32At(SOME_BLOCKS, 24) == 2;
    hide U16At;
    hide U32At;
    assert SOME_BLOCKS[16..20] == SIGNATURE && SOME_BLOCKS[28..30] == [28, 2];
  }

  lemma OtherBlocks()
    ensures Extract(OTHER_BLOCKS, 0) == Some([28, 2])
  {
    FirstOfOthers();
    SecondOfOthers();
    hide TurnAt;
    hide OTHER_BLOCKS;
    assert Extract(OTHER_BLOCKS, 18) == Some([28, 2]);
  }

  lemma FirstOfOthers()
    ensures TurnAt(OTHER_BLOCKS, 0) == GoOn(18)
  {
    FirstBytesOfOthers();
    hide OTHER_BLOCKS;
    hide U16At;
    hide U32At;
  }

  lemma FirstBytesOfOthers()
    ensures |OTHER_BLOCKS| == 32 && OTHER_BLOCKS[0..4] == SIGNATURE && OTHER_BLOCKS[6] == 2
    ensures U16At(OTHER_BLOCKS, 4) == 0x0401 && U32At(OTHER_BLOCKS, 10) == 4
  {
  }

  lemma SecondOfOthers()
    ensures TurnAt(OTHER_BLOCKS, 18) == Found([28, 2])
  {
    assert U16At(OTHER_BLOCKS, 22) == 0x0404 && U32At(OTHER_BLOCKS, 26) == 2;
    hide U16At;
    hide U32At;
    assert OTHER_BLOCKS[18..22] == SIGNATURE && OTHER_BLOCKS[30..32] == [28, 2];
  }
}
