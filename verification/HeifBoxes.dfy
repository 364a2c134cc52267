/** ISOBMFF box structure, section 4.2 of ISO/IEC 14496-12 (`heif.rs`, `parse_boxes`). */
module HeifBoxes {
  import opened Wrappers
  import opened Machine
  import opened Bytes

  datatype Box = Box(boxType: seq<Byte>, offset: nat, size: nat, data: seq<Byte>)

  /** An addition of 64-bit offsets and sizes overflowed: the source panics. */
  datatype ParseError = Overflow

  // ---- The header at one offset ----

  /** Enough bytes for the header, and for the 64-bit size where there is one. */
  predicate HeaderAt(data: seq<Byte>, off: nat) {
    off + 8 <= |data| && (U32At(data, off) == 1 ==> off + 16 <= |data|)
  }

  function HeaderSize(data: seq<Byte>, off: nat): nat
    requires HeaderAt(data, off)
  {
    if U32At(data, off) == 1 then 16 else 8
  }

  /** 32-bit, 64-bit, or everything that is left. */
  function BoxSize(data: seq<Byte>, off: nat): nat
    requires HeaderAt(data, off)
  {
    if U32At(data, off) == 1 then U64At(data, off + 8)
    else if U32At(data, off) == 0 then |data| - off
    else U32At(data, off)
  }

  function PayloadSize(data: seq<Byte>, off: nat): nat
    requires HeaderAt(data, off)
  {
    if BoxSize(data, off) < HeaderSize(data, off) then 0 else BoxSize(data, off) - HeaderSize(data, off)
  }

  function BoxAt(data: seq<Byte>, off: nat): Box
    requires HeaderAt(data, off)
  {
    var start := off + HeaderSize(data, off);
    var end := start + PayloadSize(data, off);
    Box(data[off + 4..off + 8], off, BoxSize(data, off), data[start..if end < |data| then end else |data|])
  }

  /** The end of the box, or of its header, does not fit 64 bits. */
  predicate Overflows(data: seq<Byte>, off: nat)
    requires HeaderAt(data, off)
  {
    off + HeaderSize(data, off) + PayloadSize(data, off) > U64_MAX
  }

  // ---- The loop ----

  /** One turn: the loop ends, or panics, or collects the box and goes on behind it. */
  datatype Turn = End | Panic | Collect(box: Box)

  function TurnAt(data: seq<Byte>, off: nat): (turn: Turn)
    ensures turn.Collect? ==> off + 8 <= |data|
  {
    if off + 8 > U64_MAX then Panic
    else if !HeaderAt(data, off) then End
    else if Overflows(data, off) then Panic
    else Collect(BoxAt(data, off))
  }

  /** What the loop still does from `off` on, given the boxes it has collected. */
  function Loop(data: seq<Byte>, off: nat, boxes: seq<Box>): Result<seq<Box>, ParseError>
    decreases if off <= |data| then |data| - off + 1 else 0
  {
    match TurnAt(data, off)
    case Panic => Failure(Overflow)
    case End => Success(boxes)
    case Collect(box) => if box.size == 0 then Success(boxes + [box]) else Loop(data, off + box.size, boxes + [box])
  }

  method ParseBoxes(data: seq<Byte>) returns (r: Result<seq<Box>, ParseError>)
    ensures r == Boxes(data, 0)
  {
    hide TurnAt;
    var boxes: seq<Box> := [];
    var offset := 0;
    LoopIsBoxes(data, 0, []);
    assert Boxes(data, 0).Success? ==> [] + Boxes(data, 0).value == Boxes(data, 0).value;
    while true
      invariant 0 <= offset
      invariant Loop(data, offset, boxes) == Boxes(data, 0)
      decreases if offset <= |data| then |data| - offset + 1 else 0
    {
      var turn := ReadBox(data, offset);
      match turn {
        case Panic => return Failure(Overflow);
        case End => return Success(boxes);
        case Collect(box) =>
          boxes := boxes + [box];
          if box.size == 0 {
            return Success(boxes);
          }
          offset := offset + box.size;
      }
    }
  }

  /** The body of the loop. */
  method ReadBox(data: seq<Byte>, offset: nat) returns (turn: Turn)
    ensures turn == TurnAt(data, offset)
  {
    if offset + 8 > U64_MAX {
      return Panic;
    }
    if offset + 8 > |data| {
      return End;
    }
    var size32 := U32At(data, offset);
    var boxType := data[offset + 4..offset + 8];
    var headerSize, boxSize;
    if size32 == 1 {
      if |data| - (offset + 8) < 8 {
        return End;
      }
      headerSize, boxSize := 16, U64At(data, offset + 8);
    } else if size32 == 0 {
      headerSize, boxSize := 8, |data| - offset;
    } else {
      headerSize, boxSize := 8, size32;
    }
    var payloadSize := if boxSize < headerSize then 0 else boxSize - headerSize;
    var payloadStart := offset + headerSize;
    if payloadStart + payloadSize > U64_MAX {
      return Panic;
    }
    var payloadEnd := if payloadStart + payloadSize < |data| then payloadStart + payloadSize else |data|;
    if payloadStart > |data| {
      return End;
    }
    return Collect(Box(boxType, offset, boxSize, data[payloadStart..payloadEnd]));
  }

  /** The boxes from `off` on. */
  function Boxes(data: seq<Byte>, off: nat): Result<seq<Box>, ParseError>
    decreases if off <= |data| then |data| - off + 1 else 0
  {
    match TurnAt(data, off)
    case Panic => Failure(Overflow)
    case End => Success([])
    case Collect(box) =>
      if box.size == 0 then Success([box])
      else
        var rest := Boxes(data, off + box.size);
        if rest.Failure? then rest else Success([box] + rest.value)
  }

  lemma {:induction false} LoopIsBoxes(data: seq<Byte>, off: nat, boxes: seq<Box>)
    ensures var rest := Boxes(data, off);
      Loop(data, off, boxes) == if rest.Failure? then rest else Success(boxes + rest.value)
    decreases if off <= |data| then |data| - off + 1 else 0
  {
    var turn := TurnAt(data, off);
    if turn.End? {
      assert boxes + [] == boxes;
    } else if turn.Collect? && turn.box.size != 0 {
      var next := off + turn.box.size;
      LoopIsBoxes(data, next, boxes + [turn.box]);
      if Boxes(data, next).Success? {
        assert boxes + [turn.box] + Boxes(data, next).value == boxes + ([turn.box] + Boxes(data, next).value);
      }
    }
  }

  // ---- Any bytes ----

  /** The boxes chain from `off` on: each is the one at its offset, and the next begins where it ends. */
  predicate Chained(data: seq<Byte>, off: nat, boxes: seq<Box>)
    decreases |boxes|
  {
    if boxes == [] then TurnAt(data, off) == End
    else
      && TurnAt(data, off) == Collect(boxes[0])
      && (if boxes[0].size == 0 then |boxes| == 1 else Chained(data, off + boxes[0].size, boxes[1..]))
  }

  /** A parse succeeds with `boxes` exactly when they are the chain. */
  lemma {:induction false} ParseIsTheChain(data: seq<Byte>, off: nat, boxes: seq<Box>)
    ensures Boxes(data, off) == Success(boxes) <==> Chained(data, off, boxes)
    decreases if off <= |data| then |data| - off + 1 else 0
  {
    var turn := TurnAt(data, off);
    if boxes != [] {
      assert boxes == [boxes[0]] + boxes[1..];
      assert |boxes| == 1 <==> boxes == [boxes[0]];
      if turn.Collect? && turn.box.size != 0 {
        var rest := Boxes(data, off + turn.box.size);
        ParseIsTheChain(data, off + turn.box.size, boxes[1..]);
        assert rest.Success? ==> ([turn.box] + rest.value)[1..] == rest.value;
      }
    }
  }

  /** By position: offsets chain by size, and every payload is a slice inside the data. */
  lemma {:induction false} ChainByPosition(data: seq<Byte>, off: nat, boxes: seq<Box>, i: nat)
    requires Chained(data, off, boxes) && i < |boxes|
    ensures i == 0 ==> boxes[i].offset == off
    ensures i > 0 ==> boxes[i].offset == boxes[i - 1].offset + boxes[i - 1].size && boxes[i - 1].size > 0
    ensures HasBounds(data, boxes[i])
    decreases |boxes|
  {
    CollectedBounds(data, off);
    hide TurnAt;
    hide HasBounds;
    if i > 0 {
      ChainByPosition(data, off + boxes[0].size, boxes[1..], i - 1);
    }
  }

  /** The box is the one at its offset; its payload is whole, or stops where the data do. */
  predicate HasBounds(data: seq<Byte>, box: Box) {
    && HeaderAt(data, box.offset)
    && box.boxType == data[box.offset + 4..box.offset + 8]
    && box.size == BoxSize(data, box.offset)
    && (var start := box.offset + HeaderSize(data, box.offset);
        && start + |box.data| <= |data| && box.data == data[start..start + |box.data|]
        && |box.data| <= PayloadSize(data, box.offset)
        && (|box.data| == PayloadSize(data, box.offset) || start + |box.data| == |data|))
  }

  lemma CollectedBounds(data: seq<Byte>, off: nat)
    ensures TurnAt(data, off).Collect? ==>
      TurnAt(data, off).box.offset == off && HasBounds(data, TurnAt(data, off).box)
  {
  }

  // ---- When the parse panics ----

  /** A 64-bit size so large that the next header could not be addressed. */
  predicate TooLong(data: seq<Byte>, off: nat) {
    HeaderAt(data, off) && U32At(data, off) == 1 && off + U64At(data, off + 8) > U64_MAX - 8
  }

  /** Going from box to box from `off` on, one comes to `target`. */
  predicate Reaches(data: seq<Byte>, off: nat, target: nat)
    decreases target - off
  {
    off == target ||
    (off < target && HeaderAt(data, off) && BoxSize(data, off) > 0 && Reaches(data, off + BoxSize(data, off), target))
  }

  lemma ShortSizesFit(data: seq<Byte>, off: nat)
    requires |data| <= U64_MAX / 2 && off <= |data|
    ensures TurnAt(data, off) == Panic ==> TooLong(data, off)
    ensures TurnAt(data, off).Collect? && TurnAt(data, off + BoxSize(data, off)) == Panic && off + BoxSize(data, off) > |data|
      ==> TooLong(data, off)
    ensures TooLong(data, off) ==> Boxes(data, off).Failure?
  {
  }

  /** A parse that fails does so here, or behind a box that ends inside the data. */
  lemma FailureIsHereOrBehind(data: seq<Byte>, off: nat)
    requires |data| <= U64_MAX / 2 && off <= |data| && Boxes(data, off).Failure? && !TooLong(data, off)
    ensures HeaderAt(data, off) && BoxSize(data, off) > 0
    ensures off + BoxSize(data, off) <= |data| && Boxes(data, off + BoxSize(data, off)).Failure?
  {
    ShortSizesFit(data, off);
  }

  lemma {:induction false} FailureReaches(data: seq<Byte>, off: nat) returns (target: nat)
    requires |data| <= U64_MAX / 2 && off <= |data| && Boxes(data, off).Failure?
    ensures Reaches(data, off, target) && TooLong(data, target)
    ensures target <= |data|
    decreases |data| - off
  {
    hide Boxes;
    hide HeaderAt;
    hide BoxSize;
    hide TooLong;
    target := off;
    if !TooLong(data, off) {
      FailureIsHereOrBehind(data, off);
      target := FailureReaches(data, off + BoxSize(data, off));
      ReachesIsAhead(data, off + BoxSize(data, off), target);
    }
  }

  lemma ReachesIsAhead(data: seq<Byte>, off: nat, target: nat)
    requires Reaches(data, off, target)
    ensures off <= target
  {
  }

  lemma {:induction false} ReachedTooLong(data: seq<Byte>, off: nat, target: nat)
    requires |data| <= U64_MAX / 2 && off <= |data| && Reaches(data, off, target) && TooLong(data, target)
    ensures Boxes(data, off).Failure?
    decreases target - off
  {
    ShortSizesFit(data, off);
    if off != target {
      ReachedTooLong(data, off + BoxSize(data, off), target);
    }
  }

  /** A box of sixteen bytes whose 64-bit size is as large as can be. */
  const TOO_LONG: seq<Byte> :=
    [0, 0, 0, 1, 0x66, 0x74, 0x79, 0x70, 0xFF, 0xFF, 0xFF, 0xFF, 0xFF, 0xFF, 0xFF, 0xFF]

  lemma SixteenBytesArePanic()
    ensures Boxes(TOO_LONG, 0) == Failure(Overflow)
  {
    assert TooLong(TOO_LONG, 0);
    ShortSizesFit(TOO_LONG, 0);
  }

  /** On data that a machine can hold, the parse panics exactly when it comes to such a size. */
  lemma PanicsExactlyOnTooLong(data: seq<Byte>)
    requires |data| <= U64_MAX / 2
    ensures Boxes(data, 0).Failure? <==> exists target :: Reaches(data, 0, target) && TooLong(data, target)
  {
    if Boxes(data, 0).Failure? {
      var target := FailureReaches(data, 0);
    }
    forall target | Reaches(data, 0, target) && TooLong(data, target)
      ensures Boxes(data, 0).Failure?
    {
      ReachedTooLong(data, 0, target);
    }
  }

  // ---- Printing ----

  datatype Form = Short | Long | ToEnd

  datatype Item = Item(boxType: seq<Byte>, payload: seq<Byte>, form: Form)

  function PrintItem(item: Item): seq<Byte> {
    match item.form
    case Short => Put32(8 + |item.payload|) + item.boxType + item.payload
    case Long => Put32(1) + item.boxType + (Put64(16 + |item.payload|) + item.payload)
    case ToEnd => Put32(0) + item.boxType + item.payload
  }

  function PrintedSize(item: Item): (size: nat)
    ensures size >= 8
  {
    (if item.form.Long? then 16 else 8) + |item.payload|
  }

  function PrintItems(items: seq<Item>): seq<Byte> {
    if items == [] then [] else PrintItem(items[0]) + PrintItems(items[1..])
  }

  /** A four-byte type, and a 32-bit size that fits where it is used. */
  predicate PrintableItem(item: Item) {
    |item.boxType| == 4 && (item.form.Short? ==> 8 + |item.payload| < TWO_32)
  }

  /** A size-0 box must be the last one. */
  predicate Printable(items: seq<Item>) {
    items == [] ||
    (PrintableItem(items[0]) && (items[0].form.ToEnd? ==> |items| == 1) && Printable(items[1..]))
  }

  /** The boxes of a printed list that starts at `off`. */
  function Printed(items: seq<Item>, off: nat): seq<Box>
    decreases |items|
  {
    if items == [] then []
    else
      [Box(items[0].boxType, off, PrintedSize(items[0]), items[0].payload)]
      + Printed(items[1..], off + PrintedSize(items[0]))
  }

  lemma PrintedHeader(data: seq<Byte>, off: nat, size: nat, boxType: seq<Byte>, after: seq<Byte>)
    requires size < TWO_32 && |boxType| == 4
    requires off <= |data| && data[off..] == Put32(size) + boxType + after
    ensures off + 8 + |after| == |data| && U32At(data, off) == size && data[off + 4..off + 8] == boxType
    ensures data[off + 8..] == after
  {
    var tail := Put32(size) + boxType + after;
    assert data[off..off + 4] == data[off..][..4] == Put32(size);
    Read32(data, off, size);
    assert data[off + 4..off + 8] == data[off..][4..8] == boxType;
    assert data[off + 8..] == data[off..][8..] == after;
  }

  lemma PrintedPayload(data: seq<Byte>, at: nat, payload: seq<Byte>, after: seq<Byte>)
    requires at <= |data| && data[at..] == payload + after
    ensures at + |payload| + |after| == |data|
    ensures data[at..at + |payload|] == payload && data[at + |payload|..] == after
  {
    assert data[at..at + |payload|] == data[at..][..|payload|];
    assert data[at + |payload|..] == data[at..][|payload|..];
  }

  lemma PrintedShort(data: seq<Byte>, off: nat, item: Item, after: seq<Byte>)
    requires PrintableItem(item) && item.form.Short?
    requires |data| <= U64_MAX - 8 && off <= |data| && data[off..] == PrintItem(item) + after
    ensures IsCollected(data, off, item, after)
  {
    Associative(Put32(8 + |item.payload|) + item.boxType, item.payload, after);
    PrintedHeader(data, off, 8 + |item.payload|, item.boxType, item.payload + after);
    PrintedPayload(data, off + 8, item.payload, after);
  }

  lemma PrintedLong(data: seq<Byte>, off: nat, item: Item, after: seq<Byte>)
    requires PrintableItem(item) && item.form.Long?
    requires |data| <= U64_MAX - 8 && off <= |data| && data[off..] == PrintItem(item) + after
    ensures IsCollected(data, off, item, after)
  {
    var size := Put64(16 + |item.payload|);
    Associative(Put32(1) + item.boxType, size + item.payload, after);
    Associative(size, item.payload, after);
    PrintedHeader(data, off, 1, item.boxType, size + (item.payload + after));
    PrintedPayload(data, off + 8, size, item.payload + after);
    PrintedPayload(data, off + 16, item.payload, after);
    Read64(data, off + 8, 16 + |item.payload|);
    hide U32At;
    hide U64At;
    hide Put32;
    hide Put64;
  }

  lemma PrintedToEnd(data: seq<Byte>, off: nat, item: Item)
    requires PrintableItem(item) && item.form.ToEnd?
    requires |data| <= U64_MAX - 8 && off <= |data| && data[off..] == PrintItem(item)
    ensures IsCollected(data, off, item, [])
  {
    PrintedHeader(data, off, 0, item.boxType, item.payload);
    assert item.payload + [] == item.payload;
    PrintedPayload(data, off + 8, item.payload, []);
  }

  /** A printed box is collected as it was, and the parse goes on behind it. */
  predicate IsCollected(data: seq<Byte>, off: nat, item: Item, after: seq<Byte>)
    requires off <= |data|
  {
    && TurnAt(data, off) == Collect(Box(item.boxType, off, PrintedSize(item), item.payload))
    && off + PrintedSize(item) + |after| == |data|
    && data[off + PrintedSize(item)..] == after
  }

  lemma PrintedBox(data: seq<Byte>, off: nat, item: Item, after: seq<Byte>)
    requires PrintableItem(item) && (item.form.ToEnd? ==> after == [])
    requires |data| <= U64_MAX - 8 && off <= |data| && data[off..] == PrintItem(item) + after
    ensures IsCollected(data, off, item, after)
  {
    match item.form
    case Short => PrintedShort(data, off, item, after);
    case Long => PrintedLong(data, off, item, after);
    case ToEnd =>
      assert PrintItem(item) + [] == PrintItem(item);
      PrintedToEnd(data, off, item);
  }

  lemma NothingLeft(data: seq<Byte>, off: nat)
    requires off <= |data| <= U64_MAX - 8 && data[off..] == []
    ensures Chained(data, off, [])
  {
    assert |data[off..]| == 0;
  }

  lemma {:induction false} PrintedChain(data: seq<Byte>, off: nat, items: seq<Item>)
    requires Printable(items) && |data| <= U64_MAX - 8
    requires off <= |data| && data[off..] == PrintItems(items)
    ensures Chained(data, off, Printed(items, off))
    decreases |items|
  {
    hide TurnAt;
    hide PrintItem;
    hide PrintedSize;
    if items == [] {
      NothingLeft(data, off);
    } else {
      var rest := PrintItems(items[1..]);
      PrintedBox(data, off, items[0], rest);
      PrintedChain(data, off + PrintedSize(items[0]), items[1..]);
      assert Printed(items, off)[1..] == Printed(items[1..], off + PrintedSize(items[0]));
    }
  }

  /**
   Any printed list of boxes, with 32-bit sizes, 64-bit sizes and perhaps a
   last box that runs to the end, is parsed back: types, offsets, sizes, payloads.
   */
  lemma ParseInvertsPrint(items: seq<Item>)
    requires Printable(items) && |PrintItems(items)| <= U64_MAX - 8
    ensures Boxes(PrintItems(items), 0) == Success(Printed(items, 0))
  {
    var data := PrintItems(items);
    assert data[0..] == data;
    PrintedChain(data, 0, items);
    ParseIsTheChain(data, 0, Printed(items, 0));
  }

  // ---- In bytes ----

  /** "ftyp" with 32-bit size 10, "free" with 64-bit size 17, and "mdat" of size 0, which runs to the end. */
  const SOME_BOXES: seq<Byte> := [
    0, 0, 0, 10, 0x66, 0x74, 0x79, 0x70, 1, 2,
    0, 0, 0, 1, 0x66, 0x72, 0x65, 0x65, 0, 0, 0, 0, 0, 0, 0, 17, 3,
    0, 0, 0, 0, 0x6D, 0x64, 0x61, 0x74, 4, 5
  ]

  lemma SomeBoxes()
    ensures Boxes(SOME_BOXES, 0) == Success([
      Box([0x66, 0x74, 0x79, 0x70], 0, 10, [1, 2]),
      Box([0x66, 0x72, 0x65, 0x65], 10, 17, [3]),
      Box([0x6D, 0x64, 0x61, 0x74], 27, 10, [4, 5])])
  {
    FirstBox();
    SecondBox();
    ThirdBox();
    NothingBehind();
    hide TurnAt;
    hide SOME_BOXES;
    BoxInFront(SOME_BOXES, 27, []);
    BoxInFront(SOME_BOXES, 10, Boxes(SOME_BOXES, 27).value);
    BoxInFront(SOME_BOXES, 0, Boxes(SOME_BOXES, 10).value);
    var first, second, third :=
      TurnAt(SOME_BOXES, 0).box, TurnAt(SOME_BOXES, 10).box, TurnAt(SOME_BOXES, 27).box;
    assert [first] + ([second] + ([third] + [])) == [first, second, third];
  }

  lemma BoxInFront(data: seq<Byte>, off: nat, rest: seq<Box>)
    requires var turn := TurnAt(data, off);
      turn.Collect? && turn.box.size != 0 && Boxes(data, off + turn.box.size) == Success(rest)
    ensures Boxes(data, off) == Success([TurnAt(data, off).box] + rest)
  {
  }

  lemma FourBytes(data: seq<Byte>, i: nat)
    requires i + 4 <= |data|
    ensures data[i..i + 4] == [data[i], data[i + 1], data[i + 2], data[i + 3]]
  {
  }

  lemma TwoBytes(data: seq<Byte>, i: nat)
    requires i + 2 <= |data|
    ensures data[i..i + 2] == [data[i], data[i + 1]]
  {
  }

  /** A whole box with a 32-bit size. */
  lemma ShortBox(data: seq<Byte>, off: nat, size: nat)
    requires 8 <= size && off + size <= |data| <= U64_MAX && U32At(data, off) == size
    ensures TurnAt(data, off) == Collect(Box(data[off + 4..off + 8], off, size, data[off + 8..off + size]))
  {
  }

  /** A whole box with a 64-bit size. */
  lemma LongBox(data: seq<Byte>, off: nat, size: nat)
    requires 16 <= size && off + size <= |data| <= U64_MAX && U32At(data, off) == 1 && U64At(data, off + 8) == size
    ensures TurnAt(data, off) == Collect(Box(data[off + 4..off + 8], off, size, data[off + 16..off + size]))
  {
  }

  /** A box up to the end of the data. */
  lemma LastBox(data: seq<Byte>, off: nat)
    requires off + 8 <= |data| <= U64_MAX && U32At(data, off) == 0
    ensures TurnAt(data, off) == Collect(Box(data[off + 4..off + 8], off, |data| - off, data[off + 8..]))
  {
  }

  /** A size smaller than the header: nothing is its payload, and the next box is looked for inside this header. */
  lemma TinyBox(data: seq<Byte>, off: nat, size: nat)
    requires off + 8 <= |data| <= U64_MAX
    requires (U32At(data, off) == size && 2 <= size < 8)
      || (U32At(data, off) == 1 && off + 16 <= |data| && U64At(data, off + 8) == size && size < 16)
    ensures TurnAt(data, off) == Collect(Box(data[off + 4..off + 8], off, size, []))
  {
  }

  /** A size past the end of the data: the payload is what is there. */
  lemma CutOffBox(data: seq<Byte>, off: nat)
    requires off + 8 <= |data| <= U64_MAX / 2 && U32At(data, off) > 1 && off + U32At(data, off) > |data|
    ensures TurnAt(data, off) == Collect(Box(data[off + 4..off + 8], off, U32At(data, off), data[off + 8..]))
  {
  }

  lemma FirstBox()
    ensures TurnAt(SOME_BOXES, 0) == Collect(Box([0x66, 0x74, 0x79, 0x70], 0, 10, [1, 2]))
  {
    FirstBytes();
    assert |SOME_BOXES| == 37;
    hide SOME_BOXES;
    ShortBox(SOME_BOXES, 0, 10);
  }

  lemma FirstBytes()
    ensures U32At(SOME_BOXES, 0) == 10
    ensures SOME_BOXES[4..8] == [0x66, 0x74, 0x79, 0x70] && SOME_BOXES[8..10] == [1, 2]
  {
    FourBytes(SOME_BOXES, 4);
    TwoBytes(SOME_BOXES, 8);
  }

  lemma SecondBox()
    ensures TurnAt(SOME_BOXES, 10) == Collect(Box([0x66, 0x72, 0x65, 0x65], 10, 17, [3]))
  {
    SecondBytes();
    assert |SOME_BOXES| == 37;
    hide SOME_BOXES;
    LongBox(SOME_BOXES, 10, 17);
  }

  lemma SecondBytes()
    ensures U32At(SOME_BOXES, 10) == 1 && U64At(SOME_BOXES, 18) == 17
    ensures SOME_BOXES[14..18] == [0x66, 0x72, 0x65, 0x65] && SOME_BOXES[26..27] == [3]
  {
    FourBytes(SOME_BOXES, 14);
    SecondSize();
    hide U64At;
    assert SOME_BOXES[26..27] == [SOME_BOXES[26]];
  }

  lemma SecondSize()
    ensures U64At(SOME_BOXES, 18) == 17
  {
  }

  lemma ThirdBox()
    ensures TurnAt(SOME_BOXES, 27) == Collect(Box([0x6D, 0x64, 0x61, 0x74], 27, 10, [4, 5]))
  {
    assert U32At(SOME_BOXES, 27) == 0;
    LastBox(SOME_BOXES, 27);
    FourBytes(SOME_BOXES, 31);
    TwoBytes(SOME_BOXES, 35);
    hide TurnAt;
    hide U32At;
    assert SOME_BOXES[35..] == SOME_BOXES[35..37];
  }

  lemma NothingBehind()
    ensures Boxes(SOME_BOXES, 37) == Success([])
  {
  }
}
