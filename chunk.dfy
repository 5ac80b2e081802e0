/**
 * The bytecode side of the virtual machine: the closed opcode set and its
 * one-byte encoding, the chunk (instruction bytes, a per-byte line table and
 * a constant pool), and the disassembler's walk over a chunk.
 */
module Chunks {
  import opened Common

  /** The values the machine computes with are single unsigned bytes. */
  type Value = byte

  datatype OpCode =
    | OpReturn
    | OpConstant
    | OpNegate
    | OpAdd
    | OpSubtract
    | OpMultiply
    | OpDivide

  /** The opcodes in the order they are declared; an opcode's byte is its position here. */
  const DeclarationOrder: seq<OpCode> :=
    [OpReturn, OpConstant, OpNegate, OpAdd, OpSubtract, OpMultiply, OpDivide]

  /** Encodes an opcode as its byte 0x00..0x06. */
  function OpcodeToU8(op: OpCode): (b: byte)
    ensures b < |DeclarationOrder| && DeclarationOrder[b] == op
  {
    match op
    case OpReturn => 0x00
    case OpConstant => 0x01
    case OpNegate => 0x02
    case OpAdd => 0x03
    case OpSubtract => 0x04
    case OpMultiply => 0x05
    case OpDivide => 0x06
  }

  /** Decodes a byte; every byte past the last opcode decodes to nothing. */
  function U8ToOpcode(b: byte): (r: Option<OpCode>)
    ensures b < |DeclarationOrder| ==> r == Some(DeclarationOrder[b])
    ensures b >= |DeclarationOrder| ==> r == None
  {
    match b
    case 0x00 => Some(OpReturn)
    case 0x01 => Some(OpConstant)
    case 0x02 => Some(OpNegate)
    case 0x03 => Some(OpAdd)
    case 0x04 => Some(OpSubtract)
    case 0x05 => Some(OpMultiply)
    case 0x06 => Some(OpDivide)
    case _ => None
  }

  /** Decoding inverts encoding, and a byte decodes to an opcode exactly when it is that opcode's encoding. */
  lemma EncodingRoundTrip(op: OpCode, b: byte)
    ensures U8ToOpcode(OpcodeToU8(op)) == Some(op)
    ensures U8ToOpcode(b) == Some(op) <==> OpcodeToU8(op) == b
    ensures U8ToOpcode(b) == None <==> b > 0x06
  {
  }

  /** What the disassembler decodes at one offset. */
  datatype Operation =
    | Simple(op: OpCode)                          // an opcode without operand
    | Constant(index: byte, value: Option<Value>) // OpConstant with its operand and pool entry
    | Unknown(raw: byte)                          // a byte that is not an opcode

  /** One line of the listing: the offset, its source line, the decoded operation and the next offset. */
  datatype Instruction = Instruction(offset: nat, line: byte, operation: Operation, next: nat)

  /**
   * Decodes the instruction at `offset`. The offset itself must be inside the
   * code; everything else is read leniently: a missing line is 0, a missing
   * operand is index 0, an index past the pool has no value.
   */
  function DisassembleInstruction(code: seq<byte>, lines: seq<byte>, values: seq<Value>, offset: nat): (d: Instruction)
    requires offset < |code|
    ensures d.offset == offset
    ensures d.line == (if offset < |lines| then lines[offset] else 0)
    ensures d.operation.Constant? <==> code[offset] == OpcodeToU8(OpConstant)
    ensures d.operation.Unknown? <==> U8ToOpcode(code[offset]) == None
    ensures d.next == (if code[offset] == OpcodeToU8(OpConstant) then offset + 2 else offset + 1)
    ensures d.operation.Simple? ==>
      OpcodeToU8(d.operation.op) == code[offset] && d.operation.op != OpConstant
    ensures d.operation.Unknown? ==> d.operation.raw == code[offset]
    ensures d.operation.Constant? ==>
      d.operation.index == (if offset + 1 < |code| then code[offset + 1] else 0) &&
      (d.operation.value.Some? <==> d.operation.index < |values|) &&
      (d.operation.value.Some? ==> d.operation.value.value == values[d.operation.index])
  {
    var line := if offset < |lines| then lines[offset] else 0;
    match U8ToOpcode(code[offset])
    case None => Instruction(offset, line, Unknown(code[offset]), offset + 1)
    case Some(op) =>
      if op == OpConstant then
        var index := if offset + 1 < |code| then code[offset + 1] else 0;
        var value := if index < |values| then Some(values[index]) else None;
        Instruction(offset, line, Constant(index, value), offset + 2)
      else
        Instruction(offset, line, Simple(op), offset + 1)
  }

  /** The listing the disassembler produces when it walks the code from `from` to the end. */
  ghost function Listing(code: seq<byte>, lines: seq<byte>, values: seq<Value>, from: nat): seq<Instruction>
    decreases |code| - from
  {
    if from >= |code| then []
    else
      var d := DisassembleInstruction(code, lines, values, from);
      [d] + Listing(code, lines, values, d.next)
  }

  /**
   * `listing` is a walk over `code` starting at `from`: its offsets start at
   * `from`, stay inside the code, strictly increase, each entry is the decoding
   * at its offset, each entry's next offset is the following entry's offset,
   * and the last one steps past the end.
   */
  ghost predicate IsWalk(code: seq<byte>, lines: seq<byte>, values: seq<Value>, listing: seq<Instruction>, from: nat)
  {
    (listing == [] <==> from >= |code|) &&
    (listing != [] ==> listing[0].offset == from && listing[|listing| - 1].next >= |code|) &&
    (forall i :: 0 <= i < |listing| ==>
      from <= listing[i].offset < |code| &&
      listing[i] == DisassembleInstruction(code, lines, values, listing[i].offset)) &&
    (forall i :: 0 <= i < |listing| - 1 ==> listing[i + 1].offset == listing[i].next) &&
    (forall i, j :: 0 <= i < j < |listing| ==> listing[i].offset < listing[j].offset)
  }

  /** The disassembler's walk is well formed, and it takes at most one step per byte. */
  lemma {:induction false} ListingIsWalk(code: seq<byte>, lines: seq<byte>, values: seq<Value>, from: nat)
    ensures IsWalk(code, lines, values, Listing(code, lines, values, from), from)
    ensures from <= |code| ==> |Listing(code, lines, values, from)| <= |code| - from
    decreases |code| - from
  {
    if from < |code| {
      var d := DisassembleInstruction(code, lines, values, from);
      var rest := Listing(code, lines, values, d.next);
      ListingIsWalk(code, lines, values, d.next);
      var listing := [d] + rest;
      assert listing == Listing(code, lines, values, from);
      forall i, j | 0 <= i < j < |listing|
        ensures listing[i].offset < listing[j].offset
      {
        if i > 0 {
          assert listing[i] == rest[i - 1] && listing[j] == rest[j - 1];
        } else {
          assert listing[j] == rest[j - 1];
        }
      }
      forall i | 0 <= i < |listing| - 1
        ensures listing[i + 1].offset == listing[i].next
      {
        if i > 0 {
          assert listing[i] == rest[i - 1] && listing[i + 1] == rest[i];
        }
      }
    }
  }

  /**
   * A chunk: the instruction stream, a line number for every byte of it, and
   * the constant pool. Bytes and lines are only ever appended together.
   */
  class Chunk {
    var code: seq<byte>
    var lines: seq<byte>
    var values: seq<Value>

    ghost predicate Valid()
      reads this
    {
      |code| == |lines|
    }

    constructor InitChunk()
      ensures Valid()
      ensures code == [] && lines == [] && values == []
    {
      code, lines, values := [], [], [];
    }

    /** Appends one byte and its line; the pool is untouched. */
    method WriteToChunk(b: byte, line: byte)
      requires Valid()
      modifies this
      ensures Valid()
      ensures code == old(code) + [b]
      ensures lines == old(lines) + [line]
      ensures values == old(values)
    {
      code := code + [b];
      lines := lines + [line];
    }

    /**
     * Appends a constant and returns its index, truncated to a byte as the
     * `as u8` cast does; below 256 entries the index addresses the new entry.
     */
    method AddConstant(value: Value) returns (index: byte)
      requires Valid()
      modifies this
      ensures Valid()
      ensures values == old(values) + [value]
      ensures code == old(code) && lines == old(lines)
      ensures index == |old(values)| % 256
      ensures |old(values)| < 256 ==> index == |old(values)| && values[index] == value
    {
      values := values + [value];
      index := (|values| - 1) % 256;
    }

    /**
     * Walks the code from offset 0 and returns one entry per instruction
     * (the listing that the source prints under a header bearing `name`).
     */
    method Disassemble(name: string) returns (listing: seq<Instruction>)
      ensures listing == Listing(code, lines, values, 0)
      ensures IsWalk(code, lines, values, listing, 0)
      ensures |listing| <= |code|
    {
      listing := [];
      var offset := 0;
      while offset < |code|
        invariant listing + Listing(code, lines, values, offset) == Listing(code, lines, values, 0)
        decreases |code| - offset
      {
        var d := DisassembleInstruction(code, lines, values, offset);
        assert Listing(code, lines, values, offset) == [d] + Listing(code, lines, values, d.next);
        assert listing + Listing(code, lines, values, offset) == (listing + [d]) + Listing(code, lines, values, d.next);
        listing := listing + [d];
        offset := d.next;
      }
      ListingIsWalk(code, lines, values, 0);
    }
  }

  /**
   * The virtual machine's state: an optional chunk, the instruction pointer
   * and the operand stack. The source declares only these fields; a machine
   * starts with no chunk, ip 0 and an empty stack.
   */
  class VirtualMachine {
    var chunk: Option<Chunk>
    var ip: nat
    var stack: seq<Value>

    constructor Init()
      ensures chunk == None && ip == 0 && stack == []
    {
      chunk, ip, stack := None, 0, [];
    }
  }

  /** Two constants get indices 0 and 1, and the writes lay out bytes and lines side by side. */
  method ChunkBasicsExample() returns (i0: byte, i1: byte, code: seq<byte>, lines: seq<byte>, values: seq<Value>)
    ensures i0 == 0 && i1 == 1
    ensures values == [15, 42] && values[i0] == 15 && values[i1] == 42
    ensures |code| == |lines| && lines == [10, 10, 11, 11, 12]
    ensures U8ToOpcode(code[0]) == Some(OpConstant) && code[1] == i0
    ensures U8ToOpcode(code[2]) == Some(OpConstant) && code[3] == i1
    ensures U8ToOpcode(code[4]) == Some(OpReturn)
  {
    var c := new Chunk.InitChunk();
    i0 := c.AddConstant(15);
    i1 := c.AddConstant(42);
    c.WriteToChunk(OpcodeToU8(OpConstant), 10);
    c.WriteToChunk(i0, 10);
    c.WriteToChunk(OpcodeToU8(OpConstant), 11);
    c.WriteToChunk(i1, 11);
    c.WriteToChunk(OpcodeToU8(OpReturn), 12);
    code, lines, values := c.code, c.lines, c.values;
  }

  /**
   * Constant, Constant, Add, an unknown byte 0xFF and Return: the
   * instruction-level disassembler steps 0, 2, 4, 5, 6 and ends at 7.
   */
  method DisassembleOffsetsExample() returns (offsets: seq<nat>, lines: seq<byte>)
    ensures offsets == [0, 2, 4, 5, 6, 7]
    ensures lines == [1, 1, 2, 2, 3, 4, 5]
  {
    var c := new Chunk.InitChunk();
    var i0 := c.AddConstant(10);
    c.WriteToChunk(OpcodeToU8(OpConstant), 1);
    c.WriteToChunk(i0, 1);
    var i1 := c.AddConstant(20);
    c.WriteToChunk(OpcodeToU8(OpConstant), 2);
    c.WriteToChunk(i1, 2);
    c.WriteToChunk(OpcodeToU8(OpAdd), 3);
    c.WriteToChunk(0xFF, 4);
    c.WriteToChunk(OpcodeToU8(OpReturn), 5);
    var code, values := c.code, c.values;
    lines := c.lines;
    assert code == [0x01, 0, 0x01, 1, 0x03, 0xFF, 0x00];
    var off := 0;
    offsets := [off];
    off := DisassembleInstruction(code, lines, values, off).next;
    offsets := offsets + [off];
    off := DisassembleInstruction(code, lines, values, off).next;
    offsets := offsets + [off];
    off := DisassembleInstruction(code, lines, values, off).next;
    offsets := offsets + [off];
    off := DisassembleInstruction(code, lines, values, off).next;
    offsets := offsets + [off];
    off := DisassembleInstruction(code, lines, values, off).next;
    offsets := offsets + [off];
  }
}
