/** NeoVM operation codes and the facts about them that decoding, jumping and pricing need. */
module Opcodes {
  import opened Bytes

  const PUSHINT8: Byte := 0x00
  const PUSHINT256: Byte := 0x05
  const PUSHA: Byte := 0x0A
  const PUSHNULL: Byte := 0x0B
  const PUSHDATA1: Byte := 0x0C
  const PUSHDATA2: Byte := 0x0D
  const PUSHDATA4: Byte := 0x0E
  const PUSH0: Byte := 0x10
  const PUSH1: Byte := 0x11
  const PUSH16: Byte := 0x20
  const NOP: Byte := 0x21
  const JMP: Byte := 0x22
  const JMPL: Byte := 0x23
  const JMPIF: Byte := 0x24
  const JMPIFL: Byte := 0x25
  const JMPIFNOT: Byte := 0x26
  const JMPIFNOTL: Byte := 0x27
  const JMPEQ: Byte := 0x28
  const JMPEQL: Byte := 0x29
  const JMPNE: Byte := 0x2A
  const JMPNEL: Byte := 0x2B
  const JMPGT: Byte := 0x2C
  const JMPGTL: Byte := 0x2D
  const JMPGE: Byte := 0x2E
  const JMPGEL: Byte := 0x2F
  const JMPLT: Byte := 0x30
  const JMPLTL: Byte := 0x31
  const JMPLE: Byte := 0x32
  const JMPLEL: Byte := 0x33
  const CALL: Byte := 0x34
  const CALLL: Byte := 0x35
  const CALLA: Byte := 0x36
  const CALLT: Byte := 0x37
  const ABORT: Byte := 0x38
  const ASSERT: Byte := 0x39
  const THROW: Byte := 0x3A
  const TRY: Byte := 0x3B
  const TRYL: Byte := 0x3C
  const ENDTRY: Byte := 0x3D
  const ENDTRYL: Byte := 0x3E
  const ENDFINALLY: Byte := 0x3F
  const RET: Byte := 0x40
  const SYSCALL: Byte := 0x41
  const INITSSLOT: Byte := 0x56
  const INITSLOT: Byte := 0x57
  const LDSFLD: Byte := 0x5F
  const STSFLD: Byte := 0x67
  const LDLOC: Byte := 0x6F
  const STLOC: Byte := 0x77
  const LDARG: Byte := 0x7F
  const STARG: Byte := 0x87
  const NEWARRAYT: Byte := 0xC4
  const PICKITEM: Byte := 0xCE
  const SETITEM: Byte := 0xD0
  const ISTYPE: Byte := 0xD9
  const CONVERT: Byte := 0xDB

  /** Largest PUSHDATA4 payload. */
  const MAX_ITEM_SIZE := 1024 * 1024

  predicate IsValid(op: Byte) {
    || op <= 0x05 || 0x0A <= op <= 0x41
    || op == 0x43 || op == 0x45 || op == 0x46 || 0x48 <= op <= 0x4B || op == 0x4D || op == 0x4E
    || 0x50 <= op <= 0x89 || 0x8B <= op <= 0x8E || 0x90 <= op <= 0x93 || 0x97 <= op <= 0xA4
    || 0xA8 <= op <= 0xAC || op == 0xB1 || 0xB3 <= op <= 0xBB || 0xBE <= op <= 0xC6
    || op == 0xC8 || 0xCA <= op <= 0xD4 || op == 0xD8 || op == 0xD9 || op == 0xDB
  }

  /** Jumps, calls and ENDTRY with a one-byte offset. */
  predicate IsShortJump(op: Byte) {
    || op in {JMP, JMPIF, JMPIFNOT, JMPEQ, JMPNE, JMPGT, JMPGE, JMPLT, JMPLE}
    || op == CALL || op == ENDTRY
  }

  /** Jumps, calls and ENDTRY with a four-byte offset: the forms that have a short counterpart. */
  predicate IsLongJump(op: Byte) {
    || op in {JMPL, JMPIFL, JMPIFNOTL, JMPEQL, JMPNEL, JMPGTL, JMPGEL, JMPLTL, JMPLEL}
    || op == CALLL || op == ENDTRYL
  }

  /** Number of parameter bytes of every opcode except the PUSHDATA family. */
  function ParameterSize(op: Byte): nat {
    if IsShortJump(op) then 1
    else if op in {ISTYPE, CONVERT, NEWARRAYT, INITSSLOT, LDSFLD, STSFLD, LDARG, STARG, LDLOC, STLOC} then 1
    else if op in {INITSLOT, TRY, CALLT} then 2
    else if IsLongJump(op) || op == SYSCALL || op == PUSHA then 4
    else if op == TRYL then 8
    else if op == 0 then 1 else if op == 1 then 2 else if op == 2 then 4
    else if op == 3 then 8 else if op == 4 then 16 else if op == 5 then 32
    else 0
  }

  function ToShortForm(op: Byte): (short: Byte)
    requires IsLongJump(op)
    ensures IsShortJump(short) && short == op - 1
  {
    if op == JMPL then JMP
    else if op == JMPIFL then JMPIF
    else if op == JMPIFNOTL then JMPIFNOT
    else if op == JMPEQL then JMPEQ
    else if op == JMPNEL then JMPNE
    else if op == JMPGTL then JMPGT
    else if op == JMPGEL then JMPGE
    else if op == JMPLEL then JMPLE
    else if op == JMPLTL then JMPLT
    else if op == CALLL then CALL
    else ENDTRY
  }

  /** Both encodings of one operation, told apart only by the width of their offsets. */
  function LongForm(op: Byte): Byte {
    if IsShortJump(op) then op + 1 else if op == TRY then TRYL else op
  }

  /** Instructions whose parameter is one offset relative to their own address. */
  predicate HasOffset(op: Byte) { IsShortJump(op) || IsLongJump(op) || op == PUSHA }

  /** The relative offset held in a one-byte or a four-byte parameter. */
  function OffsetOf(arg: seq<Byte>): int {
    if |arg| == 1 then Signed8(arg[0]) else if |arg| == 4 then Signed32(arg) else 0
  }

  /** Price coefficient of each opcode; opcodes that do not exist have none. */
  function Coefficient(op: Byte): (c: nat)
    ensures IsValid(op) ==> (c == 0 <==> op in {ABORT, RET, SYSCALL})
    ensures IsLongJump(op) ==> c == Coefficient(ToShortForm(op))
  {
    if op <= 0x03 then 1
    else if op <= 0x05 then 4
    else if op <= 0x09 then 0
    else if op == PUSHA then 4
    else if op == PUSHNULL then 1
    else if op == PUSHDATA1 then 8
    else if op == PUSHDATA2 then 512
    else if op == PUSHDATA4 then 4096
    else if op <= NOP then 1
    else if op <= JMPLEL then 2
    else if op <= CALLA then 512
    else if op == CALLT then 32768
    else if op == ABORT then 0
    else if op == ASSERT then 1
    else if op == THROW then 512
    else if op <= ENDFINALLY then 4
    else if op <= SYSCALL then 0
    else if op in {0x48, 0x49, 0x52, 0x55, 0x56} then 16
    else if op in {0x43, 0x45, 0x46, 0x4A, 0x4B, 0x4D, 0x4E, 0x50, 0x51, 0x53, 0x54} then 2
    else if op == INITSLOT then 64
    else if 0x58 <= op <= STARG then 2
    else if op == 0x88 then 256
    else if op in {0x89, 0x8B, 0x8C, 0x8D, 0x8E} then 2048
    else if op == 0x90 then 4
    else if 0x91 <= op <= 0x93 then 8
    else if op in {0x97, 0x98} then 32
    else if 0x99 <= op <= 0x9D then 4
    else if 0x9E <= op <= 0xA2 then 8
    else if op in {0xA3, 0xA4} then 64
    else if op in {0xA8, 0xA9} then 8
    else if op == 0xAA then 4
    else if op in {0xAB, 0xAC} then 8
    else if op == 0xB1 then 4
    else if 0xB3 <= op <= 0xBB then 8
    else if 0xBE <= op <= 0xC1 then 2048
    else if op in {0xC2, 0xC5} then 16
    else if op in {0xC3, 0xC4, 0xC6} then 512
    else if op == 0xC8 then 8
    else if op == 0xCA then 4
    else if op == 0xCB then 64
    else if op == 0xCC then 16
    else if op == 0xCD then 8192
    else if op == PICKITEM then 64
    else if op in {0xCF, SETITEM, 0xD1} then 8192
    else if op in {0xD2, 0xD3, 0xD4} then 16
    else if op in {0xD8, ISTYPE} then 2
    else if op == CONVERT then 8192
    else 0
  }

  /** The numbers that no opcode has. */
  lemma Gaps(op: Byte)
    ensures !IsValid(op) <==>
              || 0x06 <= op <= 0x09 || op in {0x42, 0x44, 0x47, 0x4C, 0x4F, 0x8A, 0x8F} || 0x94 <= op <= 0x96
              || 0xA5 <= op <= 0xA7 || 0xAD <= op <= 0xB0 || op in {0xB2, 0xBC, 0xBD, 0xC7, 0xC9, 0xDA}
              || 0xD5 <= op <= 0xD7 || 0xDC <= op
  {}

  /** What each price buys. */
  lemma Prices(op: Byte)
    requires IsValid(op)
    ensures Coefficient(op) == 0 <==> op in {0x38, 0x40, 0x41}
    ensures Coefficient(op) == 1 <==> op <= 0x03 || op in {0x0B, 0x39} || 0x0F <= op <= 0x21
    ensures Coefficient(op) == 2 <==>
              || 0x22 <= op <= 0x33 || op in {0x43, 0x45, 0x46, 0x4A, 0x4B, 0x4D, 0x4E, 0x50, 0x51, 0x53, 0x54}
              || 0x58 <= op <= 0x87 || op in {0xD8, 0xD9}
    ensures Coefficient(op) == 4 <==>
              op in {0x04, 0x05, 0x0A, 0x90, 0xAA, 0xB1, 0xCA} || 0x3B <= op <= 0x3F || 0x99 <= op <= 0x9D
    ensures Coefficient(op) == 8 <==>
              || op in {0x0C, 0xA8, 0xA9, 0xAB, 0xAC, 0xC8} || 0x91 <= op <= 0x93 || 0x9E <= op <= 0xA2
              || 0xB3 <= op <= 0xBB
    ensures Coefficient(op) == 16 <==>
              op in {0x48, 0x49, 0x52, 0x55, 0x56, 0xC2, 0xC5, 0xCC} || 0xD2 <= op <= 0xD4
    ensures Coefficient(op) == 32 <==> op in {0x97, 0x98}
    ensures Coefficient(op) == 64 <==> op in {0x57, 0xA3, 0xA4, 0xCB, 0xCE}
    ensures Coefficient(op) == 256 <==> op == 0x88
    ensures Coefficient(op) == 512 <==> op in {0x0D, 0x34, 0x35, 0x36, 0x3A, 0xC3, 0xC4, 0xC6}
    ensures Coefficient(op) == 2048 <==> op == 0x89 || 0x8B <= op <= 0x8E || 0xBE <= op <= 0xC1
    ensures Coefficient(op) == 4096 <==> op == 0x0E
    ensures Coefficient(op) == 8192 <==> op in {0xCD, 0xCF, 0xD0, 0xD1, 0xDB}
    ensures Coefficient(op) == 32768 <==> op == 0x37
  {}
}
