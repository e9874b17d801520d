/** Single steps of the virtual machine on data, and what the emitter's numbers mean to it. */
module DataSteps {
  import opened Bytes
  import opened Opcodes
  import opened Common
  import opened Machine
  import opened ControlLaws
  import opened Bytecode
  import opened DataMachine
  import CodeOperands
  import S = StackCode

  // ----- numbers -----

  /** Half the number of values that the given number of bytes can hold. */
  function Half(size: nat): int { if size <= 1 then 0x80 else 0x100 * Half(size - 1) }

  lemma {:induction false} WrittenNumberRead(n: int, size: nat)
    requires size > 0 && -Half(size) <= n < Half(size)
    ensures SignedBytes(LittleEndian(n, size)) == n
    decreases size
  {
    if size == 1 {
      assert LittleEndian(n, 1) == [n % 0x100] + LittleEndian(n / 0x100, 0);
      assert LittleEndian(n, 1) == [n % 0x100];
    } else {
      var h := Half(size - 1);
      assert -h <= n / 0x100 < h;
      WrittenNumberRead(n / 0x100, size - 1);
      var s := LittleEndian(n, size);
      assert s[0] == n % 0x100 && s[1..] == LittleEndian(n / 0x100, size - 1);
    }
  }

  lemma Halves()
    ensures Half(1) == 0x80 && Half(2) == 0x8000 && Half(4) == 0x8000_0000 && Half(8) == 0x8000_0000_0000_0000
  {
    assert Half(3) == 0x80_0000 && Half(5) == 0x80_0000_0000 && Half(6) == 0x8000_0000_0000;
    assert Half(7) == 0x80_0000_0000_0000;
  }

  /** emit.Int writes what PUSH and PUSHINT read. */
  lemma PushedNumber(w: Calls, n: int, d: Memory)
    requires CodeOperands.IsInt64(n)
    ensures EffectOf(w, IntIns(n).op, IntIns(n).arg, d) == DataMachine.Done(d.(stack := d.stack + [S.Value.Int(n)]))
  {
    hide LittleEndian, SignedBytes;
    Halves();
    if IsInt8(n) { WrittenNumberRead(n, 1); }
    if -0x8000 <= n < 0x8000 { WrittenNumberRead(n, 2); }
    if IsInt32(n) { WrittenNumberRead(n, 4); }
    WrittenNumberRead(n, 8);
    assert d.stack[..|d.stack| - 0] == d.stack;
  }

  /** It does so in the shortest form: no parameter for -1 to 15, else the first width that holds the number. */
  lemma ShortestForm(n: int)
    requires CodeOperands.IsInt64(n)
    ensures |IntIns(n).arg| == if -1 <= n <= 15 then 0 else if -0x80 <= n <= 0x7F then 1
                               else if -0x8000 <= n <= 0x7FFF then 2 else if -0x8000_0000 <= n <= 0x7FFF_FFFF then 4
                               else 8
  {}

  lemma CallNumberRead(f: nat)
    requires f < 0x1_0000_0000
    ensures U32(LE32(f)) == f
  {
    var a := f / 0x100;
    var b := a / 0x100;
    assert f == 0x100 * a + f % 0x100 && a == 0x100 * b + a % 0x100 && b == 0x100 * (b / 0x100) + b % 0x100;
  }

  /** A step of the virtual machine on data, for an instruction that is known. */
  lemma DataStep(w: Calls, script: seq<Byte>, cfg: Config, k: Conf, op: Byte, arg: seq<Byte>, next: nat)
    requires k.Conf? && Executes(script, cfg, k.vm, op, arg, next) && k.locals != []
    requires !EffectOf(w, op, arg, DataOf(k)).NotModelled?
    ensures var e := EffectOf(w, op, arg, DataOf(k));
            DataMachine.Step(w, script, cfg, k) == After(k, e, Machine.Step(script, cfg, k.vm, ChoiceOf(op, e)))
  {
    hide EffectOf, Machine.Step, Coefficient;
  }
}
