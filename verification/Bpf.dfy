// The classic BPF machine that runs seccomp filters, restricted to the four
// instruction forms the compiler emits, and the kernel's reading of a verdict.
module Bpf {

  import opened Wrappers

  const LD: nat := 0x00
  const W: nat := 0x00
  const ABS: nat := 0x20
  const JMP: nat := 0x05
  const JEQ: nat := 0x10
  const JGE: nat := 0x30
  const K: nat := 0x00
  const RET: nat := 0x06

  const OP_LOAD_ABS_WORD: nat := LD + W + ABS
  const OP_JUMP_EQUAL: nat := JMP + JEQ + K
  const OP_JUMP_GE: nat := JMP + JGE + K
  const OP_RETURN: nat := RET + K

  const OFFSET_NR: Word := 0
  const OFFSET_ARCH: Word := 4

  const MAX_INSTRUCTIONS := 4096

  // A 32-bit machine word, an 8-bit jump offset.
  type Word = n: nat | n < 0x1_0000_0000

  type Offset = n: nat | n < 256

  datatype SockFilter = SockFilter(code: nat, jt: Offset, jf: Offset, k: Word)

  // The two fields of struct seccomp_data a filter without argument rules can read.
  datatype SeccompData = SeccompData(nr: Word, arch: Word)

  datatype Outcome = Returned(word: Word) | Stuck

  // From here on numbers are the kernel's own: seccomp_data has its number at 0 and its
  // architecture at 4, and 0x20, 0x15, 0x35 and 0x06 are the codes of the four forms.

  function Load(data: SeccompData, offset: Word): Option<Word> {
    if offset == 0 then Some(data.nr)
    else if offset == 4 then Some(data.arch)
    else None
  }

  // One run of the machine from instruction `pc` with accumulator `acc`. Offsets are
  // unsigned, so control only ever moves forward.
  function Run(program: seq<SockFilter>, pc: nat, acc: Word, data: SeccompData): Outcome
    decreases |program| - pc
  {
    if pc >= |program| then Stuck
    else
      var insn := program[pc];
      if insn.code == 0x20 then
        match Load(data, insn.k)
        case None => Stuck
        case Some(word) => Run(program, pc + 1, word, data)
      else if insn.code == 0x15 then
        Run(program, pc + 1 + if acc == insn.k then insn.jt else insn.jf, acc, data)
      else if insn.code == 0x35 then
        Run(program, pc + 1 + if acc >= insn.k then insn.jt else insn.jf, acc, data)
      else if insn.code == 0x06 then Returned(insn.k)
      else Stuck
  }

  // How many instructions that run executes.
  function Steps(program: seq<SockFilter>, pc: nat, acc: Word, data: SeccompData): nat
    decreases |program| - pc
  {
    if pc >= |program| then 0
    else
      var insn := program[pc];
      if insn.code == 0x20 then
        match Load(data, insn.k)
        case None => 1
        case Some(word) => 1 + Steps(program, pc + 1, word, data)
      else if insn.code == 0x15 then
        1 + Steps(program, pc + 1 + if acc == insn.k then insn.jt else insn.jf, acc, data)
      else if insn.code == 0x35 then
        1 + Steps(program, pc + 1 + if acc >= insn.k then insn.jt else insn.jf, acc, data)
      else 1
  }

  // What the kernel's checker asks of an instruction at position `i` of a program of
  // length `n`, with the compiler's own bound of 1 on jump offsets.
  predicate InsnOk(insn: SockFilter, i: int, n: nat) {
    || insn.code == 0x06
    || (insn.code == 0x20 && insn.k in {0, 4} && i + 1 < n)
    || (insn.code in {0x15, 0x35}
        && insn.jt <= 1 && insn.jf <= 1 && i + 1 + insn.jt < n && i + 1 + insn.jf < n)
  }

  predicate WellFormed(program: seq<SockFilter>) {
    && 0 < |program| <= 4096
    && program[|program| - 1].code == 0x06
    && forall i :: 0 <= i < |program| ==> InsnOk(program[i], i, |program|)
  }

  // A well-formed program returns a verdict from every instruction, never running off
  // the end, within as many steps as there are instructions left.
  lemma {:induction false} WellFormedReturns(program: seq<SockFilter>, pc: nat, acc: Word, data: SeccompData)
    requires WellFormed(program) && pc < |program|
    ensures Run(program, pc, acc, data).Returned?
    ensures 1 <= Steps(program, pc, acc, data) <= |program| - pc
    decreases |program| - pc
  {
    var insn := program[pc];
    assert InsnOk(insn, pc, |program|);
    if insn.code == 0x06 {
    } else if insn.code == 0x20 {
      WellFormedReturns(program, pc + 1, Load(data, insn.k).value, data);
    } else if insn.code == 0x15 {
      WellFormedReturns(program, pc + 1 + if acc == insn.k then insn.jt else insn.jf, acc, data);
    } else {
      WellFormedReturns(program, pc + 1 + if acc >= insn.k then insn.jt else insn.jf, acc, data);
    }
  }

  const RET_KILL_PROCESS: Word := 0x8000_0000
  const RET_KILL_THREAD: Word := 0x0000_0000
  const RET_TRAP: Word := 0x0003_0000
  const RET_ERRNO: Word := 0x0005_0000
  const RET_TRACE: Word := 0x7ff0_0000
  const RET_LOG: Word := 0x7ffc_0000
  const RET_ALLOW: Word := 0x7fff_0000

  // What happens to a system call.
  datatype Disposition = KillProcess | KillThread | Trap | Errno(code: Word) | Trace | Log | Allow

  // seccomp(2), in its own numbers: the upper half of the returned word picks the action, the lower half is
  // its data, and an action the kernel does not know kills the process.
  function Decode(word: Word): Disposition {
    var action := word - word % 0x1_0000;
    if action == 0x0000_0000 then KillThread
    else if action == 0x0003_0000 then Trap
    else if action == 0x0005_0000 then Errno(word % 0x1_0000)
    else if action == 0x7ff0_0000 then Trace
    else if action == 0x7ffc_0000 then Log
    else if action == 0x7fff_0000 then Allow
    else KillProcess
  }

  // The verdict of a whole filter on a system call. The kernel never loads a filter that
  // can get stuck; the model gives such a filter no verdict.
  function Judge(program: seq<SockFilter>, data: SeccompData): Option<Disposition> {
    match Run(program, 0, 0, data)
    case Returned(word) => Some(Decode(word))
    case Stuck => None
  }
}
