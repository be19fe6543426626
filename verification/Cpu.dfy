/** The register file of the guest processor, one shared CpuContext. Floating-point
    registers are kept as bit patterns. */
module Cpu {
  type Regs = s: seq<int> | |s| == 32 witness seq(32, _ => 0)
  type Gqrs = s: seq<int> | |s| == 8 witness seq(8, _ => 0)

  datatype CpuContext = CpuContext(
    gpr: Regs,
    fpr: Regs,
    gqr: Gqrs,
    lr: int,
    ctr: int,
    cr: int,
    xer: int,
    pc: int,
    srr0: int,
    srr1: int,
    hid2: int)

  /** CpuContext{}. */
  function ZeroContext(): CpuContext {
    CpuContext(seq(32, _ => 0), seq(32, _ => 0), seq(8, _ => 0), 0, 0, 0, 0, 0, 0, 0, 0)
  }
}
