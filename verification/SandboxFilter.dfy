/**
 The seccomp filter of shared/sandbox-util.c: a compiler from an allow-list to a classic BPF
 program with relative jumps, run by an interpreter of that machine.
 */
module SandboxFilter {
  import opened Arith

  /** struct seccomp_data as a filter sees it. */
  datatype Data = Data(nr: nat, arch: nat, ip: nat, args: seq<nat>)

  /** The 32-bit word at an offset of struct seccomp_data; the two halves of a 64-bit field swap with the byte order. */
  function Half(v: nat, second: bool, bigEndian: bool): (w: nat)
  {
    if second == bigEndian then v % TWO32 else v / TWO32 % TWO32
  }

  function WordAt(d: Data, off: nat, bigEndian: bool): (w: nat)
    requires |d.args| == 6
  {
    if off == 0 then d.nr
    else if off == 4 then d.arch
    else if off == 8 || off == 12 then Half(d.ip, off == 12, bigEndian)
    else if 16 <= off < 64 && off % 4 == 0 then Half(d.args[(off - 16) / 8], off % 8 == 4, bigEndian)
    else 0
  }

  const OFF_NR: nat := 0
  const OFF_ARCH: nat := 4

  /** ARG_LOW(n) */
  function ArgLow(n: nat, bigEndian: bool): (off: nat)
  {
    16 + 8 * n + (if bigEndian then 4 else 0)
  }

  /** In either byte order, ARG_LOW() is the low word of an argument. */
  lemma ArgLowIsLow(d: Data, n: nat, bigEndian: bool)
    requires |d.args| == 6 && n < 6
    ensures WordAt(d, ArgLow(n, bigEndian), bigEndian) == d.args[n] % TWO32
  {
  }

  // ----- the machine -----

  datatype Action = Kill | Allow | Errno(e: nat)

  const EPERM: nat := 1
  const ENOTTY: nat := 25

  datatype Insn =
    | Load(off: nat)
    | JumpEq(k: nat, jt: nat, jf: nat)
    | JumpGe(k: nat, jt: nat, jf: nat)
    | Ret(action: Action)

  /** How a program ends: it returns, or control leaves the program. */
  datatype End = Returned(action: Action) | RanOff

  /** The machine: a program counter and an accumulator; jumps only go forward. */
  function Run(prog: seq<Insn>, pc: nat, acc: nat, d: Data, bigEndian: bool): (end: End)
    requires |d.args| == 6
    decreases |prog| - pc
  {
    if pc >= |prog| then RanOff
    else
      match prog[pc]
      case Ret(action) => Returned(action)
      case Load(off) => Run(prog, pc + 1, WordAt(d, off, bigEndian), d, bigEndian)
      case JumpEq(k, jt, jf) => Run(prog, pc + 1 + (if acc == k then jt else jf), acc, d, bigEndian)
      case JumpGe(k, jt, jf) => Run(prog, pc + 1 + (if acc >= k then jt else jf), acc, d, bigEndian)
  }

  /** Code in front of the program counter does not matter. */
  lemma {:induction false} RunSuffix(before: seq<Insn>, prog: seq<Insn>, pc: nat, acc: nat, d: Data, bigEndian: bool)
    requires |d.args| == 6
    ensures Run(before + prog, |before| + pc, acc, d, bigEndian) == Run(prog, pc, acc, d, bigEndian)
    decreases |prog| - pc
  {
    if pc < |prog| {
      assert (before + prog)[|before| + pc] == prog[pc];
      match prog[pc]
      case Ret(_) =>
      case Load(off) => RunSuffix(before, prog, pc + 1, WordAt(d, off, bigEndian), d, bigEndian);
      case JumpEq(k, jt, jf) => RunSuffix(before, prog, pc + 1 + (if acc == k then jt else jf), acc, d, bigEndian);
      case JumpGe(k, jt, jf) => RunSuffix(before, prog, pc + 1 + (if acc >= k then jt else jf), acc, d, bigEndian);
    }
  }

  // ----- the policy -----

  /** What the build and the process fix: the architecture, the listed calls, the own pid, the terminal queries. */
  datatype Config = Config(
    arch: nat, x32Bit: nat, hasX32: bool,
    allowed: seq<nat>, tgkill: nat, pid: nat,
    ioctl: nat, requests: seq<nat>, bigEndian: bool)

  function Policy(c: Config, d: Data): (a: Action)
    requires |d.args| == 6
  {
    if d.arch != c.arch then Kill
    else if c.hasX32 && d.nr >= c.x32Bit then Kill
    else if d.nr in c.allowed then Allow
    else if d.nr == c.tgkill then (if d.args[0] % TWO32 == c.pid then Allow else Errno(EPERM))
    else if d.nr != c.ioctl then Errno(EPERM)
    else if d.args[1] % TWO32 in c.requests then Allow
    else Errno(ENOTTY)
  }

  // ----- the program -----

  function AllowOne(k: nat): (p: seq<Insn>)
  {
    [JumpEq(k, 0, 1), Ret(Allow)]
  }

  function AllowAll(ks: seq<nat>): (p: seq<Insn>)
    ensures |p| == 2 * |ks|
  {
    if ks == [] then [] else AllowOne(ks[0]) + AllowAll(ks[1..])
  }

  function Prologue(c: Config): (p: seq<Insn>)
  {
    [Load(OFF_ARCH), JumpEq(c.arch, 1, 0), Ret(Kill), Load(OFF_NR)]
    + if c.hasX32 then [JumpGe(c.x32Bit, 0, 1), Ret(Kill)] else []
  }

  function TgkillPart(c: Config): (p: seq<Insn>)
  {
    [JumpEq(c.tgkill, 0, 4), Load(ArgLow(0, c.bigEndian)), JumpEq(c.pid, 0, 1), Ret(Allow), Ret(Errno(EPERM))]
  }

  function IoctlPart(c: Config): (p: seq<Insn>)
  {
    [JumpEq(c.ioctl, 1, 0), Ret(Errno(EPERM)), Load(ArgLow(1, c.bigEndian))] + AllowAll(c.requests)
      + [Ret(Errno(ENOTTY))]
  }

  function Program(c: Config): (p: seq<Insn>)
    ensures |p| == 13 + (if c.hasX32 then 2 else 0) + 2 * |c.allowed| + 2 * |c.requests|
  {
    Prologue(c) + (AllowAll(c.allowed) + (TgkillPart(c) + IoctlPart(c)))
  }

  /** A block of allows decides for its members and passes on everything else. */
  lemma {:induction false} AllowAllDecides(ks: seq<nat>, rest: seq<Insn>, acc: nat, d: Data, be: bool)
    requires |d.args| == 6
    ensures Run(AllowAll(ks) + rest, 0, acc, d, be) == if acc in ks then Returned(Allow) else Run(rest, 0, acc, d, be)
    decreases |ks|
  {
    if ks == [] {
      assert AllowAll(ks) + rest == rest;
    } else {
      var tail := AllowAll(ks[1..]) + rest;
      assert AllowAll(ks) + rest == AllowOne(ks[0]) + tail;
      var p := AllowOne(ks[0]) + tail;
      assert p[0] == JumpEq(ks[0], 0, 1) && p[1] == Ret(Allow);
      if acc == ks[0] {
        assert Run(p, 1, acc, d, be) == Returned(Allow);
      } else {
        RunSuffix(AllowOne(ks[0]), tail, 0, acc, d, be);
        AllowAllDecides(ks[1..], rest, acc, d, be);
        assert Run(p, 0, acc, d, be) == Run(p, 2, acc, d, be);
      }
    }
  }

  lemma IoctlDecides(c: Config, d: Data)
    requires |d.args| == 6
    ensures Run(IoctlPart(c), 0, d.nr, d, c.bigEndian) == Returned(
      if d.nr != c.ioctl then Errno(EPERM) else if d.args[1] % TWO32 in c.requests then Allow else Errno(ENOTTY))
  {
    var p := IoctlPart(c);
    var head := [JumpEq(c.ioctl, 1, 0), Ret(Errno(EPERM)), Load(ArgLow(1, c.bigEndian))];
    var tail := AllowAll(c.requests) + [Ret(Errno(ENOTTY))];
    assert p == head + tail;
    assert p[0] == head[0] && p[1] == head[1] && p[2] == head[2];
    if d.nr != c.ioctl {
      assert Run(p, 1, d.nr, d, c.bigEndian) == Returned(Errno(EPERM));
    } else {
      var w := d.args[1] % TWO32;
      ArgLowIsLow(d, 1, c.bigEndian);
      assert Run(p, 2, d.nr, d, c.bigEndian) == Run(p, 3, w, d, c.bigEndian);
      RunSuffix(head, tail, 0, w, d, c.bigEndian);
      AllowAllDecides(c.requests, [Ret(Errno(ENOTTY))], w, d, c.bigEndian);
    }
  }

  lemma TgkillDecides(c: Config, rest: seq<Insn>, d: Data)
    requires |d.args| == 6
    ensures Run(TgkillPart(c) + rest, 0, d.nr, d, c.bigEndian) ==
      if d.nr == c.tgkill then Returned(if d.args[0] % TWO32 == c.pid then Allow else Errno(EPERM))
      else Run(rest, 0, d.nr, d, c.bigEndian)
  {
    var p := TgkillPart(c) + rest;
    var be := c.bigEndian;
    assert forall i :: 0 <= i < 5 ==> p[i] == TgkillPart(c)[i];
    if d.nr == c.tgkill {
      var w := d.args[0] % TWO32;
      ArgLowIsLow(d, 0, be);
      assert Run(p, 1, d.nr, d, be) == Run(p, 2, w, d, be);
      assert Run(p, 3, w, d, be) == Returned(Allow) && Run(p, 4, w, d, be) == Returned(Errno(EPERM));
    } else {
      RunSuffix(TgkillPart(c), rest, 0, d.nr, d, be);
    }
  }

  lemma PrologueDecides(c: Config, rest: seq<Insn>, d: Data)
    requires |d.args| == 6
    ensures Run(Prologue(c) + rest, 0, 0, d, c.bigEndian) ==
      if d.arch != c.arch || (c.hasX32 && d.nr >= c.x32Bit) then Returned(Kill) else Run(rest, 0, d.nr, d, c.bigEndian)
  {
    var p := Prologue(c) + rest;
    var be := c.bigEndian;
    assert forall i :: 0 <= i < |Prologue(c)| ==> p[i] == Prologue(c)[i];
    assert Run(p, 0, 0, d, be) == Run(p, 1, d.arch, d, be);
    if d.arch != c.arch {
      assert Run(p, 2, d.arch, d, be) == Returned(Kill);
    } else {
      assert Run(p, 1, d.arch, d, be) == Run(p, 3, d.arch, d, be) == Run(p, 4, d.nr, d, be);
      if c.hasX32 && d.nr >= c.x32Bit {
        assert Run(p, 5, d.nr, d, be) == Returned(Kill);
      } else {
        RunSuffix(Prologue(c), rest, 0, d.nr, d, be);
      }
    }
  }

  /** On every architecture, call number and arguments the program returns, and decides as the policy says. */
  lemma FilterIsPolicy(c: Config, d: Data)
    requires |d.args| == 6
    ensures Run(Program(c), 0, 0, d, c.bigEndian) == Returned(Policy(c, d))
  {
    var ioctl := IoctlPart(c);
    var tgkill := TgkillPart(c) + ioctl;
    PrologueDecides(c, AllowAll(c.allowed) + tgkill, d);
    AllowAllDecides(c.allowed, tgkill, d.nr, d, c.bigEndian);
    TgkillDecides(c, ioctl, d);
    IoctlDecides(c, d);
  }

  // ----- building it in place -----

  const FILTER_SIZE: nat := 64

  class Filter {
    const insn: array<Insn>
    var len: nat
    ghost var emitted: seq<Insn>

    ghost predicate Valid()
      reads this, insn
    {
      && insn.Length == FILTER_SIZE && len == |emitted|
      && forall i :: 0 <= i < len && i < FILTER_SIZE ==> insn[i] == emitted[i]
    }

    constructor ()
      ensures Valid() && emitted == [] && fresh(insn)
    {
      insn := new Insn[FILTER_SIZE](_ => Ret(Kill));
      len := 0;
      emitted := [];
    }

    /** emit(): an instruction that does not fit is counted but not stored. */
    method Emit(i: Insn)
      requires Valid()
      modifies this, insn
      ensures Valid() && emitted == old(emitted) + [i]
    {
      if len < insn.Length {
        insn[len] := i;
      }
      len := len + 1;
      emitted := emitted + [i];
    }

    /** allow() */
    method EmitAllow(k: nat)
      requires Valid()
      modifies this, insn
      ensures Valid() && emitted == old(emitted) + AllowOne(k)
    {
      Emit(JumpEq(k, 0, 1));
      Emit(Ret(Allow));
    }

    method EmitAllows(ks: seq<nat>)
      requires Valid()
      modifies this, insn
      ensures Valid() && emitted == old(emitted) + AllowAll(ks)
    {
      for i := 0 to |ks|
        invariant Valid() && emitted + AllowAll(ks[i..]) == old(emitted) + AllowAll(ks)
      {
        assert ks[i..][1..] == ks[i + 1..];
        EmitAllow(ks[i]);
      }
    }

    method EmitPrologue(c: Config)
      requires Valid()
      modifies this, insn
      ensures Valid() && emitted == old(emitted) + Prologue(c)
    {
      Emit(Load(OFF_ARCH));
      Emit(JumpEq(c.arch, 1, 0));
      Emit(Ret(Kill));
      Emit(Load(OFF_NR));
      if c.hasX32 {
        Emit(JumpGe(c.x32Bit, 0, 1));
        Emit(Ret(Kill));
      }
    }

    method EmitTgkill(c: Config)
      requires Valid()
      modifies this, insn
      ensures Valid() && emitted == old(emitted) + TgkillPart(c)
    {
      Emit(JumpEq(c.tgkill, 0, 4));
      Emit(Load(ArgLow(0, c.bigEndian)));
      EmitAllow(c.pid);
      Emit(Ret(Errno(EPERM)));
    }

    method EmitIoctl(c: Config)
      requires Valid()
      modifies this, insn
      ensures Valid() && emitted == old(emitted) + IoctlPart(c)
    {
      Emit(JumpEq(c.ioctl, 1, 0));
      Emit(Ret(Errno(EPERM)));
      Emit(Load(ArgLow(1, c.bigEndian)));
      EmitAllows(c.requests);
      Emit(Ret(Errno(ENOTTY)));
    }
  }

  /** What sandbox_enter() did: the program it installed, or the error it returned. */
  datatype Entered = Installed(prog: seq<Insn>) | TooBig | Unsupported | Failed(errno: nat)

  const EINVAL: nat := 22

  /** sandbox_enter(); `errno` is what the prctl() calls set, 0 if they succeed. */
  method Enter(c: Config, errno: nat) returns (r: Entered)
    ensures r == if |Program(c)| > FILTER_SIZE then TooBig
                 else if errno == 0 then Installed(Program(c))
                 else if errno == EINVAL then Unsupported
                 else Failed(errno)
    ensures r.Installed? ==> forall d: Data :: |d.args| == 6 ==>
        Run(r.prog, 0, 0, d, c.bigEndian) == Returned(Policy(c, d))
  {
    forall d: Data | |d.args| == 6 ensures Run(Program(c), 0, 0, d, c.bigEndian) == Returned(Policy(c, d)) {
      FilterIsPolicy(c, d);
    }
    hide Run, Policy, Prologue, TgkillPart, IoctlPart, AllowAll;
    var f := new Filter();
    f.EmitPrologue(c);
    f.EmitAllows(c.allowed);
    f.EmitTgkill(c);
    f.EmitIoctl(c);
    assert f.emitted == Program(c);
    if f.len > f.insn.Length {
      return TooBig;
    }
    if errno != 0 {
      return if errno == EINVAL then Unsupported else Failed(errno);
    }
    r := Installed(f.insn[..f.len]);
  }
}
