/** The 32-bit thunks of `odbk_lload.cpp`: a 64-bit `lua_Integer` is passed to and
    returned from the VM as two 32-bit limbs, on a small model of the x86 stack. */
module IntegerThunks {
  const LIMB: nat := 0x1_0000_0000
  type Limb = w: nat | w < LIMB

  predicate IsInt64(n: int) {
    -0x8000_0000_0000_0000 <= n < 0x8000_0000_0000_0000
  }

  /** `li.LowPart` and the bits of `li.HighPart` after `li.QuadPart = n`. */
  function LowPart(n: int): Limb {
    n % LIMB
  }

  function HighPart(n: int): Limb {
    n / LIMB % LIMB
  }

  /** `li.QuadPart`, a signed 64-bit number. */
  function QuadPart(low: Limb, high: Limb): int {
    (if high < LIMB / 2 then high else high - LIMB) * LIMB + low
  }

  lemma LimbsRoundTrip(n: int)
    requires IsInt64(n)
    ensures QuadPart(LowPart(n), HighPart(n)) == n
  {
    assert n == n / LIMB * LIMB + n % LIMB;
    if n >= 0 {
      assert 0 <= n / LIMB < LIMB / 2;
    } else {
      assert -(LIMB / 2) <= n / LIMB < 0;
      assert n / LIMB % LIMB == n / LIMB + LIMB;
    }
  }

  /** From 5.3 on the VM takes its integers as 64 bits. */
  predicate TakesQuad(version: int) {
    version >= 530
  }

  datatype Target = RawGetI | RawSetI | PushInteger

  /** A call as the VM sees it: the stack words its prototype names, and the integer it
      is passed unless it is asked for one. */
  datatype VmCall = VmCall(target: Target, words: seq<Limb>, n: int) | ToIntegerX(words: seq<Limb>)

  /** The stack grows at the front; `value` are the bits of the VM's integer. */
  class Machine {
    var version: int
    var stack: seq<Limb>
    var eax: Limb
    var edx: Limb
    var value: (Limb, Limb)
    var called: seq<VmCall>

    constructor (version: int, stack: seq<Limb>)
      ensures this.version == version && this.stack == stack && called == []
    {
      this.version, this.stack, eax, edx, value, called := version, stack, 0, 0, (0, 0), [];
    }

    method Push(w: Limb)
      modifies this`stack
      ensures stack == [w] + old(stack)
    {
      stack := [w] + stack;
    }

    /** `add esp, 4 * words` */
    method Drop(words: nat)
      requires words <= |stack|
      modifies this`stack
      ensures stack == old(stack)[words..]
    {
      stack := stack[words..];
    }

    /** A cdecl call: the VM reads its arguments from the stack and leaves it alone.
        Its integer argument follows `fixed` other words, in one limb or in two. */
    method Call(target: Target, fixed: nat)
      requires |stack| >= fixed + if TakesQuad(version) then 2 else 1
      modifies this`called, this`value
      ensures called == old(called) + [VmCall(target, stack[..fixed], IntegerArgument(fixed))]
      ensures target == PushInteger ==>
        value == (stack[fixed], if TakesQuad(version) then stack[fixed + 1] else 0)
      ensures target != PushInteger ==> value == old(value)
    {
      called := called + [VmCall(target, stack[..fixed], IntegerArgument(fixed))];
      if target == PushInteger {
        value := (stack[fixed], if TakesQuad(version) then stack[fixed + 1] else 0);
      }
    }

    function IntegerArgument(fixed: nat): int
      requires |stack| >= fixed + if TakesQuad(version) then 2 else 1
      reads this
    {
      if TakesQuad(version) then QuadPart(stack[fixed], stack[fixed + 1]) else stack[fixed]
    }

    /** `lua_tointegerx` returns in eax, and from 5.3 on in edx:eax; before, edx is
        whatever the callee left there. */
    method CallToIntegerX(junk: Limb)
      requires |stack| >= 3
      modifies this`called, this`eax, this`edx
      ensures called == old(called) + [ToIntegerX(stack[..3])]
      ensures eax == value.0 && edx == if TakesQuad(version) then value.1 else junk
    {
      called := called + [ToIntegerX(stack[..3])];
      eax, edx := value.0, if TakesQuad(version) then value.1 else junk;
    }
  }

  /** `__lua_rawgeti__thunk` and `__lua_rawseti__thunk`, which differ in the target. */
  method RawIThunk(m: Machine, target: Target, L: Limb, idx: Limb, n: int)
    requires IsInt64(n) && target != PushInteger
    modifies m`stack, m`called, m`value
    ensures m.stack == old(m.stack) && m.value == old(m.value)
    ensures m.called == old(m.called) +
      [VmCall(target, [L, idx], if m.version >= 530 then n else n % 0x1_0000_0000)]
  {
    LimbsRoundTrip(n);
    if m.version >= 530 {
      m.Push(HighPart(n));
      m.Push(LowPart(n));
      m.Push(idx);
      m.Push(L);
      assert m.stack == [L, idx, LowPart(n), HighPart(n)] + old(m.stack);
      assert m.stack[..2] == [L, idx];
      m.Call(target, 2);
      m.Drop(4);
    } else {
      m.Push(LowPart(n));
      m.Push(idx);
      m.Push(L);
      assert m.stack == [L, idx, LowPart(n)] + old(m.stack);
      assert m.stack[..2] == [L, idx];
      m.Call(target, 2);
      m.Drop(3);
    }
  }

  method PushIntegerThunk(m: Machine, L: Limb, n: int)
    requires IsInt64(n)
    modifies m`stack, m`called, m`value
    ensures m.stack == old(m.stack)
    ensures m.called == old(m.called) +
      [VmCall(PushInteger, [L], if m.version >= 530 then n else n % 0x1_0000_0000)]
    ensures m.value == Stored(m.version, n)
  {
    LimbsRoundTrip(n);
    if m.version >= 530 {
      m.Push(HighPart(n));
      m.Push(LowPart(n));
      m.Push(L);
      assert m.stack == [L, LowPart(n), HighPart(n)] + old(m.stack);
      m.Call(PushInteger, 1);
      m.Drop(3);
    } else {
      m.Push(LowPart(n));
      m.Push(L);
      assert m.stack == [L, LowPart(n)] + old(m.stack);
      m.Call(PushInteger, 1);
      m.Drop(2);
    }
  }

  /** The bits the VM keeps of a pushed integer. */
  function Stored(version: int, n: int): (Limb, Limb) {
    (LowPart(n), if TakesQuad(version) then HighPart(n) else 0)
  }

  /** The high limb starts as zero and is only stored from 5.3 on. */
  function Fetched(version: int, value: (Limb, Limb)): int {
    QuadPart(value.0, if TakesQuad(version) then value.1 else 0)
  }

  method ToIntegerXThunk(m: Machine, L: Limb, idx: Limb, isnum: Limb, junk: Limb) returns (n: int)
    modifies m`stack, m`called, m`eax, m`edx
    ensures m.stack == old(m.stack) && n == Fetched(m.version, m.value)
    ensures m.called == old(m.called) + [ToIntegerX([L, idx, isnum])]
  {
    var low: Limb, high: Limb := 0, 0;
    m.Push(isnum);
    m.Push(idx);
    m.Push(L);
    assert m.stack == [L, idx, isnum] + old(m.stack);
    assert m.stack[..3] == [L, idx, isnum];
    m.CallToIntegerX(junk);
    m.Drop(3);
    low := m.eax;
    if m.version >= 530 {
      high := m.edx;
    }
    n := QuadPart(low, high);
  }

  /** `__lua_tointeger__compact`: the same with a null `isnum`. */
  method ToIntegerCompact(m: Machine, L: Limb, idx: Limb, junk: Limb) returns (n: int)
    modifies m`stack, m`called, m`eax, m`edx
    ensures m.stack == old(m.stack) && n == Fetched(m.version, m.value)
    ensures m.called == old(m.called) + [ToIntegerX([L, idx, 0])]
  {
    n := ToIntegerXThunk(m, L, idx, 0, junk);
  }

  /** Pushing and fetching: every 64-bit integer survives from 5.3 on; before, it
      comes back modulo 2^32, and unchanged exactly when it is in that range. */
  lemma PushThenFetch(version: int, n: int)
    requires IsInt64(n)
    ensures Fetched(version, Stored(version, n)) == if version >= 530 then n else n % 0x1_0000_0000
    ensures version < 530 ==> (Fetched(version, Stored(version, n)) == n <==> 0 <= n < 0x1_0000_0000)
  {
    LimbsRoundTrip(n);
  }
}
