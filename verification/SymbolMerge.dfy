/** `gather_symbols_callback`: first-wins, filtered collection of symbols. */
module SymbolMerge {
  import opened Common

  /** What `SymEnumSymbols` reports for one symbol; `address` is a ULONG64. */
  datatype SymbolInfo = SymbolInfo(name: string, address: nat)

  /** The conversion of the ULONG64 address to `uintptr_t`. */
  function ToAddress(address: nat): Address {
    address % ADDRESS_SPACE
  }

  /** `std::unordered_map::emplace`: an existing entry stays. */
  function Emplace(symbols: Symbols, name: string, address: Address): Symbols {
    if name in symbols then symbols else symbols[name := address]
  }

  function Gather(restricts: set<string>, symbols: Symbols, info: SymbolInfo): Symbols {
    if info.name in restricts then Emplace(symbols, info.name, ToAddress(info.address)) else symbols
  }

  /** The effect of one whole enumeration. */
  function Merge(restricts: set<string>, symbols: Symbols, infos: seq<SymbolInfo>): Symbols
    decreases |infos|
  {
    if infos == [] then symbols
    else Merge(restricts, Gather(restricts, symbols, infos[0]), infos[1..])
  }

  /** `infos[i]` is the first symbol reported under its name. */
  predicate IsFirst(infos: seq<SymbolInfo>, i: nat) {
    i < |infos| && forall k :: 0 <= k < i ==> infos[k].name != infos[i].name
  }

  predicate Names(infos: seq<SymbolInfo>, name: string) {
    exists i :: 0 <= i < |infos| && infos[i].name == name
  }

  /** A bound name keeps its address. */
  lemma {:induction false} MergeKeeps(restricts: set<string>, symbols: Symbols, infos: seq<SymbolInfo>)
    ensures forall n :: n in symbols ==>
      n in Merge(restricts, symbols, infos) && Merge(restricts, symbols, infos)[n] == symbols[n]
    decreases |infos|
  {
    if infos != [] {
      MergeKeeps(restricts, Gather(restricts, symbols, infos[0]), infos[1..]);
    }
  }

  /** Exactly the restricted names that were reported are added. */
  lemma {:induction false} MergeDomain(restricts: set<string>, symbols: Symbols, infos: seq<SymbolInfo>)
    ensures forall n :: n in Merge(restricts, symbols, infos) <==>
      n in symbols || (n in restricts && Names(infos, n))
    decreases |infos|
  {
    if infos != [] {
      var rest := Gather(restricts, symbols, infos[0]);
      MergeDomain(restricts, rest, infos[1..]);
      forall n
        ensures Names(infos, n) <==> infos[0].name == n || Names(infos[1..], n)
      {
        if Names(infos[1..], n) {
          var i :| 0 <= i < |infos[1..]| && infos[1..][i].name == n;
          assert infos[i + 1].name == n;
        }
        if Names(infos, n) {
          var i :| 0 <= i < |infos| && infos[i].name == n;
          if i > 0 { assert infos[1..][i - 1].name == n; }
        }
      }
    }
  }

  /** A name that was not bound gets the address it was first reported with, modulo 2^32:
      that address itself in a 32-bit process. */
  lemma {:induction false} MergeFirst(restricts: set<string>, symbols: Symbols, infos: seq<SymbolInfo>, i: nat)
    requires IsFirst(infos, i) && infos[i].name in restricts && infos[i].name !in symbols
    ensures infos[i].name in Merge(restricts, symbols, infos)
    ensures var address := Merge(restricts, symbols, infos)[infos[i].name];
      && (infos[i].address < 0x1_0000_0000 ==> address == infos[i].address)
      && (infos[i].address - address) % 0x1_0000_0000 == 0
    decreases i
  {
    var rest := Gather(restricts, symbols, infos[0]);
    if i == 0 {
      MergeKeeps(restricts, rest, infos[1..]);
    } else {
      assert infos[0].name != infos[i].name;
      assert forall k :: 0 <= k < i - 1 ==> infos[1..][k] == infos[k + 1];
      MergeFirst(restricts, rest, infos[1..], i - 1);
    }
  }

  /** Every reported name is first reported somewhere. */
  lemma {:induction false} FirstExists(infos: seq<SymbolInfo>, k: nat) returns (i: nat)
    requires k < |infos|
    ensures i <= k && IsFirst(infos, i) && infos[i].name == infos[k].name
    decreases k
  {
    if j :| 0 <= j < k && infos[j].name == infos[k].name {
      i := FirstExists(infos, j);
    } else {
      i := k;
    }
  }

  /** The merged map is no smaller, and is unchanged unless it is larger. */
  lemma MergeGrows(restricts: set<string>, symbols: Symbols, infos: seq<SymbolInfo>)
    ensures |symbols| <= |Merge(restricts, symbols, infos)|
    ensures |symbols| == |Merge(restricts, symbols, infos)| ==> Merge(restricts, symbols, infos) == symbols
  {
    MergeKeeps(restricts, symbols, infos);
    var after := Merge(restricts, symbols, infos);
    assert symbols.Keys <= after.Keys;
    SubsetSize(symbols.Keys, after.Keys);
    if |symbols| == |after| {
      assert symbols.Keys == after.Keys;
    }
  }

  lemma {:induction false} SubsetSize<T>(a: set<T>, b: set<T>)
    requires a <= b
    ensures |a| <= |b|
    ensures |a| == |b| ==> a == b
  {
    assert b == a + (b - a);
    assert |b| == |a| + |b - a|;
  }
}
