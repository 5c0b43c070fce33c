/** `odbk_get_exports` and `odbk_get_imports` on the bytes of a loaded 32-bit image
    (Microsoft PE Format, ".edata Section" and ".idata Section"). */
module PeImage {
  import opened Common
  import opened SymbolMerge

  type Byte = b: nat | b < 256
  type Word = w: nat | w < 0x1_0000
  type DWord = w: nat | w < 0x1_0000_0000

  /** The process memory from address 0; what is not mapped reads as zero. */
  type Memory = seq<Byte>

  // ------------------------------------------------------------------- reading

  function ByteAt(mem: Memory, a: nat): Byte {
    if a < |mem| then mem[a] else 0
  }

  function WordAt(mem: Memory, a: nat): Word {
    ByteAt(mem, a) + 256 * ByteAt(mem, a + 1)
  }

  function DWordAt(mem: Memory, a: nat): DWord {
    WordAt(mem, a) + 0x1_0000 * WordAt(mem, a + 2)
  }

  function CStringAt(mem: Memory, a: nat): string
    decreases |mem| - a
  {
    if ByteAt(mem, a) == 0 then [] else [ByteAt(mem, a) as char] + CStringAt(mem, a + 1)
  }

  /** The memory as the readers see it; from `limit` on everything reads as zero. */
  datatype View = View(word: nat -> Word, dword: nat -> DWord, cstring: nat -> string, limit: nat)

  function ViewOf(mem: Memory): View {
    View((a: nat) => WordAt(mem, a), (a: nat) => DWordAt(mem, a), (a: nat) => CStringAt(mem, a), |mem|)
  }

  /** Pointer arithmetic, and `MAKE_PTR`, in a 32-bit process. */
  function Add(base: nat, rva: nat): Address {
    (base + rva) % ADDRESS_SPACE
  }

  const E_LFANEW := 60
  const EXPORT_DIRECTORY := 120
  const IMPORT_DIRECTORY := 128
  const NUMBER_OF_NAMES := 24
  const ADDRESS_OF_FUNCTIONS := 28
  const ADDRESS_OF_NAMES := 32
  const ADDRESS_OF_NAME_ORDINALS := 36
  const DESCRIPTOR_NAME := 12
  const DESCRIPTOR_FIRST_THUNK := 16
  const DESCRIPTOR_SIZE := 20
  const DOS_SIGNATURE := 0x5A4D
  const NT_SIGNATURE := 0x4550

  function NtHeaders(v: View, h: Handle): Address {
    Add(h, v.dword(h + E_LFANEW))
  }

  function ExportDirectory(v: View, h: Handle): Address {
    Add(h, v.dword(NtHeaders(v, h) + EXPORT_DIRECTORY))
  }

  /** The loop bound `(int)dwNumberOfNames`. */
  function ExportCount(v: View, h: Handle): nat {
    var n := v.dword(ExportDirectory(v, h) + NUMBER_OF_NAMES);
    if n < 0x8000_0000 then n else 0
  }

  datatype Export = Export(name: string, address: Address)

  /** `pAddressOfFunction`, `pAddressOfNames` and `pAddressOfNameOrdinals`. */
  function ExportTables(v: View, h: Handle): (Address, Address, Address) {
    var directory := ExportDirectory(v, h);
    (Add(h, v.dword(directory + ADDRESS_OF_FUNCTIONS)),
     Add(h, v.dword(directory + ADDRESS_OF_NAMES)),
     Add(h, v.dword(directory + ADDRESS_OF_NAME_ORDINALS)))
  }

  function ExportAt(v: View, h: Handle, i: nat): Export {
    var (functions, names, ordinals) := ExportTables(v, h);
    Export(
      v.cstring(Add(h, v.dword(names + 4 * i))),
      Add(h, v.dword(functions + 4 * v.word(ordinals + 2 * i))))
  }

  function Exports(v: View, h: Handle): seq<Export> {
    seq(ExportCount(v, h), i requires 0 <= i => ExportAt(v, h, i))
  }

  function EmplaceAll(symbols: Symbols, exports: seq<Export>): Symbols
    decreases |exports|
  {
    if exports == [] then symbols
    else
      var n := |exports| - 1;
      Emplace(EmplaceAll(symbols, exports[..n]), exports[n].name, exports[n].address)
  }

  /** The count is read as a signed number: with the top bit set nothing is read. */
  lemma NumberOfExports(v: View, h: Handle)
    ensures var nt := (h + v.dword(h + 60)) % 0x1_0000_0000;
      var directory := (h + v.dword(nt + 120)) % 0x1_0000_0000;
      |Exports(v, h)| == if v.dword(directory + 24) < 0x8000_0000 then v.dword(directory + 24) else 0
  {
  }

  method GetExports(v: View, h: Handle, exports: Symbols) returns (r: Symbols)
    ensures r == EmplaceAll(exports, Exports(v, h))
  {
    r := exports;
    ghost var all := Exports(v, h);
    for i := 0 to ExportCount(v, h)
      invariant r == EmplaceAll(exports, all[..i])
    {
      var e := ExportAt(v, h, i);
      r := Emplace(r, e.name, e.address);
      assert all[..i + 1][..i] == all[..i] && all[i] == e;
    }
    assert all[..|all|] == all;
  }

  predicate IsFirstExport(exports: seq<Export>, i: nat) {
    i < |exports| && forall j :: 0 <= j < i ==> exports[j].name != exports[i].name
  }

  /** Prior entries stay, and exactly the exported names are added. */
  lemma {:induction false} EmplaceAllDomain(symbols: Symbols, exports: seq<Export>)
    ensures forall n :: n in EmplaceAll(symbols, exports) <==>
      n in symbols || exists i :: 0 <= i < |exports| && exports[i].name == n
    ensures forall n :: n in symbols ==> EmplaceAll(symbols, exports)[n] == symbols[n]
    decreases |exports|
  {
    if exports != [] {
      var n := |exports| - 1;
      EmplaceAllDomain(symbols, exports[..n]);
      assert forall i :: 0 <= i < n ==> exports[..n][i] == exports[i];
    }
  }

  /** A new name has the address of its first export. */
  lemma {:induction false} EmplaceAllFirst(symbols: Symbols, exports: seq<Export>, i: nat)
    requires IsFirstExport(exports, i) && exports[i].name !in symbols
    ensures exports[i].name in EmplaceAll(symbols, exports)
    ensures EmplaceAll(symbols, exports)[exports[i].name] == exports[i].address
    decreases |exports|
  {
    var n := |exports| - 1;
    EmplaceAllDomain(symbols, exports[..n]);
    if i < n {
      EmplaceAllFirst(symbols, exports[..n], i);
    }
  }

  // ----------------------------------------------------------------- the imports

  /** `PEHeaderFromHModule`; `None` stands for the null header. */
  function PeHeader(v: View, h: Handle): Option<Address> {
    if v.word(h) != DOS_SIGNATURE then None
    else if v.dword(NtHeaders(v, h)) != NT_SIGNATURE then None
    else Some(NtHeaders(v, h))
  }

  /** The names of the descriptors from `p` up to the first with a zero FirstThunk. */
  function DescriptorNames(v: View, h: Handle, p: nat): seq<string>
    decreases v.limit - p
  {
    if p >= v.limit || v.dword(p + DESCRIPTOR_FIRST_THUNK) == 0 then []
    else [v.cstring(Add(h, v.dword(p + DESCRIPTOR_NAME)))] + DescriptorNames(v, h, p + DESCRIPTOR_SIZE)
  }

  /** What `odbk_get_imports` appends; `None` when it returns false. */
  function ImportNames(v: View, h: Handle): Option<seq<string>> {
    var header := PeHeader(v, h);
    if header.None? then None
    else
      var rva := v.dword(header.value + IMPORT_DIRECTORY);
      if rva == 0 then None else Some(DescriptorNames(v, h, Add(h, rva)))
  }

  /** What a caller finds in an empty vector afterwards, whatever the answer. */
  function ImportList(v: View, h: Handle): seq<string> {
    if ImportNames(v, h).Some? then ImportNames(v, h).value else []
  }

  /** Exactly without an import directory, or with another signature than "MZ" or "PE",
      there are no import names. */
  lemma NoImportNamesIff(v: View, h: Handle)
    ensures var nt := (h + v.dword(h + 60)) % 0x1_0000_0000;
      ImportNames(v, h) == None <==> v.word(h) != 0x5A4D || v.dword(nt) != 0x4550 || v.dword(nt + 128) == 0
  {
  }

  method GetImports(v: View, h: Handle, imports: seq<string>) returns (ok: bool, r: seq<string>)
    ensures var nt := (h + v.dword(h + 60)) % 0x1_0000_0000;
      ok <==> v.word(h) == 0x5A4D && v.dword(nt) == 0x4550 && v.dword(nt + 128) != 0
    ensures !ok ==> r == imports
    ensures ok <==> ImportNames(v, h).Some?
    ensures r == if ok then imports + ImportNames(v, h).value else imports
  {
    r := imports;
    var header := PeHeader(v, h);
    if header.None? {
      return false, r;
    }
    var rva := v.dword(header.value + IMPORT_DIRECTORY);
    if rva == 0 {
      return false, r;
    }
    var p: nat := Add(h, rva);
    while p < v.limit && v.dword(p + DESCRIPTOR_FIRST_THUNK) != 0
      invariant r + DescriptorNames(v, h, p) == imports + ImportNames(v, h).value
      decreases v.limit - p
    {
      r := r + [v.cstring(Add(h, v.dword(p + DESCRIPTOR_NAME)))];
      p := p + DESCRIPTOR_SIZE;
    }
    ok := true;
  }
}
