/** A writer that puts the tables of a 32-bit image wherever it is told to (Microsoft PE
    Format, ".edata Section" and ".idata Section"), and the round trips through the two
    readers. */
module PeWriter {
  import opened Common
  import opened PeImage

  // ------------------------------------------------------------- little endian

  function WordBytes(w: Word): seq<Byte> {
    [w % 256, w / 256]
  }

  function DWordBytes(w: DWord): seq<Byte> {
    WordBytes(w % 0x1_0000) + WordBytes(w / 0x1_0000)
  }

  function Words(ws: seq<Word>): (r: seq<Byte>)
    ensures |r| == 2 * |ws|
  {
    if ws == [] then [] else Words(ws[..|ws| - 1]) + WordBytes(ws[|ws| - 1])
  }

  function DWords(ws: seq<DWord>): (r: seq<Byte>)
    ensures |r| == 4 * |ws|
  {
    if ws == [] then [] else DWords(ws[..|ws| - 1]) + DWordBytes(ws[|ws| - 1])
  }

  /** A name without NUL whose characters fit a byte. */
  predicate IsCString(s: string) {
    forall i :: 0 <= i < |s| ==> 0 < s[i] as nat < 256
  }

  function CStringBytes(s: string): seq<Byte>
    requires IsCString(s)
  {
    seq(|s|, i requires 0 <= i < |s| => s[i] as nat) + [0]
  }

  // ----------------------------------------------------------- reading it back

  /** `bytes` lies in memory at `a`. */
  predicate Placed(mem: Memory, a: nat, bytes: seq<Byte>) {
    a + |bytes| <= |mem| && mem[a..a + |bytes|] == bytes
  }

  lemma PlacedParts(mem: Memory, a: nat, front: seq<Byte>, back: seq<Byte>)
    requires Placed(mem, a, front + back)
    ensures Placed(mem, a, front) && Placed(mem, a + |front|, back)
  {
    var bytes := front + back;
    assert mem[a..a + |front|] == bytes[..|front|];
    assert mem[a + |front|..a + |bytes|] == bytes[|front|..];
  }

  lemma {:induction false} WordReads(mem: Memory, a: nat, ws: seq<Word>, i: nat)
    requires Placed(mem, a, Words(ws)) && i < |ws|
    ensures WordAt(mem, a + 2 * i) == ws[i]
    decreases |ws|
  {
    var n := |ws| - 1;
    PlacedParts(mem, a, Words(ws[..n]), WordBytes(ws[n]));
    if i < n {
      WordReads(mem, a, ws[..n], i);
    } else {
      WordReadsOne(mem, a + 2 * n, ws[n]);
    }
  }

  lemma WordReadsOne(mem: Memory, a: nat, w: Word)
    requires Placed(mem, a, WordBytes(w))
    ensures WordAt(mem, a) == w
  {
    assert mem[a] == WordBytes(w)[0] && mem[a + 1] == WordBytes(w)[1];
  }

  lemma {:induction false} DWordReads(mem: Memory, a: nat, ws: seq<DWord>, i: nat)
    requires Placed(mem, a, DWords(ws)) && i < |ws|
    ensures DWordAt(mem, a + 4 * i) == ws[i]
    decreases |ws|
  {
    var n := |ws| - 1;
    PlacedParts(mem, a, DWords(ws[..n]), DWordBytes(ws[n]));
    if i < n {
      DWordReads(mem, a, ws[..n], i);
    } else {
      DWordReadsOne(mem, a + 4 * n, ws[n]);
    }
  }

  lemma DWordReadsOne(mem: Memory, a: nat, w: DWord)
    requires Placed(mem, a, DWordBytes(w))
    ensures DWordAt(mem, a) == w
  {
    PlacedParts(mem, a, WordBytes(w % 0x1_0000), WordBytes(w / 0x1_0000));
    WordReadsOne(mem, a, w % 0x1_0000);
    WordReadsOne(mem, a + 2, w / 0x1_0000);
  }

  lemma {:induction false} CStringReads(mem: Memory, a: nat, s: string)
    requires IsCString(s) && Placed(mem, a, CStringBytes(s))
    ensures CStringAt(mem, a) == s
    decreases |s|
  {
    assert mem[a] == CStringBytes(s)[0];
    if s != [] {
      assert CStringBytes(s) == [s[0] as nat] + CStringBytes(s[1..]);
      PlacedParts(mem, a, [s[0] as nat], CStringBytes(s[1..]));
      CStringReads(mem, a + 1, s[1..]);
    }
  }

  // ------------------------------------------------------------------ the image

  /** An import descriptor: the module's name and its FirstThunk field. */
  datatype Descriptor = Descriptor(name: string, firstThunk: DWord)

  /** The tables of one image; `ordinals[i]` is the function of `names[i]`. */
  datatype Tables = Tables(names: seq<string>, ordinals: seq<Word>, functions: seq<DWord>, imports: seq<Descriptor>)
  {
    ghost predicate Valid() {
      && |ordinals| == |names| < 0x8000_0000
      && (forall i :: 0 <= i < |ordinals| ==> ordinals[i] < |functions|)
      && (forall i :: 0 <= i < |names| ==> IsCString(names[i]))
      && (forall i :: 0 <= i < |imports| ==> IsCString(imports[i].name))
    }
  }

  /** Where everything is put, relative to the image base: the headers, the tables and
      each single string. An import directory at 0 means that the image has none. */
  datatype Layout = Layout(
    ntHeaders: DWord,
    exportDirectory: DWord,
    functions: DWord,
    names: DWord,
    ordinals: DWord,
    descriptors: DWord,
    nameRvas: seq<DWord>,
    moduleRvas: seq<DWord>)
  {
    predicate Fits(t: Tables) {
      |nameRvas| == |t.names| && |moduleRvas| == |t.imports| && (descriptors == 0 ==> t.imports == [])
    }
  }

  datatype Region = Region(at: nat, bytes: seq<Byte>)

  /** "MZ" and e_lfanew, the last field of the 64 bytes of the DOS header; "PE", and behind
      signature (4), file header (20) and the other fields of the optional header (96) the
      first two directory entries; the last four of the export directory's fields, behind
      those of 4, 4, 2, 2, 4, 4 and 4 bytes. */
  function Headers(l: Layout, t: Tables): seq<Region>
    requires |t.names| < 0x8000_0000
  {
    [Region(0, [0x4D, 0x5A]),
     Region(64 - 4, DWordBytes(l.ntHeaders)),
     Region(l.ntHeaders, [0x50, 0x45, 0, 0]),
     Region(l.ntHeaders + 4 + 20 + 96, DWordBytes(l.exportDirectory)),
     Region(l.ntHeaders + 4 + 20 + 96 + 8, DWordBytes(l.descriptors)),
     Region(l.exportDirectory + 24, DWordBytes(|t.names|)),
     Region(l.exportDirectory + 28, DWordBytes(l.functions)),
     Region(l.exportDirectory + 32, DWordBytes(l.names)),
     Region(l.exportDirectory + 36, DWordBytes(l.ordinals))]
  }

  function Arrays(l: Layout, t: Tables): seq<Region> {
    [Region(l.functions, DWords(t.functions)), Region(l.names, DWords(l.nameRvas)), Region(l.ordinals, Words(t.ordinals))]
  }

  /** The FirstThunk behind the last descriptor. */
  function Terminator(l: Layout, t: Tables): seq<Region> {
    if l.descriptors == 0 then [] else [Region(l.descriptors + 20 * |t.imports| + 16, DWordBytes(0))]
  }

  function NameStrings(l: Layout, t: Tables): seq<Region>
    requires t.Valid() && l.Fits(t)
  {
    seq(|t.names|, i requires 0 <= i < |t.names| => Region(l.nameRvas[i], CStringBytes(t.names[i])))
  }

  function ModuleStrings(l: Layout, t: Tables): seq<Region>
    requires t.Valid() && l.Fits(t)
  {
    seq(|t.imports|, i requires 0 <= i < |t.imports| => Region(l.moduleRvas[i], CStringBytes(t.imports[i].name)))
  }

  /** Name and FirstThunk are the last two of the five fields of a descriptor. */
  function Descriptors(l: Layout, t: Tables): seq<Region>
    requires l.Fits(t)
  {
    seq(|t.imports|, i requires 0 <= i < |t.imports| =>
      Region(l.descriptors + 20 * i + 12, DWords([l.moduleRvas[i], t.imports[i].firstThunk])))
  }

  function Regions(l: Layout, t: Tables): seq<Region>
    requires t.Valid() && l.Fits(t)
  {
    Headers(l, t) + Arrays(l, t) + NameStrings(l, t) + ModuleStrings(l, t) + Descriptors(l, t) + Terminator(l, t)
  }

  // ------------------------------------------------------------------- the writer

  function Write(mem: Memory, h: Handle, r: Region): (after: Memory)
    requires h + r.at + |r.bytes| <= |mem|
    ensures |after| == |mem|
  {
    mem[..h + r.at] + r.bytes + mem[h + r.at + |r.bytes|..]
  }

  function WriteAll(mem: Memory, h: Handle, regions: seq<Region>): (after: Memory)
    requires forall r :: r in regions ==> h + r.at + |r.bytes| <= |mem|
    ensures |after| == |mem|
    decreases |regions|
  {
    if regions == [] then mem
    else
      var n := |regions| - 1;
      Write(WriteAll(mem, h, regions[..n]), h, regions[n])
  }

  predicate Disjoint(r: Region, s: Region) {
    r.at + |r.bytes| <= s.at || s.at + |s.bytes| <= r.at
  }

  ghost predicate AllDisjoint(regions: seq<Region>) {
    forall i, j :: 0 <= i < j < |regions| ==> Disjoint(regions[i], regions[j])
  }

  lemma WritePlaces(mem: Memory, h: Handle, r: Region)
    requires h + r.at + |r.bytes| <= |mem|
    ensures Placed(Write(mem, h, r), h + r.at, r.bytes)
  {
  }

  lemma WriteKeeps(mem: Memory, h: Handle, r: Region, s: Region)
    requires h + r.at + |r.bytes| <= |mem| && Disjoint(r, s) && Placed(mem, h + s.at, s.bytes)
    ensures Placed(Write(mem, h, r), h + s.at, s.bytes)
  {
    var after, a := Write(mem, h, r), h + s.at;
    assert forall k :: a <= k < a + |s.bytes| ==> after[k] == mem[k];
    assert after[a..a + |s.bytes|] == mem[a..a + |s.bytes|];
  }

  /** Whatever is written to disjoint places is all there afterwards. */
  lemma {:induction false} WriteAllPlaces(mem: Memory, h: Handle, regions: seq<Region>, k: nat)
    requires forall r :: r in regions ==> h + r.at + |r.bytes| <= |mem|
    requires AllDisjoint(regions) && k < |regions|
    ensures Placed(WriteAll(mem, h, regions), h + regions[k].at, regions[k].bytes)
    decreases |regions|
  {
    var n := |regions| - 1;
    var before := WriteAll(mem, h, regions[..n]);
    if k == n {
      WritePlaces(before, h, regions[n]);
    } else {
      WriteAllPlaces(mem, h, regions[..n], k);
      WriteKeeps(before, h, regions[n], regions[k]);
    }
  }

  predicate Holds(mem: Memory, h: Handle, r: Region) {
    Placed(mem, h + r.at, r.bytes) && h + r.at + |r.bytes| < ADDRESS_SPACE
  }

  /** The tables are in memory where the layout says, below 2^32. Equal strings may
      share their place. */
  ghost predicate Loaded(mem: Memory, h: Handle, l: Layout, t: Tables) {
    t.Valid() && l.Fits(t) && forall r :: r in Regions(l, t) ==> Holds(mem, h, r)
  }

  lemma AllAreHeld(mem: Memory, h: Handle, regions: seq<Region>)
    requires AllDisjoint(regions) && |mem| < ADDRESS_SPACE
    requires forall r :: r in regions ==> h + r.at + |r.bytes| <= |mem|
    ensures forall r :: r in regions ==> Holds(WriteAll(mem, h, regions), h, r)
  {
    forall r | r in regions
      ensures Holds(WriteAll(mem, h, regions), h, r)
    {
      var k :| 0 <= k < |regions| && regions[k] == r;
      WriteAllPlaces(mem, h, regions, k);
    }
  }

  /** Writing an image anywhere, in any disjoint layout, loads it. */
  lemma WritingLoads(mem: Memory, h: Handle, l: Layout, t: Tables)
    requires t.Valid() && l.Fits(t) && |mem| < ADDRESS_SPACE
    ensures AllDisjoint(Regions(l, t)) && (forall r :: r in Regions(l, t) ==> h + r.at + |r.bytes| <= |mem|) ==>
      Loaded(WriteAll(mem, h, Regions(l, t)), h, l, t)
  {
    if AllDisjoint(Regions(l, t)) && forall r :: r in Regions(l, t) ==> h + r.at + |r.bytes| <= |mem| {
      AllAreHeld(mem, h, Regions(l, t));
    }
  }

  // ---------------------------------------------------------- what a reader sees

  /** The headers and both directories. */
  ghost predicate SeesHeaders(v: View, h: Handle, l: Layout, names: nat) {
    && h + l.ntHeaders < ADDRESS_SPACE && h + l.exportDirectory < ADDRESS_SPACE
    && h + l.functions < ADDRESS_SPACE && h + l.names < ADDRESS_SPACE && h + l.ordinals < ADDRESS_SPACE
    && h + l.descriptors < ADDRESS_SPACE
    && v.word(h) == DOS_SIGNATURE && v.dword(h + E_LFANEW) == l.ntHeaders
    && v.dword(h + l.ntHeaders) == NT_SIGNATURE
    && v.dword(h + l.ntHeaders + EXPORT_DIRECTORY) == l.exportDirectory
    && v.dword(h + l.ntHeaders + IMPORT_DIRECTORY) == l.descriptors
    && v.dword(h + l.exportDirectory + NUMBER_OF_NAMES) == names
    && v.dword(h + l.exportDirectory + ADDRESS_OF_FUNCTIONS) == l.functions
    && v.dword(h + l.exportDirectory + ADDRESS_OF_NAMES) == l.names
    && v.dword(h + l.exportDirectory + ADDRESS_OF_NAME_ORDINALS) == l.ordinals
  }

  /** Name `i`, its ordinal and its function. */
  ghost predicate SeesExport(v: View, h: Handle, l: Layout, t: Tables, i: nat)
    requires t.Valid() && l.Fits(t) && i < |t.names|
  {
    && v.cstring(Add(h, v.dword(h + l.names + 4 * i))) == t.names[i]
    && v.word(h + l.ordinals + 2 * i) == t.ordinals[i]
    && var k: nat := t.ordinals[i]; v.dword(h + l.functions + 4 * k) == t.functions[k]
  }

  /** Descriptor `i` gives its module's name; the one after the last ends the list. */
  ghost predicate SeesDescriptor(v: View, h: Handle, l: Layout, t: Tables, i: nat)
    requires l.Fits(t) && i <= |t.imports|
  {
    var p := h + l.descriptors + DESCRIPTOR_SIZE * i;
    if i == |t.imports| then v.dword(p + DESCRIPTOR_FIRST_THUNK) == 0
    else
      && p < v.limit
      && v.dword(p + DESCRIPTOR_FIRST_THUNK) == t.imports[i].firstThunk
      && v.cstring(Add(h, v.dword(p + DESCRIPTOR_NAME))) == t.imports[i].name
  }

  lemma HeldDWord(mem: Memory, h: Handle, at: nat, w: DWord)
    requires Holds(mem, h, Region(at, DWordBytes(w)))
    ensures DWordAt(mem, h + at) == w && h + at < ADDRESS_SPACE
  {
    DWordReadsOne(mem, h + at, w);
  }

  lemma HeldWord(mem: Memory, h: Handle, at: nat, w: Word)
    requires Holds(mem, h, Region(at, WordBytes(w)))
    ensures WordAt(mem, h + at) == w
  {
    WordReadsOne(mem, h + at, w);
  }

  lemma {:induction false} HeldDWords(mem: Memory, h: Handle, at: nat, ws: seq<DWord>, i: nat)
    requires Holds(mem, h, Region(at, DWords(ws))) && i < |ws|
    ensures DWordAt(mem, h + at + 4 * i) == ws[i] && h + at + 4 * i < |mem|
  {
    var a := h + at;
    assert Placed(mem, a, DWords(ws));
    DWordReads(mem, a, ws, i);
  }

  lemma {:induction false} HeldWords(mem: Memory, h: Handle, at: nat, ws: seq<Word>, i: nat)
    requires Holds(mem, h, Region(at, Words(ws))) && i < |ws|
    ensures WordAt(mem, h + at + 2 * i) == ws[i]
  {
    var a := h + at;
    assert Placed(mem, a, Words(ws));
    WordReads(mem, a, ws, i);
  }

  lemma HeldString(mem: Memory, h: Handle, at: nat, s: string)
    requires IsCString(s) && Holds(mem, h, Region(at, CStringBytes(s)))
    ensures CStringAt(mem, Add(h, at)) == s
  {
    CStringReads(mem, h + at, s);
  }

  lemma HeldHeaders(mem: Memory, h: Handle, l: Layout, t: Tables)
    requires Loaded(mem, h, l, t)
    ensures forall i :: 0 <= i < |Headers(l, t)| ==> Holds(mem, h, Headers(l, t)[i])
  {
    forall i | 0 <= i < |Headers(l, t)|
      ensures Holds(mem, h, Headers(l, t)[i])
    {
      assert Regions(l, t)[i] == Headers(l, t)[i];
    }
  }

  lemma HeldArrays(mem: Memory, h: Handle, l: Layout, t: Tables)
    requires Loaded(mem, h, l, t)
    ensures Holds(mem, h, Region(l.functions, DWords(t.functions)))
    ensures Holds(mem, h, Region(l.names, DWords(l.nameRvas))) && Holds(mem, h, Region(l.ordinals, Words(t.ordinals)))
  {
    forall i | 0 <= i < 3
      ensures Holds(mem, h, Arrays(l, t)[i])
    {
      assert Regions(l, t)[9 + i] == Arrays(l, t)[i];
    }
  }

  lemma HeldTerminator(mem: Memory, h: Handle, l: Layout, t: Tables)
    requires Loaded(mem, h, l, t) && l.descriptors != 0
    ensures Holds(mem, h, Region(l.descriptors + 20 * |t.imports| + 16, DWordBytes(0)))
  {
    assert Regions(l, t)[12 + |t.names| + 2 * |t.imports|] == Terminator(l, t)[0];
  }

  lemma HeldName(mem: Memory, h: Handle, l: Layout, t: Tables, i: nat)
    requires Loaded(mem, h, l, t) && i < |t.names|
    ensures Holds(mem, h, Region(l.nameRvas[i], CStringBytes(t.names[i])))
  {
    assert Regions(l, t)[12 + i] == NameStrings(l, t)[i];
  }

  lemma HeldModule(mem: Memory, h: Handle, l: Layout, t: Tables, i: nat)
    requires Loaded(mem, h, l, t) && i < |t.imports|
    ensures Holds(mem, h, Region(l.moduleRvas[i], CStringBytes(t.imports[i].name)))
    ensures Holds(mem, h, Descriptors(l, t)[i])
  {
    assert Regions(l, t)[12 + |t.names| + i] == ModuleStrings(l, t)[i];
    assert Regions(l, t)[12 + |t.names| + |t.imports| + i] == Descriptors(l, t)[i];
  }

  lemma LoadedHeaders(mem: Memory, h: Handle, l: Layout, t: Tables)
    requires Loaded(mem, h, l, t)
    ensures SeesHeaders(ViewOf(mem), h, l, |t.names|)
  {
    HeldHeaders(mem, h, l, t);
    HeldArrays(mem, h, l, t);
    if l.descriptors != 0 { HeldTerminator(mem, h, l, t); }
    HeadersSeen(mem, h, l, t);
  }

  lemma HeadersSeen(mem: Memory, h: Handle, l: Layout, t: Tables)
    requires t.Valid() && forall i :: 0 <= i < |Headers(l, t)| ==> Holds(mem, h, Headers(l, t)[i])
    requires h + l.functions < ADDRESS_SPACE && h + l.names < ADDRESS_SPACE && h + l.ordinals < ADDRESS_SPACE
    requires h + l.descriptors < ADDRESS_SPACE
    ensures SeesHeaders(ViewOf(mem), h, l, |t.names|)
  {
    NtHeadersSeen(mem, h, l, t);
    ExportDirectorySeen(mem, h, l, t);
  }

  lemma SignatureBytes()
    ensures WordBytes(DOS_SIGNATURE) == [0x4D, 0x5A] && DWordBytes(NT_SIGNATURE) == [0x50, 0x45, 0, 0]
  {
  }

  lemma NtHeadersSeen(mem: Memory, h: Handle, l: Layout, t: Tables)
    requires t.Valid() && forall i :: 0 <= i < |Headers(l, t)| ==> Holds(mem, h, Headers(l, t)[i])
    ensures WordAt(mem, h) == DOS_SIGNATURE && DWordAt(mem, h + E_LFANEW) == l.ntHeaders
    ensures DWordAt(mem, h + l.ntHeaders) == NT_SIGNATURE && h + l.ntHeaders < ADDRESS_SPACE
    ensures DWordAt(mem, h + l.ntHeaders + EXPORT_DIRECTORY) == l.exportDirectory
    ensures DWordAt(mem, h + l.ntHeaders + IMPORT_DIRECTORY) == l.descriptors
  {
    var headers := Headers(l, t);
    SignatureBytes();
    assert headers[0] == Region(0, WordBytes(DOS_SIGNATURE));
    HeldWord(mem, h, 0, DOS_SIGNATURE);
    HeldDWord(mem, h, headers[1].at, l.ntHeaders);
    HeldDWord(mem, h, headers[2].at, NT_SIGNATURE);
    HeldDWord(mem, h, headers[3].at, l.exportDirectory);
    HeldDWord(mem, h, headers[4].at, l.descriptors);
  }

  lemma ExportDirectorySeen(mem: Memory, h: Handle, l: Layout, t: Tables)
    requires t.Valid() && forall i :: 0 <= i < |Headers(l, t)| ==> Holds(mem, h, Headers(l, t)[i])
    ensures h + l.exportDirectory < ADDRESS_SPACE
    ensures DWordAt(mem, h + l.exportDirectory + NUMBER_OF_NAMES) == |t.names|
    ensures DWordAt(mem, h + l.exportDirectory + ADDRESS_OF_FUNCTIONS) == l.functions
    ensures DWordAt(mem, h + l.exportDirectory + ADDRESS_OF_NAMES) == l.names
    ensures DWordAt(mem, h + l.exportDirectory + ADDRESS_OF_NAME_ORDINALS) == l.ordinals
  {
    var headers := Headers(l, t);
    HeldDWord(mem, h, headers[5].at, |t.names|);
    HeldDWord(mem, h, headers[6].at, l.functions);
    HeldDWord(mem, h, headers[7].at, l.names);
    HeldDWord(mem, h, headers[8].at, l.ordinals);
  }

  lemma LoadedExport(mem: Memory, h: Handle, l: Layout, t: Tables, i: nat)
    requires Loaded(mem, h, l, t) && i < |t.names|
    ensures SeesExport(ViewOf(mem), h, l, t, i)
  {
    HeldArrays(mem, h, l, t);
    HeldName(mem, h, l, t, i);
    ExportSeen(mem, h, l, t, i);
  }

  lemma ExportSeen(mem: Memory, h: Handle, l: Layout, t: Tables, i: nat)
    requires t.Valid() && l.Fits(t) && i < |t.names|
    requires Holds(mem, h, Region(l.functions, DWords(t.functions)))
    requires Holds(mem, h, Region(l.names, DWords(l.nameRvas))) && Holds(mem, h, Region(l.ordinals, Words(t.ordinals)))
    requires Holds(mem, h, Region(l.nameRvas[i], CStringBytes(t.names[i])))
    ensures SeesExport(ViewOf(mem), h, l, t, i)
  {
    HeldDWords(mem, h, l.functions, t.functions, t.ordinals[i]);
    HeldDWords(mem, h, l.names, l.nameRvas, i);
    HeldWords(mem, h, l.ordinals, t.ordinals, i);
    HeldString(mem, h, l.nameRvas[i], t.names[i]);
  }

  lemma LoadedDescriptor(mem: Memory, h: Handle, l: Layout, t: Tables, i: nat)
    requires Loaded(mem, h, l, t) && l.descriptors != 0 && i <= |t.imports|
    ensures SeesDescriptor(ViewOf(mem), h, l, t, i)
  {
    if i == |t.imports| {
      HeldTerminator(mem, h, l, t);
      HeldDWord(mem, h, l.descriptors + 20 * i + 16, 0);
    } else {
      HeldModule(mem, h, l, t, i);
      DescriptorSeen(mem, h, l, t, i);
    }
  }

  lemma DescriptorSeen(mem: Memory, h: Handle, l: Layout, t: Tables, i: nat)
    requires t.Valid() && l.Fits(t) && i < |t.imports|
    requires Holds(mem, h, Region(l.moduleRvas[i], CStringBytes(t.imports[i].name)))
    requires Holds(mem, h, Descriptors(l, t)[i])
    ensures SeesDescriptor(ViewOf(mem), h, l, t, i)
  {
    var fields, at := [l.moduleRvas[i], t.imports[i].firstThunk], l.descriptors + 20 * i + 12;
    assert Descriptors(l, t)[i] == Region(at, DWords(fields));
    HeldDWords(mem, h, at, fields, 0);
    HeldDWords(mem, h, at, fields, 1);
    HeldString(mem, h, l.moduleRvas[i], t.imports[i].name);
  }

  // --------------------------------------------------------------- round trips

  lemma HeadersRoundTrip(v: View, h: Handle, l: Layout, names: nat)
    requires SeesHeaders(v, h, l, names)
    ensures PeHeader(v, h) == Some(h + l.ntHeaders)
    ensures ExportDirectory(v, h) == h + l.exportDirectory
    ensures ExportTables(v, h) == (h + l.functions, h + l.names, h + l.ordinals)
    ensures names < 0x8000_0000 ==> ExportCount(v, h) == names
  {
  }

  /** What the writer's export table stands for once the image is loaded at `h`. */
  function ExportsOf(h: Handle, t: Tables): seq<Export>
    requires t.Valid()
  {
    seq(|t.names|, i requires 0 <= i < |t.names| => Export(t.names[i], Add(h, t.functions[t.ordinals[i]])))
  }

  /** Export round trip: the reader's list is the writer's table, for every placement. */
  lemma ExportsRoundTrip(mem: Memory, h: Handle, l: Layout, t: Tables)
    requires Loaded(mem, h, l, t)
    ensures Exports(ViewOf(mem), h) == ExportsOf(h, t)
  {
    LoadedHeaders(mem, h, l, t);
    forall i | 0 <= i < |t.names|
      ensures SeesExport(ViewOf(mem), h, l, t, i)
    {
      LoadedExport(mem, h, l, t, i);
    }
    SeenExports(ViewOf(mem), h, l, t);
  }

  lemma SeenExports(v: View, h: Handle, l: Layout, t: Tables)
    requires t.Valid() && l.Fits(t) && SeesHeaders(v, h, l, |t.names|)
    requires forall i :: 0 <= i < |t.names| ==> SeesExport(v, h, l, t, i)
    ensures Exports(v, h) == ExportsOf(h, t)
  {
    HeadersRoundTrip(v, h, l, |t.names|);
    forall i | 0 <= i < |t.names|
      ensures ExportAt(v, h, i) == ExportsOf(h, t)[i]
    {
      SeenExport(v, h, l, t, i);
    }
  }

  lemma SeenExport(v: View, h: Handle, l: Layout, t: Tables, i: nat)
    requires t.Valid() && l.Fits(t) && i < |t.names| && SeesExport(v, h, l, t, i)
    requires ExportTables(v, h) == (h + l.functions, h + l.names, h + l.ordinals)
    ensures ExportAt(v, h, i) == ExportsOf(h, t)[i]
  {
  }

  /** The descriptors before the first zero FirstThunk. */
  function Live(imports: seq<Descriptor>): seq<string> {
    if imports == [] || imports[0].firstThunk == 0 then [] else [imports[0].name] + Live(imports[1..])
  }

  lemma {:induction false} DescriptorsRead(v: View, h: Handle, l: Layout, t: Tables, i: nat)
    requires l.Fits(t) && forall k :: 0 <= k <= |t.imports| ==> SeesDescriptor(v, h, l, t, k)
    requires i <= |t.imports|
    ensures DescriptorNames(v, h, h + l.descriptors + DESCRIPTOR_SIZE * i) == Live(t.imports[i..])
    decreases |t.imports| - i
  {
    assert SeesDescriptor(v, h, l, t, i);
    if i < |t.imports| {
      DescriptorsRead(v, h, l, t, i + 1);
      assert t.imports[i..][1..] == t.imports[i + 1..];
    }
  }

  /** Import round trip, for every placement: exactly the names before the first zero
      FirstThunk, in order; none, and a failure, for an image without an import table. */
  lemma ImportsRoundTrip(mem: Memory, h: Handle, l: Layout, t: Tables)
    requires Loaded(mem, h, l, t)
    ensures ImportNames(ViewOf(mem), h) == if l.descriptors == 0 then None else Some(Live(t.imports))
  {
    LoadedHeaders(mem, h, l, t);
    if l.descriptors == 0 {
      HeadersRoundTrip(ViewOf(mem), h, l, |t.names|);
    } else {
      forall i | 0 <= i <= |t.imports|
        ensures SeesDescriptor(ViewOf(mem), h, l, t, i)
      {
        LoadedDescriptor(mem, h, l, t, i);
      }
      SeenImports(ViewOf(mem), h, l, t);
    }
  }

  lemma SeenImports(v: View, h: Handle, l: Layout, t: Tables)
    requires l.Fits(t) && SeesHeaders(v, h, l, |t.names|) && l.descriptors != 0
    requires forall i :: 0 <= i <= |t.imports| ==> SeesDescriptor(v, h, l, t, i)
    ensures ImportNames(v, h) == Some(Live(t.imports))
  {
    HeadersRoundTrip(v, h, l, |t.names|);
    DescriptorsRead(v, h, l, t, 0);
    assert t.imports[0..] == t.imports;
  }
}
