/** The contents of .dynstr, .dynsym, .hash and .dynamic and the layout predicted for them
    (compiler/elf_builder.h PrepareDynamicSection; System V generic ABI, chapter 5, "Dynamic Section"). */
module ElfDynamic {
  import opened Alignment

  /** ElfTypes32 or ElfTypes64, and whether there is a .MIPS.abiflags section. */
  datatype Format = Format(is64: bool, mips: bool)
  {
    function Ehdr(): nat { if is64 then 64 else 52 }
    function Phdr(): nat { if is64 then 56 else 32 }
    function Off(): nat { if is64 then 8 else 4 }
    function Sym(): nat { if is64 then 24 else 16 }
    function Dyn(): nat { if is64 then 16 else 8 }
    /** The size of a symbol table. */
    function Syms(count: nat): nat { if is64 then 24 * count else 16 * count }
    function AlignOff(x: nat): nat { if is64 then RoundUp(x, 8) else RoundUp(x, 4) }
    /** The space reserved for the ELF header and sixteen program headers. */
    function Headers(): nat { if is64 then 960 else 564 }
    function Abiflags(): nat { if mips then 24 else 0 }
  }

  const NUL: char := '\0'

  predicate NulFree(s: string) { forall i :: 0 <= i < |s| ==> s[i] != NUL }

  /** The string at offset o of a string table is `name`. */
  ghost predicate NameAt(table: string, o: nat, name: string) {
    o + |name| < |table| && table[o + |name|] == NUL && forall i :: 0 <= i < |name| ==> table[o + i] == name[i]
  }

  ghost function CharAt(s: string, i: nat): char { if i < |s| then s[i] else NUL }

  lemma NameUnique(table: string, o: nat, a: string, b: string)
    requires NulFree(a) && NulFree(b) && NameAt(table, o, a) && NameAt(table, o, b)
    ensures a == b
  {
    assert CharAt(b, |a|) == NUL ==> |b| <= |a|;
    assert CharAt(a, |b|) == NUL ==> |a| <= |b|;
  }

  /** CachedStringSection::Add: the new name is readable at the returned offset, and the others still are. */
  method AddString(table: string, name: string) returns (table': string, offset: nat)
    ensures |table'| == |table| + |name| + 1 && table <= table' && offset == |table|
    ensures NameAt(table', offset, name)
    ensures forall o, n :: NameAt(table, o, n) ==> NameAt(table', o, n)
  {
    table', offset := table + name + [NUL], |table|;
  }

  datatype Symbol = Symbol(name: nat, section: nat, value: nat, size: nat)

  /** Symbol i of the table carries name i. */
  ghost predicate Named(dynstr: string, dynsym: seq<Symbol>, names: seq<string>) {
    && |dynsym| == |names|
    && forall i {:trigger NamedAt(dynstr, dynsym, names, i)} :: 0 <= i < |names| ==> NamedAt(dynstr, dynsym, names, i)
  }

  ghost predicate NamedAt(dynstr: string, dynsym: seq<Symbol>, names: seq<string>, i: nat)
    requires i < |dynsym| && i < |names|
  {
    NulFree(names[i]) && NameAt(dynstr, dynsym[i].name, names[i])
  }

  lemma NamedStays(dynstr: string, dynstr': string, dynsym: seq<Symbol>, names: seq<string>)
    requires Named(dynstr, dynsym, names) && forall o, n :: NameAt(dynstr, o, n) ==> NameAt(dynstr', o, n)
    ensures Named(dynstr', dynsym, names)
  {
    forall i {:trigger NamedAt(dynstr', dynsym, names, i)} | 0 <= i < |names|
      ensures NamedAt(dynstr', dynsym, names, i)
    {
      assert NamedAt(dynstr, dynsym, names, i);
    }
  }

  method AddSymbol(dynstr: string, dynsym: seq<Symbol>, name: string, section: nat, value: nat, size: nat,
                   ghost names: seq<string>)
    returns (dynstr': string, dynsym': seq<Symbol>)
    requires Named(dynstr, dynsym, names) && NulFree(name)
    ensures Named(dynstr', dynsym', names + [name]) && |dynstr'| == |dynstr| + |name| + 1
    ensures dynsym' == dynsym + [Symbol(dynsym'[|dynsym|].name, section, value, size)]
  {
    var offset;
    dynstr', offset := AddString(dynstr, name);
    dynsym' := dynsym + [Symbol(offset, section, value, size)];
    ghost var names' := names + [name];
    forall i {:trigger NamedAt(dynstr', dynsym', names', i)} | 0 <= i < |names'|
      ensures NamedAt(dynstr', dynsym', names', i)
    {
      if i < |names| { assert NamedAt(dynstr, dynsym, names, i); }
    }
  }

  /** The symbols that are needed for these section sizes, after the null symbol. */
  function Names(rodata: nat, text: nat, bss: nat): seq<string> {
    ["", "oatdata"] +
    (if text != 0 then ["oatexec", "oatlastword"] else if rodata != 0 then ["oatlastword"] else []) +
    (if bss != 0 then ["oatbss", "oatbsslastword"] else [])
  }

  /** One bucket, whose chain starts at symbol 1 and leads to each next symbol; the chain of symbol i is word 3 + i. */
  ghost predicate HashOk(hash: seq<nat>, count: nat) {
    && |hash| == count + 3 && hash[0] == 1 && hash[1] == count && hash[2] == 1
    && forall p :: 3 <= p < count + 3 ==> hash[p] == if 3 < p < count + 2 then p - 2 else 0
  }

  method MakeHash(count: nat) returns (hash: seq<nat>)
    requires count >= 2
    ensures HashOk(hash, count)
  {
    hash := [1, count, 1, 0];
    for i := 1 to count - 1
      invariant |hash| == 3 + i && hash[0] == 1 && hash[1] == count && hash[2] == 1
      invariant forall p :: 3 <= p < 3 + i ==> hash[p] == if 3 < p then p - 2 else 0
    {
      hash := hash + [i + 1];
    }
    hash := hash + [0];
  }

  /** The dynamic linker's search: follow the chain until a symbol of that name, or 0.  `left` bounds the walk. */
  ghost function Search(dynstr: string, dynsym: seq<Symbol>, hash: seq<nat>, name: string, i: nat, left: nat): nat
    decreases left
  {
    if i == 0 || left == 0 || |dynsym| <= i || |hash| == 0 || |hash| <= 2 + hash[0] + i then 0
    else if NameAt(dynstr, dynsym[i].name, name) then i
    else Search(dynstr, dynsym, hash, name, hash[2 + hash[0] + i], left - 1)
  }

  /** It starts in the bucket of the name's hash value h. */
  ghost function LookUp(dynstr: string, dynsym: seq<Symbol>, hash: seq<nat>, name: string, h: nat): nat {
    if |hash| == 0 || hash[0] == 0 || |hash| <= 2 + h % hash[0] then 0
    else Search(dynstr, dynsym, hash, name, hash[2 + h % hash[0]], |dynsym|)
  }

  /** From any point of the chain the search finds the first symbol of the name behind it, or nothing. */
  lemma {:induction false} SearchFrom(dynstr: string, dynsym: seq<Symbol>, hash: seq<nat>, names: seq<string>,
                                      name: string, i: nat, k: nat, left: nat)
    requires left >= |names| - i && Named(dynstr, dynsym, names) && HashOk(hash, |names|) && NulFree(name)
    requires 0 < i <= k <= |names| && i < |names| && (forall j :: i <= j < k ==> names[j] != name)
    requires k < |names| ==> names[k] == name
    ensures Search(dynstr, dynsym, hash, name, i, left) == if k < |names| then k else 0
    decreases k - i
  {
    if i < |names| { assert NamedAt(dynstr, dynsym, names, i); }
    if i == k {
    } else {
      if NameAt(dynstr, dynsym[i].name, name) { NameUnique(dynstr, dynsym[i].name, names[i], name); }
      if i + 1 < |names| { SearchFrom(dynstr, dynsym, hash, names, name, i + 1, k, left - 1); }
    }
  }

  /** soname.substr(soname.rfind('/') + 1). */
  method Basename(path: string) returns (name: string)
    ensures |name| <= |path| && path[|path| - |name|..] == name && '/' !in name
    ensures |name| < |path| ==> path[|path| - |name| - 1] == '/'
  {
    var i := |path|;
    while i > 0 && path[i - 1] != '/'
      invariant 0 <= i <= |path| && '/' !in path[i..]
    {
      i := i - 1;
      assert path[i..] == [path[i]] + path[i + 1..];
    }
    name := path[i..];
  }

  /** The addresses predicted for the sections up to .dynstr, before anything behind .rodata is written. */
  datatype Front = Front(text: nat, bss: nat, abiflags: nat, dynstr: nat)

  function PredictFront(f: Format, rodata: nat, rodataSize: nat, textSize: nat, bssSize: nat): (r: Front)
    ensures rodata <= r.text <= r.bss
  {
    var text := RoundUp(rodata + rodataSize, PAGE_SIZE);
    var bss := RoundUp(text + textSize, PAGE_SIZE);
    var abiflags := RoundUp(bss + bssSize, PAGE_SIZE);
    Front(text, bss, abiflags, RoundUp(abiflags + f.Abiflags(), PAGE_SIZE))
  }

  /** The addresses predicted for the sections behind .dynstr, and the end of the loaded file.  The step over .hash
      uses the size of .dynsym. */
  datatype Back = Back(dynsym: nat, hash: nat, dynamic: nat, loadedSize: nat)

  function PredictBack(f: Format, dynstr: nat, dynstrSize: nat, dynsymSize: nat): Back {
    var dynsym := f.AlignOff(dynstr + dynstrSize);
    var hash := RoundUp(dynsym + dynsymSize, 4);
    var dynamic := RoundUp(hash + dynsymSize, PAGE_SIZE);
    Back(dynsym, hash, dynamic, RoundUp(dynamic + 7 * f.Dyn(), PAGE_SIZE))
  }

  /** The cached sections.  `entries` are the values of DT_HASH, DT_STRTAB, DT_SYMTAB, DT_SYMENT, DT_STRSZ,
      DT_SONAME and DT_NULL. */
  datatype Cache = Cache(dynstr: string, dynsym: seq<Symbol>, hash: seq<nat>, entries: seq<nat>, loadedSize: nat)

  /** The bytes of .dynstr in front of the soname. */
  function FixedNames(rodata: nat, text: nat, bss: nat): nat {
    9 + (if text != 0 then 20 else if rodata != 0 then 12 else 0) + (if bss != 0 then 22 else 0)
  }

  /** Where the symbols of .bss start in the table. */
  function BssAt(rodata: nat, text: nat): nat { if text != 0 then 4 else if rodata != 0 then 3 else 2 }

  ghost predicate Is(y: Symbol, section: nat, value: int, size: nat) {
    y.section == section && y.value == value && y.size == size
  }

  /** The symbols of .rodata and .text give the announced places; the last word ends where its section ends. */
  ghost predicate CodeSymbols(dynsym: seq<Symbol>, index: nat, rodata: nat, rodataSize: nat, text: nat, textSize: nat) {
    && |dynsym| >= BssAt(rodataSize, textSize) && Is(dynsym[1], index, rodata, rodataSize)
    && (if textSize != 0 then
          Is(dynsym[2], index + 1, text, textSize) && Is(dynsym[3], index + 1, text + textSize - 4, 4)
        else if rodataSize != 0 then
          Is(dynsym[2], index, rodata + rodataSize - 4, 4)
        else
          true)
  }

  /** The symbols of .bss, whose section index counts .text only if it is not empty. */
  ghost predicate BssSymbols(dynsym: seq<Symbol>, index: nat, rodataSize: nat, textSize: nat, bss: nat, bssSize: nat) {
    var k, bssIndex := BssAt(rodataSize, textSize), index + 1 + (if textSize != 0 then 1 else 0);
    bssSize != 0 ==>
      && |dynsym| == k + 2 && Is(dynsym[k], bssIndex, bss, bssSize)
      && Is(dynsym[k + 1], bssIndex, bss + bssSize - 4, 4)
  }

  method AddCodeSymbols(index: nat, rodata: nat, rodataSize: nat, text: nat, textSize: nat)
    returns (dynstr: string, dynsym: seq<Symbol>)
    requires rodata >= 4 && text >= 4
    ensures Named(dynstr, dynsym, Names(rodataSize, textSize, 0)) && |dynstr| == FixedNames(rodataSize, textSize, 0)
    ensures CodeSymbols(dynsym, index, rodata, rodataSize, text, textSize)
  {
    var offset;
    dynstr, offset := AddString("", "");
    dynsym := [Symbol(0, 0, 0, 0)];
    assert NamedAt(dynstr, dynsym, [""], 0);
    dynstr, dynsym := AddSymbol(dynstr, dynsym, "oatdata", index, rodata, rodataSize, [""]);
    assert [""] + ["oatdata"] == ["", "oatdata"] == Names(0, 0, 0);
    if textSize != 0 {
      dynstr, dynsym := AddSymbol(dynstr, dynsym, "oatexec", index + 1, text, textSize, ["", "oatdata"]);
      assert ["", "oatdata"] + ["oatexec"] == ["", "oatdata", "oatexec"];
      dynstr, dynsym := AddSymbol(dynstr, dynsym, "oatlastword", index + 1, text + textSize - 4, 4,
                                  ["", "oatdata", "oatexec"]);
      assert ["", "oatdata", "oatexec"] + ["oatlastword"] == Names(rodataSize, textSize, 0);
    } else if rodataSize != 0 {
      dynstr, dynsym := AddSymbol(dynstr, dynsym, "oatlastword", index, rodata + rodataSize - 4, 4, ["", "oatdata"]);
      assert ["", "oatdata"] + ["oatlastword"] == Names(rodataSize, textSize, 0);
    }
  }

  method AddBssSymbols(dynstr: string, dynsym: seq<Symbol>, index: nat, rodataSize: nat, textSize: nat, bss: nat,
                       bssSize: nat)
    returns (dynstr': string, dynsym': seq<Symbol>)
    requires Named(dynstr, dynsym, Names(rodataSize, textSize, 0)) && bss >= 4
    ensures Named(dynstr', dynsym', Names(rodataSize, textSize, bssSize)) && dynsym <= dynsym'
    ensures |dynstr'| == |dynstr| + if bssSize != 0 then 22 else 0
    ensures BssSymbols(dynsym', index, rodataSize, textSize, bss, bssSize)
  {
    dynstr', dynsym' := dynstr, dynsym;
    if bssSize != 0 {
      ghost var names := Names(rodataSize, textSize, 0);
      var bssIndex := index + 1 + if textSize != 0 then 1 else 0;
      dynstr', dynsym' := AddSymbol(dynstr', dynsym', "oatbss", bssIndex, bss, bssSize, names);
      dynstr', dynsym' := AddSymbol(dynstr', dynsym', "oatbsslastword", bssIndex, bss + bssSize - 4, 4,
                                    names + ["oatbss"]);
      assert names + ["oatbss"] + ["oatbsslastword"] == Names(rodataSize, textSize, bssSize);
    }
  }

  /** The string at offset o, the last of the table, is the file name of the path. */
  ghost predicate SonameAt(path: string, dynstr: string, o: nat) {
    var n := |dynstr| - o - 1;
    && 0 <= n <= |path| && NameAt(dynstr, o, path[|path| - n..]) && '/' !in path[|path| - n..]
    && (n < |path| ==> path[|path| - n - 1] == '/')
  }

  /** The string, symbol and hash tables. */
  ghost predicate DynamicTables(path: string, index: nat, rodata: nat, rodataSize: nat, text: nat, textSize: nat,
                                bss: nat, bssSize: nat, dynstr: string, dynsym: seq<Symbol>, hash: seq<nat>)
  {
    && Named(dynstr, dynsym, Names(rodataSize, textSize, bssSize)) && HashOk(hash, |dynsym|)
    && CodeSymbols(dynsym, index, rodata, rodataSize, text, textSize)
    && BssSymbols(dynsym, index, rodataSize, textSize, bss, bssSize)
    && SonameAt(path, dynstr, FixedNames(rodataSize, textSize, bssSize))
  }

  method MakeTables(path: string, index: nat, rodata: nat, rodataSize: nat, text: nat, textSize: nat, bss: nat,
                    bssSize: nat)
    returns (dynstr: string, soname: nat, dynsym: seq<Symbol>, hash: seq<nat>)
    requires rodata >= 4 && text >= 4 && bss >= 4
    ensures DynamicTables(path, index, rodata, rodataSize, text, textSize, bss, bssSize, dynstr, dynsym, hash)
    ensures soname == FixedNames(rodataSize, textSize, bssSize)
  {
    var name := Basename(path);
    dynstr, dynsym := AddCodeSymbols(index, rodata, rodataSize, text, textSize);
    dynstr, dynsym := AddBssSymbols(dynstr, dynsym, index, rodataSize, textSize, bss, bssSize);
    ghost var before, names := dynstr, Names(rodataSize, textSize, bssSize);
    dynstr, soname := AddString(dynstr, name);
    NamedStays(before, dynstr, dynsym, names);
    hash := MakeHash(|dynsym|);
  }

  /** What PrepareDynamicSection caches: symbols at the predicted addresses, a hash table that reaches them all,
      and the addresses of the tables themselves. */
  ghost predicate Prepared(f: Format, path: string, index: nat, rodata: nat, rodataSize: nat, textSize: nat,
                           bssSize: nat, c: Cache)
  {
    var a := PredictFront(f, rodata, rodataSize, textSize, bssSize);
    var b := PredictBack(f, a.dynstr, |c.dynstr|, f.Syms(|c.dynsym|));
    && DynamicTables(path, index, rodata, rodataSize, a.text, textSize, a.bss, bssSize, c.dynstr, c.dynsym, c.hash)
    && c.entries == [b.hash, a.dynstr, b.dynsym, f.Sym(), |c.dynstr|, FixedNames(rodataSize, textSize, bssSize), 0]
    && c.loadedSize == b.loadedSize
  }

  /** PrepareDynamicSection, given where .rodata has already been placed. */
  method PrepareDynamicSection(f: Format, path: string, index: nat, rodata: nat, rodataSize: nat, textSize: nat,
                               bssSize: nat)
    returns (c: Cache)
    requires rodata >= 4
    ensures Prepared(f, path, index, rodata, rodataSize, textSize, bssSize, c)
  {
    var a := PredictFront(f, rodata, rodataSize, textSize, bssSize);
    var dynstr, soname, dynsym, hash := MakeTables(path, index, rodata, rodataSize, a.text, textSize, a.bss, bssSize);
    var b := PredictBack(f, a.dynstr, |dynstr|, f.Syms(|dynsym|));
    var entries := [b.hash, a.dynstr, b.dynsym, f.Sym(), |dynstr|, soname, 0];
    c := Cache(dynstr, dynsym, hash, entries, b.loadedSize);
  }
}
