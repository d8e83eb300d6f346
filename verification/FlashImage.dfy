/**
 The image of the flash file system: what the host tool writes, what relocation makes of it,
 and what the kernel reads back.

 The tool appends the bytes of each file, and a FileInfo after them; a directory is a file
 made of FlashDirectoryInfo records.  Pointers are written as offsets and completed by
 R_ARM_ABS32 relocations, which add the value of a symbol (section 5.6.1.2 of AAELF32).
 */
module FlashImage {
  import opened Wrappers

  const U32: int := 0x1_0000_0000

  type byte = x: int | 0 <= x < 256

  type Name = seq<byte>

  // Kernel::FileInfo, ten words
  const INFO_SIZE: nat := 40
  const INO: nat := 4
  const MODE: nat := 8
  const FILE_SIZE: nat := 16
  const DATA: nat := 36

  // Kernel::FlashDirectoryInfo
  const NAME_SIZE: nat := 252
  const ENTRY_SIZE: nat := 256

  // Kernel::ModeFlags
  const FORMAT: nat := 16   // the mask is 0b1111
  const DIRECTORY: nat := 1
  const REGULAR: nat := 3

  const ROOT_INODE: nat := 2

  datatype Reloc = Reloc(offset: nat, symbol: nat)

  // ------------------------------------------------------------------- words

  // Little-endian
  function Value(b: seq<byte>): nat {
    if b == [] then 0
    else
      var low: nat := b[0];
      low + 0x100 * Value(b[1..])
  }

  function Word(data: seq<byte>, o: nat): (w: nat)
    requires o + 4 <= |data|
  {
    Value(data[o..o + 4])
  }

  /** The lowest digit comes first. */
  lemma WordIs(data: seq<byte>, o: nat)
    requires o + 4 <= |data|
    ensures var b0: nat, b1: nat, b2: nat, b3: nat := data[o], data[o + 1], data[o + 2], data[o + 3];
            Word(data, o) == b0 + 0x100 * b1 + 0x1_0000 * b2 + 0x100_0000 * b3
  {
    var b := data[o..o + 4];
    var b1, b2, b3 := b[1..], b[2..], b[3..];
    assert b1[1..] == b2 && b2[1..] == b3 && b3[1..] == [];
    ValueStep(b);
    ValueStep(b1);
    ValueStep(b2);
    ValueStep(b3);
  }

  lemma ValueStep(b: seq<byte>)
    requires b != []
    ensures var low: nat := b[0]; Value(b) == low + 0x100 * Value(b[1..])
    ensures |b| == 1 ==> Value(b[1..]) == 0
  {
  }

  function Digits(w: nat, n: nat): (b: seq<byte>)
    ensures |b| == n
  {
    if n == 0 then [] else [w % 0x100] + Digits(w / 0x100, n - 1)
  }

  function Bytes(w: nat): (b: seq<byte>)
    requires w < U32
    ensures |b| == 4
  {
    Digits(w, 4)
  }

  lemma ValueOfBytes(w: nat)
    requires w < U32
    ensures Value(Bytes(w)) == w
  {
    var q1 := w / 0x100;
    var q2 := q1 / 0x100;
    var q3 := q2 / 0x100;
    assert Digits(q3, 1) == [q3] by { assert Digits(q3 / 0x100, 0) == []; }
    assert Value([q3]) == q3 by { assert [q3][1..] == []; }
    ValueOfDigit(q2, q3, 1);
    ValueOfDigit(q1, q2, 2);
    ValueOfDigit(w, q1, 3);
  }

  // One digit in front
  lemma ValueOfDigit(w: nat, q: nat, n: nat)
    requires q == w / 0x100 && Value(Digits(q, n)) == q
    ensures Value(Digits(w, n + 1)) == w
  {
    assert Digits(w, n + 1)[1..] == Digits(q, n);
  }

  // -------------------------------------------------------------- relocation

  // One R_ARM_ABS32 entry; the word in place is the addend.
  function Relocate(data: seq<byte>, r: Reloc, symbols: seq<nat>, base: nat): (out: seq<byte>)
    ensures |out| == |data|
  {
    if r.offset + 4 <= |data| && r.symbol < |symbols| then
      data[..r.offset] + Bytes((Word(data, r.offset) + base + symbols[r.symbol]) % U32) + data[r.offset + 4..]
    else data
  }

  function Load(data: seq<byte>, relocs: seq<Reloc>, symbols: seq<nat>, base: nat): (out: seq<byte>)
    ensures |out| == |data|
    decreases |relocs|
  {
    if relocs == [] then data else Load(Relocate(data, relocs[0], symbols, base), relocs[1..], symbols, base)
  }

  // No relocation touches the n bytes at a.
  ghost predicate Clean(relocs: seq<Reloc>, a: nat, n: nat) {
    forall r | r in relocs :: r.offset + 4 <= a || a + n <= r.offset
  }

  // Relocations are at different words.
  ghost predicate Apart(relocs: seq<Reloc>) {
    forall i, j | 0 <= i < j < |relocs| :: relocs[i].offset + 4 <= relocs[j].offset || relocs[j].offset + 4 <= relocs[i].offset
  }

  lemma RelocateClean(data: seq<byte>, r: Reloc, symbols: seq<nat>, base: nat, a: nat, n: nat)
    requires a + n <= |data| && (r.offset + 4 <= a || a + n <= r.offset)
    ensures Relocate(data, r, symbols, base)[a..a + n] == data[a..a + n]
  {
    hide Bytes;
    var out := Relocate(data, r, symbols, base);
    forall i | a <= i < a + n
      ensures out[i] == data[i]
    {
    }
  }

  lemma {:induction false} LoadClean(data: seq<byte>, relocs: seq<Reloc>, symbols: seq<nat>, base: nat, a: nat, n: nat)
    requires Clean(relocs, a, n) && a + n <= |data|
    ensures Load(data, relocs, symbols, base)[a..a + n] == data[a..a + n]
    decreases |relocs|
  {
    if relocs != [] {
      var r := relocs[0];
      var out := Relocate(data, r, symbols, base);
      assert r in relocs;
      RelocateClean(data, r, symbols, base, a, n);
      LoadClean(out, relocs[1..], symbols, base, a, n);
    }
  }

  lemma SliceOfSlice(data: seq<byte>, a: nat, b: nat, c: nat, d: nat)
    requires a <= c <= d <= b <= |data|
    ensures data[a..b][c - a..d - a] == data[c..d]
  {
    forall i | 0 <= i < d - c
      ensures data[a..b][c - a..d - a][i] == data[c..d][i]
    {
      assert data[a..b][c - a + i] == data[c + i];
    }
  }

  lemma WordOfSlice(data: seq<byte>, data': seq<byte>, a: nat, n: nat, o: nat)
    requires a + n <= |data| && a + n <= |data'| && data[a..a + n] == data'[a..a + n] && a <= o && o + 4 <= a + n
    ensures Word(data, o) == Word(data', o)
  {
    SliceOfSlice(data, a, a + n, o, o + 4);
    SliceOfSlice(data', a, a + n, o, o + 4);
  }

  lemma RelocateWord(data: seq<byte>, r: Reloc, symbols: seq<nat>, base: nat)
    requires r.offset + 4 <= |data| && r.symbol < |symbols|
    ensures Word(Relocate(data, r, symbols, base), r.offset) == (Word(data, r.offset) + base + symbols[r.symbol]) % U32
  {
    hide Word, Bytes;
    var w := (Word(data, r.offset) + base + symbols[r.symbol]) % U32;
    var out := Relocate(data, r, symbols, base);
    assert out[r.offset..r.offset + 4] == Bytes(w);
    WordOfBytes(out, r.offset, w);
  }

  lemma RelocateOther(data: seq<byte>, r: Reloc, symbols: seq<nat>, base: nat, o: nat)
    requires o + 4 <= |data| && (r.offset + 4 <= o || o + 4 <= r.offset)
    ensures Word(Relocate(data, r, symbols, base), o) == Word(data, o)
  {
    hide Bytes;
    RelocateClean(data, r, symbols, base, o, 4);
  }

  lemma {:induction false} LoadWord(data: seq<byte>, relocs: seq<Reloc>, symbols: seq<nat>, base: nat, i: nat)
    requires i < |relocs| && Apart(relocs) && relocs[i].offset + 4 <= |data| && relocs[i].symbol < |symbols|
    ensures Word(Load(data, relocs, symbols, base), relocs[i].offset) ==
            (Word(data, relocs[i].offset) + base + symbols[relocs[i].symbol]) % U32
    decreases |relocs|
  {
    hide Word, Relocate;
    var r, o := relocs[0], relocs[i].offset;
    var out := Relocate(data, r, symbols, base);
    if i == 0 {
      RelocateWord(data, r, symbols, base);
      LoadClean(out, relocs[1..], symbols, base, o, 4);
      WordOfSlice(out, Load(data, relocs, symbols, base), o, 4, o);
    } else {
      RelocateOther(data, r, symbols, base, o);
      LoadWord(out, relocs[1..], symbols, base, i - 1);
    }
  }

  lemma WordOfBytes(data: seq<byte>, o: nat, w: nat)
    requires w < U32 && o + 4 <= |data| && data[o..o + 4] == Bytes(w)
    ensures Word(data, o) == w
  {
    ValueOfBytes(w);
  }

  // ---------------------------------------------------------------- the image

  datatype Entry = Entry(name: Name, child: nat)   // child: index of the file it names

  datatype Content = File(bytes: seq<byte>) | Directory(entries: seq<Entry>)

  // A file as the tool has written it: its bytes at `start`, its FileInfo at `info`
  datatype Built = Built(ino: nat, mode: nat, start: nat, info: nat, content: Content)

  datatype Image = Image(data: seq<byte>, symbols: seq<nat>, relocs: seq<Reloc>)

  // strlcpy into m_name, zero to the end
  function Padded(name: Name): (b: seq<byte>)
    requires |name| < NAME_SIZE
    ensures |b| == NAME_SIZE
  {
    name + seq(NAME_SIZE - |name|, _ => 0)
  }

  predicate GoodName(name: Name) {
    |name| < NAME_SIZE && 0 !in name
  }

  // The bytes up to the first zero
  function CString(b: seq<byte>): Name {
    if b == [] || b[0] == 0 then [] else [b[0]] + CString(b[1..])
  }

  lemma {:induction false} CStringOfPadded(name: Name, zeros: seq<byte>)
    requires 0 !in name && zeros != [] && zeros[0] == 0
    ensures CString(name + zeros) == name
  {
    if name != [] {
      assert (name + zeros)[1..] == name[1..] + zeros;
      CStringOfPadded(name[1..], zeros);
      assert name == [name[0]] + name[1..];
    } else {
      assert name + zeros == zeros;
    }
  }

  ghost predicate HasReloc(im: Image, offset: nat, value: nat) {
    exists i :: RelocAt(im, i, offset, value)
  }

  predicate RelocAt(im: Image, i: nat, offset: nat, value: nat) {
    i < |im.relocs| && im.relocs[i].offset == offset && im.relocs[i].symbol < |im.symbols| && im.symbols[im.relocs[i].symbol] == value
  }

  // A FileInfo, up to its pointer
  ghost predicate InfoOk(im: Image, n: Built, size: nat) {
    && n.start + size == n.info && n.info + INFO_SIZE <= |im.data|
    && Word(im.data, n.info + INO) == n.ino && Word(im.data, n.info + MODE) == n.mode
    && Word(im.data, n.info + FILE_SIZE) == size && Word(im.data, n.info + DATA) == 0
    && Clean(im.relocs, n.info, DATA)
    && HasReloc(im, n.info + DATA, n.start)
  }

  ghost predicate EntryOk(im: Image, a: nat, name: Name, info: nat) {
    && a + ENTRY_SIZE <= |im.data| && GoodName(name)
    && im.data[a..a + NAME_SIZE] == Padded(name) && Word(im.data, a + NAME_SIZE) == info
    && Clean(im.relocs, a, NAME_SIZE)
    && HasReloc(im, a + NAME_SIZE, 0)
  }

  function Size(c: Content): nat {
    if c.File? then |c.bytes| else ENTRY_SIZE * |c.entries|
  }

  // File k is in the image as it was built, and names only files built before it.
  ghost predicate BuiltOk(im: Image, nodes: seq<Built>, k: nat)
    requires k < |nodes|
  {
    var n := nodes[k];
    && InfoOk(im, n, Size(n.content))
    && match n.content
       case File(bytes) => n.mode % FORMAT == REGULAR && im.data[n.start..n.info] == bytes && Clean(im.relocs, n.start, |bytes|)
       case Directory(entries) =>
         && n.mode % FORMAT == DIRECTORY
         && forall j | 0 <= j < |entries| :: ChildOk(im, nodes, k, j)
  }

  ghost predicate ChildOk(im: Image, nodes: seq<Built>, k: nat, j: nat)
    requires k < |nodes| && nodes[k].content.Directory? && j < |nodes[k].content.entries|
  {
    var n, e := nodes[k], nodes[k].content.entries[j];
    && e.child < k && nodes[e.child].info < n.info
    && EntryOk(im, n.start + ENTRY_SIZE * j, e.name, nodes[e.child].info)
  }

  // ------------------------------------------------------------------- reader

  // m_entries of a directory: itself, its parent, or a file of its own
  datatype Target = Self | Up | Down(node: Node)

  datatype Node = FileNode(ino: nat, bytes: seq<byte>) | DirectoryNode(ino: nat, entries: map<Name, Target>)

  const DOT: Name := [46]
  const DOT_DOT: Name := [46, 46]

  // A directory starts with "." and ".." for itself.
  function Empty(): map<Name, Target> {
    map[DOT := Self, DOT_DOT := Self]
  }

  // The parent makes ".." of a directory lead to itself.
  function Adopted(node: Node): Node {
    if node.DirectoryNode? then node.(entries := node.entries[DOT_DOT := Up]) else node
  }

  // FlashDirectory and FlashFile.  None: a pointer leads out of the image or not below the
  // record that holds it, or the mode is neither of the two.
  function Read(memory: seq<byte>, base: nat, o: nat): Option<Node>
    decreases o, 1, 0
  {
    if o + INFO_SIZE > |memory| then None
    else
      var ino, mode, size := Word(memory, o + INO), Word(memory, o + MODE), Word(memory, o + FILE_SIZE);
      var d := Word(memory, o + DATA) - base;
      if d < 0 || d + size > |memory| then None
      else if mode % FORMAT == DIRECTORY then
        if size % ENTRY_SIZE != 0 then None
        else
          match ReadEntries(memory, base, o, d, size / ENTRY_SIZE)
          case None => None
          case Some(children) => Some(DirectoryNode(ino, children))
      else if mode % FORMAT == REGULAR then Some(FileNode(ino, memory[d..d + size]))
      else None
  }

  // The first n entries of the directory whose FileInfo is at o
  function ReadEntries(memory: seq<byte>, base: nat, o: nat, d: nat, n: nat): Option<map<Name, Target>>
    requires d + ENTRY_SIZE * n <= |memory|
    decreases o, 0, n
  {
    if n == 0 then Some(Empty())
    else
      var a := d + ENTRY_SIZE * (n - 1);
      var child := Word(memory, a + NAME_SIZE) - base;
      if child < 0 || child >= o then None
      else
        match (ReadEntries(memory, base, o, d, n - 1), Read(memory, base, child))
        case (Some(before), Some(node)) => Some(before[CString(memory[a..a + NAME_SIZE]) := Down(Adopted(node))])
        case _ => None
  }

  /** The record of a file: inode, mode, size and pointer are its words 1, 2, 4 and 9. */
  lemma FileRecord(memory: seq<byte>, base: nat, o: nat)
    requires o + 40 <= |memory| && Word(memory, o + 8) % 16 == 3
    requires base <= Word(memory, o + 36) && Word(memory, o + 36) - base + Word(memory, o + 16) <= |memory|
    ensures var d := Word(memory, o + 36) - base;
            Read(memory, base, o) == Some(FileNode(Word(memory, o + 4), memory[d..d + Word(memory, o + 16)]))
  {
    hide Word;
  }

  // What was built
  function Expected(nodes: seq<Built>, k: nat): Node
    requires k < |nodes|
    decreases k, 1, 0
  {
    match nodes[k].content
    case File(bytes) => FileNode(nodes[k].ino, bytes)
    case Directory(entries) => DirectoryNode(nodes[k].ino, ExpectedChildren(nodes, k, entries, |entries|))
  }

  function ExpectedChildren(nodes: seq<Built>, k: nat, entries: seq<Entry>, n: nat): map<Name, Target>
    requires k < |nodes| && n <= |entries|
    decreases k, 0, n
  {
    if n == 0 then Empty()
    else
      var before := ExpectedChildren(nodes, k, entries, n - 1);
      var e := entries[n - 1];
      if e.child < k then before[e.name := Down(Adopted(Expected(nodes, e.child)))] else before
  }

  predicate Named(entries: seq<Entry>, j: nat, name: Name) {
    j < |entries| && entries[j].name == name
  }

  // One of the first n entries has that name.
  ghost predicate Names(entries: seq<Entry>, n: nat, name: Name) {
    exists j :: 0 <= j < n && Named(entries, j, name)
  }

  // Entry j hides those before it, and none of the n entries hides it.
  predicate LastNamed(entries: seq<Entry>, j: nat, n: nat) {
    j < n <= |entries| && forall i | j < i < n :: entries[i].name != entries[j].name
  }

  /**
   Where an entry of a directory leads: a file to what was read for it; a directory to what
   was read for it, except that its ".." leads to the directory of the entry.
   */
  ghost predicate LeadsTo(target: Target, node: Node) {
    && target.Down?
    && if node.FileNode? then target.node == node
       else
         && target.node.DirectoryNode? && target.node.ino == node.ino
         && (forall name :: name in target.node.entries <==> name in node.entries || name == [46, 46])
         && target.node.entries[[46, 46]] == Up
         && (forall name | name in node.entries && name != [46, 46] :: target.node.entries[name] == node.entries[name])
  }

  lemma AdoptedLeads(node: Node)
    ensures LeadsTo(Down(Adopted(node)), node)
  {
  }

  /**
   A directory holds its entries under their names, the last one where a name is used twice,
   and nothing else but "." and "..", which lead to itself where no entry has that name.
   */
  lemma {:induction false} ExpectedExactly(nodes: seq<Built>, k: nat, entries: seq<Entry>, n: nat)
    requires k < |nodes| && n <= |entries|
    requires forall j | 0 <= j < |entries| :: entries[j].child < k
    ensures Holds(nodes, k, entries, n, ExpectedChildren(nodes, k, entries, n))
  {
    hide Expected, Adopted, LeadsTo, Holds;
    if n == 0 {
      EmptyHolds(nodes, k, entries);
    } else {
      ExpectedExactly(nodes, k, entries, n - 1);
      AdoptedLeads(Expected(nodes, entries[n - 1].child));
      OneMore(nodes, k, entries, n, ExpectedChildren(nodes, k, entries, n - 1), Down(Adopted(Expected(nodes, entries[n - 1].child))));
    }
  }

  // The first n entries, held by a directory
  ghost predicate Holds(nodes: seq<Built>, k: nat, entries: seq<Entry>, n: nat, children: map<Name, Target>)
    requires k < |nodes| && n <= |entries|
    requires forall j | 0 <= j < |entries| :: entries[j].child < k
  {
    && HoldsNames(entries, n, children)
    && forall j | 0 <= j < n && LastNamed(entries, j, n) :: HoldsEntry(nodes, k, entries, j, children)
  }

  ghost predicate HoldsNames(entries: seq<Entry>, n: nat, children: map<Name, Target>) {
    && (forall name :: name in children <==> name == [46] || name == [46, 46] || Names(entries, n, name))
    && (forall name | (name == [46] || name == [46, 46]) && !Names(entries, n, name) :: children[name] == Self)
  }

  ghost predicate HoldsEntry(nodes: seq<Built>, k: nat, entries: seq<Entry>, j: nat, children: map<Name, Target>)
    requires k < |nodes| && j < |entries| && entries[j].child < k
  {
    entries[j].name in children && LeadsTo(children[entries[j].name], Expected(nodes, entries[j].child))
  }

  lemma EmptyHolds(nodes: seq<Built>, k: nat, entries: seq<Entry>)
    requires k < |nodes|
    requires forall j | 0 <= j < |entries| :: entries[j].child < k
    ensures Holds(nodes, k, entries, 0, Empty())
  {
    hide LeadsTo, Expected;
  }

  lemma OneMore(nodes: seq<Built>, k: nat, entries: seq<Entry>, n: nat, before: map<Name, Target>, target: Target)
    requires k < |nodes| && 0 < n <= |entries|
    requires forall j | 0 <= j < |entries| :: entries[j].child < k
    requires Holds(nodes, k, entries, n - 1, before) && LeadsTo(target, Expected(nodes, entries[n - 1].child))
    ensures Holds(nodes, k, entries, n, before[entries[n - 1].name := target])
  {
    hide Expected, LeadsTo, HoldsNames;
    NamesOneMore(entries, n, before, target);
    forall j | 0 <= j < n && LastNamed(entries, j, n)
      ensures HoldsEntry(nodes, k, entries, j, before[entries[n - 1].name := target])
    {
      if j < n - 1 {
        assert LastNamed(entries, j, n - 1) && entries[j].name != entries[n - 1].name;
        assert HoldsEntry(nodes, k, entries, j, before);
      }
    }
  }

  lemma NamesOneMore(entries: seq<Entry>, n: nat, before: map<Name, Target>, target: Target)
    requires 0 < n <= |entries| && HoldsNames(entries, n - 1, before)
    ensures HoldsNames(entries, n, before[entries[n - 1].name := target])
  {
    hide Names;
    forall name
      ensures Names(entries, n, name) <==> Names(entries, n - 1, name) || name == entries[n - 1].name
    {
      NamesMore(entries, n, name);
    }
  }

  lemma NamesMore(entries: seq<Entry>, n: nat, name: Name)
    requires 0 < n <= |entries|
    ensures Names(entries, n, name) <==> Names(entries, n - 1, name) || name == entries[n - 1].name
  {
    if name == entries[n - 1].name {
      assert Named(entries, n - 1, name);
    }
    if Names(entries, n - 1, name) {
      var j :| 0 <= j < n - 1 && Named(entries, j, name);
      assert Named(entries, j, name);
    }
  }

  ghost predicate ImageOk(im: Image, nodes: seq<Built>) {
    && Apart(im.relocs)
    && forall k | 0 <= k < |nodes| :: BuiltOk(im, nodes, k)
  }

  // A pointer after relocation
  lemma PointerLoaded(im: Image, base: nat, o: nat, value: nat)
    requires Apart(im.relocs) && HasReloc(im, o, value) && o + 4 <= |im.data|
    requires Word(im.data, o) + value + base < U32
    ensures Word(Load(im.data, im.relocs, im.symbols, base), o) == Word(im.data, o) + base + value
  {
    var i :| RelocAt(im, i, o, value);
    LoadWord(im.data, im.relocs, im.symbols, base, i);
  }

  lemma InfoLoaded(im: Image, base: nat, n: Built, size: nat)
    requires Apart(im.relocs) && InfoOk(im, n, size) && base + |im.data| < U32
    ensures var memory := Load(im.data, im.relocs, im.symbols, base);
            && Word(memory, n.info + INO) == n.ino && Word(memory, n.info + MODE) == n.mode
            && Word(memory, n.info + FILE_SIZE) == size && Word(memory, n.info + DATA) == base + n.start
  {
    hide Word, Load;
    var memory := Load(im.data, im.relocs, im.symbols, base);
    LoadClean(im.data, im.relocs, im.symbols, base, n.info, DATA);
    WordOfSlice(im.data, memory, n.info, DATA, n.info + INO);
    WordOfSlice(im.data, memory, n.info, DATA, n.info + MODE);
    WordOfSlice(im.data, memory, n.info, DATA, n.info + FILE_SIZE);
    PointerLoaded(im, base, n.info + DATA, n.start);
  }

  lemma EntryLoaded(im: Image, base: nat, a: nat, name: Name, info: nat)
    requires Apart(im.relocs) && EntryOk(im, a, name, info) && info < |im.data| && base + |im.data| < U32
    ensures var memory := Load(im.data, im.relocs, im.symbols, base);
            && CString(memory[a..a + NAME_SIZE]) == name && Word(memory, a + NAME_SIZE) == base + info
  {
    hide Word, Load;
    LoadClean(im.data, im.relocs, im.symbols, base, a, NAME_SIZE);
    CStringOfPadded(name, seq(NAME_SIZE - |name|, _ => 0));
    PointerLoaded(im, base, a + NAME_SIZE, 0);
  }

  /** The kernel reads back what the tool wrote, wherever the image is loaded. */
  lemma {:induction false} ReadsBack(im: Image, nodes: seq<Built>, base: nat, k: nat)
    requires ImageOk(im, nodes) && k < |nodes| && base + |im.data| < U32
    ensures Read(Load(im.data, im.relocs, im.symbols, base), base, nodes[k].info) == Some(Expected(nodes, k))
    decreases k, 1, 0
  {
    hide Word, Load, Clean, HasReloc;
    var n := nodes[k];
    assert BuiltOk(im, nodes, k);
    InfoLoaded(im, base, n, Size(n.content));
    match n.content
    case File(bytes) =>
      LoadClean(im.data, im.relocs, im.symbols, base, n.start, |bytes|);
    case Directory(entries) =>
      EntriesReadBack(im, nodes, base, k, |entries|);
  }

  lemma {:induction false} EntriesReadBack(im: Image, nodes: seq<Built>, base: nat, k: nat, n: nat)
    requires ImageOk(im, nodes) && k < |nodes| && base + |im.data| < U32
    requires nodes[k].content.Directory? && n <= |nodes[k].content.entries|
    ensures nodes[k].start + ENTRY_SIZE * n <= |im.data|
    ensures ReadEntries(Load(im.data, im.relocs, im.symbols, base), base, nodes[k].info, nodes[k].start, n)
            == Some(ExpectedChildren(nodes, k, nodes[k].content.entries, n))
    decreases k, 0, n
  {
    hide Word, Load, Clean, HasReloc, CString;
    assert BuiltOk(im, nodes, k);
    if n > 0 {
      var e := nodes[k].content.entries[n - 1];
      assert ChildOk(im, nodes, k, n - 1);
      EntriesReadBack(im, nodes, base, k, n - 1);
      EntryLoaded(im, base, nodes[k].start + ENTRY_SIZE * (n - 1), e.name, nodes[e.child].info);
      ReadsBack(im, nodes, base, e.child);
    }
  }

  /** A file is read back with its inode and exactly its bytes. */
  lemma FileReadsBack(im: Image, nodes: seq<Built>, base: nat, k: nat)
    requires ImageOk(im, nodes) && k < |nodes| && base + |im.data| < U32 && nodes[k].content.File?
    ensures Read(Load(im.data, im.relocs, im.symbols, base), base, nodes[k].info)
            == Some(FileNode(nodes[k].ino, nodes[k].content.bytes))
  {
    hide Load, Read;
    ReadsBack(im, nodes, base, k);
  }

  // What is read for a directory, in terms of what is read for the files it names
  ghost predicate DirectoryIs(memory: seq<byte>, base: nat, nodes: seq<Built>, k: nat)
    requires k < |nodes| && nodes[k].content.Directory?
    requires forall j | 0 <= j < |nodes[k].content.entries| :: nodes[k].content.entries[j].child < |nodes|
  {
    var entries, r := nodes[k].content.entries, Read(memory, base, nodes[k].info);
    && r.Some? && r.value.DirectoryNode? && r.value.ino == nodes[k].ino
    && (forall name :: name in r.value.entries <==> name == [46] || name == [46, 46] || Names(entries, |entries|, name))
    && (forall name | (name == [46] || name == [46, 46]) && !Names(entries, |entries|, name) :: r.value.entries[name] == Self)
    && (forall j | 0 <= j < |entries| && LastNamed(entries, j, |entries|) ::
         var child := Read(memory, base, nodes[entries[j].child].info);
         child.Some? && entries[j].name in r.value.entries && LeadsTo(r.value.entries[entries[j].name], child.value))
  }

  /** A directory is read back with its inode, "." and "..", and under each name what is read for that file. */
  lemma DirectoryReadsBack(im: Image, nodes: seq<Built>, base: nat, k: nat)
    requires ImageOk(im, nodes) && k < |nodes| && base + |im.data| < U32 && nodes[k].content.Directory?
    ensures forall j | 0 <= j < |nodes[k].content.entries| :: nodes[k].content.entries[j].child < k
    ensures DirectoryIs(Load(im.data, im.relocs, im.symbols, base), base, nodes, k)
  {
    hide Load, Read, LeadsTo, ExpectedChildren;
    ChildrenBefore(im, nodes, k);
    var entries := nodes[k].content.entries;
    ReadsBack(im, nodes, base, k);
    ExpectedExactly(nodes, k, entries, |entries|);
    forall j | 0 <= j < |entries|
      ensures Read(Load(im.data, im.relocs, im.symbols, base), base, nodes[entries[j].child].info) == Some(Expected(nodes, entries[j].child))
    {
      ReadsBack(im, nodes, base, entries[j].child);
    }
  }

  lemma ChildrenBefore(im: Image, nodes: seq<Built>, k: nat)
    requires ImageOk(im, nodes) && k < |nodes| && nodes[k].content.Directory?
    ensures forall j | 0 <= j < |nodes[k].content.entries| :: nodes[k].content.entries[j].child < k
  {
    assert BuiltOk(im, nodes, k);
    forall j | 0 <= j < |nodes[k].content.entries|
      ensures nodes[k].content.entries[j].child < k
    {
      assert ChildOk(im, nodes, k, j);
    }
  }
}
